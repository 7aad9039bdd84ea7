/** The outline of a run: which rules were considered, matched or excepted, what was read and why, without what the effects
    did. It does not depend on the effects, so no effect value can make it stale. */
module Outlines {
  import opened Prelude
  import opened Evaluator
  import opened Rules
  import opened Sorting
  import opened Engine
  import opened EngineProofs
  import opened EvaluatorProofs

  function WithoutEffects(rule: Rule): Rule {
    rule.(effects := [])
  }

  function OutlineTrace(t: RuleTrace): RuleTrace {
    if t.Matched? then t.(effects := []) else t
  }

  function Outline(run: Run): Run {
    run.(acc := NOTHING, traces := Map(OutlineTrace, run.traces))
  }

  lemma OutlineAppend(traces: seq<RuleTrace>, t: RuleTrace)
    ensures Map(OutlineTrace, traces + [t]) == Map(OutlineTrace, traces) + [OutlineTrace(t)]
  {
  }

  lemma RuleOutline(run: Run, rule: Rule, data: Data)
    requires RunRule(run, rule, data).Ok?
    ensures RunRule(Outline(run), WithoutEffects(rule), data) == Ok(Outline(RunRule(run, rule, data).value))
  {
    var next := RunRule(run, rule, data).value;
    if rule.status == Active {
      OutlineAppend(run.traces, next.traces[|run.traces|]);
      assert next.traces == run.traces + [next.traces[|run.traces|]];
      assert ApplyEffects(NOTHING, [], [], rule.priority, data) == Ok((NOTHING, []));
    }
  }

  lemma {:induction false} RulesOutline(run: Run, rules: seq<Rule>, data: Data)
    requires RunRules(run, rules, data).Ok?
    ensures RunRules(Outline(run), Map(WithoutEffects, rules), data) == Ok(Outline(RunRules(run, rules, data).value))
    decreases |rules|
  {
    if rules != [] {
      assert Map(WithoutEffects, rules)[1..] == Map(WithoutEffects, rules[1..]);
      RuleOutline(run, rules[0], data);
      RulesOutline(RunRule(run, rules[0], data).value, rules[1..], data);
    }
  }

  /** The rules without their effects run to the outline. */
  lemma EngineOutline(rules: seq<Rule>, data: Data)
    requires RunEngine(rules, data).Ok?
    ensures RunEngine(Map(WithoutEffects, rules), data) == Ok(Outline(RunEngine(rules, data).value))
  {
    SortMap(RuleLe, WithoutEffects, rules);
    RulesOutline(START, OrderedRules(rules), data);
    assert Outline(START) == START;
  }

  /** Data that agrees on the recorded dependencies gives the same outline, whatever the effects read. */
  lemma OutlineFrame(rules: seq<Rule>, outline: Run, a: Data, b: Data)
    requires RunEngine(Map(WithoutEffects, rules), a) == Ok(outline) && a.context == b.context && Agrees(outline.deps, a, b)
    ensures RunEngine(Map(WithoutEffects, rules), b) == Ok(outline)
  {
    forall r | r in Map(WithoutEffects, rules) ensures r.effects == [] {
      var i :| 0 <= i < |rules| && Map(WithoutEffects, rules)[i] == r;
    }
    EngineFrame(Map(WithoutEffects, rules), a, b);
  }
}
