/** What the engine reports about a run: which rules matched, which were considered, one trace per rule in force, and
    the effects behind each listed benefit. */
module Report {
  import opened Prelude
  import opened Json
  import opened Evaluator
  import opened Rules
  import opened Engine
  import opened EngineProofs
  import opened EffectFold
  import opened ClosedForm

  predicate HasType(step: Step, kind: EffectType) {
    step.effect.Obj? && TypeOf(step.effect.fields) == kind
  }

  function Listing(step: Step, name: string, data: Data): Json
    requires step.effect.Obj?
  {
    Obj(map[name := Get(step.effect.fields, "target"), "value" := ResolvedOr(Get(step.effect.fields, "value"), data)])
  }

  function ListedBy(step: Step, kind: EffectType, name: string, data: Data): seq<Json> {
    if HasType(step, kind) then [Listing(step, name, data)] else []
  }

  /** What the executed effects of one type list, in order, under the given name for the target. */
  function Listed(steps: seq<Step>, kind: EffectType, name: string, data: Data): seq<Json> {
    if steps == [] then [] else ListedBy(steps[0], kind, name, data) + Listed(steps[1..], kind, name, data)
  }

  /** The last mark among the executed effects, if there is one. */
  function Eligibility(steps: seq<Step>, before: Option<bool>): Option<bool> {
    if steps == [] then before
    else
      var last := steps[|steps| - 1];
      if HasType(last, MarkEligible) then Some(true)
      else if HasType(last, MarkIneligible) then Some(false)
      else Eligibility(steps[..|steps| - 1], before)
  }

  predicate ListsExtend(before: Accumulated, after: Accumulated, grants: seq<Json>, denials: seq<Json>, emitted: seq<Json>) {
    && after.grants == before.grants + grants
    && after.denials == before.denials + denials
    && after.emitted == before.emitted + emitted
  }

  lemma ArithmeticLists(acc: Accumulated, effect: Document, data: Data, kind: string, adds: bool)
    requires Arithmetic(acc, effect, data, kind, adds).Ok?
    ensures ListsExtend(acc, Arithmetic(acc, effect, data, kind, adds).value.result, [], [], [])
    ensures Arithmetic(acc, effect, data, kind, adds).value.result.eligible == acc.eligible
  {
  }

  lemma OneEffectLists(acc: Accumulated, s: Step, data: Data)
    requires ApplyEffect(acc, s.effect, s.priority, data).Ok?
    ensures var after := ApplyEffect(acc, s.effect, s.priority, data).value.result;
            && ListsExtend(acc, after, ListedBy(s, GrantEffect, "target", data), ListedBy(s, DenyEffect, "target", data),
                           ListedBy(s, EmitDerived, "type", data))
            && after.eligible == if HasType(s, MarkEligible) then Some(true)
                                 else if HasType(s, MarkIneligible) then Some(false)
                                 else acc.eligible
  {
    if TypeOf(s.effect.fields) in {AddEffect, SubtractEffect} {
      AmountListsNothing(acc, s, data);
    } else if TypeOf(s.effect.fields) in {GrantEffect, DenyEffect, EmitDerived} {
      EntryLists(acc, s, data);
    }
  }

  lemma AmountListsNothing(acc: Accumulated, s: Step, data: Data)
    requires ApplyEffect(acc, s.effect, s.priority, data).Ok? && TypeOf(s.effect.fields) in {AddEffect, SubtractEffect}
    ensures var after := ApplyEffect(acc, s.effect, s.priority, data).value.result;
            ListsExtend(acc, after, [], [], []) && after.eligible == acc.eligible
  {
    if TypeOf(s.effect.fields) == AddEffect {
      ArithmeticLists(acc, s.effect.fields, data, "ADD", true);
    } else {
      ArithmeticLists(acc, s.effect.fields, data, "SUBTRACT", false);
    }
  }

  lemma EntryLists(acc: Accumulated, s: Step, data: Data)
    requires ApplyEffect(acc, s.effect, s.priority, data).Ok? && TypeOf(s.effect.fields) in {GrantEffect, DenyEffect, EmitDerived}
    ensures var after := ApplyEffect(acc, s.effect, s.priority, data).value.result;
            && ListsExtend(acc, after, ListedBy(s, GrantEffect, "target", data), ListedBy(s, DenyEffect, "target", data),
                           ListedBy(s, EmitDerived, "type", data))
            && after.eligible == acc.eligible
  {
  }

  lemma {:induction false} EligibilityFirst(s: Step, rest: seq<Step>, before: Option<bool>)
    ensures Eligibility([s] + rest, before) == Eligibility(rest, Eligibility([s], before))
  {
    var all := [s] + rest;
    if rest == [] {
      assert all == [s];
    } else {
      assert all[..|all| - 1] == [s] + rest[..|rest| - 1];
      EligibilityFirst(s, rest[..|rest| - 1], before);
    }
  }

  lemma OneMark(s: Step, before: Option<bool>)
    ensures Eligibility([s], before) == if HasType(s, MarkEligible) then Some(true)
                                        else if HasType(s, MarkIneligible) then Some(false)
                                        else before
  {
    assert [s][..0] == [];
  }

  lemma Chained<T>(a: seq<T>, b: seq<T>, c: seq<T>, x: seq<T>, y: seq<T>)
    requires b == a + x && c == b + y
    ensures c == a + (x + y)
  {
  }

  lemma {:induction false} FoldLists(acc: Accumulated, steps: seq<Step>, data: Data)
    requires Fold(acc, steps, data).Ok?
    ensures ListsExtend(acc, Fold(acc, steps, data).value, Listed(steps, GrantEffect, "target", data),
                        Listed(steps, DenyEffect, "target", data), Listed(steps, EmitDerived, "type", data))
    decreases |steps|
  {
    if steps != [] {
      var s, rest := steps[0], steps[1..];
      var next, last := ApplyEffect(acc, s.effect, s.priority, data).value.result, Fold(acc, steps, data).value;
      OneEffectLists(acc, s, data);
      FoldLists(next, rest, data);
      Chained(acc.grants, next.grants, last.grants, ListedBy(s, GrantEffect, "target", data),
              Listed(rest, GrantEffect, "target", data));
      Chained(acc.denials, next.denials, last.denials, ListedBy(s, DenyEffect, "target", data),
              Listed(rest, DenyEffect, "target", data));
      Chained(acc.emitted, next.emitted, last.emitted, ListedBy(s, EmitDerived, "type", data),
              Listed(rest, EmitDerived, "type", data));
    }
  }

  lemma {:induction false} FoldMarks(acc: Accumulated, steps: seq<Step>, data: Data)
    requires Fold(acc, steps, data).Ok?
    ensures Fold(acc, steps, data).value.eligible == Eligibility(steps, acc.eligible)
    decreases |steps|
  {
    if steps != [] {
      var next := ApplyEffect(acc, steps[0].effect, steps[0].priority, data).value.result;
      OneEffectLists(acc, steps[0], data);
      FoldMarks(next, steps[1..], data);
      OneMark(steps[0], acc.eligible);
      EligibilityFirst(steps[0], steps[1..], acc.eligible);
      assert [steps[0]] + steps[1..] == steps;
    }
  }

  /** The lists and the eligibility the engine answers with are exactly those of the effects it executed. */
  lemma ListsAreExecutedEffects(rules: seq<Rule>, data: Data)
    requires RunEngine(rules, data).Ok?
    ensures var acc, steps := RunEngine(rules, data).value.acc, Executed(OrderedRules(rules), data);
            && acc.grants == Listed(steps, GrantEffect, "target", data)
            && acc.denials == Listed(steps, DenyEffect, "target", data)
            && acc.emitted == Listed(steps, EmitDerived, "type", data)
            && acc.eligible == Eligibility(steps, None)
  {
    RunIsFold(START, OrderedRules(rules), data);
    FoldLists(NOTHING, Executed(OrderedRules(rules), data), data);
    FoldMarks(NOTHING, Executed(OrderedRules(rules), data), data);
  }

  predicate InScope(rule: Rule, context: Document) {
    rule.status == Active && ScopeMatches(rule.scope, context)
  }

  /** The rules that reach their effects, and those whose scope applies, in order. */
  function MatchedRefs(rules: seq<Rule>, data: Data): seq<RuleRef> {
    if rules == [] then []
    else (if Fires(rules[0], data) then [RefOf(rules[0])] else []) + MatchedRefs(rules[1..], data)
  }

  function ConsideredRefs(rules: seq<Rule>, context: Document): seq<RuleRef> {
    if rules == [] then []
    else (if InScope(rules[0], context) then [RefOf(rules[0])] else []) + ConsideredRefs(rules[1..], context)
  }

  /** A trace says what became of its rule. */
  predicate TraceFits(trace: RuleTrace, rule: Rule, data: Data) {
    && trace.rule == RefOf(rule)
    && (trace.ScopeMismatch? <==> !ScopeMatches(rule.scope, data.context))
    && (trace.Matched? <==> Fires(rule, data))
    && (!trace.ScopeMismatch? ==>
          && Evaluate(rule.condition, data).Ok?
          && trace.condition == Evaluate(rule.condition, data).value.value
          && (trace.NotMatched? <==> !Truthy(trace.condition)))
  }

  /** One trace for each rule whose status is active, in order. */
  predicate TracesFit(traces: seq<RuleTrace>, rules: seq<Rule>, data: Data)
  {
    if rules == [] then traces == []
    else if rules[0].status != Active then TracesFit(traces, rules[1..], data)
    else traces != [] && TraceFits(traces[0], rules[0], data) && TracesFit(traces[1..], rules[1..], data)
  }

  lemma OneRuleReported(run: Run, rule: Rule, data: Data) returns (added: seq<RuleTrace>)
    requires RunRule(run, rule, data).Ok?
    ensures var next := RunRule(run, rule, data).value;
            && next.matched == run.matched + (if Fires(rule, data) then [RefOf(rule)] else [])
            && next.versions == run.versions + (if InScope(rule, data.context) then [RefOf(rule)] else [])
            && next.traces == run.traces + added
    ensures if rule.status == Active then |added| == 1 && TraceFits(added[0], rule, data) else added == []
  {
    var next := RunRule(run, rule, data).value;
    added := if rule.status == Active then [next.traces[|next.traces| - 1]] else [];
  }

  lemma {:induction false} RefsReported(run: Run, rules: seq<Rule>, data: Data)
    requires RunRules(run, rules, data).Ok?
    ensures RunRules(run, rules, data).value.matched == run.matched + MatchedRefs(rules, data)
    ensures RunRules(run, rules, data).value.versions == run.versions + ConsideredRefs(rules, data.context)
    decreases |rules|
  {
    if rules != [] {
      var next := RunRule(run, rules[0], data).value;
      var last := RunRules(run, rules, data).value;
      var _ := OneRuleReported(run, rules[0], data);
      RefsReported(next, rules[1..], data);
      Chained(run.matched, next.matched, last.matched, if Fires(rules[0], data) then [RefOf(rules[0])] else [],
              MatchedRefs(rules[1..], data));
      Chained(run.versions, next.versions, last.versions,
              if InScope(rules[0], data.context) then [RefOf(rules[0])] else [],
              ConsideredRefs(rules[1..], data.context));
    }
  }

  lemma {:induction false} TracesReported(run: Run, rules: seq<Rule>, data: Data) returns (added: seq<RuleTrace>)
    requires RunRules(run, rules, data).Ok?
    ensures RunRules(run, rules, data).value.traces == run.traces + added && TracesFit(added, rules, data)
    decreases |rules|
  {
    if rules == [] {
      added := [];
    } else {
      var next := RunRule(run, rules[0], data).value;
      var first := OneRuleReported(run, rules[0], data);
      var rest := TracesReported(next, rules[1..], data);
      added := first + rest;
      Chained(run.traces, next.traces, RunRules(run, rules, data).value.traces, first, rest);
      if rules[0].status == Active {
        assert added[0] == first[0] && added[1..] == rest;
      } else {
        assert added == rest;
      }
    }
  }

  /** The report is exact: the matched rules are those that fire, the rule versions are those in scope, and every rule
      in force has one trace that says what became of it, all in engine order. */
  lemma ReportExact(rules: seq<Rule>, data: Data)
    requires RunEngine(rules, data).Ok?
    ensures var run, ordered := RunEngine(rules, data).value, OrderedRules(rules);
            && run.matched == MatchedRefs(ordered, data)
            && run.versions == ConsideredRefs(ordered, data.context)
            && TracesFit(run.traces, ordered, data)
  {
    RefsReported(START, OrderedRules(rules), data);
    var traces := TracesReported(START, OrderedRules(rules), data);
    assert [] + traces == traces;
  }

  lemma {:induction false} RefsNamed(rules: seq<Rule>, data: Data)
    ensures forall ref :: ref in MatchedRefs(rules, data)
                          <==> exists r :: r in rules && Fires(r, data) && ref == RuleRef(r.id, r.logicalKey, r.version)
    ensures forall ref :: ref in ConsideredRefs(rules, data.context)
                          <==> exists r :: r in rules && InScope(r, data.context) && ref == RuleRef(r.id, r.logicalKey, r.version)
  {
    if rules != [] {
      RefsNamed(rules[1..], data);
      assert rules == [rules[0]] + rules[1..];
    }
  }

  /** A run names as matched exactly the rules that fire, and as considered exactly those in scope, by id, key and version. */
  lemma ReportNames(rules: seq<Rule>, data: Data)
    requires RunEngine(rules, data).Ok?
    ensures forall ref :: ref in RunEngine(rules, data).value.matched
                          <==> exists r :: r in rules && Fires(r, data) && ref == RuleRef(r.id, r.logicalKey, r.version)
    ensures forall ref :: ref in RunEngine(rules, data).value.versions
                          <==> exists r :: r in rules && InScope(r, data.context) && ref == RuleRef(r.id, r.logicalKey, r.version)
  {
    ReportExact(rules, data);
    RefsNamed(OrderedRules(rules), data);
    SortKeeps(RuleLe, rules);
  }
}
