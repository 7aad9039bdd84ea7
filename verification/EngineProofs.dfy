/** The engine reproduces its result on any data that agrees with its recorded dependencies, does not depend on the
    order its rules are supplied in, and never gets stuck on validated rules. */
module EngineProofs {
  import opened Prelude
  import opened Text
  import opened Json
  import opened Dsl
  import opened Graph
  import opened Evaluator
  import opened EvaluatorProofs
  import opened Rules
  import opened Sorting
  import opened Engine

  /** The selectors an effect's value expression reads; the engine does not record them. */
  function ValueReferences(effect: Json): set<Node> {
    if effect.Obj? && IsExpression(Get(effect.fields, "value")) then References(effect.fields["value"]) else {}
  }

  predicate EffectsAgree(effects: seq<Json>, a: Data, b: Data) {
    forall e :: e in effects ==> Agrees(ValueReferences(e), a, b)
  }

  /** A handler sees the data only through the effect's value and the query context. */
  lemma HandleFrame(acc: Accumulated, effect: Document, a: Data, b: Data)
    requires a.context == b.context && EffectValue(effect, a) == EffectValue(effect, b)
    ensures Handle(acc, effect, a) == Handle(acc, effect, b)
  {
    match TypeOf(effect)
    case AddEffect => assert Arithmetic(acc, effect, a, "ADD", true) == Arithmetic(acc, effect, b, "ADD", true);
    case SubtractEffect =>
      assert Arithmetic(acc, effect, a, "SUBTRACT", false) == Arithmetic(acc, effect, b, "SUBTRACT", false);
    case _ =>
  }

  lemma ApplyEffectFrame(acc: Accumulated, effect: Json, priority: int, a: Data, b: Data)
    requires a.context == b.context && Agrees(ValueReferences(effect), a, b)
    ensures ApplyEffect(acc, effect, priority, a) == ApplyEffect(acc, effect, priority, b)
  {
    if effect.Obj? {
      assert EffectValue(effect.fields, a) == EffectValue(effect.fields, b) by {
        if IsExpression(Get(effect.fields, "value")) {
          EvalFrame(effect.fields["value"], a, b);
        }
      }
      HandleFrame(acc, effect.fields, a, b);
    }
  }

  lemma {:induction false} ApplyEffectsFrame(acc: Accumulated, traces: seq<Json>, effects: seq<Json>, priority: int, a: Data, b: Data)
    requires a.context == b.context && EffectsAgree(effects, a, b)
    ensures ApplyEffects(acc, traces, effects, priority, a) == ApplyEffects(acc, traces, effects, priority, b)
    decreases |effects|
  {
    if effects != [] {
      ApplyEffectFrame(acc, effects[0], priority, a, b);
      var first := ApplyEffect(acc, effects[0], priority, a);
      if first.Ok? {
        ApplyEffectsFrame(first.value.result, traces + [first.value.trace], effects[1..], priority, a, b);
      }
    }
  }

  lemma {:induction false} CheckExceptionsFrame(deps: set<Node>, steps: seq<Json>, exceptions: seq<Json>, a: Data, b: Data)
    requires CheckExceptions(deps, steps, exceptions, a).Ok?
    requires Agrees(CheckExceptions(deps, steps, exceptions, a).value.deps, a, b)
    ensures CheckExceptions(deps, steps, exceptions, b) == CheckExceptions(deps, steps, exceptions, a)
    decreases |exceptions|
  {
    if exceptions != [] {
      ExceptionsAccumulate(deps, steps, exceptions, a);
      RecordedDependenciesSuffice(exceptions[0], a, b);
      var first := Evaluate(exceptions[0], a).value;
      if !Truthy(first.value) {
        CheckExceptionsFrame(deps + first.deps, steps + first.steps, exceptions[1..], a, b);
      }
    }
  }

  /** Dependencies read so far, and those of the first exception, stay recorded. */
  lemma {:induction false} ExceptionsAccumulate(deps: set<Node>, steps: seq<Json>, exceptions: seq<Json>, data: Data)
    requires CheckExceptions(deps, steps, exceptions, data).Ok?
    ensures deps <= CheckExceptions(deps, steps, exceptions, data).value.deps
    ensures exceptions != [] ==> && Evaluate(exceptions[0], data).Ok?
                                 && Evaluate(exceptions[0], data).value.deps
                                    <= CheckExceptions(deps, steps, exceptions, data).value.deps
    decreases |exceptions|
  {
    if exceptions != [] {
      var first := Evaluate(exceptions[0], data).value;
      if !Truthy(first.value) {
        ExceptionsAccumulate(deps + first.deps, steps + first.steps, exceptions[1..], data);
      }
    }
  }

  lemma RunRuleFrame(run: Run, rule: Rule, a: Data, b: Data)
    requires RunRule(run, rule, a).Ok? && a.context == b.context
    requires Agrees(RunRule(run, rule, a).value.deps, a, b) && (Fires(rule, a) ==> EffectsAgree(rule.effects, a, b))
    ensures RunRule(run, rule, b) == RunRule(run, rule, a)
  {
    if rule.status == Active && ScopeMatches(rule.scope, a.context) {
      var deps := RunRule(run, rule, a).value.deps;
      var condition := Evaluate(rule.condition, a).value;
      assert condition.deps <= deps;
      RecordedDependenciesSuffice(rule.condition, a, b);
      if Truthy(condition.value) {
        assert CheckExceptions({}, [], rule.exceptions, a).value.deps <= deps;
        CheckExceptionsFrame({}, [], rule.exceptions, a, b);
        if Fires(rule, a) {
          ApplyEffectsFrame(run.acc, [], rule.effects, rule.priority, a, b);
        }
      }
    }
  }

  lemma {:induction false} RunRulesAccumulate(run: Run, rules: seq<Rule>, data: Data)
    requires RunRules(run, rules, data).Ok?
    ensures run.deps <= RunRules(run, rules, data).value.deps
    decreases |rules|
  {
    if rules != [] {
      RunRulesAccumulate(RunRule(run, rules[0], data).value, rules[1..], data);
    }
  }

  lemma {:induction false} RunRulesFrame(run: Run, rules: seq<Rule>, a: Data, b: Data)
    requires RunRules(run, rules, a).Ok? && a.context == b.context
    requires Agrees(RunRules(run, rules, a).value.deps, a, b)
    requires forall r :: r in rules && Fires(r, a) ==> EffectsAgree(r.effects, a, b)
    ensures RunRules(run, rules, b) == RunRules(run, rules, a)
    decreases |rules|
  {
    if rules != [] {
      var next := RunRule(run, rules[0], a).value;
      RunRulesAccumulate(next, rules[1..], a);
      RunRuleFrame(run, rules[0], a, b);
      RunRulesFrame(next, rules[1..], a, b);
    }
  }

  lemma SortKeeps<T>(le: (T, T) -> bool, s: seq<T>)
    ensures forall x :: x in Sort(le, s) <==> x in s
  {
    SortPermutes(le, s);
    forall x ensures x in Sort(le, s) <==> x in s {
      assert x in Sort(le, s) <==> x in multiset(Sort(le, s));
      assert x in s <==> x in multiset(s);
    }
  }

  /** Dependency soundness of the engine: with the same context, data that agrees on everything the run recorded and on
      what the effect values of its firing rules read gives the same values, traces and dependencies. */
  lemma EngineFrame(rules: seq<Rule>, a: Data, b: Data)
    requires RunEngine(rules, a).Ok? && a.context == b.context
    requires Agrees(RunEngine(rules, a).value.deps, a, b)
    requires forall r :: r in rules && Fires(r, a) ==> EffectsAgree(r.effects, a, b)
    ensures RunEngine(rules, b) == RunEngine(rules, a)
  {
    SortKeeps(RuleLe, rules);
    RunRulesFrame(START, OrderedRules(rules), a, b);
  }

  lemma RuleLeTotalPreorder()
    ensures TotalPreorder(RuleLe)
  {
    forall x: Rule, y: Rule ensures RuleLe(x, y) || RuleLe(y, x) {
      StrLeTotal(x.logicalKey, y.logicalKey);
    }
    forall x: Rule, y: Rule, z: Rule | RuleLe(x, y) && RuleLe(y, z) ensures RuleLe(x, z) {
      RuleLeTransitive(x, y, z);
    }
  }

  lemma RuleLeTransitive(x: Rule, y: Rule, z: Rule)
    requires RuleLe(x, y) && RuleLe(y, z)
    ensures RuleLe(x, z)
  {
    if x.priority == y.priority == z.priority && x.logicalKey != y.logicalKey && y.logicalKey != z.logicalKey {
      StrLeTransitive(x.logicalKey, y.logicalKey, z.logicalKey);
      if x.logicalKey == z.logicalKey {
        StrLeAntisymmetric(x.logicalKey, y.logicalKey);
      }
    }
  }

  /** No two rules of the collection share a logical key and version. */
  predicate DistinctVersions(rules: seq<Rule>) {
    forall x, y :: x in rules && y in rules && x.logicalKey == y.logicalKey && x.version == y.version ==> x == y
  }

  /** Input-order independence: a permutation of the rules gives the same values, traces and dependencies. */
  lemma InputOrderIrrelevant(rules: seq<Rule>, permuted: seq<Rule>, data: Data)
    requires multiset(rules) == multiset(permuted) && DistinctVersions(rules)
    ensures RunEngine(rules, data) == RunEngine(permuted, data)
  {
    RuleLeTotalPreorder();
    forall x, y | x in rules && y in rules && RuleLe(x, y) && RuleLe(y, x) ensures x == y {
      if x.logicalKey != y.logicalKey {
        StrLeAntisymmetric(x.logicalKey, y.logicalKey);
      }
    }
    SortIgnoresInputOrder(RuleLe, rules, permuted);
  }

  lemma NumericUnstuck(v: Json)
    ensures Unstuck(Numeric(v))
  {
  }

  lemma ArithmeticUnstuck(acc: Accumulated, effect: Document, data: Data, kind: string, adds: bool)
    requires Get(effect, "target").Str? && Unstuck(EffectValue(effect, data))
    ensures Unstuck(Arithmetic(acc, effect, data, kind, adds))
  {
    NumericUnstuck(InitialValue(acc.scalars, data.context, effect["target"].s));
    if EffectValue(effect, data).Ok? {
      NumericUnstuck(EffectValue(effect, data).value);
    }
  }

  lemma HandleUnstuck(acc: Accumulated, effect: Document, data: Data)
    requires TypeOf(effect) != UnknownEffect && Get(effect, "target").Str? && Unstuck(EffectValue(effect, data))
    ensures Unstuck(Handle(acc, effect, data))
  {
    ArithmeticUnstuck(acc, effect, data, "ADD", true);
    ArithmeticUnstuck(acc, effect, data, "SUBTRACT", false);
  }

  /** A validated effect is handled or reports a type mismatch. */
  lemma ValidEffectNeverStuck(acc: Accumulated, effect: Json, priority: int, data: Data)
    requires EffectProblems(effect) == []
    ensures Unstuck(ApplyEffect(acc, effect, priority, data))
  {
    var value := Get(effect.fields, "value");
    if IsExpression(value) {
      assert |Map((p: Problem) => InValue(p), Problems(value, 0, MAX_DEPTH))| == 0;
      ValidNeverStuck(value, 0, data);
    }
    HandleUnstuck(acc, effect.fields, data);
  }

  lemma {:induction false} ValidEffectsNeverStuck(acc: Accumulated, traces: seq<Json>, effects: seq<Json>, priority: int, data: Data)
    requires forall i :: 0 <= i < |effects| ==> EffectProblems(effects[i]) == []
    ensures Unstuck(ApplyEffects(acc, traces, effects, priority, data))
    decreases |effects|
  {
    if effects != [] {
      ValidEffectNeverStuck(acc, effects[0], priority, data);
      var first := ApplyEffect(acc, effects[0], priority, data);
      if first.Ok? {
        ValidEffectsNeverStuck(first.value.result, traces + [first.value.trace], effects[1..], priority, data);
      }
    }
  }

  lemma {:induction false} ValidExceptionsNeverStuck(deps: set<Node>, steps: seq<Json>, exceptions: seq<Json>, data: Data)
    requires forall i :: 0 <= i < |exceptions| ==> Valid(exceptions[i])
    ensures Unstuck(CheckExceptions(deps, steps, exceptions, data))
    decreases |exceptions|
  {
    if exceptions != [] {
      ValidNeverStuck(exceptions[0], 0, data);
      var first := Evaluate(exceptions[0], data);
      if first.Ok? {
        ValidExceptionsNeverStuck(deps + first.value.deps, steps + first.value.steps, exceptions[1..], data);
      }
    }
  }

  /** An active rule has a valid payload; the engine passes over the others. */
  predicate ValidIfActive(rule: Rule) {
    rule.status == Active ==> ValidPayload(rule)
  }

  lemma ValidRuleNeverStuck(run: Run, rule: Rule, data: Data)
    requires ValidIfActive(rule)
    ensures Unstuck(RunRule(run, rule, data))
  {
    if rule.status == Active {
      ValidNeverStuck(rule.condition, 0, data);
      ValidExceptionsNeverStuck({}, [], rule.exceptions, data);
      ValidEffectsNeverStuck(run.acc, [], rule.effects, rule.priority, data);
    }
  }

  lemma {:induction false} ValidRulesNeverStuck(run: Run, rules: seq<Rule>, data: Data)
    requires forall r :: r in rules ==> ValidIfActive(r)
    ensures Unstuck(RunRules(run, rules, data))
    decreases |rules|
  {
    if rules != [] {
      ValidRuleNeverStuck(run, rules[0], data);
      var next := RunRule(run, rules[0], data);
      if next.Ok? {
        ValidRulesNeverStuck(next.value, rules[1..], data);
      }
    }
  }

  /** When the active rules are valid the engine answers or fails with a type mismatch, whatever the data. */
  lemma ValidEngineNeverStuck(rules: seq<Rule>, data: Data)
    requires forall r :: r in rules ==> ValidIfActive(r)
    ensures Unstuck(RunEngine(rules, data))
  {
    SortKeeps(RuleLe, rules);
    ValidRulesNeverStuck(START, OrderedRules(rules), data);
  }
}
