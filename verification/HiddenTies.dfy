/** Runs of service calls after which two rules are in force whose tie the activation guard did not see. */
module HiddenTies {
  import opened Prelude
  import opened Json
  import opened Evaluator
  import opened Rules
  import opened ScopeProofs
  import opened Engine
  import opened RuleStore
  import opened RuleStoreProofs
  import opened Ties
  import EffectFold
  import opened Core
  import opened Scenarios
  import opened Limits

  /** Two launches, one after the other, of rules without a predecessor. */
  function BothCalls(first: Spec, second: Spec): seq<Call> {
    LaunchCalls(first, 1, 1) + LaunchCalls(second, 2, 2)
  }

  lemma SecondFits(first: Spec, second: Spec)
    requires second.predecessor.None? && first.id != second.id && first.key != second.key
    requires !EffectConflicts(RowOf(second, 0, Draft, 1, None), LaunchedRow(first, 1))
    ensures CanCreate([LaunchedRow(first, 1)], second) && Unblocked([LaunchedRow(first, 1)], second)
  {
    assert [LaunchedRow(first, 1)][1..] == [];
  }

  function OneRuleStore(first: Spec): State {
    Init("o").(rules := [LaunchedRow(first, 1)])
  }

  lemma FirstLaunched(first: Spec)
    requires WellMade(first) && first.predecessor.None?
    ensures RunCalls(Init("o"), LaunchCalls(first, 1, 1)) == OneRuleStore(first)
  {
    assert [] + [LaunchedRow(first, 1)] == [LaunchedRow(first, 1)];
    LaunchesTo(Init("o"), first, 1, 1, [], [], OneRuleStore(first));
  }

  lemma SecondLaunched(first: Spec, second: Spec)
    requires WellMade(second) && second.predecessor.None? && first.id != second.id && first.key != second.key
    requires !EffectConflicts(RowOf(second, 0, Draft, 1, None), LaunchedRow(first, 1))
    ensures RunCalls(OneRuleStore(first), LaunchCalls(second, 2, 2))
         == Init("o").(rules := [LaunchedRow(first, 1), LaunchedRow(second, 2)])
  {
    var rules := [LaunchedRow(first, 1)];
    SecondFits(first, second);
    assert rules + [LaunchedRow(second, 2)] == [LaunchedRow(first, 1), LaunchedRow(second, 2)];
    LaunchesTo(OneRuleStore(first), second, 2, 2, rules, rules,
               Init("o").(rules := [LaunchedRow(first, 1), LaunchedRow(second, 2)]));
  }

  lemma BothLaunched(first: Spec, second: Spec)
    requires WellMade(first) && WellMade(second) && first.predecessor == second.predecessor == None
    requires first.id != second.id && first.key != second.key
    requires !EffectConflicts(RowOf(second, 0, Draft, 1, None), LaunchedRow(first, 1))
    ensures RunCalls(Init("o"), BothCalls(first, second)) == Init("o").(rules := [LaunchedRow(first, 1), LaunchedRow(second, 2)])
  {
    FirstLaunched(first);
    SecondLaunched(first, second);
    Composed(Init("o"), LaunchCalls(first, 1, 1), OneRuleStore(first), LaunchCalls(second, 2, 2),
             Init("o").(rules := [LaunchedRow(first, 1), LaunchedRow(second, 2)]));
  }

  // ---- a list against a scalar ----

  function Other(v: Json): Json {
    if v == Bool(true) then Bool(false) else Bool(true)
  }

  function ListScoped(key: string, shared: Json, v: Json): Spec {
    Spec("x", "x", map[key := Arr([shared])], [SetTo("t", v)], None, map[key := Other(shared)])
  }

  function ScalarScoped(key: string, shared: Json, w: Json): Spec {
    Spec("y", "y", map[key := shared], [SetTo("t", w)], None, map[key := Other(shared)])
  }

  lemma SetterValid(v: Json)
    requires !IsExpression(v)
    ensures EffectProblems(SetTo("t", v)) == []
  {
    assert TypeOf(SetTo("t", v).fields) == SetEffect;
  }

  lemma ScopedWellMade(key: string, shared: Json, v: Json)
    requires IsScalar(shared) && !IsExpression(v)
    ensures WellMade(ListScoped(key, shared, v)) && WellMade(ScalarScoped(key, shared, v))
  {
    SetterValid(v);
    var elsewhere := map[key := Other(shared)];
    assert !ValueMatches(Arr([shared]), Get(elsewhere, key)) && !ValueMatches(shared, Get(elsewhere, key));
    SpecWellMade(ListScoped(key, shared, v));
    SpecWellMade(ScalarScoped(key, shared, v));
  }

  lemma ScopesSeemDisjoint(key: string, shared: Json)
    requires IsScalar(shared)
    ensures !ScopesOverlap(map[key := shared], map[key := Arr([shared])])
    ensures ComparedByInequality(map[key := Arr([shared])], map[key := shared], key)
  {
    var l, r := map[key := shared], map[key := Arr([shared])];
    assert key in l && key in r && l[key] != r[key];
  }

  lemma ScopedLaunched(key: string, shared: Json, v: Json, w: Json)
    requires IsScalar(shared) && !IsExpression(v) && !IsExpression(w)
    ensures RunCalls(Init("o"), BothCalls(ListScoped(key, shared, v), ScalarScoped(key, shared, w)))
         == Init("o").(rules := [LaunchedRow(ListScoped(key, shared, v), 1), LaunchedRow(ScalarScoped(key, shared, w), 2)])
  {
    ScopedWellMade(key, shared, v);
    ScopedWellMade(key, shared, w);
    ScopesSeemDisjoint(key, shared);
    BothLaunched(ListScoped(key, shared, v), ScalarScoped(key, shared, w));
  }

  lemma BothMatch(key: string, shared: Json, context: Document)
    requires IsScalar(shared) && Get(context, key) == shared
    ensures ScopeMatches(map[key := Arr([shared])], context) && ScopeMatches(map[key := shared], context)
  {
    assert shared in [shared];
    assert ValueMatches(Arr([shared]), Get(context, key)) && ValueMatches(shared, Get(context, key));
  }

  lemma FirstOp(e: Json, rest: seq<Json>, priority: int)
    requires EffectFold.Touches(EffectFold.Step(priority, e), "t")
    ensures var ops := EffectFold.OpsOn(EffectFold.StepsOf([e] + rest, priority), "t");
            ops != [] && ops[0] == EffectFold.OpOf(EffectFold.Step(priority, e))
            && ops[1..] == EffectFold.OpsOn(EffectFold.StepsOf(rest, priority), "t")
  {
    var s := EffectFold.Step(priority, e);
    assert ([e] + rest)[1..] == rest;
    assert EffectFold.StepsOf([e] + rest, priority) == [s] + EffectFold.StepsOf(rest, priority);
    assert ([s] + EffectFold.StepsOf(rest, priority))[1..] == EffectFold.StepsOf(rest, priority);
  }

  lemma SetterOps(rule: Rule, v: Json, rest: seq<Json>)
    requires rule.effects == [SetTo("t", v)] + rest
    ensures EffectOps(rule, "t") != [] && EffectOps(rule, "t")[0] == EffectFold.Op(rule.priority, SetEffect, v)
  {
    var e := SetTo("t", v);
    assert TypeOf(e.fields) == SetEffect && Get(e.fields, "value") == v && Get(e.fields, "target") == Str("t");
    FirstOp(e, rest, rule.priority);
  }

  lemma AdderOps(rule: Rule, b: real)
    requires rule.effects == AddOnly(b)
    ensures EffectOps(rule, "t") != [] && EffectOps(rule, "t")[0].kind == AddEffect
  {
    var e := AddTo("t", Num(b));
    assert TypeOf(e.fields) == AddEffect && Get(e.fields, "target") == Str("t");
    assert [e] + [] == [e];
    FirstOp(e, [], rule.priority);
  }

  lemma SettersClash(x: Rule, v: Json, y: Rule, w: Json)
    requires x.effects == [SetTo("t", v)] && y.effects == [SetTo("t", w)] && v != w
    ensures Clash(x, y)
  {
    assert x.effects == [SetTo("t", v)] + [] && y.effects == [SetTo("t", w)] + [];
    SetterOps(x, v, []);
    SetterOps(y, w, []);
    var ox, oy := EffectOps(x, "t"), EffectOps(y, "t");
    assert ox[0] != oy[0] && ox[0].kind == SetEffect;
    assert Contest(ox, oy);
  }

  lemma ScopedTieIsHidden(key: string, shared: Json, v: Json, w: Json, context: Document)
    requires IsScalar(shared) && Get(context, key) == shared && v != w
    ensures HiddenTie(LaunchedRow(ListScoped(key, shared, v), 1), LaunchedRow(ScalarScoped(key, shared, w), 2))
  {
    var x, y := LaunchedRow(ListScoped(key, shared, v), 1), LaunchedRow(ScalarScoped(key, shared, w), 2);
    BothMatch(key, shared, context);
    ScopesSeemDisjoint(key, shared);
    SettersClash(x, v, y, w);
    CanBothMatchDecides(x.scope, y.scope);
  }

  /** The guard's blind spot, in force: one scope lists the value another names. Both rules are activated, both apply, their
      tie is hidden, and its order decides the scalar. */
  lemma GuardMissesListAgainstScalar(key: string, shared: Json, v: Json, w: Json, data: Data)
    requires IsScalar(shared) && Get(data.context, key) == shared && v != w && !IsExpression(v) && !IsExpression(w)
    ensures var rules := RunCalls(Init("o"), BothCalls(ListScoped(key, shared, v), ScalarScoped(key, shared, w))).rules;
            && |rules| == 2 && InForce(rules[0]) && InForce(rules[1]) && HiddenTie(rules[0], rules[1])
            && RunRules(START, [rules[0], rules[1]], data).Ok? && RunRules(START, [rules[1], rules[0]], data).Ok?
            && RunRules(START, [rules[0], rules[1]], data).value.acc.scalars == map["t" := v]
            && RunRules(START, [rules[1], rules[0]], data).value.acc.scalars == map["t" := w]
  {
    var x, y := LaunchedRow(ListScoped(key, shared, v), 1), LaunchedRow(ScalarScoped(key, shared, w), 2);
    ScopedLaunched(key, shared, v, w);
    BothMatch(key, shared, data.context);
    ScopedTieIsHidden(key, shared, v, w, data.context);
    FirstSetterDecides(x, v, y, w, data);
    FirstSetterDecides(y, w, x, v, data);
  }

  // ---- two effects on a target ----

  function SettingAndAdding(a: real, b: real): Spec {
    Spec("x", "x", map["x" := Str("a")], SetThenAdd(a, b), None, map[])
  }

  function Adding(b: real): Spec {
    Spec("y", "y", map["x" := Str("a")], AddOnly(b), None, map[])
  }

  lemma AmountsWellMade(a: real, b: real)
    ensures WellMade(SettingAndAdding(a, b)) && WellMade(Adding(b))
  {
    SetterValid(Num(a));
    assert TypeOf(AddTo("t", Num(b)).fields) == AddEffect && EffectProblems(AddTo("t", Num(b))) == [];
    assert !ValueMatches(Str("a"), Get(map[], "x"));
    SpecWellMade(SettingAndAdding(a, b));
    SpecWellMade(Adding(b));
  }

  lemma AmountsLaunched(a: real, b: real)
    ensures RunCalls(Init("o"), BothCalls(SettingAndAdding(a, b), Adding(b)))
         == Init("o").(rules := [LaunchedRow(SettingAndAdding(a, b), 1), LaunchedRow(Adding(b), 2)])
  {
    AmountsWellMade(a, b);
    EffectMapsEqual(a, b);
    BothLaunched(SettingAndAdding(a, b), Adding(b));
  }

  lemma AmountsClash(x: Rule, y: Rule, a: real, b: real)
    requires x.effects == SetThenAdd(a, b) && y.effects == AddOnly(b)
    ensures Clash(x, y)
  {
    assert x.effects == [SetTo("t", Num(a))] + [AddTo("t", Num(b))];
    SetterOps(x, Num(a), [AddTo("t", Num(b))]);
    AdderOps(y, b);
    var ox, oy := EffectOps(x, "t"), EffectOps(y, "t");
    assert ox[0] != oy[0] && ox[0].kind == SetEffect;
    assert Contest(ox, oy);
  }

  lemma AmountsTieIsHidden(a: real, b: real, context: Document)
    requires Get(context, "x") == Str("a")
    ensures HiddenTie(LaunchedRow(SettingAndAdding(a, b), 1), LaunchedRow(Adding(b), 2))
  {
    var x, y := LaunchedRow(SettingAndAdding(a, b), 1), LaunchedRow(Adding(b), 2);
    assert ValueMatches(Str("a"), Get(context, "x"));
    assert ScopeMatches(x.scope, context) && ScopeMatches(y.scope, context);
    EffectMapsEqual(a, b);
    AmountsClash(x, y, a, b);
    CanBothMatchDecides(x.scope, y.scope);
  }

  lemma SettingFirstAdds(x: Rule, y: Rule, a: real, b: real, data: Data)
    requires Unconditional(x, data.context) && x.effects == SetThenAdd(a, b)
    requires Unconditional(y, data.context) && y.effects == AddOnly(b)
    ensures RunRules(START, [x, y], data).Ok?
    ensures RunRules(START, [x, y], data).value.acc.scalars == map["t" := Num(a + b + b)]
  {
    var next := SetsFirst(x, a, b, data);
    var last := AddsAfter(next, y, a + b, b, data);
    TwoRulesTo(x, y, data, next, last, map["t" := Num(a + b + b)]);
  }

  lemma AddingFirstIsLost(x: Rule, y: Rule, a: real, b: real, data: Data)
    requires Unconditional(x, data.context) && x.effects == SetThenAdd(a, b)
    requires Unconditional(y, data.context) && y.effects == AddOnly(b) && "t" !in data.context
    ensures RunRules(START, [y, x], data).Ok?
    ensures RunRules(START, [y, x], data).value.acc.scalars == map["t" := Num(a + b)]
  {
    var next, last := AddFirst(x, y, a, b, data);
    TwoRulesTo(y, x, data, next, last, map["t" := Num(a + b)]);
  }

  lemma AmountsDiffer(a: real, b: real)
    ensures map["t" := Num(a + b + b)] == map["t" := Num(a + b)] <==> b == 0.0
  {
    assert map["t" := Num(a + b + b)]["t"] == Num(a + b + b) && map["t" := Num(a + b)]["t"] == Num(a + b);
  }

  /** Two effects on one target, in force: the guard compares only the last ones, which are equal, so the tie is
      hidden although the scopes are the same; the order of the rules decides the scalar exactly when the amount is not
      zero. */
  lemma GuardMissesEarlierEffects(a: real, b: real, data: Data)
    requires Get(data.context, "x") == Str("a") && "t" !in data.context
    ensures var rules := RunCalls(Init("o"), BothCalls(SettingAndAdding(a, b), Adding(b))).rules;
            && |rules| == 2 && InForce(rules[0]) && InForce(rules[1]) && HiddenTie(rules[0], rules[1])
            && !EffectsDisagree(rules[0].effects, rules[1].effects)
            && RunRules(START, [rules[0], rules[1]], data).Ok? && RunRules(START, [rules[1], rules[0]], data).Ok?
            && RunRules(START, [rules[0], rules[1]], data).value.acc.scalars == map["t" := Num(a + b + b)]
            && RunRules(START, [rules[1], rules[0]], data).value.acc.scalars == map["t" := Num(a + b)]
            && (map["t" := Num(a + b + b)] == map["t" := Num(a + b)] <==> b == 0.0)
  {
    var x, y := LaunchedRow(SettingAndAdding(a, b), 1), LaunchedRow(Adding(b), 2);
    AmountsLaunched(a, b);
    EffectMapsEqual(a, b);
    AmountsTieIsHidden(a, b, data.context);
    SettingFirstAdds(x, y, a, b, data);
    AddingFirstIsLost(x, y, a, b, data);
    AmountsDiffer(a, b);
  }
}
