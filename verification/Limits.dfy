/** Where the engine's and the guard's promises end: families of rules that do more than the services account for. */
module Limits {
  import opened Prelude
  import opened Json
  import opened Dsl
  import opened Evaluator
  import opened EvaluatorProofs
  import opened Rules
  import opened Engine
  import opened Scenarios

  function SetTo(target: string, value: Json): Json {
    Obj(map["type" := Str("SET"), "target" := Str(target), "value" := value])
  }

  function AddTo(target: string, value: Json): Json {
    Obj(map["type" := Str("ADD"), "target" := Str(target), "value" := value])
  }

  function FactReader(property: string): Json {
    Obj(map["kind" := Str("fact"), "property" := Str(property)])
  }

  function FirstValue(data: Data, property: string): Json {
    var rows := FactsMatching(data.facts, property);
    if rows != [] then rows[0].value else Null
  }

  lemma {:induction false} KeepAll<T>(p: T -> bool, s: seq<T>)
    requires forall x :: p(x)
    ensures Filter(p, s) == s
  {
    if s != [] {
      KeepAll(p, s[1..]);
    }
  }

  lemma ReaderReadsFirst(property: string, data: Data)
    ensures Resolve(FactReader(property), data) == Ok(FirstValue(data, property))
  {
    var fields := FactReader(property).fields;
    var keep := (f: Fact) => Selected(Get(fields, "subject_id"), f.subject);
    assert Get(fields, "subject_id") == Null;
    KeepAll(keep, FactsMatching(data.facts, property));
    assert FormOf(fields) == FactForm;
    assert FactReference(fields, data.facts).Ok?;
    var rows := FactsMatching(data.facts, property);
    assert Map((f: Fact) => f.value, rows) != [] ==> rows != [] && Map((f: Fact) => f.value, rows)[0] == rows[0].value;
    assert rows != [] ==> |Map((f: Fact) => f.value, rows)| == |rows|;
  }

  /** The rule reaches its effects in every context of its scope. */
  predicate Unconditional(rule: Rule, context: Document) {
    && rule.status == Active && ScopeMatches(rule.scope, context) && rule.condition == Bool(true) && rule.exceptions == []
    && rule.priority == 0
  }

  lemma UnconditionalApplies(run: Run, rule: Rule, data: Data, acc: Accumulated, traces: seq<Json>)
    requires Unconditional(rule, data.context)
    requires ApplyEffects(run.acc, [], rule.effects, 0, data) == Ok((acc, traces))
    ensures RunRule(run, rule, data).Ok? && RunRule(run, rule, data).value.acc == acc
    ensures RunRule(run, rule, data).value.deps == run.deps
  {
    assert Evaluate(rule.condition, data) == Ok(Trace(Bool(true), {}, []));
    assert CheckExceptions({}, [], rule.exceptions, data) == Ok(Trace(Bool(false), {}, []));
  }

  function AfterSet(acc: Accumulated, value: Json): Accumulated {
    if "t" in acc.claimed then acc else acc.(scalars := acc.scalars["t" := value], claimed := acc.claimed["t" := 0])
  }

  lemma SetApplies(acc: Accumulated, value: Json, data: Data)
    requires Resolve(value, data).Ok?
    ensures ApplyEffect(acc, SetTo("t", value), 0, data).Ok?
    ensures ApplyEffect(acc, SetTo("t", value), 0, data).value.result == AfterSet(acc, Resolve(value, data).value)
  {
    var fields := SetTo("t", value).fields;
    assert TypeOf(fields) == SetEffect && TargetOf(fields) == Ok("t") && Get(fields, "value") == value;
    assert EffectValue(fields, data) == Resolve(value, data);
  }

  lemma AddApplies(acc: Accumulated, start: real, amount: real, data: Data)
    requires InitialValue(acc.scalars, data.context, "t") == Num(start)
    ensures ApplyEffect(acc, AddTo("t", Num(amount)), 0, data).Ok?
    ensures ApplyEffect(acc, AddTo("t", Num(amount)), 0, data).value.result
         == acc.(scalars := acc.scalars["t" := Num(start + amount)])
  {
    var fields := AddTo("t", Num(amount)).fields;
    assert TypeOf(fields) == AddEffect && TargetOf(fields) == Ok("t") && Get(fields, "value") == Num(amount);
    assert Handle(acc, fields, data) == Arithmetic(acc, fields, data, "ADD", true);
  }

  lemma OneEffect(acc: Accumulated, effect: Json, data: Data) returns (traces: seq<Json>)
    requires ApplyEffect(acc, effect, 0, data).Ok?
    ensures ApplyEffects(acc, [], [effect], 0, data) == Ok((ApplyEffect(acc, effect, 0, data).value.result, traces))
  {
    var applied := ApplyEffect(acc, effect, 0, data).value;
    traces := [] + [applied.trace];
    assert [effect][1..] == [];
    assert ApplyEffects(applied.result, traces, [], 0, data) == Ok((applied.result, traces));
  }

  /** A rule with one SET of a target that no earlier rule claimed. */
  lemma SetterApplies(run: Run, rule: Rule, value: Json, data: Data)
    requires Unconditional(rule, data.context) && rule.effects == [SetTo("t", value)] && Resolve(value, data).Ok?
    ensures RunRule(run, rule, data).Ok? && RunRule(run, rule, data).value.deps == run.deps
    ensures RunRule(run, rule, data).value.acc == AfterSet(run.acc, Resolve(value, data).value)
  {
    SetApplies(run.acc, value, data);
    var traces := OneEffect(run.acc, SetTo("t", value), data);
    UnconditionalApplies(run, rule, data, AfterSet(run.acc, Resolve(value, data).value), traces);
  }

  lemma OneRule(run: Run, rule: Rule, data: Data)
    ensures RunRules(run, [rule], data) == RunRule(run, rule, data)
  {
    assert [rule][1..] == [];
    var next := RunRule(run, rule, data);
    if next.Ok? {
      assert RunRules(next.value, [], data) == next;
    }
  }

  lemma TwoRules(first: Rule, second: Rule, data: Data)
    requires RunRule(START, first, data).Ok?
    ensures RunRules(START, [first, second], data) == RunRule(RunRule(START, first, data).value, second, data)
  {
    assert [first, second][1..] == [second];
    OneRule(RunRule(START, first, data).value, second, data);
  }

  /** A rule that sets a scalar to the first fact of a property. */
  predicate Copies(rule: Rule, property: string, context: Document) {
    Unconditional(rule, context) && rule.effects == [SetTo("t", FactReader(property))]
  }

  lemma CopyingRuleRuns(rule: Rule, property: string, data: Data)
    requires Copies(rule, property, data.context)
    ensures RunEngine([rule], data).Ok? && RunEngine([rule], data).value.deps == {}
    ensures RunEngine([rule], data).value.acc.scalars == map["t" := FirstValue(data, property)]
  {
    ReaderReadsFirst(property, data);
    SetterApplies(START, rule, FactReader(property), data);
    SortOne(rule);
    OneRule(START, rule, data);
  }

  /** A fact read by an effect value is not recorded: any two data sets agree on everything such a rule records, yet its
      answers agree exactly when the first facts of the property do. */
  lemma EffectReadsAreNotRecorded(rule: Rule, property: string, a: Data, b: Data)
    requires Copies(rule, property, a.context) && Copies(rule, property, b.context)
    ensures RunEngine([rule], a).Ok? && RunEngine([rule], b).Ok? && Agrees(RunEngine([rule], a).value.deps, a, b)
    ensures RunEngine([rule], a).value.acc.scalars == RunEngine([rule], b).value.acc.scalars
            <==> FirstValue(a, property) == FirstValue(b, property)
  {
    CopyingRuleRuns(rule, property, a);
    CopyingRuleRuns(rule, property, b);
    assert map["t" := FirstValue(a, property)]["t"] == FirstValue(a, property);
    assert map["t" := FirstValue(b, property)]["t"] == FirstValue(b, property);
  }

  /** Of two rules that set the same scalar, the first one decides. */
  lemma FirstSetterDecides(first: Rule, v: Json, second: Rule, w: Json, data: Data)
    requires Unconditional(first, data.context) && first.effects == [SetTo("t", v)] && !IsExpression(v)
    requires Unconditional(second, data.context) && second.effects == [SetTo("t", w)] && !IsExpression(w)
    ensures RunRules(START, [first, second], data).Ok?
    ensures RunRules(START, [first, second], data).value.acc.scalars == map["t" := v]
  {
    SetterApplies(START, first, v, data);
    SetterApplies(RunRule(START, first, data).value, second, w, data);
    TwoRules(first, second, data);
  }

  /** Sets a scalar and adds to it; the effect map keeps only the addition. */
  function SetThenAdd(a: real, b: real): seq<Json> {
    [SetTo("t", Num(a)), AddTo("t", Num(b))]
  }

  function AddOnly(b: real): seq<Json> {
    [AddTo("t", Num(b))]
  }

  lemma EffectMapsEqual(a: real, b: real)
    ensures EffectMap(SetThenAdd(a, b)) == EffectMap(AddOnly(b))
    ensures !EffectsDisagree(SetThenAdd(a, b), AddOnly(b)) && !EffectsDisagree(AddOnly(b), SetThenAdd(a, b))
  {
    var both, one := SetThenAdd(a, b), AddOnly(b);
    assert both[..1] == [SetTo("t", Num(a))] && both[..1][..0] == [] && one[..0] == [];
    assert EffectMap(one) == map["t" := (Str("ADD"), Num(b))];
    assert EffectMap(both[..1]) == map["t" := (Str("SET"), Num(a))];
    assert EffectMap(both) == map["t" := (Str("SET"), Num(a))]["t" := (Str("ADD"), Num(b))];
  }

  lemma SetThenAddApplies(acc: Accumulated, a: real, b: real, data: Data) returns (traces: seq<Json>)
    requires "t" !in acc.claimed
    ensures ApplyEffects(acc, [], SetThenAdd(a, b), 0, data)
         == Ok((acc.(scalars := acc.scalars["t" := Num(a + b)], claimed := acc.claimed["t" := 0]), traces))
  {
    var set_, add := SetTo("t", Num(a)), AddTo("t", Num(b));
    SetApplies(acc, Num(a), data);
    var first := ApplyEffect(acc, set_, 0, data).value;
    AddApplies(first.result, a, b, data);
    var second := ApplyEffect(first.result, add, 0, data).value;
    traces := [] + [first.trace] + [second.trace];
    assert [set_, add][1..] == [add] && [add][1..] == [];
    assert acc.scalars["t" := Num(a)]["t" := Num(a + b)] == acc.scalars["t" := Num(a + b)];
    assert ApplyEffects(second.result, traces, [], 0, data) == Ok((second.result, traces));
    assert ApplyEffects(first.result, [] + [first.trace], [add], 0, data) == Ok((second.result, traces));
  }

  lemma AddOnlyApplies(acc: Accumulated, start: real, b: real, data: Data) returns (traces: seq<Json>)
    requires InitialValue(acc.scalars, data.context, "t") == Num(start)
    ensures ApplyEffects(acc, [], AddOnly(b), 0, data) == Ok((acc.(scalars := acc.scalars["t" := Num(start + b)]), traces))
  {
    AddApplies(acc, start, b, data);
    traces := OneEffect(acc, AddTo("t", Num(b)), data);
  }

  lemma SetThenAdderApplies(run: Run, rule: Rule, a: real, b: real, data: Data)
    requires Unconditional(rule, data.context) && rule.effects == SetThenAdd(a, b) && "t" !in run.acc.claimed
    ensures RunRule(run, rule, data).Ok?
    ensures RunRule(run, rule, data).value.acc.scalars == run.acc.scalars["t" := Num(a + b)]
  {
    var traces := SetThenAddApplies(run.acc, a, b, data);
    UnconditionalApplies(run, rule, data,
      run.acc.(scalars := run.acc.scalars["t" := Num(a + b)], claimed := run.acc.claimed["t" := 0]), traces);
  }

  lemma AdderApplies(run: Run, rule: Rule, start: real, b: real, data: Data)
    requires Unconditional(rule, data.context) && rule.effects == AddOnly(b)
    requires InitialValue(run.acc.scalars, data.context, "t") == Num(start)
    ensures RunRule(run, rule, data).Ok? && RunRule(run, rule, data).value.acc.claimed == run.acc.claimed
    ensures RunRule(run, rule, data).value.acc.scalars == run.acc.scalars["t" := Num(start + b)]
  {
    var traces := AddOnlyApplies(run.acc, start, b, data);
    UnconditionalApplies(run, rule, data, run.acc.(scalars := run.acc.scalars["t" := Num(start + b)]), traces);
  }

  /** From an accumulator that only holds the target, without a claim by the rule itself. */
  lemma AddsTo(run: Run, rule: Rule, start: real, b: real, data: Data)
    requires Unconditional(rule, data.context) && rule.effects == AddOnly(b) && run.acc.scalars == map["t" := Num(start)]
    ensures RunRule(run, rule, data).Ok?
    ensures RunRule(run, rule, data).value.acc.scalars == map["t" := Num(start + b)]
  {
    AdderApplies(run, rule, start, b, data);
    assert map["t" := Num(start)]["t" := Num(start + b)] == map["t" := Num(start + b)];
  }

  lemma SetsOver(run: Run, rule: Rule, a: real, b: real, data: Data)
    requires Unconditional(rule, data.context) && rule.effects == SetThenAdd(a, b) && "t" !in run.acc.claimed
    requires run.acc.scalars.Keys <= {"t"}
    ensures RunRule(run, rule, data).Ok?
    ensures RunRule(run, rule, data).value.acc.scalars == map["t" := Num(a + b)]
  {
    SetThenAdderApplies(run, rule, a, b, data);
    assert run.acc.scalars["t" := Num(a + b)] == map["t" := Num(a + b)];
  }

  /** Setting first, both amounts are added. */
  lemma SetsFirst(both: Rule, a: real, b: real, data: Data) returns (next: Run)
    requires Unconditional(both, data.context) && both.effects == SetThenAdd(a, b)
    ensures RunRule(START, both, data) == Ok(next) && next.acc.scalars == map["t" := Num(a + b)]
  {
    SetsOver(START, both, a, b, data);
    next := RunRule(START, both, data).value;
  }

  lemma AddsAfter(next: Run, one: Rule, start: real, b: real, data: Data) returns (last: Run)
    requires Unconditional(one, data.context) && one.effects == AddOnly(b) && next.acc.scalars == map["t" := Num(start)]
    ensures RunRule(next, one, data) == Ok(last) && last.acc.scalars == map["t" := Num(start + b)]
  {
    AddsTo(next, one, start, b, data);
    last := RunRule(next, one, data).value;
  }

  /** Two rules that run one after the other, whatever they are. */
  lemma TwoRulesTo(first: Rule, second: Rule, data: Data, next: Run, last: Run, scalars: Document)
    requires RunRule(START, first, data) == Ok(next) && RunRule(next, second, data) == Ok(last) && last.acc.scalars == scalars
    ensures RunRules(START, [first, second], data).Ok? && RunRules(START, [first, second], data).value.acc.scalars == scalars
  {
    TwoRules(first, second, data);
  }

  /** Adding first, the set discards the first amount. */
  lemma AddFirst(both: Rule, one: Rule, a: real, b: real, data: Data) returns (next: Run, last: Run)
    requires Unconditional(both, data.context) && both.effects == SetThenAdd(a, b)
    requires Unconditional(one, data.context) && one.effects == AddOnly(b) && "t" !in data.context
    ensures RunRule(START, one, data) == Ok(next) && RunRule(next, both, data) == Ok(last)
    ensures last.acc.scalars == map["t" := Num(a + b)]
  {
    AdderApplies(START, one, 0.0, b, data);
    next := RunRule(START, one, data).value;
    SetsOver(next, both, a, b, data);
    last := RunRule(next, both, data).value;
  }
}
