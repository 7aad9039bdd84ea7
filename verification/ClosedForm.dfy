/** Closed form of the scalar fold: the first matched SET wins, later amounts add to it, earlier ones are lost. */
module ClosedForm {
  import opened Prelude
  import opened Json
  import opened Evaluator
  import opened Rules
  import opened Sorting
  import opened Engine
  import opened EngineProofs
  import opened EffectFold

  function ResolvedOr(value: Json, data: Data): Json {
    match Resolve(value, data)
    case Ok(v) => v
    case Err(_) => Null
  }

  function NumberOr(value: Json): real {
    match Numeric(value)
    case Ok(n) => n
    case Err(_) => 0.0
  }

  /** The signed amount of an ADD or SUBTRACT. */
  function Amount(op: Op, data: Data): real {
    var n := NumberOr(ResolvedOr(op.value, data));
    if op.kind == AddEffect then n else -n
  }

  function Amounts(ops: seq<Op>): seq<Op> {
    Filter((op: Op) => op.kind != SetEffect, ops)
  }

  function Sum(ops: seq<Op>, data: Data): real {
    if ops == [] then 0.0 else Amount(ops[0], data) + Sum(ops[1..], data)
  }

  /** The index of the first SET, or the number of operations. */
  function FirstSet(ops: seq<Op>): (i: nat)
    ensures i <= |ops|
    ensures i < |ops| ==> ops[i].kind == SetEffect
    ensures forall j :: 0 <= j < i ==> ops[j].kind != SetEffect
  {
    if ops == [] || ops[0].kind == SetEffect then 0 else 1 + FirstSet(ops[1..])
  }

  /** A start value plus amounts; without amounts the start value itself, numeric or not. */
  function Plus(start: Json, amounts: seq<Op>, data: Data): Json {
    if amounts == [] then start else Num(NumberOr(start) + Sum(amounts, data))
  }

  function ContextOrZero(context: Document, target: string): Json {
    if target in context then context[target] else Num(0.0)
  }

  function FinalScalar(ops: seq<Op>, target: string, data: Data): Option<Json> {
    var i := FirstSet(ops);
    if i < |ops| then Some(Plus(ResolvedOr(ops[i].value, data), Amounts(ops[i + 1..]), data))
    else if ops == [] then None
    else Some(Plus(ContextOrZero(data.context, target), ops, data))
  }

  /** Adding the first amount and then the others is adding all of them. */
  lemma PlusStep(start: Json, op: Op, rest: seq<Op>, data: Data)
    ensures Plus(Num(NumberOr(start) + Amount(op, data)), rest, data) == Plus(start, [op] + rest, data)
  {
    assert ([op] + rest)[1..] == rest;
    var n := NumberOr(start) + Amount(op, data);
    assert NumberOr(Num(n)) == n;
    assert Sum([op] + rest, data) == Amount(op, data) + Sum(rest, data);
    assert NumberOr(start) + Sum([op] + rest, data) == n + Sum(rest, data);
    if rest == [] {
      assert Sum(rest, data) == 0.0;
    }
  }

  lemma {:induction false} FoldAfterSet(slot: Slot, ops: seq<Op>, target: string, data: Data)
    requires slot.claimedBy.Some? && slot.scalar.Some? && SlotFold(slot, ops, target, data).Ok?
    ensures SlotFold(slot, ops, target, data).value
         == Slot(Some(Plus(slot.scalar.value, Amounts(ops), data)), slot.claimedBy)
    decreases |ops|
  {
    if ops != [] {
      var next := SlotStep(slot, ops[0], target, data).value;
      FoldAfterSet(next, ops[1..], target, data);
      if ops[0].kind != SetEffect {
        assert Amounts(ops) == [ops[0]] + Amounts(ops[1..]);
        assert next.scalar == Some(Num(NumberOr(slot.scalar.value) + Amount(ops[0], data)));
        PlusStep(slot.scalar.value, ops[0], Amounts(ops[1..]), data);
      }
    }
  }

  lemma {:induction false} FoldWithoutSet(slot: Slot, ops: seq<Op>, target: string, data: Data)
    requires slot.claimedBy.None? && SlotFold(slot, ops, target, data).Ok?
    requires forall i :: 0 <= i < |ops| ==> ops[i].kind != SetEffect
    ensures SlotFold(slot, ops, target, data).value
         == if ops == [] then slot
            else Slot(Some(Plus(if slot.scalar.Some? then slot.scalar.value else ContextOrZero(data.context, target), ops, data)),
                      None)
    decreases |ops|
  {
    if ops != [] {
      var start := if slot.scalar.Some? then slot.scalar.value else ContextOrZero(data.context, target);
      var next := SlotStep(slot, ops[0], target, data).value;
      FoldWithoutSet(next, ops[1..], target, data);
      assert next.scalar == Some(Num(NumberOr(start) + Amount(ops[0], data)));
      PlusStep(start, ops[0], ops[1..], data);
      assert ops == [ops[0]] + ops[1..];
    }
  }

  lemma {:induction false} SlotFoldAppend(slot: Slot, a: seq<Op>, b: seq<Op>, target: string, data: Data)
    ensures SlotFold(slot, a + b, target, data)
         == (match SlotFold(slot, a, target, data) case Ok(mid) => SlotFold(mid, b, target, data) case Err(e) => Err(e))
    decreases |a|
  {
    if a == [] {
      assert a + b == b;
    } else {
      assert (a + b)[1..] == a[1..] + b;
      var next := SlotStep(slot, a[0], target, data);
      if next.Ok? {
        SlotFoldAppend(next.value, a[1..], b, target, data);
      }
    }
  }

  lemma SlotClosedForm(ops: seq<Op>, target: string, data: Data)
    requires SlotFold(EMPTY, ops, target, data).Ok?
    ensures var i := FirstSet(ops);
            SlotFold(EMPTY, ops, target, data).value
            == Slot(FinalScalar(ops, target, data), if i < |ops| then Some(ops[i].priority) else None)
  {
    var i := FirstSet(ops);
    if i == |ops| {
      FoldWithoutSet(EMPTY, ops, target, data);
    } else {
      assert ops == ops[..i] + ([ops[i]] + ops[i + 1..]);
      SlotFoldAppend(EMPTY, ops[..i], [ops[i]] + ops[i + 1..], target, data);
      FoldWithoutSet(EMPTY, ops[..i], target, data);
      var before := SlotFold(EMPTY, ops[..i], target, data).value;
      assert ([ops[i]] + ops[i + 1..])[1..] == ops[i + 1..];
      FoldAfterSet(SlotStep(before, ops[i], target, data).value, ops[i + 1..], target, data);
    }
  }

  predicate ByPriority(x: Op, y: Op) {
    x.priority >= y.priority
  }

  predicate PriorityLe(x: Rule, y: Rule) {
    x.priority >= y.priority
  }

  /** The operations one rule contributes to a target. */
  function RuleOps(rule: Rule, target: string, data: Data): seq<Op> {
    OpsOn(RuleSteps(rule, data), target)
  }

  lemma {:induction false} OpsOnAppend(a: seq<Step>, b: seq<Step>, target: string)
    ensures OpsOn(a + b, target) == OpsOn(a, target) + OpsOn(b, target)
  {
    if a == [] {
      assert a + b == b;
    } else {
      assert (a + b)[1..] == a[1..] + b;
      OpsOnAppend(a[1..], b, target);
    }
  }

  lemma {:induction false} ExecutedOps(rules: seq<Rule>, target: string, data: Data)
    ensures OpsOn(Executed(rules, data), target) == FlatMap((r: Rule) => RuleOps(r, target, data), rules)
  {
    if rules != [] {
      ExecutedOps(rules[1..], target, data);
      OpsOnAppend(RuleSteps(rules[0], data), Executed(rules[1..], data), target);
    }
  }

  lemma {:induction false} StepsCarryPriority(effects: seq<Json>, priority: int, target: string)
    ensures forall op :: op in OpsOn(StepsOf(effects, priority), target) ==> op.priority == priority
  {
    if effects != [] {
      StepsCarryPriority(effects[1..], priority, target);
      assert StepsOf(effects, priority)[1..] == StepsOf(effects[1..], priority);
    }
  }

  /** The operation comes from one of the rules, and carries that rule's priority. */
  ghost predicate Contributed(op: Op, rules: seq<Rule>, target: string, data: Data) {
    exists r :: r in rules && op in RuleOps(r, target, data) && op.priority == r.priority
  }

  lemma OpsAreContributed(rules: seq<Rule>, target: string, data: Data)
    ensures forall op :: op in FlatMap((r: Rule) => RuleOps(r, target, data), rules) ==> Contributed(op, rules, target, data)
  {
    var f := (r: Rule) => RuleOps(r, target, data);
    FlatMapMembers(f, rules);
    forall op: Op | op in FlatMap(f, rules) ensures Contributed(op, rules, target, data) {
      var r :| r in rules && op in f(r);
      StepsCarryPriority(r.effects, r.priority, target);
    }
  }

  lemma SortedConcat(a: seq<Op>, b: seq<Op>, priority: int)
    requires Sorted(ByPriority, b)
    requires forall op :: op in a ==> op.priority == priority
    requires forall op :: op in b ==> op.priority <= priority
    ensures Sorted(ByPriority, a + b)
  {
  }

  /** Rules in descending priority contribute operations in descending priority. */
  lemma {:induction false} OpsDescend(rules: seq<Rule>, target: string, data: Data)
    requires Sorted(PriorityLe, rules)
    ensures Sorted(ByPriority, FlatMap((r: Rule) => RuleOps(r, target, data), rules))
  {
    if rules != [] {
      var f := (r: Rule) => RuleOps(r, target, data);
      OpsDescend(rules[1..], target, data);
      OpsAreContributed(rules[1..], target, data);
      StepsCarryPriority(rules[0].effects, rules[0].priority, target);
      forall op: Op | op in FlatMap(f, rules[1..]) ensures op.priority <= rules[0].priority {
        assert Contributed(op, rules[1..], target, data);
        var r :| r in rules[1..] && op in RuleOps(r, target, data) && op.priority == r.priority;
        assert PriorityLe(rules[0], r);
      }
      SortedConcat(RuleOps(rules[0], target, data), FlatMap(f, rules[1..]), rules[0].priority);
    }
  }

  lemma OrderedRulesDescend(rules: seq<Rule>)
    ensures Sorted(PriorityLe, OrderedRules(rules))
  {
    RuleLeTotalPreorder();
    SortSorts(RuleLe, rules);
  }

  /** What the closed form says of a target's scalar and of the SET that decides it. */
  predicate InClosedForm(acc: Accumulated, ops: seq<Op>, target: string, data: Data) {
    var i := FirstSet(ops);
    && (target in acc.scalars <==> ops != [])
    && (target in acc.scalars ==> Some(acc.scalars[target]) == FinalScalar(ops, target, data))
    && (target in acc.claimed <==> i < |ops|)
    && (i < |ops| ==> acc.claimed[target] == ops[i].priority)
  }

  /** No SET has a higher priority than the first one. */
  predicate FirstSetLeads(ops: seq<Op>) {
    forall j :: 0 <= j < |ops| && ops[j].kind == SetEffect ==> ops[j].priority <= ops[FirstSet(ops)].priority
  }

  lemma DescendingFirstSetLeads(ops: seq<Op>)
    requires forall i, j :: 0 <= i < j < |ops| ==> ops[j].priority <= ops[i].priority
    ensures FirstSetLeads(ops)
  {
  }

  lemma SlotInClosedForm(acc: Accumulated, ops: seq<Op>, target: string, data: Data)
    requires SlotFold(EMPTY, ops, target, data) == Ok(SlotOf(acc, target))
    ensures InClosedForm(acc, ops, target, data)
  {
    SlotClosedForm(ops, target, data);
  }

  /** The scalar the engine reports for every target, and the priority of the SET that decides it: the first matched
      SET in priority order plus the amounts after it, or the context value (or zero) plus all amounts. No matched
      SET on the target has a higher priority than the surviving one. */
  lemma EngineClosedForm(rules: seq<Rule>, data: Data, target: string)
    requires RunEngine(rules, data).Ok?
    ensures var ops := OpsOn(Executed(OrderedRules(rules), data), target);
            && InClosedForm(RunEngine(rules, data).value.acc, ops, target, data)
            && FirstSetLeads(ops)
  {
    var ops := OpsOn(Executed(OrderedRules(rules), data), target);
    EngineSlot(rules, data, target);
    SlotInClosedForm(RunEngine(rules, data).value.acc, ops, target, data);
    EngineOpsDescend(rules, data, target);
    DescendingFirstSetLeads(ops);
  }

  /** The engine leaves each target with the slot of its own operations. */
  lemma EngineSlot(rules: seq<Rule>, data: Data, target: string)
    requires RunEngine(rules, data).Ok?
    ensures SlotFold(EMPTY, OpsOn(Executed(OrderedRules(rules), data), target), target, data)
         == Ok(SlotOf(RunEngine(rules, data).value.acc, target))
  {
    var ordered := OrderedRules(rules);
    RunIsFold(START, ordered, data);
    FoldByTarget(NOTHING, Executed(ordered, data), data);
    assert SlotOf(NOTHING, target) == EMPTY;
    assert SlotFold(SlotOf(NOTHING, target), OpsOn(Executed(ordered, data), target), target, data)
        == Ok(SlotOf(Fold(NOTHING, Executed(ordered, data), data).value, target));
  }

  lemma EngineOpsDescend(rules: seq<Rule>, data: Data, target: string)
    ensures var ops := OpsOn(Executed(OrderedRules(rules), data), target);
            forall i, j :: 0 <= i < j < |ops| ==> ops[j].priority <= ops[i].priority
  {
    var ordered := OrderedRules(rules);
    OrderedRulesDescend(rules);
    OpsDescend(ordered, target, data);
    ExecutedOps(ordered, target, data);
    var ops := OpsOn(Executed(ordered, data), target);
    forall i, j | 0 <= i < j < |ops| ensures ops[j].priority <= ops[i].priority {
      assert ByPriority(ops[i], ops[j]);
    }
  }
}
