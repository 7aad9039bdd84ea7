/** Equal-priority ties. What the engine leaves for a target depends on the order of tied rules exactly when it depends on
    the order of some two of them, and for two effects that is decided by their kinds and values. */
module Ties {
  import opened Prelude
  import opened Json
  import opened Evaluator
  import opened Rules
  import opened Sorting
  import opened Engine
  import opened EffectFold
  import opened ClosedForm

  /** What operations leave for a target that nothing has touched: a scalar or none; None where one of them raises. */
  function Left(ops: seq<Op>, target: string, data: Data): Option<Option<Json>> {
    match SlotFold(EMPTY, ops, target, data)
    case Ok(slot) => Some(slot.scalar)
    case Err(_) => None
  }

  function OpsOfRule(target: string, data: Data): Rule -> seq<Op> {
    (r: Rule) => RuleOps(r, target, data)
  }

  /** What going through the rules in this order leaves for the target. */
  function Outcome(rules: seq<Rule>, target: string, data: Data): Option<Option<Json>> {
    Left(FlatMap(OpsOfRule(target, data), rules), target, data)
  }

  /** Neither order of the two rules by themselves makes a difference to the target. */
  predicate Commute(x: Rule, y: Rule, target: string, data: Data) {
    Left(RuleOps(x, target, data) + RuleOps(y, target, data), target, data)
    == Left(RuleOps(y, target, data) + RuleOps(x, target, data), target, data)
  }

  ghost predicate TiesCommute(rules: seq<Rule>, target: string, data: Data) {
    forall x, y :: x in rules && y in rules && x.priority == y.priority ==> Commute(x, y, target, data)
  }

  /** Two orders of the same rules that both descend in priority. */
  ghost predicate Rearranged(a: seq<Rule>, b: seq<Rule>) {
    multiset(a) == multiset(b) && Sorted(PriorityLe, a) && Sorted(PriorityLe, b)
  }

  // ---- folds that no order changes ----

  predicate Same(a: Result<Slot>, b: Result<Slot>) {
    (a.Ok? <==> b.Ok?) && (a.Ok? ==> a.value == b.value)
  }

  predicate HasSet(ops: seq<Op>) {
    exists i :: 0 <= i < |ops| && ops[i].kind == SetEffect
  }

  predicate IsNumber(op: Op, data: Data) {
    Resolve(op.value, data).Ok? && Numeric(Resolve(op.value, data).value).Ok?
  }

  predicate AllNumbers(ops: seq<Op>, data: Data) {
    forall i :: 0 <= i < |ops| ==> IsNumber(ops[i], data)
  }

  /** Where no SET takes effect, the amounts add up and nothing else happens. */
  lemma {:induction false} InertFold(slot: Slot, ops: seq<Op>, target: string, data: Data)
    requires slot.claimedBy.Some? || !HasSet(ops)
    ensures var start := StartOf(slot, target, data.context);
            && (SlotFold(slot, ops, target, data).Ok?
                <==> Amounts(ops) == [] || (Numeric(start).Ok? && AllNumbers(Amounts(ops), data)))
            && (SlotFold(slot, ops, target, data).Ok? ==>
                  SlotFold(slot, ops, target, data).value
                  == if Amounts(ops) == [] then slot else slot.(scalar := Some(Num(NumberOr(start) + Sum(Amounts(ops), data)))))
    decreases |ops|
  {
    if ops != [] {
      assert ops[0].kind == SetEffect ==> HasSet(ops);
      assert HasSet(ops[1..]) ==> HasSet(ops) by {
        if HasSet(ops[1..]) {
          var i :| 0 <= i < |ops[1..]| && ops[1..][i].kind == SetEffect;
          assert ops[i + 1].kind == SetEffect;
        }
      }
      if ops[0].kind == SetEffect {
        InertFold(slot, ops[1..], target, data);
      } else {
        InertStep(slot, ops, target, data);
      }
    }
  }

  lemma AmountStep(slot: Slot, op: Op, target: string, data: Data)
    requires op.kind != SetEffect
    ensures var start := StartOf(slot, target, data.context);
            && (SlotStep(slot, op, target, data).Ok? <==> Numeric(start).Ok? && IsNumber(op, data))
            && (SlotStep(slot, op, target, data).Ok? ==>
                  SlotStep(slot, op, target, data).value == slot.(scalar := Some(Num(NumberOr(start) + Amount(op, data)))))
  {
  }

  lemma AllNumbersFirst(op: Op, rest: seq<Op>, data: Data)
    ensures AllNumbers([op] + rest, data) <==> IsNumber(op, data) && AllNumbers(rest, data)
  {
    var all := [op] + rest;
    if AllNumbers(all, data) {
      assert all[0] == op;
      forall i | 0 <= i < |rest| ensures IsNumber(rest[i], data) {
        assert all[i + 1] == rest[i];
      }
    }
  }

  lemma {:induction false} InertStep(slot: Slot, ops: seq<Op>, target: string, data: Data)
    requires ops != [] && ops[0].kind != SetEffect && (slot.claimedBy.Some? || !HasSet(ops[1..]))
    ensures var start := StartOf(slot, target, data.context);
            && (SlotFold(slot, ops, target, data).Ok? <==> Numeric(start).Ok? && AllNumbers(Amounts(ops), data))
            && (SlotFold(slot, ops, target, data).Ok? ==>
                  SlotFold(slot, ops, target, data).value
                  == slot.(scalar := Some(Num(NumberOr(start) + Sum(Amounts(ops), data)))))
            && Amounts(ops) != []
    decreases |ops|, 0
  {
    var start := StartOf(slot, target, data.context);
    AmountStep(slot, ops[0], target, data);
    assert Amounts(ops) == [ops[0]] + Amounts(ops[1..]);
    AllNumbersFirst(ops[0], Amounts(ops[1..]), data);
    assert Amounts(ops)[1..] == Amounts(ops[1..]);
    var next := SlotStep(slot, ops[0], target, data);
    if next.Ok? {
      InertFold(next.value, ops[1..], target, data);
      assert NumberOr(Num(NumberOr(start) + Amount(ops[0], data))) == NumberOr(start) + Amount(ops[0], data);
    }
  }

  lemma {:induction false} SumAppend(a: seq<Op>, b: seq<Op>, data: Data)
    ensures Sum(a + b, data) == Sum(a, data) + Sum(b, data)
  {
    if a == [] {
      assert a + b == b;
    } else {
      assert (a + b)[1..] == a[1..] + b;
      SumAppend(a[1..], b, data);
    }
  }

  lemma AllNumbersAppend(a: seq<Op>, b: seq<Op>, data: Data)
    ensures AllNumbers(a + b, data) <==> AllNumbers(a, data) && AllNumbers(b, data)
  {
    if AllNumbers(a + b, data) {
      forall i | 0 <= i < |a| ensures IsNumber(a[i], data) {
        assert (a + b)[i] == a[i];
      }
      forall i | 0 <= i < |b| ensures IsNumber(b[i], data) {
        assert (a + b)[|a| + i] == b[i];
      }
    }
  }

  lemma HasSetAppend(a: seq<Op>, b: seq<Op>)
    ensures HasSet(a + b) <==> HasSet(a) || HasSet(b)
  {
    if HasSet(a) {
      var i :| 0 <= i < |a| && a[i].kind == SetEffect;
      assert (a + b)[i].kind == SetEffect;
    }
    if HasSet(b) {
      var i :| 0 <= i < |b| && b[i].kind == SetEffect;
      assert (a + b)[|a| + i].kind == SetEffect;
    }
    if HasSet(a + b) {
      var i :| 0 <= i < |a + b| && (a + b)[i].kind == SetEffect;
      assert if i < |a| then a[i].kind == SetEffect else b[i - |a|].kind == SetEffect;
    }
  }

  /** Amounts commute: sums do not depend on the order. */
  lemma InertSwap(slot: Slot, x: seq<Op>, y: seq<Op>, target: string, data: Data)
    requires slot.claimedBy.Some? || (!HasSet(x) && !HasSet(y))
    ensures Same(SlotFold(slot, x + y, target, data), SlotFold(slot, y + x, target, data))
  {
    HasSetAppend(x, y);
    HasSetAppend(y, x);
    InertFold(slot, x + y, target, data);
    InertFold(slot, y + x, target, data);
    FilterAppend((op: Op) => op.kind != SetEffect, x, y);
    FilterAppend((op: Op) => op.kind != SetEffect, y, x);
    assert Amounts(x + y) == Amounts(x) + Amounts(y) && Amounts(y + x) == Amounts(y) + Amounts(x);
    SumAppend(Amounts(x), Amounts(y), data);
    SumAppend(Amounts(y), Amounts(x), data);
    AllNumbersAppend(Amounts(x), Amounts(y), data);
    AllNumbersAppend(Amounts(y), Amounts(x), data);
  }

  // ---- from one pair to every order ----

  /** A slot as operations on an untouched target leave it: without a claim it is untouched, or holds a number, the context
      having given a number to add to. */
  predicate Fits(slot: Slot, target: string, data: Data) {
    slot.claimedBy.Some? || slot == EMPTY
    || (slot.scalar.Some? && Numeric(slot.scalar.value).Ok? && Numeric(ContextOrZero(data.context, target)).Ok?)
  }

  lemma {:induction false} FoldFits(slot: Slot, ops: seq<Op>, target: string, data: Data)
    requires Fits(slot, target, data) && SlotFold(slot, ops, target, data).Ok?
    ensures Fits(SlotFold(slot, ops, target, data).value, target, data)
    decreases |ops|
  {
    if ops != [] {
      FoldFits(SlotStep(slot, ops[0], target, data).value, ops[1..], target, data);
    }
  }

  /** Once a SET takes effect, what was there before does not show. */
  lemma {:induction false} SetHidesStart(a: Slot, b: Slot, ops: seq<Op>, target: string, data: Data)
    requires a.claimedBy.None? && b.claimedBy.None? && HasSet(ops)
    requires Numeric(StartOf(a, target, data.context)).Ok? && Numeric(StartOf(b, target, data.context)).Ok?
    ensures Same(SlotFold(a, ops, target, data), SlotFold(b, ops, target, data))
    decreases |ops|
  {
    if ops[0].kind == SetEffect {
      assert SlotStep(a, ops[0], target, data) == SlotStep(b, ops[0], target, data);
    } else {
      AmountStep(a, ops[0], target, data);
      AmountStep(b, ops[0], target, data);
      var i :| 0 <= i < |ops| && ops[i].kind == SetEffect;
      assert ops[1..][i - 1].kind == SetEffect;
      var nextA, nextB := SlotStep(a, ops[0], target, data), SlotStep(b, ops[0], target, data);
      if nextA.Ok? {
        SetHidesStart(nextA.value, nextB.value, ops[1..], target, data);
      }
    }
  }

  lemma FirstSetIffHasSet(ops: seq<Op>)
    ensures FirstSet(ops) < |ops| <==> HasSet(ops)
  {
  }

  /** Commuting operations of one priority leave the same slot in either order, the claim included. */
  lemma CommuteFromStart(x: seq<Op>, y: seq<Op>, priority: int, target: string, data: Data)
    requires forall op :: op in x || op in y ==> op.priority == priority
    requires Left(x + y, target, data) == Left(y + x, target, data)
    ensures Same(SlotFold(EMPTY, x + y, target, data), SlotFold(EMPTY, y + x, target, data))
  {
    if SlotFold(EMPTY, x + y, target, data).Ok? {
      SlotClosedForm(x + y, target, data);
      SlotClosedForm(y + x, target, data);
      HasSetAppend(x, y);
      HasSetAppend(y, x);
      FirstSetIffHasSet(x + y);
      FirstSetIffHasSet(y + x);
      if HasSet(x + y) {
        assert (x + y)[FirstSet(x + y)] in x + y && (y + x)[FirstSet(y + x)] in y + x;
      }
    }
  }

  /** What commutes on an untouched target commutes on every slot the engine can have reached. */
  lemma CommuteEverywhere(slot: Slot, x: seq<Op>, y: seq<Op>, priority: int, target: string, data: Data)
    requires Fits(slot, target, data) && forall op :: op in x || op in y ==> op.priority == priority
    requires Left(x + y, target, data) == Left(y + x, target, data)
    ensures Same(SlotFold(slot, x + y, target, data), SlotFold(slot, y + x, target, data))
  {
    if slot.claimedBy.Some? || (!HasSet(x) && !HasSet(y)) {
      InertSwap(slot, x, y, target, data);
    } else {
      CommuteFromStart(x, y, priority, target, data);
      if slot != EMPTY {
        HasSetAppend(x, y);
        HasSetAppend(y, x);
        assert StartOf(EMPTY, target, data.context) == ContextOrZero(data.context, target);
        SetHidesStart(slot, EMPTY, x + y, target, data);
        SetHidesStart(slot, EMPTY, y + x, target, data);
      }
    }
  }

  function RulesFold(slot: Slot, rules: seq<Rule>, target: string, data: Data): Result<Slot> {
    SlotFold(slot, FlatMap(OpsOfRule(target, data), rules), target, data)
  }

  /** Going on with more rules, unless something has raised. */
  function Onward(mid: Result<Slot>, rules: seq<Rule>, target: string, data: Data): Result<Slot> {
    if mid.Ok? then RulesFold(mid.value, rules, target, data) else mid
  }

  lemma RulesFoldAppend(slot: Slot, a: seq<Rule>, b: seq<Rule>, target: string, data: Data)
    ensures RulesFold(slot, a + b, target, data)
         == Onward(RulesFold(slot, a, target, data), b, target, data)
  {
    var f := OpsOfRule(target, data);
    FlatMapAppend(f, a, b);
    SlotFoldAppend(slot, FlatMap(f, a), FlatMap(f, b), target, data);
  }

  lemma FlatMapTwo(x: Rule, y: Rule, target: string, data: Data)
    ensures FlatMap(OpsOfRule(target, data), [x, y]) == RuleOps(x, target, data) + RuleOps(y, target, data)
  {
    var f := OpsOfRule(target, data);
    assert [x, y][1..] == [y] && [y][1..] == [];
    assert FlatMap(f, [y]) == f(y) + [];
  }

  lemma RuleOpsCarryPriority(rule: Rule, target: string, data: Data)
    ensures forall op :: op in RuleOps(rule, target, data) ==> op.priority == rule.priority
  {
    StepsCarryPriority(rule.effects, rule.priority, target);
  }

  /** Swapping two neighbours that tie and commute makes no difference. */
  lemma NeighboursSwap(slot: Slot, before: seq<Rule>, x: Rule, y: Rule, after: seq<Rule>, target: string, data: Data)
    requires Fits(slot, target, data) && x.priority == y.priority && Commute(x, y, target, data)
    ensures Same(RulesFold(slot, before + [x, y] + after, target, data), RulesFold(slot, before + [y, x] + after, target, data))
  {
    RulesFoldAppend(slot, before + [x, y], after, target, data);
    RulesFoldAppend(slot, before + [y, x], after, target, data);
    RulesFoldAppend(slot, before, [x, y], target, data);
    RulesFoldAppend(slot, before, [y, x], target, data);
    var mid := RulesFold(slot, before, target, data);
    if mid.Ok? {
      FoldFits(slot, FlatMap(OpsOfRule(target, data), before), target, data);
      FlatMapTwo(x, y, target, data);
      FlatMapTwo(y, x, target, data);
      RuleOpsCarryPriority(x, target, data);
      RuleOpsCarryPriority(y, target, data);
      CommuteEverywhere(mid.value, RuleOps(x, target, data), RuleOps(y, target, data), x.priority, target, data);
    }
  }

  /** The rule at i has changed places with the one before it. */
  function OneForward(rules: seq<Rule>, i: nat): (r: seq<Rule>)
    requires 0 < i < |rules|
    ensures |r| == |rules| && r[i - 1] == rules[i] && r[i] == rules[i - 1]
    ensures forall j :: 0 <= j < |rules| && j != i - 1 && j != i ==> r[j] == rules[j]
  {
    rules[..i - 1] + [rules[i], rules[i - 1]] + rules[i + 1..]
  }

  lemma OneForwardSame(slot: Slot, rules: seq<Rule>, i: nat, target: string, data: Data)
    requires Fits(slot, target, data) && 0 < i < |rules|
    requires rules[i - 1].priority == rules[i].priority && Commute(rules[i - 1], rules[i], target, data)
    ensures Same(RulesFold(slot, rules, target, data), RulesFold(slot, OneForward(rules, i), target, data))
  {
    Around(rules, i);
    NeighboursSwap(slot, rules[..i - 1], rules[i - 1], rules[i], rules[i + 1..], target, data);
  }

  lemma Around<T>(s: seq<T>, i: nat)
    requires 0 < i < |s|
    ensures s == s[..i - 1] + [s[i - 1], s[i]] + s[i + 1..]
  {
  }

  function FrontedAt(rules: seq<Rule>, i: nat): seq<Rule>
    requires i < |rules|
  {
    [rules[i]] + (rules[..i] + rules[i + 1..])
  }

  lemma FrontedForward(rules: seq<Rule>, i: nat)
    requires 0 < i < |rules|
    ensures FrontedAt(OneForward(rules, i), i - 1) == FrontedAt(rules, i)
  {
    var moved := OneForward(rules, i);
    assert moved[..i - 1] == rules[..i - 1];
    assert moved[i..] == [rules[i - 1]] + rules[i + 1..];
    assert rules[..i] == rules[..i - 1] + [rules[i - 1]];
  }

  /** A rule moves to the front past rules it ties with. */
  lemma {:induction false} MoveToFront(slot: Slot, rules: seq<Rule>, i: nat, target: string, data: Data)
    requires Fits(slot, target, data) && i < |rules|
    requires forall j :: 0 <= j < i ==> rules[j].priority == rules[i].priority && Commute(rules[j], rules[i], target, data)
    ensures Same(RulesFold(slot, rules, target, data), RulesFold(slot, FrontedAt(rules, i), target, data))
    decreases i
  {
    if i == 0 {
      assert rules == FrontedAt(rules, 0);
    } else {
      OneForwardSame(slot, rules, i, target, data);
      MoveToFront(slot, OneForward(rules, i), i - 1, target, data);
      FrontedForward(rules, i);
    }
  }

  lemma RestDescends(rules: seq<Rule>, i: nat)
    requires Sorted(PriorityLe, rules) && i < |rules|
    ensures Sorted(PriorityLe, rules[..i] + rules[i + 1..])
  {
  }

  lemma FirstTiesBefore(a: seq<Rule>, b: seq<Rule>, i: nat)
    requires Rearranged(a, b) && a != [] && i < |b| && b[i] == a[0]
    ensures forall j :: 0 <= j < i ==> b[j] in a && b[j].priority == a[0].priority
  {
    forall j | 0 <= j < i ensures b[j] in a && b[j].priority == a[0].priority {
      assert b[j] in multiset(a);
      assert PriorityLe(b[j], b[i]);
      var k :| 0 <= k < |a| && a[k] == b[j];
    }
  }

  lemma StartWith(slot: Slot, first: Rule, rest: seq<Rule>, target: string, data: Data)
    ensures RulesFold(slot, [first] + rest, target, data)
         == Onward(SlotFold(slot, RuleOps(first, target, data), target, data), rest, target, data)
  {
    RulesFoldAppend(slot, [first], rest, target, data);
    var f := OpsOfRule(target, data);
    assert [first][1..] == [];
    assert FlatMap(f, [first]) == f(first) + [] == f(first);
  }

  /** Rules whose ties commute leave the same slot in every order that descends in priority. */
  lemma {:induction false} OrderIrrelevant(slot: Slot, a: seq<Rule>, b: seq<Rule>, target: string, data: Data)
    requires Fits(slot, target, data) && Rearranged(a, b) && TiesCommute(a, target, data)
    ensures Same(RulesFold(slot, a, target, data), RulesFold(slot, b, target, data))
    decreases |a|
  {
    if a == [] {
      assert |multiset(b)| == 0;
    } else {
      var i := PickFirst(a, b);
      var rest := b[..i] + b[i + 1..];
      FirstTiesBefore(a, b, i);
      MoveToFront(slot, b, i, target, data);
      assert a == [a[0]] + a[1..];
      var mid := SlotFold(slot, RuleOps(a[0], target, data), target, data);
      if mid.Ok? {
        FoldFits(slot, RuleOps(a[0], target, data), target, data);
        RestDescends(b, i);
        OrderIrrelevant(mid.value, a[1..], rest, target, data);
      }
      SameStart(slot, a[0], a[1..], rest, mid, target, data);
    }
  }

  lemma SameStart(slot: Slot, first: Rule, a: seq<Rule>, b: seq<Rule>, mid: Result<Slot>, target: string, data: Data)
    requires mid == SlotFold(slot, RuleOps(first, target, data), target, data)
    requires mid.Ok? ==> Same(RulesFold(mid.value, a, target, data), RulesFold(mid.value, b, target, data))
    ensures Same(RulesFold(slot, [first] + a, target, data), RulesFold(slot, [first] + b, target, data))
  {
    StartWith(slot, first, a, target, data);
    StartWith(slot, first, b, target, data);
  }

  /** The rules are chosen from the given ones. */
  predicate ChosenFrom(chosen: seq<Rule>, rules: seq<Rule>) {
    forall r :: r in chosen ==> r in rules
  }

  /** No order of any of the rules makes a difference to the target. */
  ghost predicate OrderFree(rules: seq<Rule>, target: string, data: Data) {
    forall a, b :: ChosenFrom(a, rules) && Rearranged(a, b) ==> Outcome(a, target, data) == Outcome(b, target, data)
  }

  lemma CommutingIsOrderFree(rules: seq<Rule>, target: string, data: Data)
    requires TiesCommute(rules, target, data)
    ensures OrderFree(rules, target, data)
  {
    forall a, b | ChosenFrom(a, rules) && Rearranged(a, b) ensures Outcome(a, target, data) == Outcome(b, target, data) {
      OrderIrrelevant(EMPTY, a, b, target, data);
    }
  }

  lemma OutcomeOfTwo(x: Rule, y: Rule, target: string, data: Data)
    ensures Outcome([x, y], target, data) == Outcome([y, x], target, data) <==> Commute(x, y, target, data)
  {
    FlatMapTwo(x, y, target, data);
    FlatMapTwo(y, x, target, data);
  }

  lemma TwoRearranged(x: Rule, y: Rule)
    requires x.priority == y.priority
    ensures Rearranged([x, y], [y, x])
  {
  }

  /** The order of tied rules never matters to a target, whichever of the rules take part, exactly when it matters for no two
      tied rules by themselves. */
  lemma OrderFreeExactly(rules: seq<Rule>, target: string, data: Data)
    ensures OrderFree(rules, target, data) <==> TiesCommute(rules, target, data)
  {
    if TiesCommute(rules, target, data) {
      CommutingIsOrderFree(rules, target, data);
    }
    if OrderFree(rules, target, data) {
      forall x, y | x in rules && y in rules && x.priority == y.priority ensures Commute(x, y, target, data) {
        TwoRearranged(x, y);
        OutcomeOfTwo(x, y, target, data);
        assert ChosenFrom([x, y], rules);
      }
    }
  }

  // ---- two effects ----

  predicate SameValue(x: Op, y: Op, data: Data) {
    (Resolve(x.value, data).Ok? <==> Resolve(y.value, data).Ok?)
    && (Resolve(x.value, data).Ok? ==> Resolve(x.value, data) == Resolve(y.value, data))
  }

  /** Setting and adding in either order: both raise, or the SET gives a number, there is a number to add to, and the amount
      is zero. */
  predicate AddsNothing(set_: Op, amount: Op, target: string, data: Data) {
    || Resolve(set_.value, data).Err? || !IsNumber(amount, data)
    || (if Numeric(ContextOrZero(data.context, target)).Ok?
        then ResolvedOr(set_.value, data).Num? && Amount(amount, data) == 0.0
        else !IsNumber(set_, data))
  }

  /** The order of two effects on a target is indifferent: both are amounts, both set the same value, or one sets a number
      and the other adds nothing. */
  predicate Indifferent(x: Op, y: Op, target: string, data: Data) {
    if x.kind != SetEffect && y.kind != SetEffect then true
    else if x.kind == SetEffect && y.kind == SetEffect then SameValue(x, y, data)
    else if x.kind == SetEffect then AddsNothing(x, y, target, data)
    else AddsNothing(y, x, target, data)
  }

  lemma FoldTwo(x: Op, y: Op, target: string, data: Data)
    ensures var mid := SlotStep(EMPTY, x, target, data);
            SlotFold(EMPTY, [x] + [y], target, data) == if mid.Ok? then SlotStep(mid.value, y, target, data) else mid
  {
    assert ([x] + [y])[1..] == [y] && [y][1..] == [];
    var mid := SlotStep(EMPTY, x, target, data);
    if mid.Ok? {
      var last := SlotStep(mid.value, y, target, data);
      assert last.Ok? ==> SlotFold(last.value, [], target, data) == last;
      assert SlotFold(mid.value, [y], target, data) == last;
    }
  }

  lemma SetThenAmount(set_: Op, amount: Op, target: string, data: Data)
    requires set_.kind == SetEffect && amount.kind != SetEffect
    ensures Left([set_] + [amount], target, data)
         == (if IsNumber(set_, data) && IsNumber(amount, data)
             then Some(Some(Num(NumberOr(ResolvedOr(set_.value, data)) + Amount(amount, data)))) else None)
  {
    FoldTwo(set_, amount, target, data);
    if Resolve(set_.value, data).Ok? {
      AmountStep(Slot(Some(Resolve(set_.value, data).value), Some(set_.priority)), amount, target, data);
    }
  }

  lemma AmountThenSet(set_: Op, amount: Op, target: string, data: Data)
    requires set_.kind == SetEffect && amount.kind != SetEffect
    ensures Left([amount] + [set_], target, data)
         == (if Numeric(ContextOrZero(data.context, target)).Ok? && IsNumber(amount, data) && Resolve(set_.value, data).Ok?
             then Some(Some(ResolvedOr(set_.value, data))) else None)
  {
    FoldTwo(amount, set_, target, data);
    AmountStep(EMPTY, amount, target, data);
  }

  lemma SetAndAmountExactly(set_: Op, amount: Op, target: string, data: Data)
    requires set_.kind == SetEffect && amount.kind != SetEffect
    ensures Left([set_] + [amount], target, data) == Left([amount] + [set_], target, data)
            <==> AddsNothing(set_, amount, target, data)
  {
    SetThenAmount(set_, amount, target, data);
    AmountThenSet(set_, amount, target, data);
  }

  lemma TwoSetsExactly(x: Op, y: Op, target: string, data: Data)
    requires x.kind == SetEffect && y.kind == SetEffect
    ensures Left([x] + [y], target, data) == Left([y] + [x], target, data) <==> SameValue(x, y, data)
  {
    FoldTwo(x, y, target, data);
    FoldTwo(y, x, target, data);
  }

  /** For two effects on a target, the order matters exactly when they are not indifferent. */
  lemma TwoEffectsExactly(x: Op, y: Op, target: string, data: Data)
    ensures Left([x] + [y], target, data) == Left([y] + [x], target, data) <==> Indifferent(x, y, target, data)
  {
    if x.kind != SetEffect && y.kind != SetEffect {
      InertSwap(EMPTY, [x], [y], target, data);
    } else if x.kind == SetEffect && y.kind == SetEffect {
      TwoSetsExactly(x, y, target, data);
    } else if x.kind == SetEffect {
      SetAndAmountExactly(x, y, target, data);
    } else {
      SetAndAmountExactly(y, x, target, data);
    }
  }

  // ---- effects alone, whatever the data ----

  /** Two rules do different things to a target, at least one of them setting it. */
  predicate Contest(x: seq<Op>, y: seq<Op>) {
    x != [] && y != [] && x != y && (HasSet(x) || HasSet(y))
  }

  /** What a rule does to a target when it fires. */
  function EffectOps(rule: Rule, target: string): seq<Op> {
    OpsOn(StepsOf(rule.effects, rule.priority), target)
  }

  ghost predicate Clash(x: Rule, y: Rule) {
    exists target :: Contest(EffectOps(x, target), EffectOps(y, target))
  }

  /** Rules whose order matters to a target on some data apply together there, and contest the target. */
  lemma OrderMattersByContest(x: Rule, y: Rule, target: string, data: Data)
    requires !Commute(x, y, target, data)
    ensures Fires(x, data) && Fires(y, data) && Contest(EffectOps(x, target), EffectOps(y, target))
  {
    var ox, oy := RuleOps(x, target, data), RuleOps(y, target, data);
    assert ox == [] ==> ox + oy == oy && oy + ox == oy;
    assert oy == [] ==> ox + oy == ox && oy + ox == ox;
    if !HasSet(ox) && !HasSet(oy) {
      InertSwap(EMPTY, ox, oy, target, data);
    }
  }

  predicate Literal(op: Op) {
    !IsExpression(op.value)
  }

  predicate BadAmount(op: Op) {
    op.kind != SetEffect && Numeric(op.value).Err?
  }

  function InContext(target: string, value: Json): Data {
    Data([], [], map[target := value], map[])
  }

  lemma BadText()
    ensures Numeric(Str("x")).Err?
  {
    assert ParseDecimal("x").None?;
  }

  lemma ContestedSomewhere(set_: Op, amount: Op, target: string) returns (data: Data)
    requires Literal(set_) && Literal(amount) && set_.kind == SetEffect && amount.kind != SetEffect && !BadAmount(amount)
    ensures !AddsNothing(set_, amount, target, data)
  {
    BadText();
    data := InContext(target, if Numeric(set_.value).Ok? then Str("x") else Num(0.0));
    assert Resolve(set_.value, data) == Ok(set_.value) && Resolve(amount.value, data) == Ok(amount.value);
    assert ContextOrZero(data.context, target) == if Numeric(set_.value).Ok? then Str("x") else Num(0.0);
  }

  /** For literal effects, the order never matters, whatever the data, exactly when the target is not contested or one of
      them is an amount that always raises. */
  lemma LiteralsExactly(x: Op, y: Op, target: string)
    requires Literal(x) && Literal(y) && x.priority == y.priority
    requires x.kind in {SetEffect, AddEffect, SubtractEffect} && y.kind in {SetEffect, AddEffect, SubtractEffect}
    ensures (forall data: Data :: Left([x] + [y], target, data) == Left([y] + [x], target, data))
            <==> !Contest([x], [y]) || BadAmount(x) || BadAmount(y)
  {
    assert HasSet([x]) <==> x.kind == SetEffect by { assert [x][0] == x; }
    assert HasSet([y]) <==> y.kind == SetEffect by { assert [y][0] == y; }
    assert [x] == [y] <==> x == y by { assert [x][0] == x && [y][0] == y; }
    if !Contest([x], [y]) || BadAmount(x) || BadAmount(y) {
      forall data: Data ensures Left([x] + [y], target, data) == Left([y] + [x], target, data) {
        TwoEffectsExactly(x, y, target, data);
      }
    } else {
      var data := InContext(target, Null);
      if x.kind == SetEffect && y.kind != SetEffect {
        data := ContestedSomewhere(x, y, target);
      } else if y.kind == SetEffect && x.kind != SetEffect {
        data := ContestedSomewhere(y, x, target);
      }
      TwoEffectsExactly(x, y, target, data);
    }
  }

  // ---- what the effect map shows ----

  /** The last effect on the target is the one at i. */
  predicate LastEffectOn(effects: seq<Json>, target: string, i: nat) {
    i < |effects| && Targets(effects[i], target) && forall j :: i < j < |effects| ==> !Targets(effects[j], target)
  }

  /** The only effect on the target is the one at i. */
  predicate OnlyEffectOn(effects: seq<Json>, target: string, i: nat) {
    && i < |effects| && Targets(effects[i], target)
    && forall j :: 0 <= j < |effects| && Targets(effects[j], target) ==> j == i
  }

  predicate Targets(effect: Json, target: string) {
    effect.Obj? && Get(effect.fields, "target") == Str(target)
  }

  /** The effect map holds type and value of the last effect on a target, and nothing for a target without effects. */
  lemma {:induction false} EffectMapRecords(effects: seq<Json>, target: string, i: nat)
    ensures LastEffectOn(effects, target, i) ==>
              target in EffectMap(effects)
              && EffectMap(effects)[target] == (Get(effects[i].fields, "type"), Get(effects[i].fields, "value"))
    ensures (forall j :: 0 <= j < |effects| ==> !Targets(effects[j], target)) ==> target !in EffectMap(effects)
    decreases |effects|
  {
    if effects != [] {
      var n := |effects| - 1;
      assert forall j :: 0 <= j < n ==> effects[..n][j] == effects[j];
      if !Targets(effects[n], target) {
        EffectMapRecords(effects[..n], target, i);
        assert LastEffectOn(effects, target, i) ==> LastEffectOn(effects[..n], target, i);
      }
    }
  }

  /** The last effects of both on the target differ in type or value. */
  ghost predicate LastDiffer(left: seq<Json>, right: seq<Json>, target: string) {
    exists i: nat, j: nat ::
      LastEffectOn(left, target, i) && LastEffectOn(right, target, j)
      && (Get(left[i].fields, "type") != Get(right[j].fields, "type")
          || Get(left[i].fields, "value") != Get(right[j].fields, "value"))
  }

  /** Effects disagree for the guard exactly when the last effects on some target differ. */
  lemma DisagreeExactly(left: seq<Json>, right: seq<Json>)
    ensures EffectsDisagree(left, right) <==> exists target :: LastDiffer(left, right, target)
  {
    if target :| LastDiffer(left, right, target) {
      var i: nat, j: nat :|
        LastEffectOn(left, target, i) && LastEffectOn(right, target, j)
        && (Get(left[i].fields, "type") != Get(right[j].fields, "type")
            || Get(left[i].fields, "value") != Get(right[j].fields, "value"));
      EffectMapRecords(left, target, i);
      EffectMapRecords(right, target, j);
    }
    if EffectsDisagree(left, right) {
      var target :| target in EffectMap(left) && target in EffectMap(right) && EffectMap(left)[target] != EffectMap(right)[target];
      var i := LastTargeting(left, target);
      var j := LastTargeting(right, target);
      EffectMapRecords(left, target, i);
      EffectMapRecords(right, target, j);
      assert LastDiffer(left, right, target);
    }
  }

  lemma {:induction false} LastTargeting(effects: seq<Json>, target: string) returns (i: nat)
    requires target in EffectMap(effects)
    ensures LastEffectOn(effects, target, i)
  {
    var n := |effects| - 1;
    if Targets(effects[n], target) {
      i := n;
    } else {
      i := LastTargeting(effects[..n], target);
      assert forall j :: 0 <= j < n ==> effects[..n][j] == effects[j];
    }
  }

  lemma {:induction false} UntouchedOps(effects: seq<Json>, priority: int, target: string)
    requires forall j :: 0 <= j < |effects| ==> !Targets(effects[j], target)
    ensures OpsOn(StepsOf(effects, priority), target) == []
  {
    if effects != [] {
      assert !Targets(effects[0], target);
      assert StepsOf(effects, priority)[1..] == StepsOf(effects[1..], priority);
      UntouchedOps(effects[1..], priority, target);
    }
  }

  lemma {:induction false} OnlyOp(effects: seq<Json>, priority: int, target: string, i: nat)
    requires OnlyEffectOn(effects, target, i)
    ensures var step := Step(priority, effects[i]);
            OpsOn(StepsOf(effects, priority), target) == if IsScalarEffect(effects[i].fields) then [OpOf(step)] else []
    decreases |effects|
  {
    assert StepsOf(effects, priority)[1..] == StepsOf(effects[1..], priority);
    if i == 0 {
      UntouchedOps(effects[1..], priority, target);
    } else {
      assert !Targets(effects[0], target);
      assert forall j :: 0 <= j < |effects[1..]| ==> effects[1..][j] == effects[j + 1];
      OnlyOp(effects[1..], priority, target, i - 1);
    }
  }

  /** Two rules with one effect each on a target cannot contest it without their effect maps disagreeing. */
  lemma SingleContestShows(x: Rule, y: Rule, target: string, i: nat, j: nat)
    requires OnlyEffectOn(x.effects, target, i) && OnlyEffectOn(y.effects, target, j) && x.priority == y.priority
    requires Contest(EffectOps(x, target), EffectOps(y, target))
    ensures EffectsDisagree(x.effects, y.effects)
  {
    OnlyOp(x.effects, x.priority, target, i);
    OnlyOp(y.effects, y.priority, target, j);
    EffectMapRecords(x.effects, target, i);
    EffectMapRecords(y.effects, target, j);
  }

  // ---- the engine ----

  lemma SameMembers<T>(a: seq<T>, b: seq<T>)
    requires multiset(a) == multiset(b)
    ensures forall x :: x in a <==> x in b
  {
    forall x ensures x in a <==> x in b {
      assert x in a <==> x in multiset(a);
      assert x in b <==> x in multiset(b);
    }
  }

  lemma {:induction false} ExecutedMembers(rules: seq<Rule>, data: Data)
    ensures forall s :: s in Executed(rules, data) <==> exists r :: r in rules && s in RuleSteps(r, data)
  {
    if rules != [] {
      ExecutedMembers(rules[1..], data);
      assert rules == [rules[0]] + rules[1..];
    }
  }

  lemma ExecutedFold(rules: seq<Rule>, target: string, data: Data)
    ensures SlotFold(EMPTY, OpsOn(Executed(rules, data), target), target, data) == RulesFold(EMPTY, rules, target, data)
  {
    ExecutedOps(rules, target, data);
    var f := (r: Rule) => RuleOps(r, target, data);
    SameMap(f, OpsOfRule(target, data), rules);
  }

  lemma {:induction false} SameMap(f: Rule -> seq<Op>, g: Rule -> seq<Op>, rules: seq<Rule>)
    requires forall r :: f(r) == g(r)
    ensures FlatMap(f, rules) == FlatMap(g, rules)
  {
    if rules != [] {
      SameMap(f, g, rules[1..]);
    }
  }

  lemma SameFolds(a: seq<Step>, b: seq<Step>, data: Data)
    requires forall s :: s in a <==> s in b
    requires forall t: string :: Same(SlotFold(EMPTY, OpsOn(a, t), t, data), SlotFold(EMPTY, OpsOn(b, t), t, data))
    ensures Fold(NOTHING, a, data).Ok? <==> Fold(NOTHING, b, data).Ok?
    ensures Fold(NOTHING, a, data).Ok? ==> Fold(NOTHING, a, data).value.scalars == Fold(NOTHING, b, data).value.scalars
  {
    FoldByTarget(NOTHING, a, data);
    FoldByTarget(NOTHING, b, data);
    assert forall t: string :: SlotOf(NOTHING, t) == EMPTY;
    if Fold(NOTHING, a, data).Ok? && Fold(NOTHING, b, data).Ok? {
      var x, y := Fold(NOTHING, a, data).value, Fold(NOTHING, b, data).value;
      forall t: string ensures SlotOf(x, t) == SlotOf(y, t) {
        assert SlotFold(SlotOf(NOTHING, t), OpsOn(a, t), t, data) == Ok(SlotOf(x, t));
        assert SlotFold(SlotOf(NOTHING, t), OpsOn(b, t), t, data) == Ok(SlotOf(y, t));
      }
      SameScalars(x, y);
    }
  }

  /** Where no two tied rules contend, two orders of the same rules that both descend in priority succeed together, and
      then every scalar is the same. */
  lemma TiesHarmless(rules: seq<Rule>, permuted: seq<Rule>, data: Data)
    requires Rearranged(rules, permuted) && forall t: string :: TiesCommute(rules, t, data)
    ensures RunRules(START, rules, data).Ok? <==> RunRules(START, permuted, data).Ok?
    ensures RunRules(START, rules, data).Ok? ==>
              RunRules(START, rules, data).value.acc.scalars == RunRules(START, permuted, data).value.acc.scalars
  {
    RunIsFold(START, rules, data);
    RunIsFold(START, permuted, data);
    SameMembers(rules, permuted);
    ExecutedMembers(rules, data);
    ExecutedMembers(permuted, data);
    var a, b := Executed(rules, data), Executed(permuted, data);
    forall t: string ensures Same(SlotFold(EMPTY, OpsOn(a, t), t, data), SlotFold(EMPTY, OpsOn(b, t), t, data)) {
      OrderIrrelevant(EMPTY, rules, permuted, t, data);
      ExecutedFold(rules, t, data);
      ExecutedFold(permuted, t, data);
    }
    assert forall s :: s in a <==> s in b;
    SameFolds(a, b, data);
  }

  lemma SameScalars(x: Accumulated, y: Accumulated)
    requires forall t: string :: SlotOf(x, t) == SlotOf(y, t)
    ensures x.scalars == y.scalars
  {
    forall t ensures t in x.scalars <==> t in y.scalars {
      assert SlotOf(x, t) == SlotOf(y, t);
    }
    forall t | t in x.scalars ensures x.scalars[t] == y.scalars[t] {
      assert SlotOf(x, t) == SlotOf(y, t);
    }
  }
}
