/** Ties and the rest of an answer: which mark comes last is decided by the lowest priority group that marks at all, and the
    listed benefits are the same in every order. */
module MarkTies {
  import opened Prelude
  import opened Json
  import opened Evaluator
  import opened Rules
  import opened Sorting
  import opened Engine
  import opened EffectFold
  import opened ClosedForm
  import opened Report
  import opened Ties

  /** The last mark among what a rule executes. */
  function MarkOf(rule: Rule, data: Data): Option<bool> {
    Eligibility(RuleSteps(rule, data), None)
  }

  /** The eligibility that going through the rules in this order ends with. */
  function LastMark(rules: seq<Rule>, data: Data): Option<bool> {
    Eligibility(Executed(rules, data), None)
  }

  function Or(later: Option<bool>, before: Option<bool>): Option<bool> {
    if later.Some? then later else before
  }

  lemma {:induction false} EligibilityAppend(a: seq<Step>, b: seq<Step>, before: Option<bool>)
    ensures Eligibility(a + b, before) == Or(Eligibility(b, None), Eligibility(a, before))
    decreases |b|
  {
    if b == [] {
      assert a + b == a;
    } else {
      var n := |b| - 1;
      assert (a + b)[..|a + b| - 1] == a + b[..n];
      EligibilityAppend(a, b[..n], before);
    }
  }

  lemma Associative<T>(x: seq<T>, y: seq<T>, z: seq<T>)
    ensures x + (y + z) == (x + y) + z
  {
  }

  lemma {:induction false} ExecutedAppend(a: seq<Rule>, b: seq<Rule>, data: Data)
    ensures Executed(a + b, data) == Executed(a, data) + Executed(b, data)
  {
    if a == [] {
      assert a + b == b;
    } else {
      assert (a + b)[1..] == a[1..] + b;
      ExecutedAppend(a[1..], b, data);
      Associative(RuleSteps(a[0], data), Executed(a[1..], data), Executed(b, data));
    }
  }

  lemma LastMarkAppend(a: seq<Rule>, b: seq<Rule>, data: Data)
    ensures LastMark(a + b, data) == Or(LastMark(b, data), LastMark(a, data))
  {
    ExecutedAppend(a, b, data);
    EligibilityAppend(Executed(a, data), Executed(b, data), None);
  }

  lemma LastMarkOfOne(rule: Rule, data: Data)
    ensures LastMark([rule], data) == MarkOf(rule, data)
  {
    assert [rule][1..] == [];
    assert Executed([rule], data) == RuleSteps(rule, data);
  }

  lemma {:induction false} NoMarks(rules: seq<Rule>, data: Data)
    requires forall r :: r in rules ==> MarkOf(r, data).None?
    ensures LastMark(rules, data).None?
  {
    if rules != [] {
      assert rules == [rules[0]] + rules[1..];
      NoMarks(rules[1..], data);
      LastMarkOfOne(rules[0], data);
      LastMarkAppend([rules[0]], rules[1..], data);
    }
  }

  /** The rule marks, and no rule of lower priority does. */
  ghost predicate MarksLowest(x: Rule, rules: seq<Rule>, data: Data) {
    x in rules && MarkOf(x, data).Some? && forall z :: z in rules && MarkOf(z, data).Some? ==> z.priority >= x.priority
  }

  /** In the lowest priority group that marks, every rule that marks ends with the same mark. */
  ghost predicate LowestMarksAgree(rules: seq<Rule>, data: Data) {
    forall x, y :: MarksLowest(x, rules, data) && MarksLowest(y, rules, data) ==> MarkOf(x, data) == MarkOf(y, data)
  }

  /** An order that descends in priority ends with the mark of a rule in that group. */
  lemma {:induction false} LastMarkIsLowest(rules: seq<Rule>, data: Data)
    requires Sorted(PriorityLe, rules)
    ensures if LastMark(rules, data).None? then forall r :: r in rules ==> MarkOf(r, data).None?
            else exists x :: MarksLowest(x, rules, data) && MarkOf(x, data) == LastMark(rules, data)
  {
    if rules != [] {
      var first, rest := rules[0], rules[1..];
      assert rules == [first] + rest;
      LastMarkIsLowest(rest, data);
      LastMarkOfOne(first, data);
      LastMarkAppend([first], rest, data);
      if LastMark(rest, data).Some? {
        var x :| MarksLowest(x, rest, data) && MarkOf(x, data) == LastMark(rest, data);
        assert PriorityLe(first, x);
        assert MarksLowest(x, rules, data);
      } else if MarkOf(first, data).Some? {
        assert MarksLowest(first, rules, data);
      }
    }
  }

  /** Where the rules with at least the priority of the one at i end. */
  function GroupEnd(rules: seq<Rule>, i: nat, k: nat): (end: nat)
    requires i < k <= |rules|
    requires forall j :: i <= j < k ==> rules[j].priority >= rules[i].priority
    ensures k <= end <= |rules| && (end < |rules| ==> rules[end].priority < rules[i].priority)
    ensures forall j :: i <= j < end ==> rules[j].priority >= rules[i].priority
    decreases |rules| - k
  {
    if k == |rules| || rules[k].priority < rules[i].priority then k else GroupEnd(rules, i, k + 1)
  }

  /** The rules with the one at i moved behind everything it ties with. */
  function LastOfGroup(rules: seq<Rule>, i: nat): seq<Rule>
    requires i < |rules|
  {
    var end := GroupEnd(rules, i, i + 1);
    rules[..i] + rules[i + 1..end] + [rules[i]] + rules[end..]
  }

  lemma LastOfGroupRearranges(rules: seq<Rule>, i: nat)
    requires Sorted(PriorityLe, rules) && i < |rules|
    ensures Rearranged(rules, LastOfGroup(rules, i))
  {
    var end := GroupEnd(rules, i, i + 1);
    assert rules == rules[..i] + [rules[i]] + rules[i + 1..end] + rules[end..];
    var moved := LastOfGroup(rules, i);
    forall a, b | 0 <= a < b < |moved| ensures PriorityLe(moved[a], moved[b]) {
      MovedPriority(rules, i, a);
      MovedPriority(rules, i, b);
    }
  }

  /** Moving a rule within its group leaves the priorities, place by place, as they were. */
  lemma MovedPriority(rules: seq<Rule>, i: nat, a: nat)
    requires Sorted(PriorityLe, rules) && i < |rules| && a < |rules|
    ensures |LastOfGroup(rules, i)| == |rules| && LastOfGroup(rules, i)[a].priority == rules[a].priority
  {
    var end := GroupEnd(rules, i, i + 1);
    if i <= a < end {
      assert PriorityLe(rules[i], rules[a]) || a == i;
      if a + 1 < end {
        assert PriorityLe(rules[i], rules[a + 1]);
      }
    }
  }

  lemma NothingBelowMarks(rules: seq<Rule>, i: nat, end: nat, data: Data)
    requires Sorted(PriorityLe, rules) && i < end <= |rules| && MarksLowest(rules[i], rules, data)
    requires end < |rules| ==> rules[end].priority < rules[i].priority
    ensures LastMark(rules[end..], data).None?
  {
    forall r | r in rules[end..] ensures MarkOf(r, data).None? {
      var j :| end <= j < |rules| && rules[j] == r;
      assert j == end || PriorityLe(rules[end], rules[j]);
    }
    NoMarks(rules[end..], data);
  }

  lemma LastBeforeSilence(before: seq<Rule>, x: Rule, below: seq<Rule>, data: Data)
    requires LastMark(below, data).None? && MarkOf(x, data).Some?
    ensures LastMark(before + [x] + below, data) == MarkOf(x, data)
  {
    LastMarkOfOne(x, data);
    LastMarkAppend(before, [x], data);
    LastMarkAppend(before + [x], below, data);
  }

  lemma MovedComesLast(rules: seq<Rule>, i: nat, data: Data)
    requires Sorted(PriorityLe, rules) && i < |rules| && MarksLowest(rules[i], rules, data)
    ensures LastMark(LastOfGroup(rules, i), data) == MarkOf(rules[i], data)
  {
    var end := GroupEnd(rules, i, i + 1);
    var before, x, below := rules[..i] + rules[i + 1..end], rules[i], rules[end..];
    NothingBelowMarks(rules, i, end, data);
    assert LastOfGroup(rules, i) == before + [x] + below;
    LastBeforeSilence(before, x, below, data);
  }

  /** Every rule of that group comes last in some order. */
  lemma ComesLast(rules: seq<Rule>, x: Rule, data: Data) returns (order: seq<Rule>)
    requires Sorted(PriorityLe, rules) && MarksLowest(x, rules, data)
    ensures Rearranged(rules, order) && LastMark(order, data) == MarkOf(x, data)
  {
    var i :| 0 <= i < |rules| && rules[i] == x;
    order := LastOfGroup(rules, i);
    LastOfGroupRearranges(rules, i);
    MovedComesLast(rules, i, data);
  }

  ghost predicate EligibilityOrderFree(rules: seq<Rule>, data: Data) {
    forall a, b :: Rearranged(rules, a) && Rearranged(rules, b) ==> LastMark(a, data) == LastMark(b, data)
  }

  lemma RearrangedMarks(rules: seq<Rule>, order: seq<Rule>, data: Data)
    requires Rearranged(rules, order)
    ensures forall x :: MarksLowest(x, rules, data) <==> MarksLowest(x, order, data)
  {
    SameMembers(rules, order);
  }

  /** Eligibility under ties: every order that descends in priority ends with the same eligibility exactly when, in the lowest
      priority group that executes a mark, the last marks of the rules agree. */
  lemma EligibilityTiesExactly(rules: seq<Rule>, data: Data)
    requires Sorted(PriorityLe, rules)
    ensures EligibilityOrderFree(rules, data) <==> LowestMarksAgree(rules, data)
  {
    if LowestMarksAgree(rules, data) {
      forall a, b | Rearranged(rules, a) && Rearranged(rules, b) ensures LastMark(a, data) == LastMark(b, data) {
        SameLastMark(rules, a, b, data);
      }
    }
    if EligibilityOrderFree(rules, data) {
      forall x, y | MarksLowest(x, rules, data) && MarksLowest(y, rules, data) ensures MarkOf(x, data) == MarkOf(y, data) {
        var a := ComesLast(rules, x, data);
        var b := ComesLast(rules, y, data);
      }
    }
  }

  lemma SameLastMark(rules: seq<Rule>, a: seq<Rule>, b: seq<Rule>, data: Data)
    requires LowestMarksAgree(rules, data) && Rearranged(rules, a) && Rearranged(rules, b)
    ensures LastMark(a, data) == LastMark(b, data)
  {
    LastMarkIsLowest(a, data);
    LastMarkIsLowest(b, data);
    RearrangedMarks(rules, a, data);
    RearrangedMarks(rules, b, data);
    SameMembers(rules, a);
    SameMembers(rules, b);
    if LastMark(a, data).Some? {
      var x :| MarksLowest(x, a, data) && MarkOf(x, data) == LastMark(a, data);
      assert x in rules && x in b;
    }
    if LastMark(b, data).Some? {
      var y :| MarksLowest(y, b, data) && MarkOf(y, data) == LastMark(b, data);
      assert y in rules && y in a;
    }
  }

  // ---- listed benefits ----

  function ListedOf(kind: EffectType, name: string, data: Data): Rule -> seq<Json> {
    (r: Rule) => Listed(RuleSteps(r, data), kind, name, data)
  }

  lemma {:induction false} ListedAppend(a: seq<Step>, b: seq<Step>, kind: EffectType, name: string, data: Data)
    ensures Listed(a + b, kind, name, data) == Listed(a, kind, name, data) + Listed(b, kind, name, data)
  {
    if a == [] {
      assert a + b == b;
    } else {
      assert (a + b)[1..] == a[1..] + b;
      ListedAppend(a[1..], b, kind, name, data);
      Associative(ListedBy(a[0], kind, name, data), Listed(a[1..], kind, name, data), Listed(b, kind, name, data));
    }
  }

  lemma {:induction false} ListedByRule(rules: seq<Rule>, kind: EffectType, name: string, data: Data)
    ensures Listed(Executed(rules, data), kind, name, data) == FlatMap(ListedOf(kind, name, data), rules)
  {
    if rules != [] {
      ListedByRule(rules[1..], kind, name, data);
      ListedAppend(RuleSteps(rules[0], data), Executed(rules[1..], data), kind, name, data);
    }
  }

  lemma ListedPermutes(rules: seq<Rule>, order: seq<Rule>, kind: EffectType, name: string, data: Data)
    requires multiset(rules) == multiset(order)
    ensures multiset(Listed(Executed(rules, data), kind, name, data)) == multiset(Listed(Executed(order, data), kind, name, data))
  {
    ListedByRule(rules, kind, name, data);
    ListedByRule(order, kind, name, data);
    FlatMapPermutes(ListedOf(kind, name, data), rules, order);
  }

  /** What a run lists is what its executed effects list. */
  lemma RunLists(rules: seq<Rule>, data: Data)
    requires RunRules(START, rules, data).Ok?
    ensures var acc, steps := RunRules(START, rules, data).value.acc, Executed(rules, data);
            && acc.grants == Listed(steps, GrantEffect, "target", data) && acc.denials == Listed(steps, DenyEffect, "target", data)
            && acc.emitted == Listed(steps, EmitDerived, "type", data)
  {
    RunIsFold(START, rules, data);
    FoldLists(NOTHING, Executed(rules, data), data);
  }

  /** Grants, denials and emitted values do not depend on the order of the rules, except for their own order. */
  lemma ListsIgnoreOrder(rules: seq<Rule>, order: seq<Rule>, data: Data)
    requires multiset(rules) == multiset(order) && RunRules(START, rules, data).Ok? && RunRules(START, order, data).Ok?
    ensures var a, b := RunRules(START, rules, data).value.acc, RunRules(START, order, data).value.acc;
            && multiset(a.grants) == multiset(b.grants) && multiset(a.denials) == multiset(b.denials)
            && multiset(a.emitted) == multiset(b.emitted)
  {
    RunLists(rules, data);
    RunLists(order, data);
    ListedPermutes(rules, order, GrantEffect, "target", data);
    ListedPermutes(rules, order, DenyEffect, "target", data);
    ListedPermutes(rules, order, EmitDerived, "type", data);
  }
}
