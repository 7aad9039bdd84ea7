/** What comparisons and aggregates answer, in terms of real numbers, characters and list positions. */
module Comparisons {
  import opened Prelude
  import opened Text
  import opened Json
  import opened Dsl
  import opened Evaluator

  const ORDERINGS := {">", ">=", "<", "<="}

  /** The number a value stands for: itself, one for true, zero for false. */
  predicate StandsFor(v: Json, x: real) {
    v == Num(x) || (v == Bool(true) && x == 1.0) || (v == Bool(false) && x == 0.0)
  }

  /** Numbers, and booleans as numbers, compare as reals. */
  lemma NumbersCompare(a: Json, x: real, b: Json, y: real)
    requires StandsFor(a, x) && StandsFor(b, y)
    ensures Compare(a, b, Str(">")) == Ok(x > y) && Compare(a, b, Str(">=")) == Ok(x >= y)
    ensures Compare(a, b, Str("<")) == Ok(x < y) && Compare(a, b, Str("<=")) == Ok(x <= y)
  {
  }

  /** At the first place where the texts differ the first one has the smaller code point, or has ended. */
  predicate Precedes(a: string, b: string) {
    exists k :: 0 <= k <= |a| && DecidesAt(a, b, k)
  }

  predicate DecidesAt(a: string, b: string, k: int) {
    0 <= k <= |a| && k < |b| && (forall i :: 0 <= i < k ==> a[i] == b[i]) && (k == |a| || a[k] < b[k])
  }

  lemma {:induction false} PrecedesStep(a: string, b: string)
    requires a != "" && b != ""
    ensures Precedes(a, b) <==> a[0] < b[0] || (a[0] == b[0] && Precedes(a[1..], b[1..]))
  {
    if a[0] < b[0] {
      assert DecidesAt(a, b, 0);
    }
    if a[0] == b[0] && Precedes(a[1..], b[1..]) {
      var k :| 0 <= k <= |a[1..]| && DecidesAt(a[1..], b[1..], k);
      forall i | 0 <= i < k + 1 ensures a[i] == b[i] {
        assert i > 0 ==> a[1..][i - 1] == b[1..][i - 1];
      }
      assert DecidesAt(a, b, k + 1);
    }
    if Precedes(a, b) && !(a[0] < b[0]) {
      var k :| 0 <= k <= |a| && DecidesAt(a, b, k);
      assert k > 0;
      assert DecidesAt(a[1..], b[1..], k - 1);
    }
  }

  lemma {:induction false} OrderIsPrecedence(a: string, b: string)
    ensures StrLe(a, b) <==> a == b || Precedes(a, b)
    ensures !(Precedes(a, b) && Precedes(b, a)) && !Precedes(a, a) && (a == b || Precedes(a, b) || Precedes(b, a))
  {
    if a == "" || b == "" {
      if a == "" && b != "" {
        assert DecidesAt(a, b, 0);
      }
      if b == "" && a != "" {
        assert DecidesAt(b, a, 0);
      }
      if a != "" {
        OrderIsPrecedence(a[1..], a[1..]);
        PrecedesStep(a, a);
      }
    } else {
      PrecedesStep(a, b);
      PrecedesStep(b, a);
      PrecedesStep(a, a);
      OrderIsPrecedence(a[1..], b[1..]);
      assert a == [a[0]] + a[1..] && b == [b[0]] + b[1..];
    }
  }

  /** Texts compare by code points, at the first place where they differ. */
  lemma TextsCompare(a: string, b: string)
    ensures Compare(Str(a), Str(b), Str("<")) == Ok(Precedes(a, b))
    ensures Compare(Str(a), Str(b), Str("<=")) == Ok(a == b || Precedes(a, b))
    ensures Compare(Str(a), Str(b), Str(">")) == Ok(Precedes(b, a))
    ensures Compare(Str(a), Str(b), Str(">=")) == Ok(a == b || Precedes(b, a))
  {
    OrderIsPrecedence(a, b);
  }

  /** Two items at which a list comparison goes on. */
  predicate Level(x: Json, y: Json) {
    x == y || (x != Null && y != Null && Compare(x, y, Str(">=")) == Ok(true) && Compare(x, y, Str("<=")) == Ok(true))
  }

  /** The first k items of both lists are level. */
  predicate LevelUntil(xs: seq<Json>, ys: seq<Json>, k: int) {
    0 <= k <= |xs| && k <= |ys| && forall i :: 0 <= i < k ==> Level(xs[i], ys[i])
  }

  lemma LevelIsZero(x: Json, y: Json)
    requires x != y
    ensures Level(x, y) <==> Order(x, y) == Some(0)
  {
    if x != Null && y != Null && Order(x, y).Some? {
      assert Compare(x, y, Str(">=")) == Ok(Order(x, y).value >= 0) && Compare(x, y, Str("<=")) == Ok(Order(x, y).value <= 0);
    }
  }

  lemma {:induction false} ItemsAfterLevel(xs: seq<Json>, ys: seq<Json>, k: nat)
    requires LevelUntil(xs, ys, k)
    ensures OrderItems(xs, ys) == OrderItems(xs[k..], ys[k..])
    decreases k
  {
    if k > 0 {
      assert Level(xs[0], ys[0]);
      if xs[0] != ys[0] {
        LevelIsZero(xs[0], ys[0]);
      }
      forall i | 0 <= i < k - 1 ensures Level(xs[1..][i], ys[1..][i]) {
        assert Level(xs[i + 1], ys[i + 1]);
      }
      ItemsAfterLevel(xs[1..], ys[1..], k - 1);
      assert xs[1..][k - 1..] == xs[k..] && ys[1..][k - 1..] == ys[k..];
    }
  }

  /** Lists compare at the first pair that is not level, as that pair compares; items that have no order raise. */
  lemma ListsCompareAtFirstDifference(xs: seq<Json>, ys: seq<Json>, k: nat, operator: string)
    requires k < |xs| && k < |ys| && LevelUntil(xs, ys, k) && !Level(xs[k], ys[k]) && operator in ORDERINGS
    ensures Compare(Arr(xs), Arr(ys), Str(operator))
         == if xs[k] == Null || ys[k] == Null then Err(TypeMismatch) else Compare(xs[k], ys[k], Str(operator))
  {
    ItemsAfterLevel(xs, ys, k);
    LevelIsZero(xs[k], ys[k]);
    assert xs[k..][0] == xs[k] && ys[k..][0] == ys[k];
    assert OrderItems(xs[k..], ys[k..]) == Order(xs[k], ys[k]);
  }

  /** When one list is level with the beginning of the other, the lengths decide. */
  lemma LevelListsCompareByLength(xs: seq<Json>, ys: seq<Json>)
    requires LevelUntil(xs, ys, if |xs| < |ys| then |xs| else |ys|)
    ensures Compare(Arr(xs), Arr(ys), Str("<")) == Ok(|xs| < |ys|) && Compare(Arr(xs), Arr(ys), Str("<=")) == Ok(|xs| <= |ys|)
    ensures Compare(Arr(xs), Arr(ys), Str(">")) == Ok(|xs| > |ys|) && Compare(Arr(xs), Arr(ys), Str(">=")) == Ok(|xs| >= |ys|)
  {
    ItemsAfterLevel(xs, ys, if |xs| < |ys| then |xs| else |ys|);
  }

  /** Number, text and list; objects have no order with anything. */
  predicate SameSort(a: Json, b: Json) {
    || ((a.Num? || a.Bool?) && (b.Num? || b.Bool?))
    || (a.Str? && b.Str?) || (a.Arr? && b.Arr?)
  }

  /** Values of different sorts do not compare: with null every ordering is false, otherwise it is a type mismatch. */
  lemma SortsDoNotMix(a: Json, b: Json, operator: string)
    requires !SameSort(a, b) && operator in ORDERINGS
    ensures Compare(a, b, Str(operator)) == if a == Null || b == Null then Ok(false) else Err(TypeMismatch)
  {
  }

  /** Equality and inequality are those of JSON values. */
  lemma EqualityCompares(a: Json, b: Json)
    ensures Compare(a, b, Str("==")) == Ok(a == b) && Compare(a, b, Str("!=")) == Ok(a != b)
  {
  }

  function Number(x: real): Json {
    Num(x)
  }

  function RealSum(xs: seq<real>): real {
    if xs == [] then 0.0 else xs[0] + RealSum(xs[1..])
  }

  lemma {:induction false} NumbersTotal(xs: seq<real>)
    ensures Total(Map(Number, xs)) == Ok(RealSum(xs))
  {
    if xs != [] {
      assert Map(Number, xs)[1..] == Map(Number, xs[1..]);
      NumbersTotal(xs[1..]);
    }
  }

  /** n is one of the numbers and none lies above it (least: below it). */
  predicate Bounds(n: real, xs: seq<real>, least: bool) {
    n in xs && forall x :: x in xs ==> if least then n <= x else x <= n
  }

  lemma {:induction false} NumbersExtreme(best: real, xs: seq<real>, least: bool) returns (n: real)
    ensures Extreme(Num(best), Map(Number, xs), if least then -1 else 1) == Ok(Num(n)) && Bounds(n, [best] + xs, least)
    decreases |xs|
  {
    n := best;
    if xs != [] {
      var next := if (if least then xs[0] < best else xs[0] > best) then xs[0] else best;
      assert Map(Number, xs)[1..] == Map(Number, xs[1..]) && Map(Number, xs)[0] == Num(xs[0]);
      n := NumbersExtreme(next, xs[1..], least);
      StillBounds(n, best, xs, next, least);
    }
  }

  lemma StillBounds(n: real, best: real, xs: seq<real>, next: real, least: bool)
    requires xs != [] && next == (if (if least then xs[0] < best else xs[0] > best) then xs[0] else best)
    requires Bounds(n, [next] + xs[1..], least)
    ensures Bounds(n, [best] + xs, least)
  {
    var kept, all := [next] + xs[1..], [best] + xs;
    assert kept[0] == next && all[0] == best && all[1] == xs[0];
    assert xs == [xs[0]] + xs[1..];
    forall x | x in all ensures if least then n <= x else x <= n {
      assert x in kept || x == best || x == xs[0];
      assert next in kept;
    }
    assert n in all;
  }

  /** Aggregates over a list of numbers: their count, their sum, and the element no other lies below or above; the empty list
      has a count only. */
  lemma AggregatesOfNumbers(xs: seq<real>)
    ensures Aggregate(Str("count"), Map(Number, xs)) == Ok(Num(|xs| as real))
    ensures Aggregate(Str("sum"), Map(Number, xs)) == Ok(if xs == [] then Null else Num(RealSum(xs)))
    ensures if xs == [] then Aggregate(Str("min"), []) == Ok(Null)
            else exists n :: Aggregate(Str("min"), Map(Number, xs)) == Ok(Num(n)) && Bounds(n, xs, true)
    ensures if xs == [] then Aggregate(Str("max"), []) == Ok(Null)
            else exists n :: Aggregate(Str("max"), Map(Number, xs)) == Ok(Num(n)) && Bounds(n, xs, false)
  {
    NumbersTotal(xs);
    if xs != [] {
      var least := ExtremeOfNumbers(xs, true);
      var greatest := ExtremeOfNumbers(xs, false);
    }
  }

  lemma ExtremeOfNumbers(xs: seq<real>, least: bool) returns (n: real)
    requires xs != []
    ensures Aggregate(Str(if least then "min" else "max"), Map(Number, xs)) == Ok(Num(n)) && Bounds(n, xs, least)
  {
    assert Map(Number, xs)[1..] == Map(Number, xs[1..]) && xs == [xs[0]] + xs[1..];
    n := NumbersExtreme(xs[0], xs[1..], least);
  }

  /** The condition that compares two literal values. */
  function Comparing(operator: string, left: Json, right: Json): Json {
    Obj(map["kind" := Str("comparison"), "operator" := Str(operator), "left" := left, "right" := right])
  }

  lemma ComparingValid(operator: string, x: real, y: real)
    requires operator in ORDERINGS
    ensures Valid(Comparing(operator, Num(x), Num(y)))
  {
    var node := Comparing(operator, Num(x), Num(y));
    assert FormOf(node.fields) == ComparisonForm;
    assert ProblemsInChild(node, "left", 0, MAX_DEPTH) == [] && ProblemsInChild(node, "right", 0, MAX_DEPTH) == [];
  }

  /** A condition that compares two numbers answers as the reals compare. */
  lemma NumberConditions(operator: string, x: real, y: real, data: Data)
    requires operator in ORDERINGS
    ensures var r := Evaluate(Comparing(operator, Num(x), Num(y)), data);
            r.Ok? && r.value.value == Bool(match operator case ">" => x > y case ">=" => x >= y case "<" => x < y case _ => x <= y)
  {
    var node := Comparing(operator, Num(x), Num(y));
    ComparingValid(operator, x, y);
    NumbersCompare(Num(x), x, Num(y), y);
    OperandsOfComparing(operator, x, y, data);
  }

  lemma OneOperand(v: Json, rest: seq<Option<Json>>, parent: Json, data: Data, traces: seq<Trace>)
    requires !v.Obj? && v < parent && forall i :: 0 <= i < |rest| && rest[i].Some? ==> rest[i].value < parent
    requires EvalAll(rest, parent, data) == Ok(traces)
    ensures EvalAll([Some(v)] + rest, parent, data) == Ok([Trace(v, {}, [])] + traces)
  {
    assert ([Some(v)] + rest)[1..] == rest;
  }

  lemma OperandsOfComparing(operator: string, x: real, y: real, data: Data)
    ensures var node := Comparing(operator, Num(x), Num(y));
            && FormOf(node.fields) == ComparisonForm
            && EvalAll(Operands(node), node, data) == Ok([Trace(Num(x), {}, []), Trace(Num(y), {}, [])])
  {
    var node := Comparing(operator, Num(x), Num(y));
    assert node.fields["left"] < node && node.fields["right"] < node;
    OneOperand(Num(y), [], node, data, []);
    OneOperand(Num(x), [Some(Num(y))] + [], node, data, [Trace(Num(y), {}, [])] + []);
    assert Operands(node) == [Some(Num(x))] + ([Some(Num(y))] + []);
    assert [Trace(Num(x), {}, []), Trace(Num(y), {}, [])] == [Trace(Num(x), {}, [])] + ([Trace(Num(y), {}, [])] + []);
  }
}
