/** The ordering behind comparisons, min and max is a partial preorder, and an extreme of a list is one. */
module JsonOrder {
  import opened Prelude
  import opened Text
  import opened Json
  import opened Evaluator
  import opened Sorting

  lemma {:induction false} OrderReflexive(a: Json)
    ensures Order(a, a).Some? ==> Order(a, a) == Some(0)
  {
    if a.Arr? {
      SameItems(a.items);
    }
  }

  lemma {:induction false} SameItems(xs: seq<Json>)
    ensures OrderItems(xs, xs) == Some(0)
  {
    if xs != [] {
      SameItems(xs[1..]);
    }
  }

  function Reversed(c: Option<int>): Option<int> {
    match c case None => None case Some(n) => Some(-n)
  }

  /** Swapping the operands reverses the answer, and an unordered pair is unordered both ways. */
  lemma {:induction false} OrderAntisymmetric(a: Json, b: Json)
    ensures Order(b, a) == Reversed(Order(a, b))
    decreases a, 1
  {
    if a.Str? && b.Str? {
      StrLeTotal(a.s, b.s);
      if StrLe(a.s, b.s) && StrLe(b.s, a.s) {
        StrLeAntisymmetric(a.s, b.s);
      }
    } else if a.Arr? && b.Arr? {
      ItemsAntisymmetric(a.items, b.items);
    }
  }

  lemma {:induction false} ItemsAntisymmetric(xs: seq<Json>, ys: seq<Json>)
    ensures OrderItems(ys, xs) == Reversed(OrderItems(xs, ys))
    decreases xs, 0
  {
    if xs != [] && ys != [] {
      OrderAntisymmetric(xs[0], ys[0]);
      ItemsAntisymmetric(xs[1..], ys[1..]);
    }
  }

  predicate NotAbove(c: Option<int>) {
    c.Some? && c.value <= 0
  }

  /** Two steps that do not descend make one, strict as soon as one of them is. */
  predicate Chains(ab: Option<int>, bc: Option<int>, ac: Option<int>) {
    NotAbove(ab) && NotAbove(bc) ==> NotAbove(ac) && (ac == Some(0) <==> ab == Some(0) && bc == Some(0))
  }

  lemma {:induction false} OrderTransitive(a: Json, b: Json, c: Json)
    ensures Chains(Order(a, b), Order(b, c), Order(a, c))
    decreases a, 1
  {
    if a.Str? && b.Str? && c.Str? {
      if StrLe(a.s, b.s) && StrLe(b.s, c.s) {
        StrLeTransitive(a.s, b.s, c.s);
        if a.s == c.s {
          StrLeAntisymmetric(a.s, b.s);
        }
      }
    } else if a.Arr? && b.Arr? && c.Arr? {
      ItemsTransitive(a.items, b.items, c.items);
    }
  }

  lemma {:induction false} ItemsTransitive(xs: seq<Json>, ys: seq<Json>, zs: seq<Json>)
    ensures Chains(OrderItems(xs, ys), OrderItems(ys, zs), OrderItems(xs, zs))
    decreases xs, 0
  {
    if xs != [] && ys != [] && zs != [] {
      OrderTransitive(xs[0], ys[0], zs[0]);
      ItemsTransitive(xs[1..], ys[1..], zs[1..]);
      OrderReflexive(xs[0]);
      OrderAntisymmetric(xs[0], ys[0]);
    }
  }

  /** x does not lie strictly beyond v: not below it for a minimum (sign -1), not above it for a maximum. */
  predicate NotBeyond(x: Json, v: Json, sign: int) {
    var c := Order(x, v);
    c.Some? && (if sign == 1 then c.value <= 0 else c.value >= 0)
  }

  /** v is one of the values and no other one lies beyond it. */
  predicate IsExtreme(v: Json, values: seq<Json>, sign: int) {
    v in values && forall x :: x in values && x != v ==> NotBeyond(x, v, sign)
  }

  /** min and max: the result is a value no other one lies beyond, and each value was comparable with it. */
  lemma {:induction false} ExtremeIsBound(best: Json, values: seq<Json>, sign: int)
    requires sign == 1 || sign == -1
    requires Extreme(best, values, sign).Ok?
    ensures IsExtreme(Extreme(best, values, sign).value, [best] + values, sign)
    decreases |values|
  {
    if values != [] {
      var first, rest := values[0], values[1..];
      var next := if Order(first, best).value * sign > 0 then first else best;
      ExtremeIsBound(next, rest, sign);
      var v := Extreme(next, rest, sign).value;
      assert values == [first] + rest;
      forall x | x in [best] + values && x != v ensures NotBeyond(x, v, sign) {
        if x !in [next] + rest {
          OrderAntisymmetric(first, best);
          assert NotBeyond(x, next, sign);
          BeyondNeither(x, next, v, sign);
        }
      }
    }
  }

  lemma BeyondNeither(x: Json, y: Json, z: Json, sign: int)
    requires NotBeyond(x, y, sign) && (y == z || NotBeyond(y, z, sign))
    ensures NotBeyond(x, z, sign)
  {
    if y != z {
      if sign == 1 {
        OrderTransitive(x, y, z);
      } else {
        OrderAntisymmetric(x, y);
        OrderAntisymmetric(y, z);
        OrderAntisymmetric(x, z);
        OrderTransitive(z, y, x);
      }
    }
  }

  /** sum does not depend on the order the rows were stored in. */
  lemma {:induction false} TotalIgnoresOrder(a: seq<Json>, b: seq<Json>)
    requires multiset(a) == multiset(b)
    ensures Total(a) == Total(b)
  {
    if a == [] {
      assert |multiset(b)| == 0;
    } else {
      var i := PickFirst(a, b);
      TotalIgnoresOrder(a[1..], b[..i] + b[i + 1..]);
      TotalWithout(b, i);
      TotalFails(a[1..]);
    }
  }

  lemma {:induction false} TotalWithout(values: seq<Json>, i: nat)
    requires i < |values|
    ensures var rest := Total(values[..i] + values[i + 1..]);
            Total(values) == if AsNumber(values[i]).None? || rest.Err? then Err(TypeMismatch)
                             else Ok(AsNumber(values[i]).value + rest.value)
  {
    TotalFails(values[..i] + values[i + 1..]);
    if i == 0 {
      assert values[..0] + values[1..] == values[1..];
    } else {
      TotalWithout(values[1..], i - 1);
      assert values[1..][..i - 1] + values[1..][i..] == (values[..i] + values[i + 1..])[1..];
    }
  }

  lemma {:induction false} TotalFails(values: seq<Json>)
    ensures Total(values).Err? ==> Total(values) == Err(TypeMismatch)
  {
    if values != [] {
      TotalFails(values[1..]);
    }
  }
}
