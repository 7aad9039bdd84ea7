/** Option and Result types shared by every module, and the error codes of the modelled services. */
module Prelude {

  datatype Option<+T> = None | Some(value: T)

  /** The failures the modelled code can end with. Stuck stands for every Python exception that is not a
      domain error (KeyError, AttributeError, unhashable values, an index out of range). */
  datatype Error =
    | InvalidDsl
    | TypeMismatch
    | InvalidEffect
    | InvalidOverlay
    | Stuck

  datatype Result<+T> = Ok(value: T) | Err(error: Error) {
    predicate IsFailure() {
      Err?
    }

    function PropagateFailure<U>(): Result<U>
      requires Err?
    {
      Err(error)
    }

    function Extract(): T
      requires Ok?
    {
      value
    }
  }

  /** The elements that satisfy p, in order. */
  function Filter<T>(p: T -> bool, s: seq<T>): (r: seq<T>)
  {
    if s == [] then [] else if p(s[0]) then [s[0]] + Filter(p, s[1..]) else Filter(p, s[1..])
  }

  function Map<T, U>(f: T -> U, s: seq<T>): (r: seq<U>)
    ensures |r| == |s|
    ensures forall i :: 0 <= i < |s| ==> r[i] == f(s[i])
  {
    if s == [] then [] else [f(s[0])] + Map(f, s[1..])
  }

  lemma {:induction false} FilterMembers<T>(p: T -> bool, s: seq<T>)
    ensures forall x :: x in Filter(p, s) <==> x in s && p(x)
  {
    if s != [] {
      FilterMembers(p, s[1..]);
      assert s == [s[0]] + s[1..];
    }
  }

  lemma {:induction false} FilterAppend<T>(p: T -> bool, a: seq<T>, b: seq<T>)
    ensures Filter(p, a + b) == Filter(p, a) + Filter(p, b)
  {
    if a == [] {
      assert a + b == b;
    } else {
      assert (a + b)[1..] == a[1..] + b;
      FilterAppend(p, a[1..], b);
      assert p(a[0]) ==> [a[0]] + (Filter(p, a[1..]) + Filter(p, b)) == [a[0]] + Filter(p, a[1..]) + Filter(p, b);
    }
  }

  lemma {:induction false} FilterTwice<T>(p: T -> bool, q: T -> bool, both: T -> bool, s: seq<T>)
    requires forall x :: x in s ==> both(x) == (p(x) && q(x))
    ensures Filter(p, Filter(q, s)) == Filter(both, s)
  {
    if s != [] {
      assert s[0] in s;
      FilterTwice(p, q, both, s[1..]);
      if q(s[0]) {
        assert ([s[0]] + Filter(q, s[1..]))[1..] == Filter(q, s[1..]);
      }
    }
  }
}
