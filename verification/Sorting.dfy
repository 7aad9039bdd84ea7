/** Python's sorted(): a stable sort by a key order. Two sorted arrangements of the same elements are the same
    sequence when ties are impossible, and filtering commutes with sorting. */
module Sorting {
  import opened Prelude

  ghost predicate TotalPreorder<T(!new)>(le: (T, T) -> bool) {
    && (forall x, y :: le(x, y) || le(y, x))
    && (forall x, y, z :: le(x, y) && le(y, z) ==> le(x, z))
  }

  ghost predicate Sorted<T>(le: (T, T) -> bool, s: seq<T>) {
    forall i, j :: 0 <= i < j < |s| ==> le(s[i], s[j])
  }

  function Insert<T>(le: (T, T) -> bool, x: T, s: seq<T>): seq<T>
  {
    if s == [] || le(x, s[0]) then [x] + s else [s[0]] + Insert(le, x, s[1..])
  }

  function Sort<T>(le: (T, T) -> bool, s: seq<T>): seq<T>
  {
    if s == [] then [] else Insert(le, s[0], Sort(le, s[1..]))
  }

  lemma {:induction false} InsertPermutes<T>(le: (T, T) -> bool, x: T, s: seq<T>)
    ensures multiset(Insert(le, x, s)) == multiset{x} + multiset(s)
  {
    if s != [] && !le(x, s[0]) {
      InsertPermutes(le, x, s[1..]);
      assert s == [s[0]] + s[1..];
    }
  }

  lemma {:induction false} SortPermutes<T>(le: (T, T) -> bool, s: seq<T>)
    ensures multiset(Sort(le, s)) == multiset(s)
  {
    if s != [] {
      SortPermutes(le, s[1..]);
      InsertPermutes(le, s[0], Sort(le, s[1..]));
      assert s == [s[0]] + s[1..];
    }
  }

  lemma {:induction false} InsertSorts<T(!new)>(le: (T, T) -> bool, x: T, s: seq<T>)
    requires TotalPreorder(le) && Sorted(le, s)
    ensures Sorted(le, Insert(le, x, s))
  {
    if s != [] && !le(x, s[0]) {
      InsertSorts(le, x, s[1..]);
      var r := Insert(le, x, s[1..]);
      InsertPermutes(le, x, s[1..]);
      forall y | y in r ensures le(s[0], y) {
        assert y in multiset(r);
        assert y == x || y in s[1..];
      }
    }
  }

  lemma {:induction false} SortSorts<T(!new)>(le: (T, T) -> bool, s: seq<T>)
    requires TotalPreorder(le)
    ensures Sorted(le, Sort(le, s))
  {
    if s != [] {
      SortSorts(le, s[1..]);
      InsertSorts(le, s[0], Sort(le, s[1..]));
    }
  }

  /** Without ties there is only one sorted arrangement. */
  lemma {:induction false} SortedUnique<T>(le: (T, T) -> bool, a: seq<T>, b: seq<T>)
    requires Sorted(le, a) && Sorted(le, b) && multiset(a) == multiset(b)
    requires forall x, y :: x in a && y in a && le(x, y) && le(y, x) ==> x == y
    ensures a == b
  {
    if a == [] {
      assert |multiset(b)| == 0;
    } else {
      SameHead(le, a, b);
      TailsPermute(a, b);
      SortedUnique(le, a[1..], b[1..]);
      assert a == [a[0]] + a[1..] && b == [b[0]] + b[1..];
    }
  }

  lemma TailsPermute<T>(a: seq<T>, b: seq<T>)
    requires multiset(a) == multiset(b) && a != [] && b != [] && a[0] == b[0]
    ensures multiset(a[1..]) == multiset(b[1..])
  {
    assert a == [a[0]] + a[1..] && b == [b[0]] + b[1..];
    assert multiset(a[1..]) == multiset(a) - multiset{a[0]} == multiset(b[1..]);
  }

  lemma SameHead<T>(le: (T, T) -> bool, a: seq<T>, b: seq<T>)
    requires Sorted(le, a) && Sorted(le, b) && multiset(a) == multiset(b) && a != []
    requires forall x, y :: x in a && y in a && le(x, y) && le(y, x) ==> x == y
    ensures b != [] && a[0] == b[0]
  {
    assert a[0] in multiset(b);
    assert b[0] in multiset(a);
    var i :| 0 <= i < |b| && b[i] == a[0];
    var j :| 0 <= j < |a| && a[j] == b[0];
  }

  /** A sort of a reordered input is the same sequence when the order has no ties on it. */
  lemma SortIgnoresInputOrder<T(!new)>(le: (T, T) -> bool, a: seq<T>, b: seq<T>)
    requires TotalPreorder(le) && multiset(a) == multiset(b)
    requires forall x, y :: x in a && y in a && le(x, y) && le(y, x) ==> x == y
    ensures Sort(le, a) == Sort(le, b)
  {
    SortSorts(le, a);
    SortSorts(le, b);
    SortPermutes(le, a);
    SortPermutes(le, b);
    forall x | x in Sort(le, a) ensures x in a {
      assert x in multiset(Sort(le, a));
    }
    SortedUnique(le, Sort(le, a), Sort(le, b));
  }

  lemma {:induction false} FilterInsert<T(!new)>(le: (T, T) -> bool, p: T -> bool, x: T, s: seq<T>)
    requires TotalPreorder(le) && Sorted(le, s)
    ensures Filter(p, Insert(le, x, s)) == if p(x) then Insert(le, x, Filter(p, s)) else Filter(p, s)
  {
    if s == [] {
    } else if le(x, s[0]) {
      assert ([x] + s)[1..] == s;
      FilterMembers(p, s);
      if p(x) && Filter(p, s) != [] {
        assert Filter(p, s)[0] in Filter(p, s);
        assert le(x, Filter(p, s)[0]);
      }
    } else {
      FilterInsert(le, p, x, s[1..]);
      assert ([s[0]] + Insert(le, x, s[1..]))[1..] == Insert(le, x, s[1..]);
      assert p(s[0]) ==> ([s[0]] + Filter(p, s[1..]))[1..] == Filter(p, s[1..]);
      if p(x) && !p(s[0]) && Filter(p, s) != [] {
        FilterMembers(p, s);
      }
    }
  }

  lemma {:induction false} InsertMap<T(!new)>(le: (T, T) -> bool, f: T -> T, x: T, s: seq<T>)
    requires forall x, y :: le(f(x), f(y)) == le(x, y)
    ensures Map(f, Insert(le, x, s)) == Insert(le, f(x), Map(f, s))
  {
    if s != [] && !le(x, s[0]) {
      InsertMap(le, f, x, s[1..]);
    }
  }

  /** A change that does not touch the sort key commutes with sorting. */
  lemma {:induction false} SortMap<T(!new)>(le: (T, T) -> bool, f: T -> T, s: seq<T>)
    requires forall x, y :: le(f(x), f(y)) == le(x, y)
    ensures Map(f, Sort(le, s)) == Sort(le, Map(f, s))
  {
    if s != [] {
      SortMap(le, f, s[1..]);
      InsertMap(le, f, s[0], Sort(le, s[1..]));
    }
  }

  /** Filtering a sorted listing is sorting the filtered rows. */
  lemma {:induction false} FilterSort<T(!new)>(le: (T, T) -> bool, p: T -> bool, s: seq<T>)
    requires TotalPreorder(le)
    ensures Filter(p, Sort(le, s)) == Sort(le, Filter(p, s))
  {
    if s != [] {
      FilterSort(le, p, s[1..]);
      SortSorts(le, s[1..]);
      FilterInsert(le, p, s[0], Sort(le, s[1..]));
    }
  }

  function FlatMap<T, U>(f: T -> seq<U>, s: seq<T>): seq<U>
  {
    if s == [] then [] else f(s[0]) + FlatMap(f, s[1..])
  }

  lemma {:induction false} FlatMapAppend<T, U>(f: T -> seq<U>, a: seq<T>, b: seq<T>)
    ensures FlatMap(f, a + b) == FlatMap(f, a) + FlatMap(f, b)
  {
    if a == [] {
      assert a + b == b;
    } else {
      assert (a + b)[1..] == a[1..] + b;
      FlatMapAppend(f, a[1..], b);
    }
  }

  /** Where the first element of one arrangement stands in another, and what is left of both without it. */
  lemma PickFirst<T>(a: seq<T>, b: seq<T>) returns (i: nat)
    requires multiset(a) == multiset(b) && a != []
    ensures i < |b| && b[i] == a[0] && multiset(a[1..]) == multiset(b[..i] + b[i + 1..])
  {
    assert a[0] in multiset(b);
    i :| 0 <= i < |b| && b[i] == a[0];
    assert b == b[..i] + ([b[i]] + b[i + 1..]);
    assert a == [a[0]] + a[1..];
    assert multiset(b[..i] + b[i + 1..]) == multiset(b) - multiset{a[0]} == multiset(a[1..]);
  }

  lemma {:induction false} FlatMapPermutes<T, U>(f: T -> seq<U>, a: seq<T>, b: seq<T>)
    requires multiset(a) == multiset(b)
    ensures multiset(FlatMap(f, a)) == multiset(FlatMap(f, b))
  {
    if a == [] {
      assert |multiset(b)| == 0;
    } else {
      var i := PickFirst(a, b);
      FlatMapPermutes(f, a[1..], b[..i] + b[i + 1..]);
      FlatMapAround(f, b, i);
    }
  }

  lemma FlatMapAround<T, U>(f: T -> seq<U>, s: seq<T>, i: nat)
    requires i < |s|
    ensures multiset(FlatMap(f, s)) == multiset(f(s[i])) + multiset(FlatMap(f, s[..i] + s[i + 1..]))
  {
    assert s == s[..i] + s[i..] && s[i..][1..] == s[i + 1..];
    FlatMapAppend(f, s[..i], s[i..]);
    FlatMapAppend(f, s[..i], s[i + 1..]);
  }

  lemma {:induction false} FlatMapMembers<T, U>(f: T -> seq<U>, s: seq<T>)
    ensures forall u :: u in FlatMap(f, s) <==> exists x :: x in s && u in f(x)
  {
    if s != [] {
      FlatMapMembers(f, s[1..]);
      assert s == [s[0]] + s[1..];
    }
  }
}
