/** How values are read: which ones count as false, what a dotted path leads to, what decimal numerals and instants say. */
module Readings {
  import opened Prelude
  import opened Text
  import opened Json
  import opened Decimals
  import opened Evaluator

  /** The values Python takes for false. */
  const FALSY := {Null, Bool(false), Num(0.0), Str(""), Arr([]), Obj(map[])}

  lemma FalsyExactly(v: Json)
    ensures Truthy(v) <==> v !in FALSY
  {
  }

  /** A filter given as no value or an empty one admits every text; any other admits that text only. */
  lemma FiltersExactly(wanted: Json, actual: string)
    ensures Selected(wanted, actual) <==> wanted in FALSY || wanted == Str(actual)
  {
  }

  /** The numeral of a number in base ten. */
  function Numeral(n: nat): (s: string)
    ensures s != "" && IsDigits(s)
  {
    if n < 10 then ["0123456789"[n]] else Numeral(n / 10) + ["0123456789"[n % 10]]
  }

  lemma {:induction false} NumeralReads(n: nat)
    ensures DigitsValue(Numeral(n)) == n
    decreases n
  {
    var s, digit := Numeral(n), "0123456789"[n % 10];
    DigitReads(n % 10);
    if n < 10 {
      assert s[..0] == "";
    } else {
      NumeralReads(n / 10);
      assert s[..|s| - 1] == Numeral(n / 10) && s[|s| - 1] == digit;
    }
  }

  lemma DigitReads(d: nat)
    requires d < 10
    ensures "0123456789"[d] as int - '0' as int == d
  {
  }

  /** Numerals read as their numbers, with either sign, where an ADD or SUBTRACT reads an amount. */
  lemma NumeralsAreAmounts(n: nat)
    ensures Numeric(Str(Numeral(n))) == Ok(n as real) && Numeric(Str("+" + Numeral(n))) == Ok(n as real)
    ensures Numeric(Str("-" + Numeral(n))) == Ok(-(n as real))
  {
    NumeralReads(n);
    WholeTextReads(Numeral(n));
  }

  /** One tenth, one hundredth and so on. */
  function Tenths(k: nat): real {
    if k == 0 then 1.0 else Tenths(k - 1) / 10.0
  }

  lemma OneMoreTenth(t: real, p: real)
    requires t * p == 1.0
    ensures (t / 10.0) * (10.0 * p) == 1.0
  {
    assert (t / 10.0) * (10.0 * p) == (t / 10.0 * 10.0) * p;
  }

  lemma {:induction false} TenthsInvert(k: nat)
    ensures Tenths(k) * PowerOfTen(k) as real == 1.0
  {
    if k > 0 {
      TenthsInvert(k - 1);
      OneMoreTenth(Tenths(k - 1), PowerOfTen(k - 1) as real);
      assert PowerOfTen(k) as real == 10.0 * PowerOfTen(k - 1) as real;
    }
  }

  lemma TimesInverse(n: real, t: real, p: real)
    requires p > 0.0 && t * p == 1.0
    ensures n / p == n * t
  {
    assert t == 1.0 / p;
  }

  /** That many tenths, hundredths and so on. */
  function Shifted(n: nat, k: nat): real {
    n as real * Tenths(k)
  }

  lemma DecimalShifts(n: nat, a: string, b: string)
    requires IsDigits(a + b) && DigitsValue(a + b) == n
    ensures DecimalValue(a, b) == Shifted(n, |b|)
  {
    TenthsInvert(|b|);
    TimesInverse(n as real, Tenths(|b|), PowerOfTen(|b|) as real);
  }

  lemma PartsAreDigits(a: string, b: string)
    requires IsDigits(a + b)
    ensures IsDigits(a) && IsDigits(b)
  {
    assert forall i :: 0 <= i < |a| ==> a[i] == (a + b)[i];
    assert forall i :: 0 <= i < |b| ==> b[i] == (a + b)[|a| + i];
  }

  /** A numeral with its last digits behind a point reads as that many tenths, hundredths and so on. */
  lemma PointShifts(n: nat, a: string, b: string)
    requires Numeral(n) == a + b
    ensures Numeric(Str(a + "." + b)) == Ok(Shifted(n, |b|))
  {
    NumeralReads(n);
    PartsAreDigits(a, b);
    DecimalShifts(n, a, b);
    DecimalTextReads(a, b);
  }

  /** The context gives the instant under the key, or nothing at all. */
  predicate Carries(context: Document, key: string, moment: Option<nat>) {
    if moment.Some? then key in context && context[key] == Str(Numeral(moment.value)) else key !in context || context[key] == Null
  }

  lemma InstantReads(context: Document, key: string, moment: Option<nat>)
    requires Carries(context, key, moment)
    ensures ParseInstant(Get(context, key)) == moment && !IsMalformedInstant(Get(context, key))
  {
    if moment.Some? {
      NumeralReads(moment.value);
    }
  }

  predicate OneKey(key: string) {
    '.' !in key
  }

  /** A key without a dot reads that field. */
  lemma {:induction false} KeyReads(source: Document, key: string)
    requires OneKey(key)
    ensures GetPath(source, key) == Get(source, key)
  {
    SplitOneKey(key);
    assert [key][1..] == [] && Walk(Get(source, key), []) == Get(source, key);
    assert Walk(Obj(source), [key]) == Walk(Get(source, key), [key][1..]);
  }

  lemma {:induction false} SplitOneKey(key: string)
    requires OneKey(key)
    ensures Split(key, '.') == [key]
  {
    if key != "" {
      SplitOneKey(key[1..]);
      assert [key[0]] + key[1..] == key;
    }
  }

  lemma {:induction false} SplitFirstKey(key: string, path: string)
    requires OneKey(key)
    ensures Split(key + "." + path, '.') == [key] + Split(path, '.')
  {
    if key == "" {
      assert (key + "." + path)[1..] == path;
    } else {
      assert (key + "." + path)[1..] == key[1..] + "." + path;
      SplitFirstKey(key[1..], path);
      assert [key[0]] + key[1..] == key;
    }
  }

  /** A longer path goes on in the object its first key holds, and reads null where that is no object. */
  lemma PathReads(source: Document, key: string, path: string)
    requires OneKey(key)
    ensures GetPath(source, key + "." + path)
         == if key in source && source[key].Obj? then GetPath(source[key].fields, path) else Null
  {
    SplitFirstKey(key, path);
    var parts, v := Split(path, '.'), Get(source, key);
    assert ([key] + parts)[1..] == parts && ([key] + parts)[0] == key;
    assert Walk(Obj(source), [key] + parts) == Walk(v, ([key] + parts)[1..]);
    assert v.Obj? ==> v == Obj(v.fields);
    assert !v.Obj? ==> Walk(v, parts) == Null;
  }
}
