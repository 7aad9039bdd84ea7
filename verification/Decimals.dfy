/** What decimal text means as a number (the numeric reading of ADD and SUBTRACT effects). */
module Decimals {
  import opened Prelude
  import opened Text
  import opened Json

  lemma ShiftDigit(all: nat, whole: nat, rest: nat, p: nat, last: nat)
    requires all == whole * p + rest
    ensures 10 * all + last == whole * (10 * p) + (10 * rest + last)
  {
  }

  lemma {:induction false} DigitsAppend(a: string, b: string)
    requires IsDigits(a) && IsDigits(b)
    ensures IsDigits(a + b) && DigitsValue(a + b) == DigitsValue(a) * PowerOfTen(|b|) + DigitsValue(b)
    decreases |b|
  {
    if b == "" {
      assert a + b == a;
    } else {
      var rest := b[..|b| - 1];
      assert (a + b)[..|a + b| - 1] == a + rest;
      DigitsAppend(a, rest);
      ShiftDigit(DigitsValue(a + rest), DigitsValue(a), DigitsValue(rest), PowerOfTen(|rest|), b[|b| - 1] as int - '0' as int);
    }
  }

  lemma {:induction false} SplitDigits(a: string)
    requires IsDigits(a)
    ensures Split(a, '.') == [a]
  {
    if a != "" {
      SplitDigits(a[1..]);
      assert [a[0]] + a[1..] == a;
    }
  }

  lemma {:induction false} SplitDecimal(a: string, b: string)
    requires IsDigits(a) && IsDigits(b)
    ensures Split(a + "." + b, '.') == [a, b]
  {
    if a == "" {
      assert (a + "." + b)[1..] == b;
      SplitDigits(b);
    } else {
      assert (a + "." + b)[1..] == a[1..] + "." + b;
      SplitDecimal(a[1..], b);
      assert [a[0]] + a[1..] == a;
    }
  }

  lemma {:induction false} ProductAsReal(w: nat, p: nat)
    ensures (w * p) as real == w as real * p as real
  {
    if w > 0 {
      ProductAsReal(w - 1, p);
      assert w * p == (w - 1) * p + p;
      assert w as real * p as real == (w - 1) as real * p as real + p as real;
    }
  }

  lemma Distributes(x: real, y: real, p: real)
    requires p > 0.0
    ensures (x * p + y) / p == x + y / p
  {
  }

  lemma Scaled(whole: nat, fraction: nat, p: nat)
    requires p > 0
    ensures (whole * p + fraction) as real / p as real == whole as real + fraction as real / p as real
  {
    ProductAsReal(whole, p);
    Distributes(whole as real, fraction as real, p as real);
  }

  /** The number the digits form, scaled by the length of the fraction. */
  function DecimalValue(a: string, b: string): real
    requires IsDigits(a + b)
  {
    DigitsValue(a + b) as real / PowerOfTen(|b|) as real
  }

  lemma FractionScales(a: string, b: string)
    requires IsDigits(a) && IsDigits(b)
    ensures IsDigits(a + b) && WithFraction(a, b) == DecimalValue(a, b)
  {
    DigitsAppend(a, b);
    Scaled(DigitsValue(a), DigitsValue(b), PowerOfTen(|b|));
  }

  lemma UnsignedTextReads(a: string, b: string)
    requires IsDigits(a) && IsDigits(b) && a + b != ""
    ensures IsDigits(a + b) && ParseUnsigned(a + "." + b) == Some(DecimalValue(a, b))
  {
    SplitDecimal(a, b);
    var parts := Split(a + "." + b, '.');
    assert parts[0] == a && parts[1] == b && parts[0] + parts[1] != "";
    assert ParseUnsigned(a + "." + b) == Some(WithFraction(a, b));
    FractionScales(a, b);
  }

  /** Digits around a decimal point read as the number all the digits form, scaled by the fraction's length; a minus
      sign negates it. */
  lemma DecimalTextReads(a: string, b: string)
    requires IsDigits(a) && IsDigits(b) && a + b != ""
    ensures IsDigits(a + b)
    ensures Numeric(Str(a + "." + b)) == Ok(DecimalValue(a, b))
    ensures Numeric(Str("-" + (a + "." + b))) == Ok(-DecimalValue(a, b))
  {
    UnsignedTextReads(a, b);
    SignedTextReads(a + "." + b, DecimalValue(a, b));
  }

  lemma SignedTextReads(text: string, value: real)
    requires text != "" && text[0] !in "+-" && ParseUnsigned(text) == Some(value)
    ensures ParseDecimal(text) == Some(value) && ParseDecimal("-" + text) == Some(-value) && ParseDecimal("+" + text) == Some(value)
  {
    assert ("-" + text)[1..] == text && ("+" + text)[1..] == text;
  }

  /** The number the digits form. */
  function WholeValue(a: string): real
    requires IsDigits(a)
  {
    DigitsValue(a) as real
  }

  /** Whole numbers read without a decimal point, with either sign. */
  lemma WholeTextReads(a: string)
    requires IsDigits(a) && a != ""
    ensures Numeric(Str(a)) == Ok(WholeValue(a))
    ensures Numeric(Str("-" + a)) == Ok(-WholeValue(a)) && Numeric(Str("+" + a)) == Ok(WholeValue(a))
  {
    WholeUnsigned(a);
    DigitIsNoSign(a);
    SignedTextReads(a, WholeValue(a));
  }

  lemma DigitIsNoSign(a: string)
    requires IsDigits(a) && a != ""
    ensures a[0] !in "+-"
  {
    assert '0' <= a[0] <= '9';
  }

  lemma NoFraction(a: string)
    requires IsDigits(a)
    ensures WithFraction(a, "") == WholeValue(a)
  {
    assert DigitsValue("") == 0 && PowerOfTen(|""|) == 1;
  }

  lemma WholeUnsigned(a: string)
    requires IsDigits(a) && a != ""
    ensures ParseUnsigned(a) == Some(WholeValue(a))
  {
    SplitDigits(a);
    assert a + "" == a;
    NoFraction(a);
  }
}
