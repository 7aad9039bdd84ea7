/** JSON documents as Python sees them: truth value, ordering, numeric reading and dotted paths.
    Numbers are exact; a boolean and a number are distinct values under equality. */
module Json {
  import opened Prelude
  import opened Text

  datatype Json =
    | Null
    | Bool(b: bool)
    | Num(n: real)
    | Str(s: string)
    | Arr(items: seq<Json>)
    | Obj(fields: map<string, Json>)

  type Document = map<string, Json>

  /** dict.get with None for a missing key. */
  function Get(m: Document, key: string): Json {
    if key in m then m[key] else Null
  }

  /** bool(value). */
  predicate Truthy(v: Json) {
    match v
    case Null => false
    case Bool(b) => b
    case Num(n) => n != 0.0
    case Str(s) => s != ""
    case Arr(items) => items != []
    case Obj(fields) => fields != map[]
  }

  function BoolAsNumber(b: bool): real {
    if b then 1.0 else 0.0
  }

  /** The number a bool or a number stands for in arithmetic and ordering. */
  function AsNumber(v: Json): Option<real> {
    match v
    case Bool(b) => Some(BoolAsNumber(b))
    case Num(n) => Some(n)
    case _ => None
  }

  /** Python's ordering of two values as -1, 0 or 1; None where Python raises TypeError. */
  function Order(a: Json, b: Json): Option<int>
    decreases a, 1
  {
    if AsNumber(a).Some? && AsNumber(b).Some? then
      var x, y := AsNumber(a).value, AsNumber(b).value;
      Some(if x < y then -1 else if x == y then 0 else 1)
    else if a.Str? && b.Str? then
      Some(if a.s == b.s then 0 else if StrLe(a.s, b.s) then -1 else 1)
    else if a.Arr? && b.Arr? then OrderItems(a.items, b.items)
    else None
  }

  /** Lists compare at the first pair that differs, then by length. */
  function OrderItems(xs: seq<Json>, ys: seq<Json>): Option<int>
    decreases xs, 0
  {
    if xs == [] || ys == [] then
      Some(if |xs| < |ys| then -1 else if |xs| == |ys| then 0 else 1)
    else if xs[0] == ys[0] then OrderItems(xs[1..], ys[1..])
    else
      match Order(xs[0], ys[0])
      case None => None
      case Some(c) => if c == 0 then OrderItems(xs[1..], ys[1..]) else Some(c)
  }

  predicate IsDigits(s: string) {
    forall i :: 0 <= i < |s| ==> '0' <= s[i] <= '9'
  }

  function DigitsValue(s: string): nat
    requires IsDigits(s)
  {
    if s == "" then 0 else 10 * DigitsValue(s[..|s| - 1]) + (s[|s| - 1] as int - '0' as int)
  }

  function PowerOfTen(n: nat): (p: nat)
    ensures p > 0
  {
    if n == 0 then 1 else 10 * PowerOfTen(n - 1)
  }

  function WithFraction(whole: string, fraction: string): real
    requires IsDigits(whole) && IsDigits(fraction)
  {
    DigitsValue(whole) as real + DigitsValue(fraction) as real / PowerOfTen(|fraction|) as real
  }

  /** Digits with an optional fraction. */
  function ParseUnsigned(s: string): Option<real> {
    var parts := Split(s, '.');
    var fraction := if |parts| == 2 then parts[1] else "";
    if |parts| > 2 || !IsDigits(parts[0]) || !IsDigits(fraction) || parts[0] + fraction == "" then None
    else Some(WithFraction(parts[0], fraction))
  }

  /** Decimal text: an optional sign, digits, an optional fraction. */
  function ParseDecimal(s: string): Option<real> {
    var size := ParseUnsigned(if s != "" && (s[0] == '-' || s[0] == '+') then s[1..] else s);
    if size.None? then None else Some(if s != "" && s[0] == '-' then -size.value else size.value)
  }

  /** An instant carried in a JSON context; instants are decimal counts in this model. */
  function ParseInstant(v: Json): Option<int> {
    if v.Str? && v.s != "" && IsDigits(v.s) then Some(DigitsValue(v.s)) else None
  }

  /** Text that is no instant; the parser raises on it. */
  predicate IsMalformedInstant(v: Json) {
    v.Str? && ParseInstant(v).None?
  }

  /** The number an ADD or SUBTRACT effect reads: booleans and null count as zero. */
  function Numeric(v: Json): Result<real> {
    match v
    case Null => Ok(0.0)
    case Bool(_) => Ok(0.0)
    case Num(n) => Ok(n)
    case Str(s) => (match ParseDecimal(s) case Some(n) => Ok(n) case None => Err(TypeMismatch))
    case Arr(_) => Err(TypeMismatch)
    case Obj(_) => Err(TypeMismatch)
  }

  function Walk(v: Json, segments: seq<string>): Json
    decreases segments
  {
    if segments == [] then v
    else if !v.Obj? then Null
    else Walk(Get(v.fields, segments[0]), segments[1..])
  }

  /** The value a dotted path reads. */
  function GetPath(source: Document, path: string): Json {
    Walk(Obj(source), Split(path, '.'))
  }
}
