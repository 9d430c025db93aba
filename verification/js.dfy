/** The JavaScript values the pages pass around, with the conversions they
    apply to them: truthiness, `??`, Number(...), parseInt(..., 10), String(...). */
module Js {
  import opened Text

  datatype Option<+T> = None | Some(value: T) {
    function GetOr(default: T): T {
      match this
      case Some(v) => v
      case None => default
    }
  }

  /** What an awaited `api` call produced: the parsed response body, or the
      message of the error it threw. */
  datatype Outcome<+T> = Success(value: T) | Failure(message: string)

  /** A finite number, mantissa / 10^scale. */
  datatype Decimal = Decimal(mantissa: int, scale: nat)

  function Magnitude(d: Decimal): nat {
    if d.mantissa < 0 then -d.mantissa else d.mantissa
  }

  /** m / 10^scale, rounded down. */
  function Unscale(m: nat, scale: nat): nat {
    if scale == 0 then m else Unscale(m / 10, scale - 1)
  }

  /** k * 10^scale */
  function Scale(k: int, scale: nat): int {
    if scale == 0 then k else 10 * Scale(k, scale - 1)
  }

  /** 10^scale divides m. */
  predicate DividesPow10(m: nat, scale: nat) {
    scale == 0 || (m % 10 == 0 && DividesPow10(m / 10, scale - 1))
  }

  /** Number.isInteger */
  predicate IsInteger(d: Decimal) {
    DividesPow10(Magnitude(d), d.scale)
  }

  /** The value of an integer-valued number (the integer part of any other). */
  function IntValue(d: Decimal): int {
    var w: int := Unscale(Magnitude(d), d.scale);
    if d.mantissa < 0 then -w else w
  }

  /** d < k */
  predicate Below(d: Decimal, k: int) {
    d.mantissa < Scale(k, d.scale)
  }

  /** d > k */
  predicate Above(d: Decimal, k: int) {
    d.mantissa > Scale(k, d.scale)
  }

  /** Two finite numbers with the same value. */
  predicate SameNumber(d: Decimal, e: Decimal) {
    d.mantissa * Pow10(e.scale) == e.mantissa * Pow10(d.scale)
  }

  /** A JavaScript value as the pages meet it: a missing field, null, NaN, a
      finite number or a string. */
  datatype JsVal = Undefined | Null | NaN | Num(d: Decimal) | Str(s: string)

  function Int(n: int): JsVal {
    Num(Decimal(n, 0))
  }

  predicate Truthy(v: JsVal) {
    match v
    case Num(d) => d.mantissa != 0
    case Str(s) => s != []
    case _ => false
  }

  /** `a === b`: numbers are equal by value, NaN equals nothing, other
      values only themselves. */
  predicate StrictEquals(a: JsVal, b: JsVal) {
    match a
    case Num(d) => b.Num? && SameNumber(d, b.d)
    case NaN => false
    case _ => a == b
  }

  /** `v ?? fallback` */
  function Coalesce(v: JsVal, fallback: JsVal): (r: JsVal)
    ensures r == v || r == fallback
    ensures r == fallback <==> v.Undefined? || v.Null? || v == fallback
  {
    if v.Undefined? || v.Null? then fallback else v
  }

  /** `v || fallback` */
  function Or(v: JsVal, fallback: JsVal): (r: JsVal)
    ensures Truthy(v) ==> r == v
    ensures !Truthy(v) ==> r == fallback
  {
    if Truthy(v) then v else fallback
  }

  /** The unsigned part of a StrDecimalLiteral: digits with an optional
      fraction, `1`, `1.`, `1.5` or `.5`. None when it is not one. */
  function ParseUnsigned(b: string): (r: Option<Decimal>)
    ensures r.Some? ==> r.value.mantissa >= 0
  {
    var dot := FirstIndex(b, '.');
    if dot == |b| then
      if b != [] && AllDigits(b) then Some(Decimal(DigitsValue(b), 0)) else None
    else
      var whole, frac := b[..dot], b[dot + 1..];
      if |whole| + |frac| > 0 && AllDigits(whole) && AllDigits(frac) then
        AllDigitsAppend(whole, frac);
        Some(Decimal(DigitsValue(whole + frac), |frac|))
      else None
  }

  /** Number(s) for a string: white space around the text is ignored, the
      empty text is 0, otherwise an optionally signed decimal; None is NaN. */
  function ParseNumber(s: string): Option<Decimal> {
    var t := Trim(s);
    if t == [] then Some(Decimal(0, 0))
    else if t[0] == '-' then Negated(ParseUnsigned(t[1..]))
    else if t[0] == '+' then ParseUnsigned(t[1..])
    else ParseUnsigned(t)
  }

  function Negated(r: Option<Decimal>): Option<Decimal> {
    match r
    case None => None
    case Some(d) => Some(Decimal(-d.mantissa, d.scale))
  }

  /** Number(v) */
  function ToNumber(v: JsVal): (r: JsVal)
    ensures r.Num? || r.NaN?
  {
    match v
    case Undefined => NaN
    case Null => Int(0)
    case NaN => NaN
    case Num(d) => v
    case Str(s) => match ParseNumber(s) case Some(d) => Num(d) case None => NaN
  }

  /** parseInt(s, 10): leading white space skipped, an optional sign, then
      the longest run of decimal digits; None (NaN) when there is no digit. */
  function ParseInt(s: string): (r: Option<int>)
    ensures r.None? <==> (var t := TrimStart(s);
                           var u := if t != [] && (t[0] == '+' || t[0] == '-') then t[1..] else t;
                           DigitPrefix(u) == [])
  {
    var t := TrimStart(s);
    var neg := t != [] && t[0] == '-';
    var u := if t != [] && (t[0] == '+' || t[0] == '-') then t[1..] else t;
    var digits := DigitPrefix(u);
    if digits == [] then None
    else
      var v: int := DigitsValue(digits);
      Some(if neg then -v else v)
  }

  function DropTrailingZeros(s: string): string {
    if s != [] && s[|s| - 1] == '0' then DropTrailingZeros(s[..|s| - 1]) else s
  }

  /** Number.prototype.toString for a finite number in plain notation. */
  function NumberText(d: Decimal): (r: string)
    ensures IsInteger(d) ==> r == IntText(IntValue(d))
  {
    var a := Magnitude(d);
    var sign := if d.mantissa < 0 then "-" else "";
    if DividesPow10(a, d.scale) then IntText(IntValue(d))
    else sign + NatText(Unscale(a, d.scale)) + "." + DropTrailingZeros(LastDigits(a, d.scale))
  }

  /** The last `count` decimal digits of `a`, with leading zeros. */
  function LastDigits(a: nat, count: nat): (r: string)
    ensures |r| == count && AllDigits(r)
  {
    if count == 0 then [] else LastDigits(a / 10, count - 1) + [DigitChar(a % 10)]
  }

  /** String(v) */
  function ToText(v: JsVal): string {
    match v
    case Undefined => "undefined"
    case Null => "null"
    case NaN => "NaN"
    case Num(d) => NumberText(d)
    case Str(s) => s
  }

  /** The decimal text of an integer reads back as that integer through Number(...). */
  lemma NumberOfIntText(n: int)
    ensures ParseNumber(IntText(n)) == Some(Decimal(n, 0))
  {
    if n < 0 {
      NumberOfNegativeText(n);
    } else {
      NumberOfNatText(n);
    }
  }

  lemma NumberOfNatText(n: nat)
    ensures ParseNumber(NatText(n)) == Some(Decimal(n, 0))
  {
    var t := NatText(n);
    TrimOfTrimmed(t);
    ParseUnsignedDigits(t);
    assert t[0] != '-' && t[0] != '+';
  }

  lemma NumberOfNegativeText(n: int)
    requires n < 0
    ensures ParseNumber("-" + NatText(-n)) == Some(Decimal(n, 0))
  {
    var digits := NatText(-n);
    var t := "-" + digits;
    TrimOfTrimmed(t);
    assert t[1..] == digits;
    ParseUnsignedDigits(digits);
    assert ParseNumber(t) == Negated(ParseUnsigned(digits));
  }

  lemma ParseUnsignedDigits(s: string)
    requires s != [] && AllDigits(s)
    ensures ParseUnsigned(s) == Some(Decimal(DigitsValue(s), 0))
  {
    NoDotInDigits(s);
  }

  /** The decimal text of an integer reads back as that integer through parseInt. */
  lemma ParseIntOfIntText(n: int)
    ensures ParseInt(IntText(n)) == Some(n)
  {
    var t := IntText(n);
    assert TrimStart(t) == t;
    var digits := if n < 0 then t[1..] else t;
    assert digits == NatText(if n < 0 then -n else n);
    DigitPrefixOfDigits(digits);
  }

  lemma NoDotInDigits(s: string)
    requires AllDigits(s)
    ensures FirstIndex(s, '.') == |s|
  {
  }

  lemma DigitPrefixOfDigits(s: string)
    requires AllDigits(s)
    ensures DigitPrefix(s) == s
  {
  }
}
