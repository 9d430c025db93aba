/** String operations of the JavaScript runtime that the portal's pages rely on:
    trim, the \s character class, case mapping, `includes`, `padStart` and
    decimal digits. Strings are sequences of characters. */
module Text {

  /** ECMAScript WhiteSpace and LineTerminator code points: exactly what
      String.prototype.trim strips and what the regular-expression class \s matches. */
  predicate IsSpace(c: char) {
    var n := c as int;
    n == 0x09 || n == 0x0A || n == 0x0B || n == 0x0C || n == 0x0D || n == 0x20 || n == 0xA0
    || n == 0x1680 || (0x2000 <= n <= 0x200A) || n == 0x2028 || n == 0x2029 || n == 0x202F
    || n == 0x205F || n == 0x3000 || n == 0xFEFF
  }

  predicate AllSpace(s: string) {
    forall k :: 0 <= k < |s| ==> IsSpace(s[k])
  }

  /** The number of white-space characters at the start of `s`. */
  function LeadingSpace(s: string): (n: nat)
    ensures n <= |s| && (n == |s| || !IsSpace(s[n]))
    ensures forall k :: 0 <= k < n ==> IsSpace(s[k])
  {
    if |s| > 0 && IsSpace(s[0]) then
      var n := 1 + LeadingSpace(s[1..]);
      assert forall k :: 1 <= k < n ==> s[k] == s[1..][k - 1];
      n
    else 0
  }

  /** The number of white-space characters at the end of `s`. */
  function TrailingSpace(s: string): (n: nat)
    ensures n <= |s| && (n == |s| || !IsSpace(s[|s| - n - 1]))
    ensures forall k :: |s| - n <= k < |s| ==> IsSpace(s[k])
  {
    if |s| > 0 && IsSpace(s[|s| - 1]) then
      var n := 1 + TrailingSpace(s[..|s| - 1]);
      assert forall k :: |s| - n <= k < |s| - 1 ==> s[k] == s[..|s| - 1][k];
      n
    else 0
  }

  /** Leading white space removed. */
  function TrimStart(s: string): (r: string)
    ensures r == [] || !IsSpace(r[0])
  {
    s[LeadingSpace(s)..]
  }

  /** Trailing white space removed. */
  function TrimEnd(s: string): (r: string)
    ensures r == [] || !IsSpace(r[|r| - 1])
  {
    s[..|s| - TrailingSpace(s)]
  }

  /** String.prototype.trim. */
  function Trim(s: string): (r: string)
    ensures |r| <= |s|
    ensures r == [] || (!IsSpace(r[0]) && !IsSpace(r[|r| - 1]))
  {
    TrimEnd(TrimStart(s))
  }

  /** `!s.trim()`: the text is empty once trimmed. */
  predicate IsBlank(s: string) {
    Trim(s) == []
  }

  /** A string is blank exactly when every character in it is white space. */
  lemma BlankIffAllSpace(s: string)
    ensures IsBlank(s) <==> AllSpace(s)
  {
    var i := LeadingSpace(s);
    var t := s[i..];
    if i < |s| {
      assert t[0] == s[i];
      var j := TrailingSpace(t);
      assert j < |t|;
    }
  }

  /** The trimmed text sits inside the original. */
  lemma TrimIsInfix(s: string)
    ensures Contains(s, Trim(s))
  {
    var i := LeadingSpace(s);
    var t := s[i..];
    var r := Trim(s);
    assert r == t[..|r|];
    assert s[i..i + |r|] == r;
    assert OccursAt(s, r, i);
  }

  /** Trimming twice is trimming once. */
  lemma TrimIdempotent(s: string)
    ensures Trim(Trim(s)) == Trim(s)
  {
    TrimOfTrimmed(Trim(s));
  }

  /** A string with no white space at either end is its own trim. */
  lemma TrimOfTrimmed(s: string)
    requires s == [] || (!IsSpace(s[0]) && !IsSpace(s[|s| - 1]))
    ensures TrimStart(s) == s && TrimEnd(s) == s && Trim(s) == s
  {
    assert LeadingSpace(s) == 0;
    assert TrailingSpace(s) == 0;
  }

  /** White space added around a text does not change its trim. */
  lemma TrimPadded(before: string, s: string, after: string)
    requires AllSpace(before) && AllSpace(after)
    ensures Trim(before + s + after) == Trim(s)
  {
    var u := before + s + after;
    if AllSpace(s) {
      assert AllSpace(u) by {
        forall k | 0 <= k < |u| ensures IsSpace(u[k]) {
          if k < |before| { assert u[k] == before[k]; }
          else if k < |before| + |s| { assert u[k] == s[k - |before|]; }
          else { assert u[k] == after[k - |before| - |s|]; }
        }
      }
      BlankIffAllSpace(u);
      BlankIffAllSpace(s);
    } else {
      BlankIffAllSpace(s);
      var i := LeadingSpace(s);
      var j := TrailingSpace(s[i..]);
      var t := Trim(s);
      var lead, trail := s[..i], s[i..][|s[i..]| - j..];
      assert s == lead + t + trail;
      assert AllSpace(before + lead) by {
        forall k | 0 <= k < |before + lead| ensures IsSpace((before + lead)[k]) {
          if k < |before| { assert (before + lead)[k] == before[k]; } else { assert (before + lead)[k] == s[k - |before|]; }
        }
      }
      assert AllSpace(trail + after) by {
        forall k | 0 <= k < |trail + after| ensures IsSpace((trail + after)[k]) {
          if k < |trail| { assert (trail + after)[k] == s[i..][|s[i..]| - j + k]; }
          else { assert (trail + after)[k] == after[k - |trail|]; }
        }
      }
      assert u == (before + lead) + t + (trail + after);
      TrimAround(before + lead, t, trail + after);
    }
  }

  lemma TrimAround(before: string, t: string, after: string)
    requires AllSpace(before) && AllSpace(after)
    requires t != [] && !IsSpace(t[0]) && !IsSpace(t[|t| - 1])
    ensures Trim(before + t + after) == t
  {
    var s := before + t + after;
    assert s == before + (t + after);
    LeadingSpacePast(before, t + after);
    assert TrimStart(s) == t + after;
    TrailingSpacePast(t, after);
    assert (t + after)[..|t|] == t;
  }

  lemma {:induction false} LeadingSpacePast(before: string, rest: string)
    requires AllSpace(before) && rest != [] && !IsSpace(rest[0])
    ensures LeadingSpace(before + rest) == |before|
  {
    if before != [] {
      assert (before + rest)[1..] == before[1..] + rest;
      LeadingSpacePast(before[1..], rest);
    } else {
      assert before + rest == rest;
    }
  }

  lemma {:induction false} TrailingSpacePast(t: string, after: string)
    requires AllSpace(after) && t != [] && !IsSpace(t[|t| - 1])
    ensures TrailingSpace(t + after) == |after|
  {
    if after != [] {
      assert (t + after)[..|t + after| - 1] == t + after[..|after| - 1];
      TrailingSpacePast(t, after[..|after| - 1]);
    } else {
      assert t + after == t;
    }
  }

  // ---------------------------------------------------------------------------
  // Case mapping

  /** toUpperCase of one character, for the characters whose upper case is an
      ASCII letter: a-z, LATIN SMALL LETTER LONG S (to 'S') and LATIN SMALL
      LETTER DOTLESS I (to 'I'). Every other character is left as it is. */
  function UpperChar(c: char): char {
    if 'a' <= c <= 'z' then (c as int - 32) as char
    else if c as int == 0x17F then 'S'
    else if c as int == 0x131 then 'I'
    else c
  }

  /** toLowerCase of one character, for A-Z. */
  function LowerChar(c: char): char {
    if 'A' <= c <= 'Z' then (c as int + 32) as char else c
  }

  function Upper(s: string): (r: string)
    ensures |r| == |s| && forall k :: 0 <= k < |s| ==> r[k] == UpperChar(s[k])
  {
    seq(|s|, k requires 0 <= k < |s| => UpperChar(s[k]))
  }

  function Lower(s: string): (r: string)
    ensures |r| == |s| && forall k :: 0 <= k < |s| ==> r[k] == LowerChar(s[k])
  {
    seq(|s|, k requires 0 <= k < |s| => LowerChar(s[k]))
  }

  /** Upper-casing ignores whether the text was first lower-cased or upper-cased. */
  lemma UpperIgnoresCase(s: string)
    ensures Upper(Lower(s)) == Upper(s)
    ensures Upper(Upper(s)) == Upper(s)
  {
    assert forall k :: 0 <= k < |s| ==> Upper(Lower(s))[k] == Upper(s)[k];
  }

  /** Lower-casing twice is lower-casing once. */
  lemma LowerIgnoresCase(s: string)
    ensures Lower(Lower(s)) == Lower(s)
  {
  }

  // ---------------------------------------------------------------------------
  // Searching

  predicate OccursAt(s: string, sub: string, i: int) {
    0 <= i && i + |sub| <= |s| && s[i..i + |sub|] == sub
  }

  /** String.prototype.includes. */
  predicate Contains(s: string, sub: string) {
    exists i :: 0 <= i <= |s| && OccursAt(s, sub, i)
  }

  /** The empty string is found in every string. */
  lemma ContainsEmpty(s: string)
    ensures Contains(s, "")
  {
    assert OccursAt(s, "", 0);
  }

  /** A string contains every one of its substrings. */
  lemma ContainsInfix(a: string, sub: string, b: string)
    ensures Contains(a + sub + b, sub)
  {
    assert (a + sub + b)[|a|..|a| + |sub|] == sub;
    assert OccursAt(a + sub + b, sub, |a|);
  }

  /** Index of the first occurrence of `c`, or |s| when there is none. */
  function FirstIndex(s: string, c: char): (r: nat)
    ensures r <= |s| && (r < |s| ==> s[r] == c)
    ensures forall k :: 0 <= k < r ==> s[k] != c
  {
    if s == [] then 0 else if s[0] == c then 0 else 1 + FirstIndex(s[1..], c)
  }

  // ---------------------------------------------------------------------------
  // Padding

  function Repeat(c: char, n: nat): (r: string)
    ensures |r| == n && forall k :: 0 <= k < n ==> r[k] == c
  {
    if n == 0 then [] else [c] + Repeat(c, n - 1)
  }

  /** String.prototype.padStart(width, c) with a one-character pad. */
  function PadStart(s: string, width: nat, c: char): (r: string)
    ensures |r| == if |s| >= width then |s| else width
    ensures r[|r| - |s|..] == s
    ensures forall k :: 0 <= k < |r| - |s| ==> r[k] == c
  {
    if |s| >= width then s else Repeat(c, width - |s|) + s
  }

  // ---------------------------------------------------------------------------
  // Decimal digits

  predicate IsDigit(c: char) {
    '0' <= c <= '9'
  }

  predicate AllDigits(s: string) {
    forall k :: 0 <= k < |s| ==> IsDigit(s[k])
  }

  function DigitValue(c: char): nat
    requires IsDigit(c)
  {
    c as int - '0' as int
  }

  function DigitChar(d: nat): (c: char)
    requires d < 10
    ensures IsDigit(c) && DigitValue(c) == d
  {
    ('0' as int + d) as char
  }

  function Pow10(k: nat): (r: nat)
    ensures r >= 1
  {
    if k == 0 then 1 else 10 * Pow10(k - 1)
  }

  /** The number a string of decimal digits denotes (leading zeros allowed). */
  function DigitsValue(s: string): nat
    requires AllDigits(s)
  {
    if s == [] then 0 else DigitsValue(s[..|s| - 1]) * 10 + DigitValue(s[|s| - 1])
  }

  /** The value of digits is below the power of ten of their count. */
  lemma {:induction false} DigitsValueBound(s: string)
    requires AllDigits(s)
    ensures DigitsValue(s) < Pow10(|s|)
  {
    if s != [] {
      DigitsValueBound(s[..|s| - 1]);
    }
  }

  lemma AllDigitsAppend(a: string, b: string)
    requires AllDigits(a) && AllDigits(b)
    ensures AllDigits(a + b)
  {
    var ab := a + b;
    forall k | 0 <= k < |ab| ensures IsDigit(ab[k]) {
      if k < |a| { assert ab[k] == a[k]; } else { assert ab[k] == b[k - |a|]; }
    }
  }

  /** Reading `a + b` is reading `a`, shifting by the digits of `b`, and adding `b`. */
  lemma {:induction false} DigitsValueAppend(a: string, b: string)
    requires AllDigits(a) && AllDigits(b)
    ensures AllDigits(a + b)
    ensures DigitsValue(a + b) == DigitsValue(a) * Pow10(|b|) + DigitsValue(b)
  {
    var ab := a + b;
    AllDigitsAppend(a, b);
    if b == [] {
      assert ab == a;
    } else {
      var b' := b[..|b| - 1];
      assert ab[..|ab| - 1] == a + b';
      DigitsValueAppend(a, b');
      ShiftStep(DigitsValue(a), DigitsValue(b'), DigitValue(b[|b| - 1]), Pow10(|b'|));
    }
  }

  lemma ShiftStep(x: int, y: int, d: int, p: int)
    ensures (x * p + y) * 10 + d == x * (p * 10) + (y * 10 + d)
  {
  }

  /** Leading zeros do not change the value of a digit string. */
  lemma LeadingZeros(n: nat, s: string)
    requires AllDigits(s)
    ensures AllDigits(Repeat('0', n) + s)
    ensures DigitsValue(Repeat('0', n) + s) == DigitsValue(s)
  {
    ZerosValue(n);
    DigitsValueAppend(Repeat('0', n), s);
  }

  lemma {:induction false} ZerosValue(n: nat)
    ensures AllDigits(Repeat('0', n)) && DigitsValue(Repeat('0', n)) == 0
  {
    if n > 0 {
      ZerosValue(n - 1);
      var z := Repeat('0', n);
      assert z[..n - 1] == Repeat('0', n - 1);
    }
  }

  /** The longest prefix of `s` made of decimal digits. */
  function DigitPrefix(s: string): (r: string)
    ensures AllDigits(r) && |r| <= |s| && r == s[..|r|]
    ensures |r| == |s| || !IsDigit(s[|r|])
  {
    if s != [] && IsDigit(s[0]) then [s[0]] + DigitPrefix(s[1..]) else []
  }

  /** The shortest decimal text of a natural number, as String(n) prints it. */
  function NatText(n: nat): (r: string)
    ensures |r| >= 1 && AllDigits(r)
    ensures DigitsValue(r) == n
    ensures |r| > 1 ==> r[0] != '0'
  {
    if n < 10 then [DigitChar(n)]
    else
      var p := NatText(n / 10);
      var r := p + [DigitChar(n % 10)];
      assert r[..|r| - 1] == p;
      r
  }

  /** String(n) for an integer. */
  function IntText(n: int): (r: string)
    ensures |r| >= 1
    ensures n >= 0 ==> AllDigits(r) && DigitsValue(r) == n
    ensures n < 0 ==> r[0] == '-' && AllDigits(r[1..]) && DigitsValue(r[1..]) == -n
  {
    if n < 0 then "-" + NatText(-n) else NatText(n)
  }
}
