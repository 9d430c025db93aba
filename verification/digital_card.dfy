/** What the member's digital card shows, derived from the profile: the
    level title, the ten-digit card number, the name, the initials in the
    avatar and which of the four card backgrounds is drawn. */
module DigitalCard {
  import opened Text
  import opened Js
  import Lists

  // ---------------------------------------------------------------------------
  // Level

  /** The titles of levels 1 to 4. */
  const Titles: seq<string> := [
    "Level 1 – Culturally Aware",
    "Level 2 – Yolŋu Informed",
    "Level 3 – Conversing in Yolŋu Matha",
    "Level 4 – Leading with Yolŋu"
  ]

  /** `v === k` for a number, or `v === "k"` for a string. */
  predicate IsLevel(v: JsVal, k: int) {
    (v.Num? && IsInteger(v.d) && IntValue(v.d) == k) || v == Str(IntText(k))
  }

  /** `levelName`: the title of levels 1 to 4 given as a number or a string,
      "Level <v>" for any other truthy value, and "—" otherwise. */
  function LevelName(lvl: JsVal): (r: string)
    ensures forall k :: 1 <= k <= 4 && IsLevel(lvl, k) ==> r == Titles[k - 1]
    ensures (forall k :: 1 <= k <= 4 ==> !IsLevel(lvl, k)) ==> r == if Truthy(lvl) then "Level " + ToText(lvl) else "—"
  {
    if IsLevel(lvl, 1) then Titles[0]
    else if IsLevel(lvl, 2) then Titles[1]
    else if IsLevel(lvl, 3) then Titles[2]
    else if IsLevel(lvl, 4) then Titles[3]
    else if Truthy(lvl) then "Level " + ToText(lvl)
    else "—"
  }

  /** `displayLevel = levelName(cardLevel || 1)`. */
  function DisplayLevel(cardLevel: JsVal): (r: string)
    ensures r != "—"
    ensures !Truthy(cardLevel) ==> r == Titles[0]
  {
    LevelName(Or(cardLevel, Int(1)))
  }

  // ---------------------------------------------------------------------------
  // Card number

  /** `displayId`: the id's text left-padded with zeros to ten characters,
      or "0000000001" without an id. */
  function DisplayId(id: JsVal): (r: string)
    ensures |r| >= 10
    ensures Truthy(id) ==> |r| >= |ToText(id)| && r[|r| - |ToText(id)|..] == ToText(id)
    ensures Truthy(id) && |ToText(id)| < 10 ==> |r| == 10 && forall k :: 0 <= k < 10 - |ToText(id)| ==> r[k] == '0'
    ensures Truthy(id) && |ToText(id)| >= 10 ==> r == ToText(id)
    ensures !Truthy(id) ==> r == "0000000001"
  {
    if Truthy(id) then PadStart(ToText(id), 10, '0') else "0000000001"
  }

  /** The card number of a positive whole id is all digits and reads back as the id. */
  lemma DisplayIdRoundTrip(n: int)
    requires n > 0
    ensures AllDigits(DisplayId(Int(n))) && DigitsValue(DisplayId(Int(n))) == n
  {
    var t := ToText(Int(n));
    assert t == NatText(n);
    if |t| < 10 {
      assert DisplayId(Int(n)) == Repeat('0', 10 - |t|) + t;
      LeadingZeros(10 - |t|, t);
    }
  }

  // ---------------------------------------------------------------------------
  // Name and initials

  /** `displayName`: "first last" trimmed when either part is present,
      otherwise "Gregory Franks". */
  function DisplayName(firstName: JsVal, lastName: JsVal): (r: string)
    ensures !Truthy(firstName) && !Truthy(lastName) ==> r == "Gregory Franks"
    ensures r == [] || (!IsSpace(r[0]) && !IsSpace(r[|r| - 1]))
  {
    if Truthy(firstName) || Truthy(lastName) then
      Trim(ToText(Or(firstName, Str(""))) + " " + ToText(Or(lastName, Str(""))))
    else "Gregory Franks"
  }

  /** With only the first name present, the name shown is that first name trimmed. */
  lemma DisplayNameFirstOnly(first: string, lastName: JsVal)
    requires first != [] && !Truthy(lastName)
    ensures DisplayName(Str(first), lastName) == Trim(first)
  {
    assert ToText(Or(Str(first), Str(""))) + " " + ToText(Or(lastName, Str(""))) == [] + first + " ";
    TrimPadded([], first, " ");
  }

  /** With only the last name present, the name shown is that last name trimmed. */
  lemma DisplayNameLastOnly(firstName: JsVal, last: string)
    requires !Truthy(firstName) && last != []
    ensures DisplayName(firstName, Str(last)) == Trim(last)
  {
    assert ToText(Or(firstName, Str(""))) + " " + ToText(Or(Str(last), Str(""))) == " " + last + [];
    TrimPadded(" ", last, []);
  }

  /** With both names present and neither padded, the name shown is
      "first last". */
  lemma DisplayNameBoth(first: string, last: string)
    requires first != [] && !IsSpace(first[0]) && !IsSpace(first[|first| - 1])
    requires last != [] && !IsSpace(last[0]) && !IsSpace(last[|last| - 1])
    ensures DisplayName(Str(first), Str(last)) == first + " " + last
  {
    var joined := first + " " + last;
    assert joined[0] == first[0] && joined[|joined| - 1] == last[|last| - 1];
    TrimOfTrimmed(joined);
  }

  /** `s.split(c)`: the pieces between the separators, in order. */
  function Split(s: string, c: char): (r: seq<string>)
    ensures |r| >= 1
    ensures forall k :: 0 <= k < |r| ==> c !in r[k]
    decreases |s|
  {
    var i := FirstIndex(s, c);
    if i == |s| then [s]
    else
      var rest := Split(s[i + 1..], c);
      assert c !in s[..i];
      [s[..i]] + rest
  }

  /** `parts.join(c)` */
  function Join(parts: seq<string>, c: char): string
    requires |parts| >= 1
  {
    if |parts| == 1 then parts[0] else parts[0] + [c] + Join(parts[1..], c)
  }

  /** Splitting and joining with the same separator gives the text back. */
  lemma {:induction false} JoinSplit(s: string, c: char)
    ensures Join(Split(s, c), c) == s
    decreases |s|
  {
    var i := FirstIndex(s, c);
    if i < |s| {
      JoinSplit(s[i + 1..], c);
      assert Split(s, c)[1..] == Split(s[i + 1..], c);
      assert s == s[..i] + [c] + s[i + 1..];
    }
  }

  /** `displayName.split(" ").filter(Boolean)`: the non-empty words. */
  function Words(name: string): (r: seq<string>)
    ensures forall k :: 0 <= k < |r| ==> r[k] != [] && ' ' !in r[k]
  {
    Lists.Filter(Split(name, ' '), (p: string) => p != [])
  }

  /** `initials`: the upper-cased first letters of the first two words, or
      "GF" when there are no words. */
  function Initials(name: string): (r: string)
    ensures Words(name) == [] ==> r == "GF"
    ensures Words(name) != [] ==> |r| == (if |Words(name)| >= 2 then 2 else 1)
                                  && forall k :: 0 <= k < |r| ==> r[k] == UpperChar(Words(name)[k][0])
  {
    var ws := Words(name);
    var n := if |ws| >= 2 then 2 else |ws|;
    var firsts := seq(n, k requires 0 <= k < n => UpperChar(ws[k][0]));
    if firsts == [] then "GF" else firsts
  }

  /** A name of two words has the two capitals as its initials. */
  lemma InitialsOfTwoWords(a: string, b: string)
    requires a != [] && b != [] && ' ' !in a && ' ' !in b
    ensures Initials(a + " " + b) == [UpperChar(a[0]), UpperChar(b[0])]
  {
    var s := a + " " + b;
    assert s[|a|] == ' ';
    assert forall k :: 0 <= k < |a| ==> s[k] == a[k];
    assert FirstIndex(s, ' ') == |a|;
    assert s[..|a|] == a && s[|a| + 1..] == b;
    assert FirstIndex(b, ' ') == |b|;
    assert Split(s, ' ') == [a, b];
    Lists.FilterKeepsAll([a, b], (p: string) => p != []);
  }

  // ---------------------------------------------------------------------------
  // Background

  /** `lvl = (cardLevel && parseInt(cardLevel, 10)) || 1` followed by
      `levelImg[lvl] || L1`: the number of the background drawn. */
  function Background(cardLevel: JsVal): (r: int)
    ensures 1 <= r <= 4
    ensures !Truthy(cardLevel) ==> r == 1
    ensures Truthy(cardLevel) && ParseInt(ToText(cardLevel)).Some? && 1 <= ParseInt(ToText(cardLevel)).value <= 4
            ==> r == ParseInt(ToText(cardLevel)).value
    ensures Truthy(cardLevel) && !(ParseInt(ToText(cardLevel)).Some? && 1 <= ParseInt(ToText(cardLevel)).value <= 4)
            ==> r == 1
  {
    var lvl := if !Truthy(cardLevel) then 1
               else match ParseInt(ToText(cardLevel))
                    case Some(n) => if n != 0 then n else 1
                    case None => 1;
    if 1 <= lvl <= 4 then lvl else 1
  }

  /** For a whole level 1 to 4, the title and the background agree. */
  lemma LevelAndBackgroundAgree(n: int)
    requires 1 <= n <= 4
    ensures DisplayLevel(Int(n)) == Titles[n - 1]
    ensures Background(Int(n)) == n
    ensures Background(Str(IntText(n))) == n
  {
    ParseIntOfIntText(n);
    assert IsLevel(Int(n), n);
    assert ToText(Int(n)) == IntText(n);
  }
}
