/** The card-registration form: the guard in front of submission, the
    normalisation of every field into the registration payload, the filtering
    of training-experience rows, the removal of empty keys, and the
    experience rows the form keeps while it is being filled in. */
module RegisterCard {
  import opened Text
  import opened Js
  import Lists

  // ---------------------------------------------------------------------------
  // Field normalisers

  /** `trimOrNull`: null when nothing but white space was typed, otherwise the trimmed text. */
  function TrimOrNull(s: string): (r: Option<string>)
    ensures r.None? <==> AllSpace(s)
    ensures r.Some? ==> r.value == Trim(s) && r.value != []
  {
    BlankIffAllSpace(s);
    var t := Trim(s);
    if t == [] then None else Some(t)
  }

  /** A kept text is a piece of what was typed, with no white space at either
      end, and trimming first does not change what `trimOrNull` gives. */
  lemma TrimOrNullKeeps(s: string)
    ensures TrimOrNull(s).Some? ==> Contains(s, TrimOrNull(s).value)
    ensures TrimOrNull(s).Some? ==> var t := TrimOrNull(s).value; !IsSpace(t[0]) && !IsSpace(t[|t| - 1])
    ensures TrimOrNull(Trim(s)) == TrimOrNull(s)
  {
    TrimIsInfix(s);
    TrimIdempotent(s);
  }

  /** `toYearOrNull`, with the current year as a parameter: the text read as a
      number, kept when it is an integer from 1900 to this year. */
  function ToYearOrNull(s: string, thisYear: int): (r: Option<int>)
    ensures r.Some? ==> 1900 <= r.value <= thisYear
    ensures AllSpace(s) ==> r.None?
    ensures r.Some? ==> ParseNumber(s).Some? && IsInteger(ParseNumber(s).value)
                        && IntValue(ParseNumber(s).value) == r.value
  {
    BlankIffAllSpace(s);
    TrimIdempotent(s);
    var t := Trim(s);
    if t == [] then None
    else match ParseNumber(t)
      case None => None
      case Some(d) =>
        if !IsInteger(d) then None
        else
          var n := IntValue(d);
          if n < 1900 || n > thisYear then None else Some(n)
  }

  /** A year in range, written in decimal with any white space around it, is read back as itself. */
  lemma YearRoundTrip(y: int, thisYear: int, before: string, after: string)
    requires 1900 <= y <= thisYear && AllSpace(before) && AllSpace(after)
    ensures ToYearOrNull(before + IntText(y) + after, thisYear) == Some(y)
  {
    var t := IntText(y);
    var s := before + t + after;
    TrimAround(before, t, after);
    TrimIdempotent(s);
    NumberOfIntText(y);
  }

  /** The pattern `^\d{4}-\d{2}-\d{2}$`. */
  predicate IsIsoDate(t: string) {
    |t| == 10 && AllDigits(t[..4]) && t[4] == '-' && AllDigits(t[5..7]) && t[7] == '-' && AllDigits(t[8..])
  }

  /** `isoDateOrNull`: the trimmed text when it has the YYYY-MM-DD shape, null otherwise. */
  function IsoDateOrNull(s: string): (r: Option<string>)
    ensures r.Some? <==> IsIsoDate(Trim(s))
    ensures r.Some? ==> r.value == Trim(s)
  {
    var t := Trim(s);
    if t == [] then None else if IsIsoDate(t) then Some(t) else None
  }

  /** Year, month and day written as YYYY-MM-DD with leading zeros. */
  function FormatIsoDate(y: nat, m: nat, d: nat): (r: string)
    requires y < 10000 && m < 100 && d < 100
  {
    NatTextWidth(y, 4);
    NatTextWidth(m, 2);
    NatTextWidth(d, 2);
    PadStart(NatText(y), 4, '0') + "-" + PadStart(NatText(m), 2, '0') + "-" + PadStart(NatText(d), 2, '0')
  }

  /** A formatted date passes `isoDateOrNull`, and its three fields read back as the numbers written. */
  lemma IsoDateRoundTrip(y: nat, m: nat, d: nat)
    requires y < 10000 && m < 100 && d < 100
    ensures IsoDateOrNull(FormatIsoDate(y, m, d)) == Some(FormatIsoDate(y, m, d))
    ensures var r := FormatIsoDate(y, m, d);
            DigitsValue(r[..4]) == y && DigitsValue(r[5..7]) == m && DigitsValue(r[8..]) == d
  {
    var r := FormatIsoDate(y, m, d);
    NatTextWidth(y, 4);
    NatTextWidth(m, 2);
    NatTextWidth(d, 2);
    var py, pm, pd := PadStart(NatText(y), 4, '0'), PadStart(NatText(m), 2, '0'), PadStart(NatText(d), 2, '0');
    PaddedDigits(NatText(y), 4);
    PaddedDigits(NatText(m), 2);
    PaddedDigits(NatText(d), 2);
    IsoDateOfParts(py, pm, pd);
  }

  lemma IsoDateOfParts(a: string, b: string, c: string)
    requires |a| == 4 && |b| == 2 && |c| == 2 && AllDigits(a) && AllDigits(b) && AllDigits(c)
    ensures var r := a + "-" + b + "-" + c;
            IsoDateOrNull(r) == Some(r) && r[..4] == a && r[5..7] == b && r[8..] == c
  {
    var r := a + "-" + b + "-" + c;
    DashJoin(a, b, c);
    assert IsDigit(r[0]) && IsDigit(r[9]);
    TrimOfTrimmed(r);
  }

  /** The three parts of `a-b-c` with parts of widths 4, 2 and 2 sit where the pattern expects them. */
  lemma DashJoin(a: string, b: string, c: string)
    requires |a| == 4 && |b| == 2 && |c| == 2
    ensures var r := a + "-" + b + "-" + c;
            |r| == 10 && r[..4] == a && r[4] == '-' && r[5..7] == b && r[7] == '-' && r[8..] == c
  {
  }

  /** The decimal text of a number below 10^w has at most w digits. */
  lemma {:induction false} NatTextWidth(n: nat, w: nat)
    requires w >= 1 && n < Pow10(w)
    ensures |NatText(n)| <= w
  {
    if n >= 10 {
      assert Pow10(w) == 10 * Pow10(w - 1);
      if w == 1 { assert false; }
      NatTextWidth(n / 10, w - 1);
    }
  }

  /** Zero-padding keeps the digits and their value. */
  lemma PaddedDigits(s: string, w: nat)
    requires AllDigits(s)
    ensures AllDigits(PadStart(s, w, '0')) && DigitsValue(PadStart(s, w, '0')) == DigitsValue(s)
  {
    if |s| < w {
      LeadingZeros(w - |s|, s);
    }
  }

  // ---------------------------------------------------------------------------
  // The e-mail guard

  predicate NoSpace(s: string) {
    forall k :: 0 <= k < |s| ==> !IsSpace(s[k])
  }

  /** `/^\S+@\S+\.\S+$/.test(s)`: no white space anywhere, an '@' after at
      least one character, and a '.' at least one character after the '@' with
      at least one character following it. */
  predicate EmailAccepted(s: string) {
    NoSpace(s) &&
    exists i, j :: 1 <= i < |s| && i + 2 <= j < |s| - 1 && s[i] == '@' && s[j] == '.'
  }

  /** The regular expression read as a language: three runs of non-space
      characters separated by '@' and '.'. */
  ghost predicate MatchesEmailPattern(s: string) {
    exists a: string, b: string, c: string ::
      a != [] && b != [] && c != [] && NoSpace(a) && NoSpace(b) && NoSpace(c) && s == a + "@" + b + "." + c
  }

  /** The decision procedure accepts exactly the language of the pattern. */
  lemma EmailAcceptedIffPattern(s: string)
    ensures EmailAccepted(s) <==> MatchesEmailPattern(s)
  {
    if EmailAccepted(s) {
      var i, j :| 1 <= i < |s| && i + 2 <= j < |s| - 1 && s[i] == '@' && s[j] == '.';
      var a, b, c := s[..i], s[i + 1..j], s[j + 1..];
      assert s == a + "@" + b + "." + c;
      NoSpaceSlice(s, 0, i);
      NoSpaceSlice(s, i + 1, j);
      NoSpaceSlice(s, j + 1, |s|);
      assert a != [] && b != [] && c != [] && NoSpace(a) && NoSpace(b) && NoSpace(c);
    }
    if MatchesEmailPattern(s) {
      var a: string, b: string, c: string :|
        a != [] && b != [] && c != [] && NoSpace(a) && NoSpace(b) && NoSpace(c) && s == a + "@" + b + "." + c;
      PatternAccepted(a, b, c);
    }
  }

  lemma NoSpaceSlice(s: string, lo: nat, hi: nat)
    requires NoSpace(s) && lo <= hi <= |s|
    ensures NoSpace(s[lo..hi])
  {
    assert forall k :: 0 <= k < hi - lo ==> s[lo..hi][k] == s[lo + k];
  }

  lemma PatternAccepted(a: string, b: string, c: string)
    requires a != [] && b != [] && c != [] && NoSpace(a) && NoSpace(b) && NoSpace(c)
    ensures EmailAccepted(a + "@" + b + "." + c)
  {
    var s := a + "@" + b + "." + c;
    var i, j := |a|, |a| + 1 + |b|;
    assert 1 <= i < |s| && i + 2 <= j < |s| - 1 && s[i] == '@' && s[j] == '.';
    forall k | 0 <= k < |s| ensures !IsSpace(s[k]) {
      if k < i { assert s[k] == a[k]; }
      else if i < k < j { assert s[k] == b[k - i - 1]; }
      else if j < k { assert s[k] == c[k - j - 1]; }
    }
  }

  // ---------------------------------------------------------------------------
  // Training experience

  /** One row of the training-experience section as typed. */
  datatype Experience = Experience(training: string, provider: string, date: string)

  const BlankExperience := Experience("", "", "")

  datatype ExperienceField = Training | Provider | Date

  /** A kept experience row. The object holds a key exactly when the field
      here is Some: `trainingName`, `trainingProvider`, `dateOfTraining`. */
  datatype Item = Item(trainingName: Option<string>, trainingProvider: Option<string>, dateOfTraining: Option<string>)

  /** An item with at least one key. */
  predicate NonEmptyItem(item: Item) {
    item.trainingName.Some? || item.trainingProvider.Some? || item.dateOfTraining.Some?
  }

  /** One row of the experiences map: null when all three parts normalise to
      null, otherwise an object holding exactly the parts that do not. */
  function NormaliseExperience(x: Experience): (r: Option<Item>)
    ensures r.None? <==> AllSpace(x.training) && AllSpace(x.provider) && IsoDateOrNull(x.date).None?
    ensures r.Some? ==> NonEmptyItem(r.value)
    ensures r.Some? ==>
      && (r.value.trainingName.Some? <==> !AllSpace(x.training))
      && (r.value.trainingProvider.Some? <==> !AllSpace(x.provider))
      && (r.value.dateOfTraining.Some? <==> IsoDateOrNull(x.date).Some?)
    ensures r.Some? ==>
      && (r.value.trainingName.Some? ==> r.value.trainingName.value == Trim(x.training) != [])
      && (r.value.trainingProvider.Some? ==> r.value.trainingProvider.value == Trim(x.provider) != [])
      && (r.value.dateOfTraining.Some? ==> r.value.dateOfTraining.value == Trim(x.date)
                                           && IsIsoDate(r.value.dateOfTraining.value))
  {
    var name, provider, date := TrimOrNull(x.training), TrimOrNull(x.provider), IsoDateOrNull(x.date);
    if name.None? && provider.None? && date.None? then None
    else Some(Item(name, provider, date))
  }

  /** `experiences.map(...).filter(Boolean)`: the rows that are not entirely empty, normalised, in order. */
  function NormaliseExperiences(xs: seq<Experience>): (r: seq<Item>)
    ensures |r| <= |xs|
    ensures forall k :: 0 <= k < |r| ==> NonEmptyItem(r[k])
  {
    if xs == [] then []
    else
      var rest := NormaliseExperiences(xs[1..]);
      match NormaliseExperience(xs[0])
      case None => rest
      case Some(item) => [item] + rest
  }

  /** No row survives exactly when every row normalises to null. */
  lemma {:induction false} NoExperienceSurvives(xs: seq<Experience>)
    ensures NormaliseExperiences(xs) == [] <==> forall k :: 0 <= k < |xs| ==> NormaliseExperience(xs[k]).None?
  {
    if xs != [] {
      NoExperienceSurvives(xs[1..]);
      assert forall k :: 1 <= k < |xs| ==> xs[k] == xs[1..][k - 1];
    }
  }

  /** Rows are normalised independently and the survivors keep their relative order. */
  lemma {:induction false} NormaliseExperiencesAppend(a: seq<Experience>, b: seq<Experience>)
    ensures NormaliseExperiences(a + b) == NormaliseExperiences(a) + NormaliseExperiences(b)
  {
    if a != [] {
      assert (a + b)[0] == a[0];
      assert (a + b)[1..] == a[1..] + b;
      NormaliseExperiencesAppend(a[1..], b);
    } else {
      assert a + b == b;
    }
  }

  // ---------------------------------------------------------------------------
  // The payload

  /** A value the payload object holds. */
  datatype Value = NullValue | Text(s: string) | Number(n: int) | Items(items: seq<Item>)

  /** What the cleanup deletes: `v === null || v === ""`. */
  predicate Empty(v: Value) {
    v == NullValue || v == Text("")
  }

  /** The keys of the payload object, `firstName` to `photoUrl` and `experiences`. */
  datatype Key = FirstName | LastName | YearOfBirth | CardLevel | StreetAddress | Suburb
               | State | Postcode | Email | VerifyCode | PhotoUrl | Experiences

  /** The registration form fields that reach the payload. */
  datatype Form = Form(firstName: string, lastName: string, yob: string, level: string,
                       street: string, suburb: string, state: string, postcode: string,
                       email: string, verifyCode: string)

  function TextOrNull(v: Option<string>): Value {
    match v case Some(s) => Text(s) case None => NullValue
  }

  function NumberOrNull(v: Option<int>): Value {
    match v case Some(n) => Number(n) case None => NullValue
  }

  /** The value `onRegister` puts under each key other than `experiences`. */
  function Field(form: Form, k: Key, thisYear: int): Value {
    match k
    case FirstName => TextOrNull(TrimOrNull(form.firstName))
    case LastName => TextOrNull(TrimOrNull(form.lastName))
    case YearOfBirth => NumberOrNull(ToYearOrNull(form.yob, thisYear))
    case CardLevel => TextOrNull(UpperOrNull(TrimOrNull(form.level)))
    case StreetAddress => TextOrNull(TrimOrNull(form.street))
    case Suburb => TextOrNull(TrimOrNull(form.suburb))
    case State => TextOrNull(TrimOrNull(form.state))
    case Postcode => TextOrNull(TrimOrNull(form.postcode))
    case Email => Text(Trim(form.email))
    case VerifyCode => TextOrNull(TrimOrNull(form.verifyCode))
    case PhotoUrl => NullValue
    case Experiences => NullValue
  }

  /** `v?.toUpperCase() ?? null` */
  function UpperOrNull(v: Option<string>): Option<string> {
    match v case Some(s) => Some(Upper(s)) case None => None
  }

  const FixedKeys: set<Key> :=
    {FirstName, LastName, YearOfBirth, CardLevel, StreetAddress, Suburb, State, Postcode, Email, VerifyCode, PhotoUrl}

  /** The payload object as first built, before `experiences` is added. */
  function Payload(form: Form, thisYear: int): (p: map<Key, Value>)
    ensures Experiences !in p && forall k :: k in FixedKeys ==> k in p
    ensures forall k :: k in p ==> p[k] == Field(form, k, thisYear)
  {
    map k | k in FixedKeys :: Field(form, k, thisYear)
  }

  /** `if (exp.length) payload.experiences = exp`. */
  function WithExperiences(p: map<Key, Value>, items: seq<Item>): (r: map<Key, Value>)
    ensures Experiences in r <==> items != [] || Experiences in p
    ensures items != [] ==> r[Experiences] == Items(items)
    ensures forall k :: k in p && k != Experiences ==> k in r && r[k] == p[k]
    ensures forall k :: k in r && k != Experiences ==> k in p
  {
    if items != [] then p[Experiences := Items(items)] else p
  }

  /** The payload once every key holding null or "" is gone. */
  function Cleaned(p: map<Key, Value>): (r: map<Key, Value>)
    ensures forall k :: k in r ==> !Empty(r[k])
    ensures forall k :: k in p ==> (k in r <==> !Empty(p[k]))
    ensures forall k :: k in r ==> k in p && r[k] == p[k]
  {
    map k | k in p && !Empty(p[k]) :: p[k]
  }

  /** `Object.keys(payload).forEach(k => { if (...) delete payload[k]; })`. */
  method Cleanup(payload: map<Key, Value>) returns (p: map<Key, Value>)
    ensures p == Cleaned(payload)
  {
    p := payload;
    var keys := payload.Keys;
    while keys != {}
      invariant keys <= payload.Keys
      invariant forall k :: k in keys ==> k in p && p[k] == payload[k]
      invariant forall k :: k in p ==> k in payload && p[k] == payload[k]
      invariant forall k :: k in payload && k !in keys ==> (k in p <==> !Empty(payload[k]))
      decreases keys
    {
      var k :| k in keys;
      if Empty(p[k]) {
        p := p - {k};
      }
      keys := keys - {k};
    }
  }

  /** `onRegister` up to the request: the two guards, then the cleaned payload. */
  method OnRegister(form: Form, experiences: seq<Experience>, thisYear: int) returns (r: Outcome<map<Key, Value>>)
    ensures !EmailAccepted(Trim(form.email)) ==> r == Failure("Please enter a valid email.")
    ensures EmailAccepted(Trim(form.email)) && form.verifyCode == [] ==> r == Failure("Please enter the verification code.")
    ensures EmailAccepted(Trim(form.email)) && form.verifyCode != [] ==>
      r == Success(Submitted(form, experiences, thisYear))
  {
    var email := Trim(form.email);
    if !EmailAccepted(email) {
      return Failure("Please enter a valid email.");
    }
    if form.verifyCode == [] {
      return Failure("Please enter the verification code.");
    }
    var payload := Payload(form, thisYear);
    var exp := NormaliseExperiences(experiences);
    payload := WithExperiences(payload, exp);
    payload := Cleanup(payload);
    return Success(payload);
  }

  /** The object `onRegister` sends once its guards pass. */
  function Submitted(form: Form, experiences: seq<Experience>, thisYear: int): map<Key, Value> {
    Cleaned(WithExperiences(Payload(form, thisYear), NormaliseExperiences(experiences)))
  }

  /** A submitted payload always carries the trimmed e-mail and never a photo URL. */
  lemma SubmittedEmail(form: Form, experiences: seq<Experience>, thisYear: int)
    requires EmailAccepted(Trim(form.email))
    ensures var p := Submitted(form, experiences, thisYear);
      Email in p && p[Email] == Text(Trim(form.email)) && PhotoUrl !in p
  {
    AcceptedNotEmpty(Trim(form.email));
    SubmittedField(form, experiences, thisYear, Email);
    SubmittedField(form, experiences, thisYear, PhotoUrl);
  }

  lemma AcceptedNotEmpty(s: string)
    requires EmailAccepted(s)
    ensures s != []
  {
  }

  /** A fixed key reaches the server with its field's value exactly when that value is neither null nor "". */
  lemma SubmittedField(form: Form, experiences: seq<Experience>, thisYear: int, k: Key)
    requires k in FixedKeys
    ensures var p := Submitted(form, experiences, thisYear);
      (k in p <==> !Empty(Field(form, k, thisYear))) && (k in p ==> p[k] == Field(form, k, thisYear))
  {
    var p := WithExperiences(Payload(form, thisYear), NormaliseExperiences(experiences));
    CleanedAt(p, k);
  }

  lemma CleanedAt(p: map<Key, Value>, k: Key)
    requires k in p
    ensures k in Cleaned(p) <==> !Empty(p[k])
    ensures k in Cleaned(p) ==> Cleaned(p)[k] == p[k]
  {
  }

  /** A text field reaches the server exactly when something other than white space was typed in it. */
  lemma SubmittedText(form: Form, experiences: seq<Experience>, thisYear: int)
    ensures var p := Submitted(form, experiences, thisYear);
      && (FirstName in p <==> !AllSpace(form.firstName))
      && (LastName in p <==> !AllSpace(form.lastName))
      && (VerifyCode in p <==> !AllSpace(form.verifyCode))
      && (Postcode in p ==> p[Postcode] == Text(Trim(form.postcode)))
  {
    SubmittedField(form, experiences, thisYear, FirstName);
    SubmittedField(form, experiences, thisYear, LastName);
    SubmittedField(form, experiences, thisYear, VerifyCode);
    SubmittedField(form, experiences, thisYear, Postcode);
    TextFieldEmpty(form.firstName);
    TextFieldEmpty(form.lastName);
    TextFieldEmpty(form.verifyCode);
    TextFieldEmpty(form.postcode);
  }

  /** A trimmed text field is deleted exactly when it holds only white space. */
  lemma TextFieldEmpty(s: string)
    ensures Empty(TextOrNull(TrimOrNull(s))) <==> AllSpace(s)
    ensures !Empty(TextOrNull(TrimOrNull(s))) ==> TextOrNull(TrimOrNull(s)) == Text(Trim(s))
  {
  }

  /** A submitted year of birth is always a number in range. */
  lemma SubmittedYear(form: Form, experiences: seq<Experience>, thisYear: int)
    ensures var p := Submitted(form, experiences, thisYear);
      YearOfBirth in p ==> p[YearOfBirth].Number? && 1900 <= p[YearOfBirth].n <= thisYear
  {
    SubmittedField(form, experiences, thisYear, YearOfBirth);
    var y := ToYearOrNull(form.yob, thisYear);
    assert Field(form, YearOfBirth, thisYear) == NumberOrNull(y);
  }

  /** The payload has an `experiences` key exactly when some row is not entirely empty. */
  lemma SubmittedExperiences(form: Form, experiences: seq<Experience>, thisYear: int)
    ensures var p := Submitted(form, experiences, thisYear);
      Experiences in p <==> exists k :: 0 <= k < |experiences| && NormaliseExperience(experiences[k]).Some?
  {
    NoExperienceSurvives(experiences);
    CleanedExperiences(Payload(form, thisYear), NormaliseExperiences(experiences));
  }

  lemma CleanedExperiences(base: map<Key, Value>, items: seq<Item>)
    requires Experiences !in base
    ensures Experiences in Cleaned(WithExperiences(base, items)) <==> items != []
  {
  }

  // ---------------------------------------------------------------------------
  // The rows of the form

  /** The training-experience rows while the form is being filled in. */
  class RegisterForm {
    var experiences: seq<Experience>

    /** Row 0 has no Remove button, so there is always at least one row. */
    ghost predicate Valid()
      reads this
    {
      |experiences| >= 1
    }

    constructor ()
      ensures Valid() && experiences == [BlankExperience]
    {
      experiences := [BlankExperience];
    }

    /** `addExperience`: one blank row appended. */
    method AddExperience()
      requires Valid()
      modifies this
      ensures Valid() && experiences == old(experiences) + [BlankExperience]
    {
      experiences := experiences + [BlankExperience];
    }

    /** The Remove button of row `index`, which is rendered only for index > 0. */
    method RemoveExperience(index: int)
      requires Valid() && 0 < index < |experiences|
      modifies this
      ensures Valid() && experiences == old(experiences[..index] + experiences[index + 1..])
    {
      experiences := Lists.RemoveAt(experiences, index);
    }

    /** `handleExpChange(i, k, v)`: one part of one row replaced. */
    method ChangeExperience(i: int, field: ExperienceField, v: string)
      requires Valid() && 0 <= i < |experiences|
      modifies this
      ensures Valid() && |experiences| == old(|experiences|)
      ensures forall j :: 0 <= j < |experiences| && j != i ==> experiences[j] == old(experiences[j])
      ensures experiences[i] == match field
        case Training => old(experiences[i]).(training := v)
        case Provider => old(experiences[i]).(provider := v)
        case Date => old(experiences[i]).(date := v)
    {
      var row := experiences[i];
      var row' := match field
        case Training => row.(training := v)
        case Provider => row.(provider := v)
        case Date => row.(date := v);
      experiences := experiences[i := row'];
    }
  }
}
