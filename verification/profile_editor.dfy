/** The member's profile tab: the edit form loaded from the profile, the
    "dirty" flag that enables Save, leaving edit mode without saving, and
    saving (the checks made before any request, the body sent and the
    merge of the server's answer back into the form). */
module ProfileEditor {
  import opened Text
  import opened Js

  /** The profile as the server describes the member; a field the server
      did not send is Undefined. */
  datatype Profile = Profile(firstName: JsVal, lastName: JsVal, email: JsVal, cardLevel: JsVal,
                             streetAddress: JsVal, suburb: JsVal, state: JsVal, postcode: JsVal,
                             photoUrl: JsVal, yearOfBirth: JsVal, birthday: JsVal)

  /** `profile || {}`: a missing profile reads as one without any field. */
  const NoProfile := Profile(Undefined, Undefined, Undefined, Undefined, Undefined, Undefined,
                             Undefined, Undefined, Undefined, Undefined, Undefined)

  /** The ten fields of the edit form; the request body has the same keys. */
  datatype Form = Form(firstName: JsVal, lastName: JsVal, email: JsVal, cardLevel: JsVal,
                       streetAddress: JsVal, suburb: JsVal, state: JsVal, postcode: JsVal,
                       photoUrl: JsVal, yearOfBirth: JsVal)

  /** The form before any profile has arrived: every field "". */
  const EmptyForm := Form(Str(""), Str(""), Str(""), Str(""), Str(""), Str(""),
                          Str(""), Str(""), Str(""), Str(""))

  datatype Key = FirstName | LastName | Email | CardLevel | StreetAddress | Suburb | State
               | Postcode | PhotoUrl | YearOfBirth

  function Get(f: Form, k: Key): JsVal {
    match k
    case FirstName => f.firstName
    case LastName => f.lastName
    case Email => f.email
    case CardLevel => f.cardLevel
    case StreetAddress => f.streetAddress
    case Suburb => f.suburb
    case State => f.state
    case Postcode => f.postcode
    case PhotoUrl => f.photoUrl
    case YearOfBirth => f.yearOfBirth
  }

  /** The profile's field of the same name. */
  function Field(p: Profile, k: Key): JsVal {
    match k
    case FirstName => p.firstName
    case LastName => p.lastName
    case Email => p.email
    case CardLevel => p.cardLevel
    case StreetAddress => p.streetAddress
    case Suburb => p.suburb
    case State => p.state
    case Postcode => p.postcode
    case PhotoUrl => p.photoUrl
    case YearOfBirth => p.yearOfBirth
  }

  /** The form with field `k` set to `v` (`{ ...prev, [k]: v }`). */
  function Set(f: Form, k: Key, v: JsVal): (r: Form)
    ensures Get(r, k) == v
    ensures forall j :: j != k ==> Get(r, j) == Get(f, j)
  {
    match k
    case FirstName => f.(firstName := v)
    case LastName => f.(lastName := v)
    case Email => f.(email := v)
    case CardLevel => f.(cardLevel := v)
    case StreetAddress => f.(streetAddress := v)
    case Suburb => f.(suburb := v)
    case State => f.(state := v)
    case Postcode => f.(postcode := v)
    case PhotoUrl => f.(photoUrl := v)
    case YearOfBirth => f.(yearOfBirth := v)
  }

  /** The fields the page offers a text input for. */
  predicate Editable(k: Key) {
    k == StreetAddress || k == Suburb || k == State || k == Postcode
  }

  // ---------------------------------------------------------------------------
  // Loading

  /** The form built from a profile: every text field `p.x || ""`, the card
      level `(p.cardLevel ?? "").toString()` and the year of birth
      `p.yearOfBirth ?? p.birthday ?? ""`. */
  function FromProfile(profile: Option<Profile>): (r: Form)
    ensures r.cardLevel.Str?
    ensures profile.None? ==> r == EmptyForm
  {
    var p := profile.GetOr(NoProfile);
    Form(Or(p.firstName, Str("")), Or(p.lastName, Str("")), Or(p.email, Str("")),
         Str(ToText(Coalesce(p.cardLevel, Str("")))),
         Or(p.streetAddress, Str("")), Or(p.suburb, Str("")), Or(p.state, Str("")),
         Or(p.postcode, Str("")), Or(p.photoUrl, Str("")),
         Coalesce(p.yearOfBirth, Coalesce(p.birthday, Str(""))))
  }

  /** Loading fills every field: a text field keeps a truthy profile value
      and is "" otherwise, the year falls back to the birthday and then to
      "", and no field is left null or missing. */
  lemma LoadNormalises(profile: Option<Profile>, k: Key)
    ensures var p := profile.GetOr(NoProfile); var r := FromProfile(profile);
      k != CardLevel && k != YearOfBirth ==>
        (Truthy(Field(p, k)) ==> Get(r, k) == Field(p, k)) && (!Truthy(Field(p, k)) ==> Get(r, k) == Str(""))
    ensures var p := profile.GetOr(NoProfile); var r := FromProfile(profile);
      ((p.yearOfBirth.Undefined? || p.yearOfBirth.Null?) && (p.birthday.Undefined? || p.birthday.Null?)
       ==> r.yearOfBirth == Str(""))
    ensures !Get(FromProfile(profile), k).Undefined? && !Get(FromProfile(profile), k).Null?
  {
  }

  /** A profile that holds exactly the form's values. */
  function ProfileOf(f: Form): Profile {
    Profile(f.firstName, f.lastName, f.email, f.cardLevel, f.streetAddress, f.suburb, f.state,
            f.postcode, f.photoUrl, f.yearOfBirth, Undefined)
  }

  /** A form of texts (a year that is present) is what loading a profile
      holding those values gives back. */
  lemma LoadRoundTrip(f: Form)
    requires forall k :: k != YearOfBirth ==> Get(f, k).Str?
    requires !f.yearOfBirth.Undefined? && !f.yearOfBirth.Null?
    ensures FromProfile(Some(ProfileOf(f))) == f
  {
    assert Get(f, FirstName).Str? && Get(f, LastName).Str? && Get(f, Email).Str?;
    assert Get(f, CardLevel).Str? && Get(f, StreetAddress).Str? && Get(f, Suburb).Str?;
    assert Get(f, State).Str? && Get(f, Postcode).Str? && Get(f, PhotoUrl).Str?;
  }

  // ---------------------------------------------------------------------------
  // The dirty flag

  /** `JSON.stringify` writes the two values the same way: a missing field
      is left out, null and NaN are both `null`, numbers by value, strings
      quoted. */
  predicate JsonSame(a: JsVal, b: JsVal) {
    match a
    case Undefined => b.Undefined?
    case Null => b.Null? || b.NaN?
    case NaN => b.Null? || b.NaN?
    case Num(d) => b.Num? && SameNumber(d, b.d)
    case Str(s) => b == Str(s)
  }

  /** `JSON.stringify(form) !== JSON.stringify(initial)`: the two objects
      have their keys in the same order, so they differ exactly when some
      field is written differently. */
  predicate Dirty(form: Form, initial: Form) {
    exists k :: !JsonSame(Get(form, k), Get(initial, k))
  }

  /** Serialising is a function of the value: equal values are never dirty,
      and the comparison does not depend on the order of its arguments. */
  lemma JsonSameIsEquivalence(a: JsVal, b: JsVal)
    ensures JsonSame(a, a)
    ensures JsonSame(a, b) == JsonSame(b, a)
  {
  }

  /** A form is never dirty with respect to itself. */
  lemma CleanWhenEqual(f: Form)
    ensures !Dirty(f, f)
  {
    forall k
      ensures JsonSame(Get(f, k), Get(f, k))
    {
      JsonSameIsEquivalence(Get(f, k), Get(f, k));
    }
  }

  /** From a clean form, typing `v` into field `k` makes the form dirty
      exactly when `v` is not the loaded text of that field. */
  lemma EditDirtyIff(form: Form, initial: Form, k: Key, v: string)
    requires !Dirty(form, initial)
    ensures Dirty(Set(form, k, Str(v)), initial) <==> Get(initial, k) != Str(v)
  {
    var f' := Set(form, k, Str(v));
    if Get(initial, k) != Str(v) {
      assert !JsonSame(Get(f', k), Get(initial, k));
    } else {
      forall j
        ensures JsonSame(Get(f', j), Get(initial, j))
      {
        if j != k {
          assert Get(f', j) == Get(form, j);
        }
      }
    }
  }

  /** Save is offered while nothing is being saved and the form is dirty. */
  predicate SaveEnabled(saving: bool, form: Form, initial: Form) {
    !saving && Dirty(form, initial)
  }

  // ---------------------------------------------------------------------------
  // Saving

  const NameMessage := "First/Last name can not be empty"
  const YearMessage := "Year of Birth should between（1900–2100）"
  const LoginMessage := "please login firstly"

  /** `y && (y < 1900 || y > 2100)`: the comparisons convert `y` with
      Number(...), and NaN compares false either way. */
  predicate YearOutOfRange(y: JsVal) {
    Truthy(y) && var n := ToNumber(y); n.Num? && (Below(n.d, 1900) || Above(n.d, 2100))
  }

  /** An auth token is present: getItem gave a non-empty text. */
  predicate HasToken(token: Option<string>) {
    token.Some? && token.value != []
  }

  /** The checks `save` makes before any request, in order: the first
      failing one's message, or "" when the request may be made. */
  function SaveCheck(form: Form, token: Option<string>): (r: string)
    ensures r == "" <==> Truthy(form.firstName) && Truthy(form.lastName)
                         && !YearOutOfRange(form.yearOfBirth) && HasToken(token)
    ensures r == NameMessage <==> !Truthy(form.firstName) || !Truthy(form.lastName)
    ensures r == YearMessage <==> Truthy(form.firstName) && Truthy(form.lastName)
                                  && YearOutOfRange(form.yearOfBirth)
    ensures r == LoginMessage <==> Truthy(form.firstName) && Truthy(form.lastName)
                                   && !YearOutOfRange(form.yearOfBirth) && !HasToken(token)
  {
    if !Truthy(form.firstName) || !Truthy(form.lastName) then NameMessage
    else if YearOutOfRange(form.yearOfBirth) then YearMessage
    else if !HasToken(token) then LoginMessage
    else ""
  }

  /** For a whole year, given as a number or as its decimal text, the year
      check fails exactly outside 1900..2100 (0, the empty year, is not checked). */
  lemma YearCheckOfWholeYear(n: int)
    requires n != 0
    ensures YearOutOfRange(Int(n)) <==> n < 1900 || n > 2100
    ensures YearOutOfRange(Str(IntText(n))) <==> n < 1900 || n > 2100
  {
    NumberOfIntText(n);
    assert IntText(n) != [];
  }

  /** A year of birth that is not a number (its text, trimmed, starts with
      anything but a digit, a sign or a dot) passes the check, since both
      comparisons with NaN are false, and is then sent as NaN. */
  lemma UnreadableYearPasses(form: Form, s: string)
    requires form.yearOfBirth == Str(s)
    requires var t := Trim(s); t != [] && !IsDigit(t[0]) && t[0] != '+' && t[0] != '-' && t[0] != '.'
    ensures Truthy(form.yearOfBirth) && !YearOutOfRange(form.yearOfBirth)
    ensures Body(form).yearOfBirth == NaN
  {
    var t := Trim(s);
    var dot := FirstIndex(t, '.');
    if dot < |t| {
      assert t[..dot][0] == t[0];
    }
    assert ParseUnsigned(t).None?;
  }

  /** The body sent to PUT /users/me: the form's fields, with the year of
      birth as a number and 0 when it is empty. */
  function Body(form: Form): (r: Form)
    ensures forall k :: k != YearOfBirth ==> Get(r, k) == Get(form, k)
    ensures !Truthy(form.yearOfBirth) ==> r.yearOfBirth == Int(0)
    ensures Truthy(form.yearOfBirth) ==> r.yearOfBirth == ToNumber(form.yearOfBirth)
    ensures r.yearOfBirth.Num? || r.yearOfBirth.NaN?
  {
    form.(yearOfBirth := if Truthy(form.yearOfBirth) then ToNumber(form.yearOfBirth) else Int(0))
  }

  /** A whole year in range, typed as text, is sent as that number. */
  lemma BodyOfWholeYear(form: Form, n: int)
    requires form.yearOfBirth == Str(IntText(n)) && 1900 <= n <= 2100
    ensures !YearOutOfRange(form.yearOfBirth)
    ensures Body(form).yearOfBirth == Int(n)
  {
    YearCheckOfWholeYear(n);
    NumberOfIntText(n);
  }

  /** `updated && typeof updated === "object" ? updated : { ...profile, ...body }`:
      the server's object, or the profile overwritten by the body sent. */
  function Merged(updated: Option<Profile>, profile: Option<Profile>, body: Form): (r: Profile)
    ensures updated.Some? ==> r == updated.value
    ensures updated.None? ==> forall k :: Field(r, k) == Get(body, k)
    ensures updated.None? ==> r.birthday == profile.GetOr(NoProfile).birthday
  {
    match updated
    case Some(u) => u
    case None =>
      var p := profile.GetOr(NoProfile);
      Profile(body.firstName, body.lastName, body.email, body.cardLevel, body.streetAddress,
              body.suburb, body.state, body.postcode, body.photoUrl, body.yearOfBirth, p.birthday)
  }

  /** The form after a save: each field the merged profile's value unless it
      is null or missing, then the form's own; the card level as text. */
  function Merge(merged: Profile, form: Form): (r: Form)
    ensures forall k :: k != CardLevel ==> Get(r, k) == Coalesce(Field(merged, k), Get(form, k))
    ensures r.cardLevel == Str(ToText(Coalesce(merged.cardLevel, form.cardLevel)))
  {
    Form(Coalesce(merged.firstName, form.firstName), Coalesce(merged.lastName, form.lastName),
         Coalesce(merged.email, form.email),
         Str(ToText(Coalesce(merged.cardLevel, form.cardLevel))),
         Coalesce(merged.streetAddress, form.streetAddress), Coalesce(merged.suburb, form.suburb),
         Coalesce(merged.state, form.state), Coalesce(merged.postcode, form.postcode),
         Coalesce(merged.photoUrl, form.photoUrl), Coalesce(merged.yearOfBirth, form.yearOfBirth))
  }

  /** When the server answers without a profile, the form becomes the body
      that was sent. */
  lemma SilentServerKeepsBody(profile: Option<Profile>, form: Form)
    requires form.cardLevel.Str?
    ensures Merge(Merged(None, profile, Body(form)), form) == Body(form)
  {
    var b := Body(form);
    var r := Merge(Merged(None, profile, b), form);
    forall k | k != CardLevel
      ensures Get(r, k) == Get(b, k)
    {
      if k != YearOfBirth {
        assert Get(b, k) == Get(form, k);
      }
    }
    assert r.firstName == b.firstName && r.lastName == b.lastName && r.email == b.email;
    assert r.cardLevel == b.cardLevel && r.streetAddress == b.streetAddress;
    assert r.suburb == b.suburb && r.state == b.state && r.postcode == b.postcode;
    assert r.photoUrl == b.photoUrl && r.yearOfBirth == b.yearOfBirth;
  }

  /** The status line under the form; `kind` is "", "error" or "success". */
  datatype Msg = Msg(kind: string, text: string)

  const NoMsg := Msg("", "")

  /** How the PUT ended: with the response body (Some when it is an object),
      with the API client's error, or with any other exception. */
  datatype SaveOutcome = Saved(updated: Option<Profile>) | ApiFailure(code: JsVal, message: string)
                       | OtherFailure(message: string)

  /** The error line of a failed save. */
  function SaveFailureText(f: SaveOutcome): (r: string)
    requires !f.Saved?
    ensures r != []
  {
    match f
    case ApiFailure(code, message) => ToText(code) + ": " + message
    case OtherFailure(message) => if message != [] then message else "failed to save data;"
  }

  /** The profile tab's state. */
  class Editor {
    var profile: Option<Profile>
    var form: Form
    var initial: Form
    var editing: bool
    var msg: Msg

    /** The tab as first shown for `p`: the mount effect has loaded it and
        nothing is being edited. */
    constructor (p: Option<Profile>)
      ensures profile == p && form == FromProfile(p) && initial == form
      ensures !editing && msg == NoMsg
    {
      profile := p;
      form := FromProfile(p);
      initial := FromProfile(p);
      editing := false;
      msg := NoMsg;
    }

    /** The effect run when the profile changes: form and initial both
        become the normalised profile, so Save is not offered. */
    method Load(p: Option<Profile>)
      modifies this
      ensures profile == p && form == FromProfile(p) && initial == form
      ensures editing == old(editing) && msg == old(msg)
      ensures !Dirty(form, initial)
    {
      profile := p;
      form := FromProfile(p);
      initial := form;
      CleanWhenEqual(form);
    }

    /** `handleChange(k)`: the input for `k` now holds `value`. */
    method Change(k: Key, value: string)
      requires Editable(k)
      modifies this
      ensures form == Set(old(form), k, Str(value))
      ensures initial == old(initial) && editing == old(editing) && msg == old(msg)
      ensures profile == old(profile)
    {
      form := Set(form, k, Str(value));
    }

    /** `startEdit` */
    method StartEdit()
      modifies this
      ensures editing && msg == NoMsg
      ensures form == old(form) && initial == old(initial) && profile == old(profile)
    {
      msg := NoMsg;
      editing := true;
    }

    /** `cancelEdit`: every edit is dropped and edit mode is left. */
    method CancelEdit()
      modifies this
      ensures form == initial && initial == old(initial)
      ensures !editing && msg == NoMsg && profile == old(profile)
      ensures !Dirty(form, initial)
    {
      form := initial;
      editing := false;
      msg := NoMsg;
      CleanWhenEqual(form);
    }

    /** `save`, given the token in local storage and how the PUT ends when
        it is made. Returns the body sent, if any, and the profile handed to
        `onUpdated`. */
    method Save(token: Option<string>, response: SaveOutcome) returns (sent: Option<Form>, updated: Option<Profile>)
      modifies this
      ensures profile == old(profile)
      ensures sent.None? <==> SaveCheck(old(form), token) != ""
      ensures sent.None? ==> msg == Msg("error", SaveCheck(old(form), token)) && updated.None?
                             && form == old(form) && initial == old(initial) && editing == old(editing)
      ensures sent.Some? ==> sent.value == Body(old(form))
      ensures sent.Some? && response.Saved? ==>
                updated == Some(Merged(response.updated, old(profile), Body(old(form))))
                && form == Merge(updated.value, old(form)) && initial == form && !editing
                && msg == Msg("success", "successfully saved data.") && !Dirty(form, initial)
      ensures sent.Some? && !response.Saved? ==>
                updated.None? && msg == Msg("error", SaveFailureText(response))
                && form == old(form) && initial == old(initial) && editing == old(editing)
    {
      msg := NoMsg;
      var check := SaveCheck(form, token);
      if check != "" {
        msg := Msg("error", check);
        return None, None;
      }
      var body := Body(form);
      sent := Some(body);
      match response
      case Saved(u) =>
        var merged := Merged(u, profile, body);
        var next := Merge(merged, form);
        initial := next;
        form := next;
        editing := false;
        msg := Msg("success", "successfully saved data.");
        updated := Some(merged);
        CleanWhenEqual(form);
      case _ =>
        msg := Msg("error", SaveFailureText(response));
        updated := None;
    }
  }
}
