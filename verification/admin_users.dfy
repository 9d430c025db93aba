/** What the three admin user tables (applications, card upgrades and
    renewals) share: the user record they list, the reading of the list
    response, and the coloured chip that shows a status code. */
module AdminUsers {
  import opened Text
  import opened Js

  /** A row of the user list, as sent by the server. */
  datatype User = User(id: JsVal, firstName: JsVal, lastName: JsVal, email: JsVal, cardLevel: JsVal,
                       status: JsVal, cardIssueStatus: JsVal, role: JsVal)

  /** The body of GET /users/userList: `content` (Some when it is an array)
      and `totalElements` as sent. */
  datatype UserPage = UserPage(content: Option<seq<User>>, totalElements: JsVal)

  /** `Array.isArray(res?.content) ? res.content : []` for a body that may be null. */
  function UsersOf(res: Option<UserPage>): (r: seq<User>)
    ensures res.Some? && res.value.content.Some? ==> r == res.value.content.value
    ensures res.None? || res.value.content.None? ==> r == []
  {
    match res
    case Some(UserPage(Some(users), _)) => users
    case _ => []
  }

  /** `Number.isFinite(res?.totalElements) ? res.totalElements : 0`. */
  function TotalOf(res: Option<UserPage>): (r: JsVal)
    ensures r.Num?
    ensures res.Some? && res.value.totalElements.Num? ==> r == res.value.totalElements
    ensures res.None? || !res.value.totalElements.Num? ==> r == Int(0)
  {
    match res
    case Some(UserPage(_, Num(d))) => Num(d)
    case _ => Int(0)
  }

  /** The error line shown when the list cannot be fetched. */
  const LoadError := "Failed to load users."

  /** The alert above a user's details: its severity and its text. */
  datatype Info = Info(kind: string, text: string)

  // ---------------------------------------------------------------------------
  // Status chips

  /** A chip: its caption and its colour ("default" when none is given). */
  datatype Chip = Chip(caption: string, color: string)

  /** One `if (s === code) return <Chip .../>` line of a chip mapper. */
  datatype Entry = Entry(code: string, chip: Chip)

  /** A chip mapper: the chip of the first entry whose code is `s`, and for
      any other value a plain chip captioned `s || fallback`. */
  function CodeChip(s: JsVal, table: seq<Entry>, fallback: string): (r: Chip)
    ensures forall i :: (0 <= i < |table| && s == Str(table[i].code)
                         && (forall j :: 0 <= j < i ==> s != Str(table[j].code))) ==> r == table[i].chip
    ensures (forall i :: 0 <= i < |table| ==> s != Str(table[i].code))
            ==> r == Chip(ToText(Or(s, Str(fallback))), "default")
    decreases |table|
  {
    if table == [] then Chip(ToText(Or(s, Str(fallback))), "default")
    else if s == Str(table[0].code) then table[0].chip
    else
      var rest := CodeChip(s, table[1..], fallback);
      assert forall i :: 1 <= i < |table| ==> table[1..][i - 1] == table[i];
      rest
  }

  /** The codes of a chip table. */
  function Codes(table: seq<Entry>): (r: seq<string>)
    ensures |r| == |table| && forall i :: 0 <= i < |table| ==> r[i] == table[i].code
  {
    if table == [] then [] else [table[0].code] + Codes(table[1..])
  }

  /** A code the table does not know is shown as it is, and a missing or
      empty one as the fallback caption, both on a plain chip. */
  lemma UnknownCodeShownRaw(s: JsVal, table: seq<Entry>, fallback: string)
    ensures (!s.Str? || s.s !in Codes(table)) && Truthy(s) ==> CodeChip(s, table, fallback) == Chip(ToText(s), "default")
    ensures (!s.Str? || s.s !in Codes(table)) && !Truthy(s) ==> CodeChip(s, table, fallback) == Chip(fallback, "default")
  {
    if !s.Str? || s.s !in Codes(table) {
      forall i | 0 <= i < |table|
        ensures s != Str(table[i].code)
      {
        if s.Str? {
          assert Codes(table)[i] == table[i].code;
        }
      }
    }
  }
}
