/** The notification composer of the admin pages: the level tags drawn from
    the fixed levels 1 to 4, the attachment list, the validation chain and
    the request that Send posts. The page replaces `levels` and `files`
    wholesale on every change, so they are values here. */
module NotificationCompose {
  import opened Text
  import opened Js
  import Lists

  /** LEVEL_OPTIONS */
  const LevelOptions: seq<int> := [1, 2, 3, 4]

  predicate NoDuplicates(s: seq<int>) {
    forall i, j :: 0 <= i < j < |s| ==> s[i] != s[j]
  }

  /** Every level is one of LEVEL_OPTIONS. */
  predicate WithinOptions(s: seq<int>) {
    forall k :: 0 <= k < |s| ==> s[k] in LevelOptions
  }

  // ---------------------------------------------------------------------------
  // Level tags

  /** The position of the first option that `levels` does not include, or
      |options| when it includes them all. */
  function MissingIndex(options: seq<int>, levels: seq<int>): (i: nat)
    ensures i <= |options| && (i < |options| ==> options[i] !in levels)
    ensures forall j :: 0 <= j < i ==> options[j] in levels
  {
    if options == [] || options[0] !in levels then 0
    else
      var i := 1 + MissingIndex(options[1..], levels);
      assert forall j :: 1 <= j < i ==> options[j] == options[1..][j - 1];
      i
  }

  /** `options.find(l => !levels.includes(l))`: the first option not yet chosen. */
  function FirstMissing(options: seq<int>, levels: seq<int>): (r: Option<int>)
    ensures r.None? <==> forall k :: 0 <= k < |options| ==> options[k] in levels
    ensures r.Some? ==> r.value in options && r.value !in levels
    ensures r.Some? ==> exists i :: 0 <= i < |options| && options[i] == r.value
                                   && forall j :: 0 <= j < i ==> options[j] in levels
  {
    var i := MissingIndex(options, levels);
    if i < |options| then Some(options[i]) else None
  }

  /** `handleAddLevel`: the first of 1, 2, 3, 4 not yet chosen is appended;
      when all four are chosen the list is unchanged. */
  function AddLevel(levels: seq<int>): (r: seq<int>)
    ensures (forall k :: 0 <= k < |LevelOptions| ==> LevelOptions[k] in levels) ==> r == levels
    ensures !(forall k :: 0 <= k < |LevelOptions| ==> LevelOptions[k] in levels) ==>
              exists n :: r == levels + [n] && n == FirstMissing(LevelOptions, levels).value
  {
    match FirstMissing(LevelOptions, levels)
    case Some(next) => if next != 0 then levels + [next] else levels
    case None => levels
  }

  /** Adding never creates a duplicate, grows the list by at most one, keeps
      what was there as a prefix, and stays within LEVEL_OPTIONS. */
  lemma AddLevelKeepsShape(levels: seq<int>)
    ensures var r := AddLevel(levels);
      && |levels| <= |r| <= |levels| + 1
      && r[..|levels|] == levels
      && (NoDuplicates(levels) ==> NoDuplicates(r))
      && (WithinOptions(levels) ==> WithinOptions(r))
  {
  }

  /** With fewer than four distinct levels chosen, adding always adds one. */
  lemma AddLevelGrows(levels: seq<int>)
    requires NoDuplicates(levels) && WithinOptions(levels) && |levels| < 4
    ensures |AddLevel(levels)| == |levels| + 1
  {
    if forall k :: 0 <= k < |LevelOptions| ==> LevelOptions[k] in levels {
      AllOptionsTakeFour(levels);
      assert false;
    }
  }

  /** A list that includes every option has at least four entries. */
  lemma AllOptionsTakeFour(levels: seq<int>)
    requires forall k :: 0 <= k < |LevelOptions| ==> LevelOptions[k] in levels
    ensures |levels| >= 4
  {
    assert {1, 2, 3, 4} <= Elements(levels) by {
      assert LevelOptions[0] == 1 && LevelOptions[1] == 2 && LevelOptions[2] == 3 && LevelOptions[3] == 4;
    }
    ElementsCard(levels);
    SubsetCard({1, 2, 3, 4}, Elements(levels));
    assert |{1, 2, 3, 4}| == 4;
  }

  /** A list of distinct levels drawn from 1 to 4 has at most four entries. */
  lemma AtMostFourLevels(levels: seq<int>)
    requires NoDuplicates(levels) && WithinOptions(levels)
    ensures |levels| <= 4
  {
    ElementsCard(levels);
    assert Elements(levels) <= {1, 2, 3, 4};
    SubsetCard(Elements(levels), {1, 2, 3, 4});
    assert |{1, 2, 3, 4}| == 4;
  }

  function Elements(s: seq<int>): set<int> {
    set x | x in s
  }

  lemma {:induction false} ElementsCard(s: seq<int>)
    ensures |Elements(s)| <= |s|
    ensures NoDuplicates(s) ==> |Elements(s)| == |s|
  {
    if s != [] {
      var init, last := s[..|s| - 1], s[|s| - 1];
      ElementsCard(init);
      assert Elements(s) == Elements(init) + {last};
      if NoDuplicates(s) {
        assert NoDuplicates(init);
        assert last !in Elements(init);
      }
    }
  }

  lemma SubsetCard(a: set<int>, b: set<int>)
    requires a <= b
    ensures |a| <= |b|
  {
    assert b == a + (b - a);
  }

  /** `handleRemoveLevel(lv)`: every occurrence of `lv` removed, the rest kept in order. */
  function RemoveLevel(levels: seq<int>, lv: int): (r: seq<int>)
    ensures lv !in r
    ensures forall k :: 0 <= k < |levels| && levels[k] != lv ==> levels[k] in r
    ensures forall k :: 0 <= k < |r| ==> r[k] in levels
    ensures forall x :: x != lv ==> multiset(r)[x] == multiset(levels)[x]
  {
    Lists.FilterCount(levels, l => l != lv);
    Lists.Filter(levels, l => l != lv)
  }

  /** Removal works on each part of the list in place, so the levels kept
      stay in their order. */
  lemma RemoveLevelAppend(a: seq<int>, b: seq<int>, lv: int)
    ensures RemoveLevel(a + b, lv) == RemoveLevel(a, lv) + RemoveLevel(b, lv)
  {
    Lists.FilterAppend(a, b, l => l != lv);
  }

  /** Removing the level that was just added gives back the list before the add. */
  lemma RemoveUndoesAdd(levels: seq<int>)
    requires !(forall k :: 0 <= k < |LevelOptions| ==> LevelOptions[k] in levels)
    ensures RemoveLevel(AddLevel(levels), FirstMissing(LevelOptions, levels).value) == levels
  {
    var n := FirstMissing(LevelOptions, levels).value;
    Lists.FilterAppend(levels, [n], l => l != n);
    Lists.FilterKeepsAll(levels, l => l != n);
  }

  // ---------------------------------------------------------------------------
  // Attachments

  /** A file chosen in the file picker. */
  datatype Attachment = Attachment(name: string, size: nat)

  /** `handleSelectFiles`: the new files after the ones already listed. */
  function SelectFiles(files: seq<Attachment>, picked: seq<Attachment>): (r: seq<Attachment>)
    ensures |r| == |files| + |picked| && r[..|files|] == files && r[|files|..] == picked
  {
    files + picked
  }

  /** The delete icon of chip `idx`: only that attachment removed. */
  function DeleteFile(files: seq<Attachment>, idx: int): (r: seq<Attachment>)
    ensures 0 <= idx < |files| ==> (|r| == |files| - 1
                                    && (forall k :: 0 <= k < idx ==> r[k] == files[k])
                                    && (forall k :: idx <= k < |r| ==> r[k] == files[k + 1]))
    ensures !(0 <= idx < |files|) ==> r == files
  {
    Lists.RemoveAt(files, idx)
  }

  // ---------------------------------------------------------------------------
  // Validation and sending

  /** What the composer holds when Send is clicked. */
  datatype Draft = Draft(to: string, levels: seq<int>, kind: string, subject: string, html: string)

  /** The empty document the editor produces. */
  const EmptyEditor := "<p><br></p>"

  /** `validate`: the message of the first check that fails, or "". */
  function Validate(d: Draft): (r: string)
    ensures r == "" <==> !IsBlank(d.subject) && d.html != "" && d.html != EmptyEditor
                         && (|d.levels| > 0 || !IsBlank(d.to))
    ensures IsBlank(d.subject) ==> r == "Subject is required"
    ensures !IsBlank(d.subject) && (d.html == "" || d.html == EmptyEditor) ==> r == "Content is required"
    ensures !IsBlank(d.subject) && d.html != "" && d.html != EmptyEditor && |d.levels| == 0 && IsBlank(d.to)
            ==> r == "Please select at least one Level or specify recipients"
  {
    if IsBlank(d.subject) then "Subject is required"
    else if d.html == "" || d.html == EmptyEditor then "Content is required"
    else if |d.levels| == 0 && IsBlank(d.to) then "Please select at least one Level or specify recipients"
    else ""
  }

  /** The body posted to /api/notifications. */
  datatype NotificationRequest = NotificationRequest(kind: string, subject: string, contentHtml: string,
                                                     to: string, levels: seq<int>)

  /** What the page shows after Send: the error line, the success line, and the request posted if any. */
  datatype SendResult = SendResult(error: string, okMsg: string, posted: Option<NotificationRequest>)

  /** `handleSend`, given the success line on screen before the click and the
      outcome of the post when one is made. A failed check leaves the success
      line as it was. */
  function HandleSend(d: Draft, okMsg: string, post: Outcome<JsVal>): (r: SendResult)
    ensures r.posted.None? <==> Validate(d) != ""
    ensures Validate(d) != "" ==> r.error == Validate(d) && r.okMsg == okMsg
    ensures r.posted.Some? ==> r.posted.value == NotificationRequest(d.kind, d.subject, d.html, d.to, d.levels)
    ensures r.posted.Some? && post.Success? ==> r == SendResult("", "Notification sent", r.posted)
    ensures r.posted.Some? && post.Failure? ==> r.error == "Send failed: " + post.message && r.okMsg == ""
  {
    var v := Validate(d);
    if v != "" then SendResult(v, okMsg, None)
    else
      var request := NotificationRequest(d.kind, d.subject, d.html, d.to, d.levels);
      match post
      case Success(_) => SendResult("", "Notification sent", Some(request))
      case Failure(msg) => SendResult("Send failed: " + msg, "", Some(request))
  }
}
