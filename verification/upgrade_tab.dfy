/** The admin's card-upgrade table: sorting and paging the user list, the
    status chips, and the card approval and rejection made from a user's
    details. */
module UpgradeTab {
  import opened Text
  import opened Js
  import opened TableSort
  import opened AdminUsers

  /** The columns whose header sorts the list. */
  const SortableColumns: seq<string> := ["id", "firstName", "lastName", "email", "cardLevel", "status", "role"]

  const StatusTable: seq<Entry> := [
    Entry("APPROVED", Chip("Approved", "success")),
    Entry("PENDING", Chip("Pending", "warning")),
    Entry("REJECTED", Chip("Rejected", "error"))
  ]

  const CardStatusTable: seq<Entry> := [
    Entry("ACTIVATED", Chip("Activated", "success")),
    Entry("APPROVED", Chip("Approved", "info")),
    Entry("REQUESTED", Chip("Requested", "warning")),
    Entry("REVOKED", Chip("Revoked", "error")),
    Entry("EXPIRED", Chip("Expired", "default"))
  ]

  /** `statusChip`: the three application states have fixed chips; any
      other code is shown as it is, a missing one as "Unknown". */
  function StatusChip(s: JsVal): (r: Chip)
    ensures s == Str("APPROVED") ==> r == Chip("Approved", "success")
    ensures s == Str("PENDING") ==> r == Chip("Pending", "warning")
    ensures s == Str("REJECTED") ==> r == Chip("Rejected", "error")
    ensures s != Str("APPROVED") && s != Str("PENDING") && s != Str("REJECTED")
            ==> r == Chip(if Truthy(s) then ToText(s) else "Unknown", "default")
  {
    UnknownCodeShownRaw(s, StatusTable, "Unknown");
    CodeChip(s, StatusTable, "Unknown")
  }

  /** `cardStatusChip`: the five card states have fixed chips; any other
      code is shown as it is, a missing one as "None". */
  function CardStatusChip(s: JsVal): (r: Chip)
    ensures s == Str("ACTIVATED") ==> r == Chip("Activated", "success")
    ensures s == Str("APPROVED") ==> r == Chip("Approved", "info")
    ensures s == Str("REQUESTED") ==> r == Chip("Requested", "warning")
    ensures s == Str("REVOKED") ==> r == Chip("Revoked", "error")
    ensures s == Str("EXPIRED") ==> r == Chip("Expired", "default")
    ensures !(s.Str? && s.s in Codes(CardStatusTable))
            ==> r == Chip(if Truthy(s) then ToText(s) else "None", "default")
  {
    UnknownCodeShownRaw(s, CardStatusTable, "None");
    CodeChip(s, CardStatusTable, "None")
  }

  /** The card buttons act only for an approved member whose card has been
      requested, and not while a request is in flight. */
  predicate CardActionsEnabled(u: User, submitting: bool) {
    u.status == Str("APPROVED") && u.cardIssueStatus == Str("REQUESTED") && !submitting
  }

  /** `parseInt(e.target.value || 0, 10)`: the valid-years field read as a
      whole number, None for NaN; an empty field reads as 0. */
  function ValidYearsOf(text: string): (r: Option<int>)
    ensures text == [] ==> r == Some(0)
  {
    ParseIntOfIntText(0);
    assert IntText(0) == "0";
    ParseInt(if text == [] then "0" else text)
  }

  /** The body posted to approve a card; a None field is left out. */
  datatype CardApproval = CardApproval(cardNumber: Option<string>, validYears: Option<int>)

  /** The approve-card payload: the card number trimmed and left out when
      that leaves nothing, the validity kept only when it is a positive number. */
  function ApprovePayload(cardNumber: string, validYears: Option<int>): (r: CardApproval)
    ensures r.cardNumber.None? <==> IsBlank(cardNumber)
    ensures r.cardNumber.Some? ==> r.cardNumber.value == Trim(cardNumber) && r.cardNumber.value != []
    ensures r.validYears.Some? <==> validYears.Some? && validYears.value > 0
    ensures r.validYears.Some? ==> r.validYears == validYears
  {
    var t := Trim(cardNumber);
    CardApproval(if t != [] then Some(t) else None,
                 if validYears.Some? && validYears.value > 0 then validYears else None)
  }

  /** Typing a whole number n into the validity field sends n when it is
      positive and leaves the field out otherwise; an emptied field is left out. */
  lemma TypedValidYears(cardNumber: string, n: int)
    ensures ApprovePayload(cardNumber, ValidYearsOf(IntText(n))).validYears
            == if n > 0 then Some(n) else None
    ensures ApprovePayload(cardNumber, ValidYearsOf("")).validYears.None?
  {
    ParseIntOfIntText(n);
    assert IntText(n) != [];
    ParseIntOfIntText(0);
  }

  /** White space around the card number does not change the payload. */
  lemma PayloadIgnoresPadding(before: string, cardNumber: string, after: string, validYears: Option<int>)
    requires AllSpace(before) && AllSpace(after)
    ensures ApprovePayload(before + cardNumber + after, validYears) == ApprovePayload(cardNumber, validYears)
  {
    TrimPadded(before, cardNumber, after);
  }

  /** The upgrade tab's state. */
  class UpgradeView {
    var page: int
    var rowsPerPage: JsVal
    var orderBy: string
    var order: Order
    var users: seq<User>
    var totalElements: JsVal
    var error: Option<string>
    var selectedUser: Option<User>
    var cardRejectOpen: bool
    var cardRejectReason: string
    var cardApproveOpen: bool
    var cardNumber: string
    var validYears: Option<int>
    var info: Option<Info>

    /** The list state is as it was. */
    twostate predicate ListKept()
      reads this
    {
      page == old(page) && rowsPerPage == old(rowsPerPage) && orderBy == old(orderBy)
      && order == old(order) && users == old(users) && totalElements == old(totalElements)
      && error == old(error)
    }

    /** The dialogs are as they were. */
    twostate predicate DialogsKept()
      reads this
    {
      cardRejectOpen == old(cardRejectOpen) && cardRejectReason == old(cardRejectReason)
      && cardApproveOpen == old(cardApproveOpen) && cardNumber == old(cardNumber)
      && validYears == old(validYears)
    }

    /** Page 0 of ten rows sorted by id ascending, no user open, the
        validity preset to 2 years. */
    constructor ()
      ensures page == 0 && rowsPerPage == Int(10) && orderBy == "id" && order == Asc
      ensures users == [] && totalElements == Int(0) && error.None? && selectedUser.None?
      ensures !cardRejectOpen && cardRejectReason == "" && !cardApproveOpen
      ensures cardNumber == "" && validYears == Some(2) && info.None?
    {
      page, rowsPerPage, orderBy, order := 0, Int(10), "id", Asc;
      users, totalElements, error, selectedUser := [], Int(0), None, None;
      cardRejectOpen, cardRejectReason, cardApproveOpen := false, "", false;
      cardNumber, validYears, info := "", Some(2), None;
    }

    /** `getUserData` with the outcome of the list request: the rows and the
        total of the body; a failure only sets the error line. */
    method Load(response: Outcome<Option<UserPage>>)
      modifies this
      ensures response.Success? ==> users == UsersOf(response.value) && totalElements == TotalOf(response.value)
                                    && error.None?
      ensures response.Failure? ==> users == old(users) && totalElements == old(totalElements)
                                    && error == Some(LoadError)
      ensures page == old(page) && rowsPerPage == old(rowsPerPage) && orderBy == old(orderBy) && order == old(order)
      ensures selectedUser == old(selectedUser) && info == old(info) && DialogsKept()
    {
      error := None;
      match response
      case Success(res) =>
        users := UsersOf(res);
        totalElements := TotalOf(res);
      case Failure(_) =>
        error := Some(LoadError);
    }

    /** `handleSort`: the order toggles, the column becomes the sort key
        and the list goes back to page 0. */
    method HandleSort(columnId: string)
      modifies this
      ensures order == NextOrder(old(orderBy), old(order), columnId) && orderBy == columnId && page == 0
      ensures rowsPerPage == old(rowsPerPage) && users == old(users) && totalElements == old(totalElements)
      ensures error == old(error) && selectedUser == old(selectedUser) && info == old(info) && DialogsKept()
    {
      order := NextOrder(orderBy, order, columnId);
      orderBy := columnId;
      page := 0;
    }

    /** A click on a column header: only a sortable column calls `handleSort`. */
    method HeaderClick(columnId: string)
      modifies this
      ensures columnId !in SortableColumns ==> unchanged(this)
      ensures columnId in SortableColumns ==>
                order == NextOrder(old(orderBy), old(order), columnId) && orderBy == columnId && page == 0
      ensures rowsPerPage == old(rowsPerPage) && users == old(users) && selectedUser == old(selectedUser)
      ensures totalElements == old(totalElements) && error == old(error) && info == old(info) && DialogsKept()
    {
      if columnId in SortableColumns {
        HandleSort(columnId);
      }
    }

    /** Choosing a page size: the size read with parseInt, and page 0. */
    method ChangeRowsPerPage(value: string)
      modifies this
      ensures rowsPerPage == (match ParseInt(value) case Some(n) => Int(n) case None => NaN) && page == 0
      ensures orderBy == old(orderBy) && order == old(order) && users == old(users)
      ensures selectedUser == old(selectedUser) && DialogsKept()
      ensures totalElements == old(totalElements) && error == old(error) && info == old(info)
    {
      rowsPerPage := match ParseInt(value) case Some(n) => Int(n) case None => NaN;
      page := 0;
    }

    /** "View": the user's details are shown. */
    method View(u: User)
      modifies this
      ensures selectedUser == Some(u) && ListKept() && DialogsKept() && info == old(info)
    {
      selectedUser := Some(u);
    }

    /** "Back": the list is shown again. */
    method Back()
      modifies this
      ensures selectedUser.None? && ListKept() && DialogsKept() && info == old(info)
    {
      selectedUser := None;
    }

    /** "Reject Card": opens its dialog, but only while the card buttons are enabled. */
    method OpenCardReject()
      modifies this
      ensures cardRejectOpen == (old(cardRejectOpen) || (selectedUser.Some? && CardActionsEnabled(selectedUser.value, false)))
      ensures selectedUser == old(selectedUser) && ListKept() && info == old(info)
      ensures cardRejectReason == old(cardRejectReason) && cardApproveOpen == old(cardApproveOpen)
      ensures cardNumber == old(cardNumber) && validYears == old(validYears)
    {
      if selectedUser.Some? && CardActionsEnabled(selectedUser.value, false) {
        cardRejectOpen := true;
      }
    }

    /** "Approve Card": opens its dialog, but only while the card buttons are enabled. */
    method OpenCardApprove()
      modifies this
      ensures cardApproveOpen == (old(cardApproveOpen) || (selectedUser.Some? && CardActionsEnabled(selectedUser.value, false)))
      ensures selectedUser == old(selectedUser) && ListKept() && info == old(info)
      ensures cardRejectOpen == old(cardRejectOpen) && cardRejectReason == old(cardRejectReason)
      ensures cardNumber == old(cardNumber) && validYears == old(validYears)
    {
      if selectedUser.Some? && CardActionsEnabled(selectedUser.value, false) {
        cardApproveOpen := true;
      }
    }

    /** Typing in the card number field. */
    method EditCardNumber(value: string)
      modifies this
      ensures cardNumber == value && validYears == old(validYears)
      ensures cardApproveOpen == old(cardApproveOpen) && cardRejectOpen == old(cardRejectOpen)
      ensures cardRejectReason == old(cardRejectReason)
      ensures selectedUser == old(selectedUser) && ListKept() && info == old(info)
    {
      cardNumber := value;
    }

    /** Typing in the valid-years field. */
    method EditValidYears(value: string)
      modifies this
      ensures validYears == ValidYearsOf(value) && cardNumber == old(cardNumber)
      ensures cardApproveOpen == old(cardApproveOpen) && cardRejectOpen == old(cardRejectOpen)
      ensures cardRejectReason == old(cardRejectReason)
      ensures selectedUser == old(selectedUser) && ListKept() && info == old(info)
    {
      validYears := ValidYearsOf(value);
    }

    /** Typing in the card rejection reason. */
    method EditCardRejectReason(value: string)
      modifies this
      ensures cardRejectReason == value && cardRejectOpen == old(cardRejectOpen)
      ensures cardApproveOpen == old(cardApproveOpen) && cardNumber == old(cardNumber)
      ensures validYears == old(validYears)
      ensures selectedUser == old(selectedUser) && ListKept() && info == old(info)
    {
      cardRejectReason := value;
    }

    /** "Cancel" in the card rejection dialog: it closes, the reason typed so far is kept. */
    method CancelCardReject()
      modifies this
      ensures !cardRejectOpen && cardRejectReason == old(cardRejectReason)
      ensures cardApproveOpen == old(cardApproveOpen) && cardNumber == old(cardNumber)
      ensures validYears == old(validYears)
      ensures selectedUser == old(selectedUser) && ListKept() && info == old(info)
    {
      cardRejectOpen := false;
    }

    /** "Cancel" in the card approval dialog: it closes, its fields are kept. */
    method CancelCardApprove()
      modifies this
      ensures !cardApproveOpen && cardNumber == old(cardNumber) && validYears == old(validYears)
      ensures cardRejectOpen == old(cardRejectOpen) && cardRejectReason == old(cardRejectReason)
      ensures selectedUser == old(selectedUser) && ListKept() && info == old(info)
    {
      cardApproveOpen := false;
    }

    /** "Confirm Approve Card" (`doApproveCard`), given how the post ends.
        Returns the user id and the payload posted. On success the dialog
        closes, its fields go back to "" and 2 years, and the details are
        left; on failure only the alert changes. */
    method ConfirmApproveCard(post: Outcome<JsVal>) returns (sent: Option<(JsVal, CardApproval)>)
      modifies this
      ensures sent.Some? <==> old(cardApproveOpen && selectedUser.Some?)
      ensures sent.None? ==> unchanged(this)
      ensures sent.Some? ==> sent.value == (old(selectedUser).value.id, ApprovePayload(old(cardNumber), old(validYears)))
      ensures sent.Some? && post.Success? ==>
                !cardApproveOpen && cardNumber == "" && validYears == Some(2) && selectedUser.None?
                && info == Some(Info("success", "Card approved."))
                && cardRejectOpen == old(cardRejectOpen) && cardRejectReason == old(cardRejectReason)
      ensures sent.Some? && post.Failure? ==>
                info == Some(Info("error", "Approve card failed.")) && DialogsKept()
                && selectedUser == old(selectedUser)
      ensures ListKept()
    {
      if !(cardApproveOpen && selectedUser.Some?) {
        return None;
      }
      sent := Some((selectedUser.value.id, ApprovePayload(cardNumber, validYears)));
      match post
      case Success(_) =>
        cardApproveOpen := false;
        cardNumber := "";
        validYears := Some(2);
        info := Some(Info("success", "Card approved."));
        selectedUser := None;
      case Failure(_) =>
        info := Some(Info("error", "Approve card failed."));
    }

    /** "Confirm Reject Card" (`doRejectCard`), given how the post ends. The
        button is disabled while the reason is blank. Returns the user id
        and the reason posted, untrimmed. On success the dialog closes, the
        reason is cleared and the details are left. */
    method ConfirmRejectCard(post: Outcome<JsVal>) returns (sent: Option<(JsVal, string)>)
      modifies this
      ensures sent.Some? <==> old(cardRejectOpen && selectedUser.Some? && RejectConfirmEnabled(cardRejectReason, false))
      ensures sent.None? ==> unchanged(this)
      ensures sent.Some? ==> sent.value == (old(selectedUser).value.id, old(cardRejectReason))
      ensures sent.Some? && post.Success? ==>
                !cardRejectOpen && cardRejectReason == "" && selectedUser.None?
                && info == Some(Info("success", "Card request rejected."))
                && cardApproveOpen == old(cardApproveOpen) && cardNumber == old(cardNumber)
                && validYears == old(validYears)
      ensures sent.Some? && post.Failure? ==>
                info == Some(Info("error", "Reject card failed.")) && DialogsKept()
                && selectedUser == old(selectedUser)
      ensures ListKept()
    {
      if !(cardRejectOpen && selectedUser.Some? && RejectConfirmEnabled(cardRejectReason, false)) {
        return None;
      }
      sent := Some((selectedUser.value.id, cardRejectReason));
      match post
      case Success(_) =>
        cardRejectOpen := false;
        cardRejectReason := "";
        info := Some(Info("success", "Card request rejected."));
        selectedUser := None;
      case Failure(_) =>
        info := Some(Info("error", "Reject card failed."));
    }
  }
}
