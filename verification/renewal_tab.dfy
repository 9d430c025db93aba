/** The admin's renewal table: sorting and paging the user list, the status
    chip, and approving or rejecting a pending application from the user's
    details. */
module RenewalTab {
  import opened Js
  import opened TableSort
  import opened AdminUsers

  /** The columns whose header sorts the list; "view" is not one. */
  const SortableColumns: seq<string> := ["id", "firstName", "lastName", "email", "cardLevel", "status", "role"]

  const StatusTable: seq<Entry> := [
    Entry("APPROVED", Chip("Approved", "success")),
    Entry("PENDING", Chip("Pending", "warning")),
    Entry("REJECTED", Chip("Rejected", "error"))
  ]

  /** `statusChip`: the three application states have fixed chips; any
      other code is shown as it is, a missing one as "Unknown". */
  function StatusChip(s: JsVal): (r: Chip)
    ensures s == Str("APPROVED") ==> r == Chip("Approved", "success")
    ensures s == Str("PENDING") ==> r == Chip("Pending", "warning")
    ensures s == Str("REJECTED") ==> r == Chip("Rejected", "error")
    ensures s != Str("APPROVED") && s != Str("PENDING") && s != Str("REJECTED")
            ==> r == Chip(if Truthy(s) then ToText(s) else "Unknown", "default")
  {
    UnknownCodeShownRaw(s, StatusTable, "Unknown");
    CodeChip(s, StatusTable, "Unknown")
  }

  /** Approve and Reject act only on a pending application, and not while
      a request is in flight. */
  predicate ActionsEnabled(u: User, submitting: bool) {
    u.status == Str("PENDING") && !submitting
  }

  /** The renewal tab's state. */
  class RenewalView {
    var page: int
    var rowsPerPage: JsVal
    var orderBy: string
    var order: Order
    var users: seq<User>
    var totalElements: JsVal
    var error: Option<string>
    var selectedUser: Option<User>
    var rejectOpen: bool
    var rejectReason: string
    var info: Option<Info>

    /** The list state is as it was. */
    twostate predicate ListKept()
      reads this
    {
      page == old(page) && rowsPerPage == old(rowsPerPage) && orderBy == old(orderBy)
      && order == old(order) && users == old(users) && totalElements == old(totalElements)
      && error == old(error)
    }

    /** Page 0 of ten rows sorted by id ascending, no user open. */
    constructor ()
      ensures page == 0 && rowsPerPage == Int(10) && orderBy == "id" && order == Asc
      ensures users == [] && totalElements == Int(0) && error.None? && selectedUser.None?
      ensures !rejectOpen && rejectReason == "" && info.None?
    {
      page, rowsPerPage, orderBy, order := 0, Int(10), "id", Asc;
      users, totalElements, error, selectedUser := [], Int(0), None, None;
      rejectOpen, rejectReason, info := false, "", None;
    }

    /** `getUserData` with the outcome of the list request: the rows and the
        total of the body; a failure only sets the error line. */
    method Load(response: Outcome<Option<UserPage>>)
      modifies this
      ensures response.Success? ==> users == UsersOf(response.value) && totalElements == TotalOf(response.value)
                                    && error.None?
      ensures response.Failure? ==> users == old(users) && totalElements == old(totalElements)
                                    && error == Some(LoadError)
      ensures page == old(page) && rowsPerPage == old(rowsPerPage) && orderBy == old(orderBy) && order == old(order)
      ensures selectedUser == old(selectedUser) && info == old(info)
      ensures rejectOpen == old(rejectOpen) && rejectReason == old(rejectReason)
    {
      error := None;
      match response
      case Success(res) =>
        users := UsersOf(res);
        totalElements := TotalOf(res);
      case Failure(_) =>
        error := Some(LoadError);
    }

    /** `handleSort`: the order toggles, the column becomes the sort key
        and the list goes back to page 0. */
    method HandleSort(columnId: string)
      modifies this
      ensures order == NextOrder(old(orderBy), old(order), columnId) && orderBy == columnId && page == 0
      ensures rowsPerPage == old(rowsPerPage) && users == old(users) && totalElements == old(totalElements)
      ensures error == old(error) && selectedUser == old(selectedUser) && info == old(info)
      ensures rejectOpen == old(rejectOpen) && rejectReason == old(rejectReason)
    {
      order := NextOrder(orderBy, order, columnId);
      orderBy := columnId;
      page := 0;
    }

    /** A click on a column header: only a sortable column calls `handleSort`. */
    method HeaderClick(columnId: string)
      modifies this
      ensures columnId !in SortableColumns ==> unchanged(this)
      ensures columnId in SortableColumns ==>
                order == NextOrder(old(orderBy), old(order), columnId) && orderBy == columnId && page == 0
      ensures rowsPerPage == old(rowsPerPage) && users == old(users) && selectedUser == old(selectedUser)
      ensures totalElements == old(totalElements) && error == old(error) && info == old(info)
      ensures rejectOpen == old(rejectOpen) && rejectReason == old(rejectReason)
    {
      if columnId in SortableColumns {
        HandleSort(columnId);
      }
    }

    /** Choosing a page size: the size read with parseInt, and page 0. */
    method ChangeRowsPerPage(value: string)
      modifies this
      ensures rowsPerPage == (match ParseInt(value) case Some(n) => Int(n) case None => NaN) && page == 0
      ensures orderBy == old(orderBy) && order == old(order) && users == old(users)
      ensures selectedUser == old(selectedUser) && rejectOpen == old(rejectOpen) && rejectReason == old(rejectReason)
      ensures totalElements == old(totalElements) && error == old(error) && info == old(info)
    {
      rowsPerPage := match ParseInt(value) case Some(n) => Int(n) case None => NaN;
      page := 0;
    }

    /** "View": the user's details are shown. */
    method View(u: User)
      modifies this
      ensures selectedUser == Some(u) && ListKept() && info == old(info)
      ensures rejectOpen == old(rejectOpen) && rejectReason == old(rejectReason)
    {
      selectedUser := Some(u);
    }

    /** "Back": the list is shown again. */
    method Back()
      modifies this
      ensures selectedUser.None? && ListKept() && info == old(info)
      ensures rejectOpen == old(rejectOpen) && rejectReason == old(rejectReason)
    {
      selectedUser := None;
    }

    /** "Reject": opens the reason dialog, but only for a pending application. */
    method OpenRejectDialog()
      modifies this
      ensures rejectOpen == (old(rejectOpen) || (selectedUser.Some? && ActionsEnabled(selectedUser.value, false)))
      ensures selectedUser == old(selectedUser) && rejectReason == old(rejectReason)
      ensures ListKept() && info == old(info)
    {
      if selectedUser.Some? && ActionsEnabled(selectedUser.value, false) {
        rejectOpen := true;
      }
    }

    /** Typing in the reason field. */
    method EditRejectReason(value: string)
      modifies this
      ensures rejectReason == value && rejectOpen == old(rejectOpen)
      ensures selectedUser == old(selectedUser) && ListKept() && info == old(info)
    {
      rejectReason := value;
    }

    /** "Cancel" in the reason dialog, or a click outside it: the dialog
        closes and the reason typed so far is kept. */
    method CancelReject()
      modifies this
      ensures !rejectOpen && rejectReason == old(rejectReason)
      ensures selectedUser == old(selectedUser) && ListKept() && info == old(info)
    {
      rejectOpen := false;
    }

    /** "Approve" (`doApprove`), given how the post ends; the button acts only
        for a pending application. Returns the id posted. On success the
        details are left; on failure only the alert changes. */
    method Approve(post: Outcome<JsVal>) returns (sent: Option<JsVal>)
      modifies this
      ensures sent.Some? <==> old(selectedUser.Some? && ActionsEnabled(selectedUser.value, false))
      ensures sent.None? ==> unchanged(this)
      ensures sent.Some? ==> sent.value == old(selectedUser).value.id
      ensures sent.Some? && post.Success? ==>
                selectedUser.None? && info == Some(Info("success", "Approved successfully."))
      ensures sent.Some? && post.Failure? ==>
                selectedUser == old(selectedUser) && info == Some(Info("error", "Approve failed."))
      ensures rejectOpen == old(rejectOpen) && rejectReason == old(rejectReason) && ListKept()
    {
      if !(selectedUser.Some? && ActionsEnabled(selectedUser.value, false)) {
        return None;
      }
      sent := Some(selectedUser.value.id);
      match post
      case Success(_) =>
        info := Some(Info("success", "Approved successfully."));
        selectedUser := None;
      case Failure(_) =>
        info := Some(Info("error", "Approve failed."));
    }

    /** "Confirm Reject" (`doReject`), given how the post ends. The button is
        disabled while the reason is blank. Returns the id and the reason
        posted, untrimmed. On success the dialog closes, the reason is
        cleared and the details are left. */
    method ConfirmReject(post: Outcome<JsVal>) returns (sent: Option<(JsVal, string)>)
      modifies this
      ensures sent.Some? <==> old(rejectOpen && selectedUser.Some? && RejectConfirmEnabled(rejectReason, false))
      ensures sent.None? ==> unchanged(this)
      ensures sent.Some? ==> sent.value == (old(selectedUser).value.id, old(rejectReason))
      ensures sent.Some? && post.Success? ==>
                !rejectOpen && rejectReason == "" && selectedUser.None?
                && info == Some(Info("success", "Rejected successfully."))
      ensures sent.Some? && post.Failure? ==>
                rejectOpen == old(rejectOpen) && rejectReason == old(rejectReason)
                && selectedUser == old(selectedUser) && info == Some(Info("error", "Reject failed."))
      ensures ListKept()
    {
      if !(rejectOpen && selectedUser.Some? && RejectConfirmEnabled(rejectReason, false)) {
        return None;
      }
      sent := Some((selectedUser.value.id, rejectReason));
      match post
      case Success(_) =>
        rejectOpen := false;
        rejectReason := "";
        info := Some(Info("success", "Rejected successfully."));
        selectedUser := None;
      case Failure(_) =>
        info := Some(Info("error", "Reject failed."));
    }
  }
}
