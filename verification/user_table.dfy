/** The admin's user table (the applications tab): sorting and paging the
    list, the status chip, viewing a user, and the local delete with its
    confirmation dialog. */
module UserTable {
  import opened Js
  import opened TableSort
  import opened AdminUsers
  import Lists

  /** The columns whose `sortable` flag is set; "actions" is not one. */
  const SortableColumns: seq<string> := ["id", "firstName", "lastName", "email", "cardLevel", "status", "role"]

  const StatusTable: seq<Entry> := [
    Entry("APPROVED", Chip("Approved", "success")),
    Entry("PENDING", Chip("In progress", "warning")),
    Entry("REJECTED", Chip("Rejected", "error"))
  ]

  /** `statusChip`: a pending application reads "In progress"; any other
      code than the three known ones is shown as it is, a missing one as "Unknown". */
  function StatusChip(s: JsVal): (r: Chip)
    ensures s == Str("APPROVED") ==> r == Chip("Approved", "success")
    ensures s == Str("PENDING") ==> r == Chip("In progress", "warning")
    ensures s == Str("REJECTED") ==> r == Chip("Rejected", "error")
    ensures s != Str("APPROVED") && s != Str("PENDING") && s != Str("REJECTED")
            ==> r == Chip(if Truthy(s) then ToText(s) else "Unknown", "default")
  {
    UnknownCodeShownRaw(s, StatusTable, "Unknown");
    CodeChip(s, StatusTable, "Unknown")
  }

  /** `selectedUser?.id` */
  function SelectedId(selected: Option<User>): (r: JsVal)
    ensures selected.None? ==> r == Undefined
  {
    match selected
    case Some(u) => u.id
    case None => Undefined
  }

  /** `users.filter(u => u.id !== selectedUser?.id)`: the rows whose id is
      not the selected id, in their order. */
  function ConfirmDelete(users: seq<User>, selected: Option<User>): (r: seq<User>)
    ensures forall k :: 0 <= k < |r| ==> r[k] in users && !StrictEquals(r[k].id, SelectedId(selected))
    ensures forall k :: 0 <= k < |users| && !StrictEquals(users[k].id, SelectedId(selected)) ==> users[k] in r
    ensures forall u: User :: !StrictEquals(u.id, SelectedId(selected)) ==> multiset(r)[u] == multiset(users)[u]
  {
    Lists.FilterCount(users, (u: User) => !StrictEquals(u.id, SelectedId(selected)));
    Lists.Filter(users, (u: User) => !StrictEquals(u.id, SelectedId(selected)))
  }

  /** The delete works on each part of the list in place, so the rows kept
      stay in their order. */
  lemma ConfirmDeleteAppend(a: seq<User>, b: seq<User>, selected: Option<User>)
    ensures ConfirmDelete(a + b, selected) == ConfirmDelete(a, selected) + ConfirmDelete(b, selected)
  {
    Lists.FilterAppend(a, b, (u: User) => !StrictEquals(u.id, SelectedId(selected)));
  }

  /** What the tab draws. */
  datatype View = Details(user: User) | ListView(deleteDialog: bool)

  /** As written: a selected user switches the whole tab to the details,
      and the delete dialog is drawn only with the list. */
  function ScreenAsWritten(selected: Option<User>, deleteDialogOpen: bool): (r: View)
    ensures r.ListView? <==> selected.None?
  {
    match selected
    case Some(u) => Details(u)
    case None => ListView(deleteDialogOpen)
  }

  /** As written, the delete dialog can be seen only once no user is
      selected, and then "Delete" removes no row that has an id: the click
      on the delete icon selects the user, which hides the dialog behind the
      details, and "Back" clears the selection before the dialog appears. */
  lemma DeleteAsWrittenRemovesNothing(users: seq<User>, selected: Option<User>, open: bool)
    requires ScreenAsWritten(selected, open) == ListView(true)
    requires forall k :: 0 <= k < |users| ==> !users[k].id.Undefined?
    ensures selected.None?
    ensures ConfirmDelete(users, selected) == users
  {
    Lists.FilterKeepsAll(users, (u: User) => !StrictEquals(u.id, SelectedId(selected)));
  }

  /** Right after the click on the delete icon of user `u`, the dialog is hidden. */
  lemma DeleteClickHidesDialog(u: User)
    ensures ScreenAsWritten(Some(u), true) == Details(u)
  {
  }

  /** The evident intent: while the delete dialog is open the list stays
      drawn under it, whether or not a user is selected. */
  function Shown(selected: Option<User>, deleteDialogOpen: bool): (r: View)
    ensures deleteDialogOpen ==> r == ListView(true)
    ensures !deleteDialogOpen ==> r == ScreenAsWritten(selected, false)
  {
    if deleteDialogOpen then ListView(true) else ScreenAsWritten(selected, false)
  }

  /** With the list kept under the dialog, the click on user `u`'s delete
      icon shows the dialog, and "Delete" then removes exactly the rows
      with `u`'s id, `u` among them unless its id is NaN. */
  lemma DeleteRemovesClickedUser(users: seq<User>, u: User)
    ensures Shown(Some(u), true) == ListView(true)
    ensures forall k :: 0 <= k < |ConfirmDelete(users, Some(u))| ==>
              !StrictEquals(ConfirmDelete(users, Some(u))[k].id, u.id)
    ensures !u.id.NaN? ==> u !in ConfirmDelete(users, Some(u))
  {
    if !u.id.NaN? {
      assert StrictEquals(u.id, u.id);
    }
  }

  /** The applications tab's state. */
  class UserTableView {
    var page: int
    var rowsPerPage: JsVal
    var orderBy: string
    var order: Order
    var users: seq<User>
    var totalElements: JsVal
    var error: Option<string>
    var selectedUser: Option<User>
    var deleteDialogOpen: bool

    /** The delete dialog is on screen, the list being kept under it. */
    predicate DeleteDialogShown()
      reads this
    {
      Shown(selectedUser, deleteDialogOpen) == ListView(true)
    }

    /** Page 0 of ten rows sorted by id ascending, nothing selected. */
    constructor ()
      ensures page == 0 && rowsPerPage == Int(10) && orderBy == "id" && order == Asc
      ensures users == [] && totalElements == Int(0) && error.None?
      ensures selectedUser.None? && !deleteDialogOpen
    {
      page, rowsPerPage, orderBy, order := 0, Int(10), "id", Asc;
      users, totalElements, error := [], Int(0), None;
      selectedUser, deleteDialogOpen := None, false;
    }

    /** `getUserData` with the outcome of the list request: the rows and the
        total of the body, and on failure an empty list with total 0. */
    method Load(response: Outcome<Option<UserPage>>)
      modifies this
      ensures response.Success? ==> users == UsersOf(response.value) && totalElements == TotalOf(response.value)
                                    && error.None?
      ensures response.Failure? ==> users == [] && totalElements == Int(0) && error == Some(LoadError)
      ensures page == old(page) && rowsPerPage == old(rowsPerPage) && orderBy == old(orderBy) && order == old(order)
      ensures selectedUser == old(selectedUser) && deleteDialogOpen == old(deleteDialogOpen)
    {
      error := None;
      match response
      case Success(res) =>
        users := UsersOf(res);
        totalElements := TotalOf(res);
      case Failure(_) =>
        error := Some(LoadError);
        users := [];
        totalElements := Int(0);
    }

    /** `handleSort`: a column that is not sortable changes nothing;
        otherwise the order toggles, the column becomes the sort key and the
        list goes back to page 0. */
    method HandleSort(columnId: string)
      modifies this
      ensures columnId !in SortableColumns ==> unchanged(this)
      ensures columnId in SortableColumns ==>
                order == NextOrder(old(orderBy), old(order), columnId) && orderBy == columnId && page == 0
      ensures rowsPerPage == old(rowsPerPage) && users == old(users) && totalElements == old(totalElements)
      ensures error == old(error) && selectedUser == old(selectedUser) && deleteDialogOpen == old(deleteDialogOpen)
    {
      if columnId !in SortableColumns {
        return;
      }
      order := NextOrder(orderBy, order, columnId);
      orderBy := columnId;
      page := 0;
    }

    /** `handleChangeRowsPerPage`: the size read with parseInt, and page 0. */
    method ChangeRowsPerPage(value: string)
      modifies this
      ensures rowsPerPage == (match ParseInt(value) case Some(n) => Int(n) case None => NaN) && page == 0
      ensures orderBy == old(orderBy) && order == old(order) && users == old(users)
      ensures totalElements == old(totalElements) && error == old(error)
      ensures selectedUser == old(selectedUser) && deleteDialogOpen == old(deleteDialogOpen)
    {
      rowsPerPage := match ParseInt(value) case Some(n) => Int(n) case None => NaN;
      page := 0;
    }

    /** `handleViewUser` */
    method View(u: User)
      modifies this
      ensures selectedUser == Some(u) && deleteDialogOpen == old(deleteDialogOpen)
      ensures page == old(page) && users == old(users) && orderBy == old(orderBy) && order == old(order)
      ensures rowsPerPage == old(rowsPerPage) && totalElements == old(totalElements) && error == old(error)
    {
      selectedUser := Some(u);
    }

    /** `handleBackToList` */
    method Back()
      modifies this
      ensures selectedUser.None? && deleteDialogOpen == old(deleteDialogOpen)
      ensures page == old(page) && users == old(users) && orderBy == old(orderBy) && order == old(order)
      ensures rowsPerPage == old(rowsPerPage) && totalElements == old(totalElements) && error == old(error)
    {
      selectedUser := None;
    }

    /** `handleDeleteClick`: the user is selected and the dialog opened. */
    method DeleteClick(u: User)
      modifies this
      ensures selectedUser == Some(u) && deleteDialogOpen && DeleteDialogShown()
      ensures page == old(page) && users == old(users) && orderBy == old(orderBy) && order == old(order)
      ensures rowsPerPage == old(rowsPerPage) && totalElements == old(totalElements) && error == old(error)
    {
      selectedUser := Some(u);
      deleteDialogOpen := true;
    }

    /** `handleDeleteCancel`: the dialog closes, the selection stays. */
    method DeleteCancel()
      modifies this
      ensures !deleteDialogOpen && selectedUser == old(selectedUser)
      ensures page == old(page) && users == old(users) && orderBy == old(orderBy) && order == old(order)
      ensures rowsPerPage == old(rowsPerPage) && totalElements == old(totalElements) && error == old(error)
    {
      deleteDialogOpen := false;
    }

    /** `handleDeleteConfirm`: the rows with the selected id leave the list
        (no request is made), the dialog closes and the selection is cleared. */
    method DeleteConfirm()
      modifies this
      ensures users == ConfirmDelete(old(users), old(selectedUser))
      ensures !deleteDialogOpen && selectedUser.None?
      ensures page == old(page) && orderBy == old(orderBy) && order == old(order)
      ensures rowsPerPage == old(rowsPerPage) && totalElements == old(totalElements) && error == old(error)
    {
      users := ConfirmDelete(users, selectedUser);
      deleteDialogOpen := false;
      selectedUser := None;
    }
  }
}
