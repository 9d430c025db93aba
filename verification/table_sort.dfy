/** Rules shared by the admin tables: the asc/desc toggle of a column header
    and the enabling of a reject confirmation that needs a reason. */
module TableSort {
  import opened Text

  datatype Order = Asc | Desc

  /** `orderBy === column && order === 'asc' ? 'desc' : 'asc'`. */
  function NextOrder(orderBy: string, order: Order, column: string): (r: Order)
    ensures r == Desc <==> orderBy == column && order == Asc
  {
    if orderBy == column && order == Asc then Desc else Asc
  }

  /** Clicking the same header again always flips the order, so clicks on one
      column alternate between asc and desc. */
  lemma SameColumnAlternates(orderBy: string, order: Order, column: string)
    ensures var first := NextOrder(orderBy, order, column);
      NextOrder(column, first, column) != first
  {
  }

  /** A reject confirmation button: disabled while the reason trims to
      nothing or a submission is in flight. */
  predicate RejectConfirmEnabled(reason: string, submitting: bool) {
    !IsBlank(reason) && !submitting
  }

  /** Padding the reason with white space never changes whether it may be sent. */
  lemma RejectIgnoresPadding(reason: string, pad: string, submitting: bool)
    requires AllSpace(pad)
    ensures RejectConfirmEnabled(pad + reason + pad, submitting) == RejectConfirmEnabled(reason, submitting)
  {
    BlankIffAllSpace(reason);
    BlankIffAllSpace(pad + reason + pad);
    var s := pad + reason + pad;
    if AllSpace(s) {
      assert forall k :: 0 <= k < |reason| ==> reason[k] == s[|pad| + k];
    }
  }
}
