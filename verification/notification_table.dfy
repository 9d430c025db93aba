/** The admin notification table: the status chip, the local keyword filter,
    the Excel column widths, the loop that gathers every page for the export,
    and the sort and page-size state of the table. */
module NotificationTable {
  import opened Text
  import opened Js
  import opened TableSort
  import Lists

  /** One notification row as the server sends it; every field may be missing. */
  datatype Notification = Notification(id: JsVal, name: JsVal, createdAt: JsVal, kind: JsVal,
                                       level: JsVal, email: JsVal, status: JsVal)

  // ---------------------------------------------------------------------------
  // Status chip

  datatype Chip = Chip(caption: string, color: string)

  /** `(v || '')` followed by a string method: the text, "" for a falsy value,
      and None for a truthy number, which has no such method (a TypeError that
      aborts the render). */
  function TextOrEmpty(v: JsVal): (r: Option<string>)
    ensures r.None? <==> v.Num? && Truthy(v)
    ensures v.Str? ==> r == Some(v.s)
    ensures !Truthy(v) ==> r == Some("")
  {
    match Or(v, Str(""))
    case Str(s) => Some(s)
    case _ => None
  }

  /** `(status || '').toUpperCase()`, None when it throws. */
  function StatusKey(status: JsVal): Option<string> {
    match TextOrEmpty(status)
    case Some(s) => Some(Upper(s))
    case None => None
  }

  /** `statusToChip`: SUCCESS and READ show as success, FAIL and ERROR as
      error, anything else (a missing status too) as pending; a truthy
      number makes the call throw. */
  function StatusToChip(status: JsVal): (r: Option<Chip>)
    ensures r.None? <==> status.Num? && Truthy(status)
    ensures status.Str? && Upper(status.s) in {"SUCCESS", "READ"} ==> r == Some(Chip("• Success", "success"))
    ensures status.Str? && Upper(status.s) in {"FAIL", "ERROR"} ==> r == Some(Chip("• Fail", "error"))
    ensures status.Str? && Upper(status.s) !in {"SUCCESS", "READ", "FAIL", "ERROR"} ==> r == Some(Chip("• Pending", "warning"))
    ensures !Truthy(status) ==> r == Some(Chip("• Pending", "warning"))
  {
    match StatusKey(status)
    case None => None
    case Some(s) =>
      if s == "SUCCESS" || s == "READ" then Some(Chip("• Success", "success"))
      else if s == "FAIL" || s == "ERROR" then Some(Chip("• Fail", "error"))
      else Some(Chip("• Pending", "warning"))
  }

  /** The chip does not depend on the case the status is written in. */
  lemma StatusChipIgnoresCase(s: string)
    ensures StatusToChip(Str(Lower(s))) == StatusToChip(Str(s))
    ensures StatusToChip(Str(Upper(s))) == StatusToChip(Str(s))
  {
    UpperIgnoresCase(s);
    assert |Lower(s)| == |s| && |Upper(s)| == |s|;
  }

  // ---------------------------------------------------------------------------
  // Local keyword filter

  /** The row test of `filteredData`: true for an empty keyword; otherwise
      whether the lower-cased name, and failing that the lower-cased e-mail,
      contains the lower-cased keyword. None when a field read throws; the
      e-mail is read only when the name does not match. */
  function RowTest(row: Notification, term: string): (r: Option<bool>)
    ensures term == [] ==> r == Some(true)
  {
    if term == [] then Some(true)
    else
      match TextOrEmpty(row.name)
      case None => None
      case Some(name) =>
        if Contains(Lower(name), Lower(term)) then Some(true)
        else
          match TextOrEmpty(row.email)
          case None => None
          case Some(email) => Some(Contains(Lower(email), Lower(term)))
  }

  predicate Matches(row: Notification, term: string) {
    RowTest(row, term) == Some(true)
  }

  predicate Throws(rows: seq<Notification>, term: string) {
    exists k :: 0 <= k < |rows| && RowTest(rows[k], term).None?
  }

  /** `filteredData`: the rows whose lower-cased name or email contains the
      lower-cased keyword, in their order; every row when the keyword is
      empty. None when the test throws on some row, which aborts the render. */
  function FilteredData(rows: seq<Notification>, term: string): (r: Option<seq<Notification>>)
    ensures r.None? ==> term != [] && exists k :: 0 <= k < |rows| && (TextOrEmpty(rows[k].name).None?
                                                                   || TextOrEmpty(rows[k].email).None?)
    ensures (forall k :: 0 <= k < |rows| ==> !rows[k].name.Num? && !rows[k].email.Num?) ==> r.Some?
    ensures r.Some? ==> |r.value| <= |rows|
    ensures r.Some? ==> forall k :: 0 <= k < |r.value| ==> r.value[k] in rows && Matches(r.value[k], term)
    ensures r.Some? ==> forall k :: 0 <= k < |rows| && Matches(rows[k], term) ==> rows[k] in r.value
    ensures term == [] ==> r == Some(rows)
  {
    if term == [] then
      Lists.FilterKeepsAll(rows, row => Matches(row, term));
      Some(Lists.Filter(rows, row => Matches(row, term)))
    else if Throws(rows, term) then None
    else Some(Lists.Filter(rows, row => Matches(row, term)))
  }

  /** Filtering a list made of two parts filters each part in place, so the
      rows kept stay in their order; the whole throws exactly when a part does. */
  lemma FilteredDataAppend(a: seq<Notification>, b: seq<Notification>, term: string)
    ensures FilteredData(a + b, term).None? <==> FilteredData(a, term).None? || FilteredData(b, term).None?
    ensures FilteredData(a + b, term).Some? ==>
              FilteredData(a + b, term).value == FilteredData(a, term).value + FilteredData(b, term).value
  {
    Lists.FilterAppend(a, b, row => Matches(row, term));
    if term != [] {
      if Throws(a, term) {
        var k :| 0 <= k < |a| && RowTest(a[k], term).None?;
        assert (a + b)[k] == a[k];
      }
      if Throws(b, term) {
        var k :| 0 <= k < |b| && RowTest(b[k], term).None?;
        assert (a + b)[|a| + k] == b[k];
      }
      if Throws(a + b, term) {
        var k :| 0 <= k < |a + b| && RowTest((a + b)[k], term).None?;
        if k < |a| { assert a[k] == (a + b)[k]; } else { assert b[k - |a|] == (a + b)[k]; }
      }
    }
  }

  /** A keyword typed in lower case finds the same rows as in any other case
      that lower-cases to it. */
  lemma FilteredDataLowerKeyword(rows: seq<Notification>, term: string)
    ensures FilteredData(rows, Lower(term)) == FilteredData(rows, term)
  {
    LowerIgnoresCase(term);
    assert |Lower(term)| == |term|;
    assert forall row :: RowTest(row, Lower(term)) == RowTest(row, term);
    Lists.FilterSameTest(rows, row => Matches(row, Lower(term)), row => Matches(row, term));
  }

  // ---------------------------------------------------------------------------
  // Excel export

  /** The header keys of the sheet, in the order the export row lists them. */
  const ExcelKeys: seq<string> := ["ID", "Name", "Email", "Level", "Type", "Status", "Time"]

  /** The text of each cell of one export row; `localTime` is the locale
      rendering of the row's creation time. */
  function ExcelCells(r: Notification, localTime: string): (cells: seq<string>)
    ensures |cells| == |ExcelKeys|
  {
    [ ToText(Coalesce(r.id, Str(""))), ToText(Or(r.name, Str(""))), ToText(Or(r.email, Str(""))),
      ToText(Coalesce(r.level, Str(""))), ToText(Or(r.kind, Str(""))), ToText(Or(r.status, Str(""))),
      if Truthy(r.createdAt) then localTime else "" ]
  }

  /** `String(row[key] ?? '')`: a key the row does not have reads as "". */
  function Cell(row: seq<string>, col: nat): string {
    if col < |row| then row[col] else ""
  }

  /** The longest text in column `col`, 0 for no rows. */
  function LongestCell(rows: seq<seq<string>>, col: nat): (m: nat)
    ensures forall k :: 0 <= k < |rows| ==> |Cell(rows[k], col)| <= m
    ensures m == 0 || exists k :: 0 <= k < |rows| && |Cell(rows[k], col)| == m
  {
    if rows == [] then 0
    else
      var rest := LongestCell(rows[1..], col);
      assert forall k :: 1 <= k < |rows| ==> rows[k] == rows[1..][k - 1];
      if |Cell(rows[0], col)| >= rest then |Cell(rows[0], col)| else rest
  }

  /** `Math.max(key.length, ...cell lengths)` */
  function MaxLen(key: string, rows: seq<seq<string>>, col: nat): (m: nat)
    ensures m >= |key| && forall k :: 0 <= k < |rows| ==> |Cell(rows[k], col)| <= m
    ensures m == |key| || exists k :: 0 <= k < |rows| && |Cell(rows[k], col)| == m
  {
    var longest := LongestCell(rows, col);
    if |key| >= longest then |key| else longest
  }

  /** `Math.min(Math.max(maxLen + 2, 8), 40)` */
  function Width(maxLen: nat): (w: int)
    ensures 8 <= w <= 40
    ensures maxLen + 2 <= 40 ==> w >= maxLen + 2
    ensures maxLen + 2 >= 8 ==> w <= maxLen + 2
    ensures maxLen + 2 < 8 ==> w == 8
    ensures maxLen + 2 > 40 ==> w == 40
  {
    var wide := if maxLen + 2 >= 8 then maxLen + 2 else 8;
    if wide <= 40 then wide else 40
  }

  /** The column widths of the sheet: one per key of the first row, or the
      single placeholder key "A" when there are no rows. */
  function ColumnWidths(rows: seq<seq<string>>): (r: seq<int>)
    ensures |r| == if rows == [] then 1 else |ExcelKeys|
    ensures forall c :: 0 <= c < |r| ==> 8 <= r[c] <= 40
  {
    var keys := if rows == [] then ["A"] else ExcelKeys;
    seq(|keys|, c requires 0 <= c < |keys| => Width(MaxLen(keys[c], rows, c)))
  }

  /** Every column is at least two wider than its header and than each of its
      cells, unless that would pass the cap of 40. */
  lemma ColumnsFitTheirText(rows: seq<seq<string>>, c: nat, k: nat)
    requires rows != [] && c < |ExcelKeys| && k < |rows|
    ensures ColumnWidths(rows)[c] >= if |ExcelKeys[c]| + 2 <= 40 then |ExcelKeys[c]| + 2 else 40
    ensures ColumnWidths(rows)[c] >= if |Cell(rows[k], c)| + 2 <= 40 then |Cell(rows[k], c)| + 2 else 40
  {
    var m := MaxLen(ExcelKeys[c], rows, c);
    assert ColumnWidths(rows)[c] == Width(m);
  }

  /** The widths written for an export of `all` rows. */
  function ExportWidths(all: seq<Notification>, localTime: seq<string>): (r: seq<int>)
    requires |localTime| == |all|
    ensures |r| == if all == [] then 1 else |ExcelKeys|
  {
    ColumnWidths(seq(|all|, k requires 0 <= k < |all| => ExcelCells(all[k], localTime[k])))
  }

  // ---------------------------------------------------------------------------
  // Gathering every page for the export

  /** The body of one page response: null, or a page whose `content` may be missing. */
  datatype PageBody = NullBody | Body(content: Option<seq<Notification>>, last: bool)

  /** What `data.last` raises on a null body. */
  const NullBodyMessage := "Cannot read properties of null (reading 'last')"

  /** The size of each page requested for the export. */
  const ExportPageSize := 200

  /** The answer to the loop's i-th request, read as the page `i` that the
      request is meant to ask for; the server answers every page past the
      ones it holds with an empty page. As written the page query is never
      sent (see AsWrittenAnswer). */
  function Response(server: seq<Outcome<PageBody>>, i: nat): Outcome<PageBody> {
    if i < |server| then server[i] else Success(Body(Some([]), false))
  }

  function Prepend(rows: seq<Notification>, rest: Outcome<seq<Notification>>): Outcome<seq<Notification>> {
    match rest
    case Success(more) => Success(rows + more)
    case Failure(m) => Failure(m)
  }

  lemma PrependEmpty(rest: Outcome<seq<Notification>>)
    ensures Prepend([], rest) == rest
  {
    if rest.Success? {
      assert [] + rest.value == rest.value;
    }
  }

  lemma PrependTwice(a: seq<Notification>, c: seq<Notification>, rest: Outcome<seq<Notification>>)
    ensures Prepend(a, Prepend(c, rest)) == Prepend(a + c, rest)
  {
    if rest.Success? {
      assert a + (c + rest.value) == (a + c) + rest.value;
    }
  }

  /** What the loop returns when it starts at page `i`. */
  function Gathered(server: seq<Outcome<PageBody>>, i: nat): Outcome<seq<Notification>>
    decreases |server| - i
  {
    match Response(server, i)
    case Failure(m) => Failure(m)
    case Success(NullBody) => Failure(NullBodyMessage)
    case Success(Body(content, last)) =>
      var c := content.GetOr([]);
      if last || c == [] then Success(c) else Prepend(c, Gathered(server, i + 1))
  }

  /** Where the loop stands after one iteration: still running with the
      rows gathered so far, or finished with the export's result. */
  datatype LoopState = Running(all: seq<Notification>) | Finished(result: Outcome<seq<Notification>>)

  /** An answer that ends the loop: a failure, a null body, a page marked
      last, or a page without rows. */
  predicate EndsLoop(answer: Outcome<PageBody>) {
    match answer
    case Failure(_) => true
    case Success(NullBody) => true
    case Success(Body(content, last)) => last || content.GetOr([]) == []
  }

  /** One iteration of the loop body, given the rows so far and the answer
      to this iteration's request: `data?.content || []` is appended, and
      the loop stops on `data.last === true` or an empty page; a failed
      request or a null body (reading `last`) ends it with an error. */
  function Step(all: seq<Notification>, data: Outcome<PageBody>): (r: LoopState)
    ensures r.Running? <==> !EndsLoop(data)
    ensures r.Running? ==> r.all == all + data.value.content.GetOr([])
    ensures data.Failure? ==> r == Finished(Failure(data.message))
    ensures data == Success(NullBody) ==> r == Finished(Failure(NullBodyMessage))
    ensures data.Success? && data.value.Body? && EndsLoop(data) ==>
              r == Finished(Success(all + data.value.content.GetOr([])))
  {
    match data
    case Failure(m) => Finished(Failure(m))
    case Success(NullBody) => Finished(Failure(NullBodyMessage))
    case Success(Body(content, last)) =>
      var c := content.GetOr([]);
      if last || c == [] then Finished(Success(all + c)) else Running(all + c)
  }

  /** `fetchAllNotifications` as it is meant to work: the i-th request gets
      page `i`, and the rows are concatenated until a page says it is the
      last or comes back empty; a failed request ends the export with its
      error. */
  method FetchAll(server: seq<Outcome<PageBody>>) returns (r: Outcome<seq<Notification>>)
    ensures r == Gathered(server, 0)
  {
    var pageIndex: nat := 0;
    var all: seq<Notification> := [];
    PrependEmpty(Gathered(server, 0));
    while true
      invariant Gathered(server, 0) == Prepend(all, Gathered(server, pageIndex))
      decreases |server| - pageIndex
    {
      var data := Response(server, pageIndex);
      match Step(all, data) {
        case Finished(result) =>
          return result;
        case Running(next) =>
          PrependTwice(all, data.value.content.GetOr([]), Gathered(server, pageIndex + 1));
          all := next;
          pageIndex := pageIndex + 1;
      }
    }
  }

  /** As written, `api.get(path, opts)` passes on only the method, body,
      headers, token and timeout of `opts`, so the page, size, type and sort
      never reach the server: the i-th request is the first one again, and
      an unchanged server gives it the first answer again. */
  function AsWrittenAnswer(first: Outcome<PageBody>, i: nat): Outcome<PageBody> {
    first
  }

  /** The loop as written, run for at most `fuel` iterations from iteration
      `i` with the rows `all`: each iteration takes the same Step as
      FetchAll, on the answer the as-written request gets. */
  function AsWrittenRun(first: Outcome<PageBody>, all: seq<Notification>, i: nat, fuel: nat): LoopState
    decreases fuel
  {
    if fuel == 0 then Running(all)
    else match Step(all, AsWrittenAnswer(first, i))
         case Finished(result) => Finished(result)
         case Running(next) => AsWrittenRun(first, next, i + 1, fuel - 1)
  }

  /** `n` copies of the rows `c`, one after the other. */
  function Repeat(c: seq<Notification>, n: nat): seq<Notification> {
    if n == 0 then [] else c + Repeat(c, n - 1)
  }

  /** As written, a first answer with rows that is not marked last never
      ends the loop: after any number of iterations it is still running,
      holding one more copy of the same rows per iteration. */
  lemma {:induction false} ConstantAnswerNeverEnds(c: seq<Notification>, all: seq<Notification>, i: nat, n: nat)
    requires c != []
    ensures AsWrittenRun(Success(Body(Some(c), false)), all, i, n) == Running(all + Repeat(c, n))
    ensures |Repeat(c, n)| == n * |c| >= n
    decreases n
  {
    if n > 0 {
      var first := Success(Body(Some(c), false));
      assert Step(all, AsWrittenAnswer(first, i)) == Running(all + c);
      ConstantAnswerNeverEnds(c, all + c, i + 1, n - 1);
      assert (all + c) + Repeat(c, n - 1) == all + Repeat(c, n);
    }
  }

  /** Page `j` is a full page that is not the last, so the loop goes on past it. */
  predicate Continues(server: seq<Outcome<PageBody>>, j: nat) {
    Response(server, j).Success? && Response(server, j).value.Body?
    && !Response(server, j).value.last && Response(server, j).value.content.GetOr([]) != []
  }

  /** Page `k` ends the loop: it says it is the last or it is empty. */
  predicate Stops(server: seq<Outcome<PageBody>>, k: nat) {
    Response(server, k).Success? && Response(server, k).value.Body?
    && (Response(server, k).value.last || Response(server, k).value.content.GetOr([]) == [])
  }

  function PageRows(server: seq<Outcome<PageBody>>, j: nat): seq<Notification> {
    match Response(server, j)
    case Success(Body(content, _)) => content.GetOr([])
    case _ => []
  }

  /** The rows of pages i..k, in page order. */
  function PagesFrom(server: seq<Outcome<PageBody>>, i: nat, k: nat): seq<Notification>
    requires i <= k
    decreases k - i
  {
    if i == k then PageRows(server, k) else PageRows(server, i) + PagesFrom(server, i + 1, k)
  }

  /** When pages 0..k-1 all continue and page k stops, the export gets the
      rows of pages 0..k concatenated in page order. */
  lemma GatheredIsConcatenation(server: seq<Outcome<PageBody>>, k: nat)
    requires forall j :: 0 <= j < k ==> Continues(server, j)
    requires Stops(server, k)
    ensures Gathered(server, 0) == Success(PagesFrom(server, 0, k))
  {
    GatheredFrom(server, 0, k);
  }

  lemma {:induction false} GatheredFrom(server: seq<Outcome<PageBody>>, i: nat, k: nat)
    requires i <= k
    requires forall j :: i <= j < k ==> Continues(server, j)
    requires Stops(server, k)
    ensures Gathered(server, i) == Success(PagesFrom(server, i, k))
    decreases k - i
  {
    if i < k {
      GatheredFrom(server, i + 1, k);
      assert Continues(server, i);
      assert Gathered(server, i) == Prepend(PageRows(server, i), Gathered(server, i + 1));
    } else {
      assert Gathered(server, i) == Success(PageRows(server, i));
    }
  }

  /** A request that fails before the last page ends the export with that
      request's error. */
  lemma {:induction false} GatheredFailure(server: seq<Outcome<PageBody>>, i: nat, k: nat)
    requires i <= k
    requires forall j :: i <= j < k ==> Continues(server, j)
    requires Response(server, k).Failure?
    ensures Gathered(server, i) == Failure(Response(server, k).message)
    decreases k - i
  {
    if i < k {
      GatheredFailure(server, i + 1, k);
      assert Continues(server, i);
      assert Gathered(server, i) == Prepend(PageRows(server, i), Gathered(server, i + 1));
    }
  }

  /** The text shown when the export fails. */
  function ExportError(r: Outcome<seq<Notification>>): (e: Option<string>)
    ensures r.Failure? <==> e.Some?
    ensures r.Failure? ==> e.value == "Export failed: " + r.message
  {
    match r
    case Success(_) => None
    case Failure(m) => Some("Export failed: " + m)
  }

  // ---------------------------------------------------------------------------
  // Table state

  /** The column ids of the table; each of them is sortable. */
  const SortableColumns: seq<string> := ["id", "name", "createdAt", "type", "level", "email", "status"]

  /** The sort and paging state of the notification table. */
  class NotificationTableState {
    var page: int
    var rowsPerPage: JsVal
    var orderBy: string
    var order: Order

    /** The table opens on page 0, 10 rows a page, newest first. */
    constructor ()
      ensures page == 0 && rowsPerPage == Int(10) && orderBy == "createdAt" && order == Desc
    {
      page := 0;
      rowsPerPage := Int(10);
      orderBy := "createdAt";
      order := Desc;
    }

    /** `handleSort`: a column that is not sortable changes nothing; otherwise
        the order toggles and the column becomes the sort key. The page stays. */
    method HandleSort(columnId: string)
      modifies this
      ensures columnId !in SortableColumns ==> unchanged(this)
      ensures columnId in SortableColumns ==>
                order == NextOrder(old(orderBy), old(order), columnId) && orderBy == columnId
                && page == old(page) && rowsPerPage == old(rowsPerPage)
    {
      if columnId !in SortableColumns {
        return;
      }
      order := NextOrder(orderBy, order, columnId);
      orderBy := columnId;
    }

    /** `handleChangeRowsPerPage`: the chosen size, read with parseInt, and back to page 0. */
    method ChangeRowsPerPage(value: string)
      modifies this
      ensures page == 0
      ensures rowsPerPage == match ParseInt(value) case Some(n) => Int(n) case None => NaN
      ensures orderBy == old(orderBy) && order == old(order)
    {
      var newSize := match ParseInt(value) case Some(n) => Int(n) case None => NaN;
      rowsPerPage := newSize;
      page := 0;
    }
  }
}
