/** The admin side of the question-and-answer chat: the inbox list with its
    To-do and History tabs and simple paging, and the thread view from which
    an admin replies. Server responses arrive as parameters. */
module AdminChat {
  import opened Text
  import opened Js

  // ---------------------------------------------------------------------------
  // Inbox list

  /** One question in the inbox list. */
  datatype ThreadSummary = ThreadSummary(id: JsVal, authorUserId: JsVal, content: JsVal)

  /** The page record the list renders. */
  datatype ThreadPage = ThreadPage(content: seq<ThreadSummary>, totalPages: int, totalElements: int, number: int)

  /** What the list endpoint may answer: a bare array, a page record, or nothing. */
  datatype ListResponse = ArrayOf(items: seq<ThreadSummary>) | PageOf(page: ThreadPage) | NoBody

  datatype Tab = Todo | History

  /** `size` */
  const PageSize := 20

  /** The list endpoint of each tab. */
  function TabPath(t: Tab): (path: string)
    ensures |path| > 16
  {
    if t == Todo then "/messages/admin/todo" else "/messages/admin/history"
  }

  /** The query of `load(p, t)`: the page and the fixed size. */
  function PageQuery(p: int): string {
    "?page=" + IntText(p) + "&size=" + IntText(PageSize)
  }

  /** The request URL of `load(p, t)`. */
  function ListUrl(t: Tab, p: int): (url: string) {
    TabPath(t) + PageQuery(p)
  }

  /** Different tabs or pages are always different requests. */
  lemma ListUrlInjective(t1: Tab, p1: int, t2: Tab, p2: int)
    requires ListUrl(t1, p1) == ListUrl(t2, p2)
    ensures t1 == t2 && p1 == p2
  {
    TabLetter(t1, p1);
    TabLetter(t2, p2);
    PrefixCancels(TabPath(t1), PageQuery(p1), PageQuery(p2));
    PageQueryInjective(p1, p2);
  }

  /** The 17th character of a list URL tells the tabs apart. */
  lemma TabLetter(t: Tab, p: int)
    ensures |ListUrl(t, p)| > 16 && ListUrl(t, p)[16] == if t == Todo then 't' else 'h'
  {
    assert ListUrl(t, p)[16] == TabPath(t)[16];
  }

  lemma PrefixCancels(pre: string, x: string, y: string)
    requires pre + x == pre + y
    ensures x == y
  {
    assert (pre + x)[|pre|..] == x;
    assert (pre + y)[|pre|..] == y;
  }

  lemma PageQueryInjective(p1: int, p2: int)
    requires PageQuery(p1) == PageQuery(p2)
    ensures p1 == p2
  {
    var post := "&size=" + IntText(PageSize);
    assert PageQuery(p1) == "?page=" + IntText(p1) + post;
    assert PageQuery(p2) == "?page=" + IntText(p2) + post;
    MiddleOf("?page=", IntText(p1), IntText(p2), post);
    IntTextInjective(p1, p2);
  }

  lemma MiddleOf(pre: string, x: string, y: string, post: string)
    requires pre + x + post == pre + y + post
    ensures x == y
  {
    var u := pre + x + post;
    assert u[|pre|..|u| - |post|] == x;
    assert (pre + y + post)[|pre|..|u| - |post|] == y;
  }

  lemma IntTextInjective(a: int, b: int)
    requires IntText(a) == IntText(b)
    ensures a == b
  {
  }

  /** The normalisation in `load`: a bare array becomes a single page holding
      it, a page record is kept as it is, and no body becomes an empty page. */
  function Normalize(res: ListResponse, p: int): (r: ThreadPage)
    ensures res.ArrayOf? ==> r == ThreadPage(res.items, 1, |res.items|, p)
    ensures res.PageOf? ==> r == res.page
    ensures res.NoBody? ==> r.content == [] && r.totalPages == 0 && r.totalElements == 0 && r.number == p
  {
    match res
    case ArrayOf(items) => ThreadPage(items, 1, |items|, p)
    case PageOf(page) => page
    case NoBody => ThreadPage([], 0, 0, p)
  }

  /** The paging row is shown only when there is more than one page. */
  predicate PagingShown(totalPages: int) {
    totalPages > 1
  }

  /** "last page" is enabled unless the page is the first. */
  predicate PrevEnabled(page: int) {
    !(page <= 0)
  }

  /** "next page" is enabled unless the page is the last. */
  predicate NextEnabled(page: int, totalPages: int) {
    !(page >= totalPages - 1)
  }

  /** The inbox: the current tab, the last page loaded, the page number and
      the thread opened on the right. */
  class AdminInbox {
    var tab: Tab
    var threads: Option<ThreadPage>
    var page: int
    var activeThreadId: JsVal
    var error: Option<string>

    ghost predicate Valid()
      reads this
    {
      page >= 0
    }

    constructor ()
      ensures Valid()
      ensures tab == Todo && threads == None && page == 0 && activeThreadId == Null && error == None
    {
      tab := Todo;
      threads := None;
      page := 0;
      activeThreadId := Null;
      error := None;
    }

    /** The list `threads?.content ?? []`. */
    function ContentList(): (r: seq<ThreadSummary>)
      reads this
      ensures threads.None? ==> r == []
    {
      match threads
      case Some(t) => t.content
      case None => []
    }

    /** `load(p, t)`: request the page, then keep its normalised record and
        its number, or keep the error. */
    method Load(p: int, t: Tab, response: Outcome<ListResponse>) returns (url: string)
      modifies this
      ensures url == ListUrl(t, p)
      ensures response.Success? ==> threads == Some(Normalize(response.value, p)) && page == p && error == None
      ensures response.Failure? ==> threads == old(threads) && page == old(page) && error == Some(response.message)
      ensures tab == old(tab) && activeThreadId == old(activeThreadId)
      ensures old(Valid()) && p >= 0 ==> Valid()
    {
      url := ListUrl(t, p);
      error := None;
      match response {
        case Success(res) =>
          threads := Some(Normalize(res, p));
          page := p;
        case Failure(m) =>
          error := Some(m);
      }
    }

    /** The To-do and History buttons: switch tab, close the open thread and
        load page 0 of the new tab. The button of the tab already shown is
        disabled. */
    method SwitchTab(t: Tab, response: Outcome<ListResponse>) returns (url: Option<string>)
      modifies this
      ensures url.None? <==> old(tab) == t
      ensures url.None? ==> unchanged(this)
      ensures url.Some? ==> url.value == ListUrl(t, 0) && tab == t && activeThreadId == Null
      ensures url.Some? && response.Success? ==> page == 0 && threads == Some(Normalize(response.value, 0))
                                                 && error == None
      ensures url.Some? && response.Failure? ==> page == old(page) && threads == old(threads)
                                                 && error == Some(response.message)
      ensures old(Valid()) ==> Valid()
    {
      if tab == t {
        return None;
      }
      tab := t;
      activeThreadId := Null;
      var u := Load(0, t, response);
      url := Some(u);
    }

    /** "last page": loads the previous page of the current tab; a disabled
        button does nothing. */
    method PrevPage(response: Outcome<ListResponse>) returns (url: Option<string>)
      requires Valid()
      modifies this
      ensures Valid()
      ensures !(old(threads).Some? && PagingShown(old(threads).value.totalPages) && PrevEnabled(old(page)))
              ==> url == None && unchanged(this)
      ensures old(threads).Some? && PagingShown(old(threads).value.totalPages) && PrevEnabled(old(page))
              ==> url == Some(ListUrl(old(tab), old(page) - 1)) && 0 <= old(page) - 1
      ensures url.Some? && response.Success? ==> threads == Some(Normalize(response.value, old(page) - 1))
                                                 && page == old(page) - 1 && error == None
      ensures url.Some? && response.Failure? ==> threads == old(threads) && page == old(page)
                                                 && error == Some(response.message)
      ensures tab == old(tab) && activeThreadId == old(activeThreadId)
    {
      if threads.Some? && PagingShown(threads.value.totalPages) && PrevEnabled(page) {
        var u := Load(page - 1, tab, response);
        url := Some(u);
      } else {
        url := None;
      }
    }

    /** "next page": loads the following page of the current tab; a disabled
        button does nothing. */
    method NextPage(response: Outcome<ListResponse>) returns (url: Option<string>)
      requires Valid()
      modifies this
      ensures Valid()
      ensures !(old(threads).Some? && PagingShown(old(threads).value.totalPages)
                && NextEnabled(old(page), old(threads).value.totalPages))
              ==> url == None && unchanged(this)
      ensures old(threads).Some? && PagingShown(old(threads).value.totalPages)
              && NextEnabled(old(page), old(threads).value.totalPages)
              ==> url == Some(ListUrl(old(tab), old(page) + 1))
                  && 0 <= old(page) + 1 <= old(threads).value.totalPages - 1
      ensures url.Some? && response.Success? ==> threads == Some(Normalize(response.value, old(page) + 1))
                                                 && page == old(page) + 1 && error == None
      ensures url.Some? && response.Failure? ==> threads == old(threads) && page == old(page)
                                                 && error == Some(response.message)
      ensures tab == old(tab) && activeThreadId == old(activeThreadId)
    {
      if threads.Some? && PagingShown(threads.value.totalPages) && NextEnabled(page, threads.value.totalPages) {
        var u := Load(page + 1, tab, response);
        url := Some(u);
      } else {
        url := None;
      }
    }

    /** A click on a question opens it on the right. */
    method OpenThread(id: JsVal)
      modifies this
      ensures activeThreadId == id
      ensures tab == old(tab) && threads == old(threads) && page == old(page) && error == old(error)
    {
      activeThreadId := id;
    }

    /** The Back button of the open thread (`onBack`): the thread is closed
        and the list is shown alone. */
    method CloseThread()
      modifies this
      ensures activeThreadId == Null && !ChatShown()
      ensures tab == old(tab) && threads == old(threads) && page == old(page) && error == old(error)
    {
      activeThreadId := Null;
    }

    /** The thread view is shown only for a truthy thread id. */
    predicate ChatShown()
      reads this
    {
      Truthy(activeThreadId)
    }
  }

  // ---------------------------------------------------------------------------
  // Thread view

  /** One message of a thread. */
  datatype Message = Message(id: JsVal, authorRole: JsVal, content: JsVal)

  /** What the thread endpoint may answer. */
  datatype ThreadResponse = MessagesOf(items: seq<Message>) | ObjectOf(content: Option<seq<Message>>) | NoThread

  /** `Array.isArray(res) ? res : res?.content ?? []` */
  function ThreadFrom(res: ThreadResponse): (r: seq<Message>)
    ensures res.MessagesOf? ==> r == res.items
    ensures res.ObjectOf? && res.content.Some? ==> r == res.content.value
    ensures (res.ObjectOf? && res.content.None?) || res.NoThread? ==> r == []
  {
    match res
    case MessagesOf(items) => items
    case ObjectOf(content) => content.GetOr([])
    case NoThread => []
  }

  /** The body of `POST /messages/{threadId}/replies`. */
  datatype Reply = Reply(parentId: JsVal, authorUserId: JsVal, authorRole: string, content: string, kind: string)

  /** The reply `send` posts: none when the text is blank, there is no
      current user or the thread has no messages; otherwise a TEXT reply to
      the last message loaded, with the text as typed. */
  function ReplyFor(messages: seq<Message>, text: string, currentUserId: JsVal, authorRole: string): (r: Option<Reply>)
    ensures r.None? <==> AllSpace(text) || !Truthy(currentUserId) || messages == []
    ensures r.Some? ==> r.value.parentId == messages[|messages| - 1].id
                        && r.value.content == text && r.value.kind == "TEXT"
                        && r.value.authorUserId == currentUserId && r.value.authorRole == authorRole
  {
    BlankIffAllSpace(text);
    if IsBlank(text) || !Truthy(currentUserId) || |messages| == 0 then None
    else
      var last := messages[|messages| - 1];
      Some(Reply(last.id, currentUserId, authorRole, text, "TEXT"))
  }

  /** Once a new message has been loaded at the end of the thread, the next
      reply answers it. */
  lemma ReplyAnswersNewest(messages: seq<Message>, m: Message, text: string, currentUserId: JsVal, authorRole: string)
    requires !AllSpace(text) && Truthy(currentUserId)
    ensures ReplyFor(messages + [m], text, currentUserId, authorRole).Some?
    ensures ReplyFor(messages + [m], text, currentUserId, authorRole).value.parentId == m.id
  {
  }

  /** The role a thread view replies as: ADMIN unless one is given. */
  function RoleOrAdmin(authorRole: Option<string>): (r: string)
    ensures authorRole.None? ==> r == "ADMIN"
    ensures authorRole.Some? ==> r == authorRole.value
  {
    authorRole.GetOr("ADMIN")
  }

  /** The thread view of one question. */
  class ChatView {
    const threadId: JsVal
    const currentUserId: JsVal
    const authorRole: string
    var messages: seq<Message>
    var text: string
    var error: Option<string>

    constructor (threadId: JsVal, currentUserId: JsVal, authorRole: Option<string>)
      ensures this.threadId == threadId && this.currentUserId == currentUserId
      ensures this.authorRole == RoleOrAdmin(authorRole)
      ensures messages == [] && text == "" && error == None
    {
      this.threadId := threadId;
      this.currentUserId := currentUserId;
      this.authorRole := RoleOrAdmin(authorRole);
      messages := [];
      text := "";
      error := None;
    }

    /** `loadThread`: nothing without a thread id; otherwise the messages
        the server returns, or its error. */
    method LoadThread(response: Outcome<ThreadResponse>)
      modifies this
      ensures !Truthy(threadId) ==> unchanged(this)
      ensures Truthy(threadId) && response.Success? ==> messages == ThreadFrom(response.value) && error == None
      ensures Truthy(threadId) && response.Failure? ==> messages == old(messages) && error == Some(response.message)
      ensures text == old(text)
    {
      if !Truthy(threadId) {
        return;
      }
      error := None;
      match response {
        case Success(res) => messages := ThreadFrom(res);
        case Failure(m) => error := Some(m);
      }
    }

    /** `send`: post the reply when the guard lets it through; on success
        clear the input and reload the thread, whose own failure shows as
        the error line. */
    method Send(post: Outcome<JsVal>, reload: Outcome<ThreadResponse>) returns (posted: Option<Reply>)
      modifies this
      ensures posted == ReplyFor(old(messages), old(text), currentUserId, authorRole)
      ensures posted.None? ==> unchanged(this)
      ensures posted.Some? && post.Success? ==> text == ""
      ensures posted.Some? && post.Success? && !Truthy(threadId) ==> messages == old(messages) && error == None
      ensures posted.Some? && post.Success? && Truthy(threadId) && reload.Success?
              ==> messages == ThreadFrom(reload.value) && error == None
      ensures posted.Some? && post.Success? && Truthy(threadId) && reload.Failure?
              ==> messages == old(messages) && error == Some(reload.message)
      ensures posted.Some? && post.Failure? ==> text == old(text) && messages == old(messages)
                                                && error == Some(post.message)
    {
      posted := ReplyFor(messages, text, currentUserId, authorRole);
      if posted.None? {
        return;
      }
      error := None;
      match post {
        case Success(_) =>
          text := "";
          LoadThread(reload);
        case Failure(m) =>
          error := Some(m);
      }
    }
  }
}
