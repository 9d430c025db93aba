/** The member side of the question-and-answer chat: the list of the member's
    questions with their previews, asking a question, replying in a thread,
    passing the questions on to an admin, and the toast that reports the
    outcome. Server responses arrive as parameters. */
module UserChat {
  import opened Text
  import opened Js

  /** How a request ends: with a value, with the API client's error (a code
      and a message), or with any other exception. */
  datatype ApiResult<+T> = Done(value: T) | ApiFailure(code: JsVal, message: string) | OtherFailure

  /** One of the member's questions. */
  datatype Thread = Thread(id: JsVal, content: JsVal, sentToAdmin: JsVal)

  /** One message of a thread. */
  datatype Message = Message(id: JsVal, authorRole: JsVal, content: JsVal)

  /** The body of the question-list response; null when there is none. */
  datatype ThreadsBody = NullThreads | ThreadList(content: Option<seq<Thread>>)

  // ---------------------------------------------------------------------------
  // What the page shows

  /** The preview line of a question: its first 50 characters and "..." when
      it is longer, otherwise the content itself, or "No content". */
  function Preview(content: JsVal): (r: string)
    ensures content.Str? && |content.s| > 50 ==> r == content.s[..50] + "..."
    ensures content.Str? && 0 < |content.s| <= 50 ==> r == content.s
    ensures !Truthy(content) ==> r == "No content"
  {
    match content
    case Str(s) => if |s| > 50 then s[..50] + "..." else if s != [] then s else "No content"
    case _ => if Truthy(content) then ToText(content) else "No content"
  }

  /** A text preview is never longer than 53 characters and starts with the
      text's own beginning. */
  lemma PreviewOfText(s: string)
    requires s != []
    ensures |Preview(Str(s))| <= if |s| > 50 then 53 else |s|
    ensures var n := if |s| > 50 then 50 else |s|; Preview(Str(s))[..n] == s[..n]
  {
  }

  /** A message is drawn on the right exactly when the member wrote it. */
  predicate RightAligned(m: Message) {
    m.authorRole == Str("USER")
  }

  /** "REACH ADMIN ONLINE" is disabled while sending and while there are no questions. */
  predicate ReachAdminDisabled(sending: bool, threads: seq<Thread>) {
    sending || |threads| == 0
  }

  /** The toast is green exactly when its text contains "successfully". */
  function ToastSeverity(text: string): (r: string)
    ensures r == "success" <==> Contains(text, "successfully")
    ensures r == "error" <==> !Contains(text, "successfully")
  {
    if Contains(text, "successfully") then "success" else "error"
  }

  /** The text shown once the questions have been passed on. */
  const SentToAdminText := "Questions sent to admin " + "successfully" + "! Admin will reply soon."

  /** `what + ": " + message` for an API error, `what` alone for any other failure. */
  function FailureText<T>(what: string, f: ApiResult<T>): string
    requires !f.Done?
  {
    if f.ApiFailure? then what + ": " + f.message else what
  }

  /** The failure text of submitQuestion, which also shows the error code. */
  function SubmitFailureText<T>(f: ApiResult<T>): string
    requires !f.Done?
  {
    if f.ApiFailure? then "Failed to submit question (" + ToText(f.code) + "): " + f.message
    else "Failed to submit question"
  }

  /** The toast of a successful hand-over is green. */
  lemma SentToAdminToastIsGreen()
    ensures ToastSeverity(SentToAdminText) == "success"
  {
    ContainsInfix("Questions sent to admin ", "successfully", "! Admin will reply soon.");
  }

  /** The toast of every failure is red, as long as the server's own code
      and message do not say "successfully". */
  lemma FailureToastsAreRed<T>(f: ApiResult<T>)
    requires !f.Done?
    requires f.ApiFailure? ==> !Contains(f.message, "successfully") && !Contains(ToText(f.code), "successfully")
    ensures ToastSeverity(FailureText("Failed to load questions", f)) == "error"
    ensures ToastSeverity(FailureText("Failed to load messages", f)) == "error"
    ensures ToastSeverity(FailureText("Failed to send reply", f)) == "error"
    ensures ToastSeverity(FailureText("Failed to send to admin", f)) == "error"
    ensures ToastSeverity(SubmitFailureText(f)) == "error"
  {
    FailureTextClean("Failed to load questions", f);
    FailureTextClean("Failed to load messages", f);
    FailureTextClean("Failed to send reply", f);
    FailureTextClean("Failed to send to admin", f);
    SubmitFailureTextClean(f);
  }

  lemma SubmitFailureTextClean<T>(f: ApiResult<T>)
    requires !f.Done?
    requires f.ApiFailure? ==> !Contains(f.message, "successfully") && !Contains(ToText(f.code), "successfully")
    ensures !Contains(SubmitFailureText(f), "successfully")
  {
    var sub := "successfully";
    var head := "Failed to submit question";
    assert 'c' !in head;
    LacksLetter(head, sub, 2);
    if f.ApiFailure? {
      var open, close := head + " (", "): ";
      assert 'c' !in open && 'c' !in close;
      LacksLetter(open, sub, 2);
      LacksLetter(close, sub, 2);
      assert '(' !in sub && ')' !in sub && ' ' !in sub;
      NotAcross(open, ToText(f.code), sub);
      NotAcross(open + ToText(f.code), close, sub);
      NotAcross(open + ToText(f.code) + close, f.message, sub);
      assert SubmitFailureText(f) == open + ToText(f.code) + close + f.message;
    }
  }

  lemma FailureTextClean<T>(what: string, f: ApiResult<T>)
    requires !f.Done? && 'c' !in what
    requires f.ApiFailure? ==> !Contains(f.message, "successfully")
    ensures !Contains(FailureText(what, f), "successfully")
  {
    var sub := "successfully";
    LacksLetter(what, sub, 2);
    if f.ApiFailure? {
      assert 'c' !in what + ": ";
      LacksLetter(what + ": ", sub, 2);
      assert ' ' !in sub;
      NotAcross(what + ": ", f.message, sub);
    }
  }

  /** A text lacking one of the letters of `sub` does not contain `sub`. */
  lemma LacksLetter(p: string, sub: string, i: nat)
    requires i < |sub| && sub[i] !in p
    ensures !Contains(p, sub)
  {
  }

  /** Neither part contains `sub`, and one of the two characters at the
      joint is not in `sub`, so no occurrence can straddle the joint either. */
  lemma NotAcross(p: string, m: string, sub: string)
    requires !Contains(p, sub) && !Contains(m, sub)
    requires (p != [] && p[|p| - 1] !in sub) || (m != [] && m[0] !in sub)
    ensures !Contains(p + m, sub)
  {
    var s := p + m;
    if Contains(s, sub) {
      var i :| 0 <= i <= |s| && OccursAt(s, sub, i);
      if i + |sub| <= |p| {
        assert p[i..i + |sub|] == s[i..i + |sub|];
        assert OccursAt(p, sub, i);
      } else if i >= |p| {
        assert m[i - |p|..i - |p| + |sub|] == s[i..i + |sub|];
        assert OccursAt(m, sub, i - |p|);
      } else {
        JointCharacters(p, m, sub, i);
      }
      assert false;
    }
  }

  /** An occurrence that straddles the joint holds both characters at the joint. */
  lemma JointCharacters(p: string, m: string, sub: string, i: nat)
    requires OccursAt(p + m, sub, i) && i < |p| < i + |sub|
    ensures p[|p| - 1] in sub && m[0] in sub
  {
    var s := p + m;
    assert s[i..i + |sub|] == sub;
    assert sub[|p| - 1 - i] == s[|p| - 1] == p[|p| - 1];
    assert sub[|p| - i] == s[|p|] == m[0];
  }

  // ---------------------------------------------------------------------------
  // Requests

  /** The body of `POST /messages/questions`. */
  datatype QuestionBody = QuestionBody(authorUserId: JsVal, content: string, kind: string, sendToAdmin: bool)

  /** The body of `POST /messages/{threadId}/replies`. */
  datatype ReplyBody = ReplyBody(authorUserId: JsVal, content: string, kind: string)

  /** The question submitQuestion posts: none for blank content, otherwise
      the trimmed content as a TEXT question not yet sent to an admin. */
  function QuestionFor(content: string, userId: JsVal): (r: Option<QuestionBody>)
    ensures r.None? <==> AllSpace(content)
    ensures r.Some? ==> r.value.content == Trim(content) && r.value.content != []
                        && r.value.kind == "TEXT" && !r.value.sendToAdmin && r.value.authorUserId == userId
  {
    BlankIffAllSpace(content);
    if IsBlank(content) then None
    else Some(QuestionBody(userId, Trim(content), "TEXT", false))
  }

  /** The reply sendReply posts, and to which thread: none for blank content
      or when no thread is open, otherwise the trimmed content as TEXT. */
  function ReplyFor(content: string, userId: JsVal, activeThread: Option<Thread>): (r: Option<(JsVal, ReplyBody)>)
    ensures r.None? <==> AllSpace(content) || activeThread.None?
    ensures r.Some? ==> r.value.0 == activeThread.value.id
                        && r.value.1 == ReplyBody(userId, Trim(content), "TEXT") && Trim(content) != []
  {
    BlankIffAllSpace(content);
    if IsBlank(content) || activeThread.None? then None
    else Some((activeThread.value.id, ReplyBody(userId, Trim(content), "TEXT")))
  }

  /** White space typed around a question or reply is never sent. */
  lemma RequestsIgnorePadding(content: string, pad: string, userId: JsVal, activeThread: Option<Thread>)
    requires AllSpace(pad)
    ensures QuestionFor(pad + content + pad, userId) == QuestionFor(content, userId)
    ensures ReplyFor(pad + content + pad, userId, activeThread) == ReplyFor(content, userId, activeThread)
  {
    var s := pad + content + pad;
    TrimPadded(pad, content, pad);
    if AllSpace(s) {
      assert forall k :: 0 <= k < |content| ==> content[k] == s[|pad| + k];
    }
    if AllSpace(content) {
      assert forall k :: 0 <= k < |s| ==> IsSpace(s[k]) by {
        forall k | 0 <= k < |s| ensures IsSpace(s[k]) {
          if k < |pad| { assert s[k] == pad[k]; }
          else if k < |pad| + |content| { assert s[k] == content[k - |pad|]; }
          else { assert s[k] == pad[k - |pad| - |content|]; }
        }
      }
    }
  }

  // ---------------------------------------------------------------------------
  // The thread's messages

  /** The body of `GET /messages/threads/{id}`: an array of messages, a page
      object whose `content` may be missing, or null. The admin side of the
      same endpoint is written to accept either of the first two. */
  datatype MessagesBody = MessageArray(items: seq<Message>) | MessagePage(content: Option<seq<Message>>) | NullMessages

  /** What `setMessages(res || [])` leaves in the state: a list, or an
      object that is not a list, on which the `messages.map` of the render
      throws. */
  datatype StoredMessages = StoredList(list: seq<Message>) | StoredObject

  /** `res || []` as written: an array is kept, null becomes [], and a page
      object is kept as the object itself. */
  function StoredAsWritten(body: MessagesBody): (r: StoredMessages)
    ensures r.StoredObject? <==> body.MessagePage?
  {
    match body
    case MessageArray(items) => StoredList(items)
    case MessagePage(_) => StoredObject
    case NullMessages => StoredList([])
  }

  /** The messages of a body read the way the admin side reads the same
      endpoint: the array, otherwise the page's `content`, otherwise []. */
  function MessagesOf(body: MessagesBody): seq<Message> {
    match body
    case MessageArray(items) => items
    case MessagePage(content) => content.GetOr([])
    case NullMessages => []
  }

  /** As written, a page of messages is stored as an object and the thread
      view cannot draw it, whatever messages it holds. */
  lemma PageBodyNotAList(xs: seq<Message>)
    ensures StoredAsWritten(MessagePage(Some(xs))) == StoredObject
    ensures MessagesOf(MessagePage(Some(xs))) == xs
  {
  }

  /** The corrected reading agrees with the code as written on every body
      the code can draw, and reads a page as its messages. */
  lemma MessagesOfAgrees(body: MessagesBody)
    ensures StoredAsWritten(body).StoredList? ==> MessagesOf(body) == StoredAsWritten(body).list
    ensures body.MessagePage? ==> MessagesOf(body) == body.content.GetOr([])
    ensures body.NullMessages? ==> MessagesOf(body) == []
  {
  }

  // ---------------------------------------------------------------------------
  // Page state

  /** The member's chat page. */
  class UserChatView {
    const userId: JsVal
    var content: string
    var threads: seq<Thread>
    var activeThread: Option<Thread>
    var messages: seq<Message>
    var sending: bool
    var error: string

    constructor (userId: JsVal)
      ensures this.userId == userId
      ensures content == "" && threads == [] && activeThread == None && messages == []
      ensures !sending && error == ""
    {
      this.userId := userId;
      content := "";
      threads := [];
      activeThread := None;
      messages := [];
      sending := false;
      error := "";
    }

    /** `loadThreads`: the questions of the response, or the failure text. A
        null body fails on reading `content` like any other exception. */
    method LoadThreads(response: ApiResult<ThreadsBody>)
      modifies this
      ensures response.Done? && response.value.ThreadList? ==>
                threads == response.value.content.GetOr([]) && error == old(error)
      ensures response.Done? && response.value.NullThreads? ==>
                threads == old(threads) && error == "Failed to load questions"
      ensures !response.Done? ==> threads == old(threads) && error == FailureText("Failed to load questions", response)
      ensures content == old(content) && activeThread == old(activeThread) && messages == old(messages)
      ensures sending == old(sending)
    {
      match response {
        case Done(ThreadList(c)) => threads := c.GetOr([]);
        case Done(NullThreads) => error := "Failed to load questions";
        case _ => error := FailureText("Failed to load questions", response);
      }
    }

    /** `loadThreadMessages`: the messages of the response, read as
        `MessagesOf` reads them, or the failure text. */
    method LoadThreadMessages(response: ApiResult<MessagesBody>)
      modifies this
      ensures response.Done? ==> messages == MessagesOf(response.value) && error == old(error)
      ensures !response.Done? ==> messages == old(messages) && error == FailureText("Failed to load messages", response)
      ensures content == old(content) && activeThread == old(activeThread) && threads == old(threads)
      ensures sending == old(sending)
    {
      match response {
        case Done(body) => messages := MessagesOf(body);
        case _ => error := FailureText("Failed to load messages", response);
      }
    }

    /** A click on a question in the list opens it, and its messages are
        loaded. A click on the question already open changes no state, so
        the effect that loads the messages does not run again. */
    method OpenThread(t: Thread, response: ApiResult<MessagesBody>)
      modifies this
      ensures activeThread == Some(t)
      ensures old(activeThread) == Some(t) ==> unchanged(this)
      ensures old(activeThread) != Some(t) && response.Done? ==>
                messages == MessagesOf(response.value) && error == old(error)
      ensures old(activeThread) != Some(t) && !response.Done? ==>
                messages == old(messages) && error == FailureText("Failed to load messages", response)
      ensures content == old(content) && threads == old(threads) && sending == old(sending)
    {
      if activeThread == Some(t) {
        return;
      }
      activeThread := Some(t);
      LoadThreadMessages(response);
    }

    /** `submitQuestion`: nothing for blank content; otherwise post the
        question, and on success clear the input and reload the list, whose
        own failure shows as the error line. */
    method SubmitQuestion(post: ApiResult<JsVal>, reload: ApiResult<ThreadsBody>) returns (sent: Option<QuestionBody>)
      modifies this
      ensures sent == QuestionFor(old(content), userId)
      ensures sent.None? ==> unchanged(this)
      ensures sent.Some? && post.Done? ==> content == ""
      ensures sent.Some? && post.Done? && reload.Done? && reload.value.ThreadList? ==>
                threads == reload.value.content.GetOr([]) && error == ""
      ensures sent.Some? && post.Done? && reload.Done? && reload.value.NullThreads? ==>
                threads == old(threads) && error == "Failed to load questions"
      ensures sent.Some? && post.Done? && !reload.Done? ==>
                threads == old(threads) && error == FailureText("Failed to load questions", reload)
      ensures sent.Some? && !post.Done? ==> content == old(content) && threads == old(threads)
                                            && error == SubmitFailureText(post)
      ensures sent.Some? ==> !sending && activeThread == old(activeThread) && messages == old(messages)
    {
      sent := QuestionFor(content, userId);
      if sent.None? {
        return;
      }
      sending := true;
      error := "";
      if post.Done? {
        content := "";
        LoadThreads(reload);
      } else {
        error := SubmitFailureText(post);
      }
      sending := false;
    }

    /** `sendReply`: nothing for blank content or with no open thread;
        otherwise post the reply, and on success clear the input and reload
        the thread. */
    method SendReply(post: ApiResult<JsVal>, reload: ApiResult<MessagesBody>)
      returns (sent: Option<(JsVal, ReplyBody)>)
      modifies this
      ensures sent == ReplyFor(old(content), userId, old(activeThread))
      ensures sent.None? ==> unchanged(this)
      ensures sent.Some? && post.Done? ==> content == ""
      ensures sent.Some? && post.Done? && reload.Done? ==> messages == MessagesOf(reload.value) && error == ""
      ensures sent.Some? && post.Done? && !reload.Done? ==>
                messages == old(messages) && error == FailureText("Failed to load messages", reload)
      ensures sent.Some? && !post.Done? ==> content == old(content) && messages == old(messages)
                                            && error == FailureText("Failed to send reply", post)
      ensures sent.Some? ==> !sending && activeThread == old(activeThread) && threads == old(threads)
    {
      sent := ReplyFor(content, userId, activeThread);
      if sent.None? {
        return;
      }
      sending := true;
      error := "";
      if post.Done? {
        content := "";
        LoadThreadMessages(reload);
      } else {
        error := FailureText("Failed to send reply", post);
      }
      sending := false;
    }

    /** The back arrow of the open thread: the list alone is shown again. */
    method CloseThread()
      modifies this
      ensures activeThread == None
      ensures content == old(content) && threads == old(threads) && messages == old(messages)
      ensures sending == old(sending) && error == old(error)
    {
      activeThread := None;
    }

    /** `sendToAdmin`: mark the questions as sent, report it, and reload the
        list; a reload that fails replaces the report with its own failure
        text. The button is disabled while sending or with no questions
        listed, and then nothing happens. */
    method SendToAdmin(put: ApiResult<JsVal>, reload: ApiResult<ThreadsBody>) returns (sent: bool)
      modifies this
      ensures sent <==> !old(ReachAdminDisabled(sending, threads))
      ensures !sent ==> unchanged(this)
      ensures sent && put.Done? && reload.Done? && reload.value.ThreadList? ==>
                error == SentToAdminText && threads == reload.value.content.GetOr([])
      ensures sent && put.Done? && reload.Done? && reload.value.NullThreads? ==>
                error == "Failed to load questions" && threads == old(threads)
      ensures sent && put.Done? && !reload.Done? ==>
                error == FailureText("Failed to load questions", reload) && threads == old(threads)
      ensures sent && !put.Done? ==> error == FailureText("Failed to send to admin", put) && threads == old(threads)
      ensures content == old(content) && activeThread == old(activeThread) && messages == old(messages)
      ensures sent ==> !sending
    {
      if ReachAdminDisabled(sending, threads) {
        return false;
      }
      sent := true;
      sending := true;
      error := "";
      if put.Done? {
        error := SentToAdminText;
        LoadThreads(reload);
      } else {
        error := FailureText("Failed to send to admin", put);
      }
      sending := false;
    }
  }
}
