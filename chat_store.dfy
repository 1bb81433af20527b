/** The chat store: a list of sessions, each holding its messages, and a
    pointer to the current session. Every operation replaces the two fields
    with new values computed by a map or a filter over the list; the pure
    functions below compute those values, and the class `Store` assigns
    them. Fresh ids and the clock are supplied by the caller. */
module ChatStore {
  import opened Common

  datatype Role = User | Assistant | System

  datatype Message = Message(id: string, role: Role, content: string, timestamp: int,
                             attachments: Option<seq<string>>)

  datatype Session = Session(id: string, title: string, messages: seq<Message>,
                             createdAt: int, updatedAt: int)

  /** A message as a caller hands it to `addMessage`: without id and timestamp. */
  datatype Draft = Draft(role: Role, content: string, attachments: Option<seq<string>>)

  const NewChatTitle := "New Chat"

  /** The session `createSession` makes: titled `New Chat`, no messages. */
  function NewSession(id: string, now: int): (r: Session)
    ensures r.id == id && r.title == NewChatTitle && r.messages == []
    ensures r.createdAt == now && r.updatedAt == now
  {
    Session(id, NewChatTitle, [], now, now)
  }

  /** A draft completed with its fresh id and timestamp; everything the
      caller gave is kept. */
  function Stamp(draft: Draft, id: string, now: int): (r: Message)
    ensures r.id == id && r.timestamp == now
    ensures r.role == draft.role && r.content == draft.content && r.attachments == draft.attachments
  {
    Message(id, draft.role, draft.content, now, draft.attachments)
  }

  /** The sessions after `addMessage`: every session with the id gets `m` at
      the end of its messages and a new `updatedAt`; nothing else changes. */
  function WithMessage(sessions: seq<Session>, sessionId: string, m: Message, now: int): (r: seq<Session>)
    ensures |r| == |sessions|
    ensures forall i :: 0 <= i < |r| ==>
      r[i].id == sessions[i].id && r[i].title == sessions[i].title && r[i].createdAt == sessions[i].createdAt
    ensures forall i :: 0 <= i < |r| && sessions[i].id == sessionId ==>
      r[i].messages == sessions[i].messages + [m] && r[i].updatedAt == now
    ensures forall i :: 0 <= i < |r| && sessions[i].id != sessionId ==> r[i] == sessions[i]
  {
    seq(|sessions|, i requires 0 <= i < |sessions| =>
      if sessions[i].id == sessionId
      then sessions[i].(messages := sessions[i].messages + [m], updatedAt := now)
      else sessions[i])
  }

  /** The messages after their content is replaced: those with the id get
      the new content, and nothing else about any message changes. */
  function WithContent(messages: seq<Message>, messageId: string, content: string): (r: seq<Message>)
    ensures |r| == |messages|
    ensures forall i :: 0 <= i < |r| ==>
      && r[i].id == messages[i].id && r[i].role == messages[i].role
      && r[i].timestamp == messages[i].timestamp && r[i].attachments == messages[i].attachments
    ensures forall i :: 0 <= i < |r| ==>
      r[i].content == (if messages[i].id == messageId then content else messages[i].content)
  {
    seq(|messages|, i requires 0 <= i < |messages| =>
      if messages[i].id == messageId then messages[i].(content := content) else messages[i])
  }

  /** The sessions after `updateMessage`: every session with the id has its
      messages' content replaced and a new `updatedAt`; nothing else changes. */
  function WithMessageContent(sessions: seq<Session>, sessionId: string, messageId: string,
                              content: string, now: int): (r: seq<Session>)
    ensures |r| == |sessions|
    ensures forall i :: 0 <= i < |r| ==>
      r[i].id == sessions[i].id && r[i].title == sessions[i].title && r[i].createdAt == sessions[i].createdAt
    ensures forall i :: 0 <= i < |r| && sessions[i].id == sessionId ==>
      r[i].messages == WithContent(sessions[i].messages, messageId, content) && r[i].updatedAt == now
    ensures forall i :: 0 <= i < |r| && sessions[i].id != sessionId ==> r[i] == sessions[i]
  {
    seq(|sessions|, i requires 0 <= i < |sessions| =>
      if sessions[i].id == sessionId
      then sessions[i].(messages := WithContent(sessions[i].messages, messageId, content), updatedAt := now)
      else sessions[i])
  }

  /** The sessions after `updateSessionTitle`: only the title of the
      sessions with the id changes; their messages and `updatedAt` stay. */
  function WithTitle(sessions: seq<Session>, id: string, title: string): (r: seq<Session>)
    ensures |r| == |sessions|
    ensures forall i :: 0 <= i < |r| ==>
      && r[i].id == sessions[i].id && r[i].messages == sessions[i].messages
      && r[i].createdAt == sessions[i].createdAt && r[i].updatedAt == sessions[i].updatedAt
    ensures forall i :: 0 <= i < |r| ==>
      r[i].title == (if sessions[i].id == id then title else sessions[i].title)
  {
    seq(|sessions|, i requires 0 <= i < |sessions| =>
      if sessions[i].id == id then sessions[i].(title := title) else sessions[i])
  }

  /** The sessions `deleteSession` keeps: exactly those with another id. */
  function WithoutSession(sessions: seq<Session>, id: string): (r: seq<Session>)
    ensures |r| <= |sessions|
    ensures forall s :: s in r <==> s in sessions && s.id != id
  {
    if |sessions| == 0 then []
    else if sessions[0].id == id then WithoutSession(sessions[1..], id)
    else [sessions[0]] + WithoutSession(sessions[1..], id)
  }

  /** The current session after `deleteSession`: when the deleted session
      was current, the first remaining session when there is one and its
      id is not empty (`newSessions[0]?.id || null`), else none; otherwise
      the current session stays. */
  function NextCurrent(current: Option<string>, deleted: string, remaining: seq<Session>): (r: Option<string>)
    ensures current != Some(deleted) ==> r == current
    ensures current == Some(deleted) && r.Some? ==> |remaining| > 0 && r.value == remaining[0].id && r.value != ""
    ensures current == Some(deleted) ==> (r.None? <==> |remaining| == 0 || remaining[0].id == "")
  {
    if current == Some(deleted) then
      if |remaining| > 0 && remaining[0].id != "" then Some(remaining[0].id) else None
    else current
  }

  /** Adding to a session that does not exist changes nothing. */
  lemma AddToUnknownSession(sessions: seq<Session>, sessionId: string, m: Message, now: int)
    requires forall s :: s in sessions ==> s.id != sessionId
    ensures WithMessage(sessions, sessionId, m, now) == sessions
  {
    var r := WithMessage(sessions, sessionId, m, now);
    assert forall i :: 0 <= i < |r| ==> sessions[i] in sessions;
  }

  /** Updating a session that does not exist changes nothing. */
  lemma UpdateUnknownSession(sessions: seq<Session>, sessionId: string, messageId: string, content: string, now: int)
    requires forall s :: s in sessions ==> s.id != sessionId
    ensures WithMessageContent(sessions, sessionId, messageId, content, now) == sessions
  {
    var r := WithMessageContent(sessions, sessionId, messageId, content, now);
    assert forall i :: 0 <= i < |r| ==> sessions[i] in sessions;
  }

  /** Replacing the content of a message id that is not there changes nothing. */
  lemma ContentOfUnknownMessage(messages: seq<Message>, messageId: string, content: string)
    requires forall m :: m in messages ==> m.id != messageId
    ensures WithContent(messages, messageId, content) == messages
  {
    var r := WithContent(messages, messageId, content);
    assert forall i :: 0 <= i < |r| ==> messages[i] in messages;
  }

  /** The last content written wins. */
  lemma ContentLastWriteWins(messages: seq<Message>, messageId: string, first: string, second: string)
    ensures WithContent(WithContent(messages, messageId, first), messageId, second)
         == WithContent(messages, messageId, second)
  {
  }

  /** Of two `updateMessage` calls on the same message, the second decides
      both its content and the session's `updatedAt`. */
  lemma UpdateLastWriteWins(sessions: seq<Session>, sessionId: string, messageId: string,
                            first: string, t1: int, second: string, t2: int)
    ensures WithMessageContent(WithMessageContent(sessions, sessionId, messageId, first, t1), sessionId, messageId, second, t2)
         == WithMessageContent(sessions, sessionId, messageId, second, t2)
  {
    var mid := WithMessageContent(sessions, sessionId, messageId, first, t1);
    var a := WithMessageContent(mid, sessionId, messageId, second, t2);
    var b := WithMessageContent(sessions, sessionId, messageId, second, t2);
    forall i | 0 <= i < |sessions| && sessions[i].id == sessionId
      ensures a[i] == b[i]
    {
      ContentLastWriteWins(sessions[i].messages, messageId, first, second);
    }
  }

  /** Deleting keeps the surviving sessions in their order: the survivors
      of `a + b` are those of `a` followed by those of `b`. */
  lemma {:induction false} WithoutSessionAppend(a: seq<Session>, b: seq<Session>, id: string)
    ensures WithoutSession(a + b, id) == WithoutSession(a, id) + WithoutSession(b, id)
  {
    if |a| == 0 {
      assert a + b == b;
    } else {
      assert (a + b)[0] == a[0] && (a + b)[1..] == a[1..] + b;
      WithoutSessionAppend(a[1..], b, id);
    }
  }

  /** Deleting an id no session has changes nothing. */
  lemma {:induction false} WithoutUnknownSession(sessions: seq<Session>, id: string)
    requires forall s :: s in sessions ==> s.id != id
    ensures WithoutSession(sessions, id) == sessions
  {
    if |sessions| > 0 {
      assert sessions[0] in sessions;
      assert forall s :: s in sessions[1..] ==> s in sessions;
      WithoutUnknownSession(sessions[1..], id);
    }
  }

  /** After a deletion the deleted id is never the current one: the first
      survivor cannot carry it. */
  lemma DeletedIsNotCurrent(sessions: seq<Session>, current: Option<string>, id: string)
    ensures NextCurrent(current, id, WithoutSession(sessions, id)) != Some(id)
  {
    var rest := WithoutSession(sessions, id);
    if current == Some(id) && |rest| > 0 {
      assert rest[0] in rest;
    }
  }

  class Store {
    var sessions: seq<Session>
    var currentSessionId: Option<string>

    /** The initial state: no sessions, no current session. */
    constructor()
      ensures sessions == [] && currentSessionId == None
    {
      sessions := [];
      currentSessionId := None;
    }

    /** `createSession`: a new session in front, made current. */
    method CreateSession(id: string, now: int)
      modifies this
      ensures sessions == [NewSession(id, now)] + old(sessions)
      ensures currentSessionId == Some(id)
    {
      sessions := [NewSession(id, now)] + sessions;
      currentSessionId := Some(id);
    }

    /** `selectSession`: the id becomes current whether or not a session has it. */
    method SelectSession(id: string)
      modifies this
      ensures currentSessionId == Some(id)
      ensures sessions == old(sessions)
    {
      currentSessionId := Some(id);
    }

    /** `addMessage`: the stamped draft goes at the end of the session. */
    method AddMessage(sessionId: string, draft: Draft, messageId: string, now: int)
      modifies this
      ensures sessions == WithMessage(old(sessions), sessionId, Stamp(draft, messageId, now), now)
      ensures currentSessionId == old(currentSessionId)
    {
      sessions := WithMessage(sessions, sessionId, Stamp(draft, messageId, now), now);
    }

    /** `updateMessage`: the message's content is replaced. */
    method UpdateMessage(sessionId: string, messageId: string, content: string, now: int)
      modifies this
      ensures sessions == WithMessageContent(old(sessions), sessionId, messageId, content, now)
      ensures currentSessionId == old(currentSessionId)
    {
      sessions := WithMessageContent(sessions, sessionId, messageId, content, now);
    }

    /** `updateSessionTitle`: the session's title is replaced. */
    method UpdateSessionTitle(id: string, title: string)
      modifies this
      ensures sessions == WithTitle(old(sessions), id, title)
      ensures currentSessionId == old(currentSessionId)
    {
      sessions := WithTitle(sessions, id, title);
    }

    /** `deleteSession`: the sessions with the id go, and the current
        pointer moves on when it pointed at them. */
    method DeleteSession(id: string)
      modifies this
      ensures sessions == WithoutSession(old(sessions), id)
      ensures currentSessionId == NextCurrent(old(currentSessionId), id, sessions)
      ensures currentSessionId != Some(id)
    {
      var remaining := WithoutSession(sessions, id);
      DeletedIsNotCurrent(sessions, currentSessionId, id);
      currentSessionId := NextCurrent(currentSessionId, id, remaining);
      sessions := remaining;
    }
  }
}
