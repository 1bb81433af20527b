/** `handleSend` of the chat view: it appends the user's message and an
    empty assistant placeholder to the current session, passes every
    message but the placeholder to the client as history, folds the
    streamed fragments into the placeholder, and on an error overwrites the
    placeholder with a fixed text. The fragments the client yields are a
    parameter, and `fails` says whether the client threw after yielding
    them. */
module ChatArea {
  import opened Common
  import opened Strings
  import opened ChatStore

  const ErrorText := "Error: Failed to generate response."

  /** The index of the first session with the id (`findIndex`). */
  function FindIndex(sessions: seq<Session>, id: string): (r: Option<nat>)
    ensures r.Some? ==> r.value < |sessions| && sessions[r.value].id == id
    ensures r.Some? ==> forall j :: 0 <= j < r.value ==> sessions[j].id != id
    ensures r.None? ==> forall j :: 0 <= j < |sessions| ==> sessions[j].id != id
  {
    if |sessions| == 0 then None
    else if sessions[0].id == id then Some(0)
    else match FindIndex(sessions[1..], id)
      case None => None
      case Some(k) => Some(k + 1)
  }

  /** `sessions.find(s => s.id === id)`. */
  function FindSession(sessions: seq<Session>, id: string): (r: Option<Session>)
    ensures r.Some? <==> FindIndex(sessions, id).Some?
    ensures r.Some? ==> r.value == sessions[FindIndex(sessions, id).value]
  {
    match FindIndex(sessions, id)
    case None => None
    case Some(k) => Some(sessions[k])
  }

  function UserMessage(content: string, attachments: seq<string>, id: string, now: int): Message {
    Stamp(Draft(User, content, Some(attachments)), id, now)
  }

  function Placeholder(id: string, now: int): Message {
    Stamp(Draft(Assistant, "", None), id, now)
  }

  /** The sessions once the two messages are added. */
  function Placed(sessions: seq<Session>, sessionId: string, content: string, attachments: seq<string>,
                  userId: string, assistantId: string, now: int): seq<Session>
  {
    WithMessage(WithMessage(sessions, sessionId, UserMessage(content, attachments, userId, now), now),
                sessionId, Placeholder(assistantId, now), now)
  }

  /** The sessions once the fragments are folded into message `target`:
      after each fragment the message holds all fragments so far. */
  function Streamed(placed: seq<Session>, sessionId: string, target: string, fragments: seq<string>,
                    now: int): seq<Session>
  {
    if |fragments| == 0 then placed
    else WithMessageContent(placed, sessionId, target, Concat(fragments), now)
  }

  /** The `catch` block: the last message of the session, found again, gets
      the error text. */
  function ErrorWritten(sessions: seq<Session>, sessionId: string, now: int): (r: seq<Session>)
    ensures |r| == |sessions|
    ensures forall k :: 0 <= k < |r| ==> r[k].id == sessions[k].id
    ensures forall k :: 0 <= k < |r| && sessions[k].id != sessionId ==> r[k] == sessions[k]
    ensures FindIndex(sessions, sessionId).None? ==> r == sessions
  {
    match FindSession(sessions, sessionId)
    case None => sessions
    case Some(session) =>
      if |session.messages| == 0 then sessions
      else WithMessageContent(sessions, sessionId, Last(session.messages).id, ErrorText, now)
  }

  /** The sessions `handleSend` leaves behind for the current session `sessionId`. */
  function SentSessions(sessions: seq<Session>, sessionId: string, content: string, attachments: seq<string>,
                        userId: string, assistantId: string, now: int,
                        fragments: seq<string>, fails: bool): (r: seq<Session>)
    ensures |r| == |sessions|
    ensures forall k :: 0 <= k < |r| ==> r[k].id == sessions[k].id
    ensures forall k :: 0 <= k < |r| && sessions[k].id != sessionId ==> r[k] == sessions[k]
  {
    var placed := Placed(sessions, sessionId, content, attachments, userId, assistantId, now);
    match FindSession(placed, sessionId)
    case None => placed
    case Some(session) =>
      if |session.messages| == 0 then placed
      else
        var streamed := Streamed(placed, sessionId, Last(session.messages).id, fragments, now);
        if fails then ErrorWritten(streamed, sessionId, now) else streamed
  }

  /** The history `handleSend` hands to the client: the session's messages
      without the placeholder. */
  function SentHistory(sessions: seq<Session>, sessionId: string, content: string, attachments: seq<string>,
                       userId: string, assistantId: string, now: int): (r: Option<seq<Message>>)
    ensures r.Some? <==> FindIndex(sessions, sessionId).Some?
  {
    var placed := Placed(sessions, sessionId, content, attachments, userId, assistantId, now);
    FindIndexKept(sessions, placed, sessionId);
    match FindSession(placed, sessionId)
    case None => None
    case Some(session) =>
      if |session.messages| == 0 then None else Some(AllButLast(session.messages))
  }

  /** The text the placeholder ends with. */
  function Reply(fragments: seq<string>, fails: bool): string {
    if fails then ErrorText else Concat(fragments)
  }

  /** The session as `handleSend` promises to leave it: the user's message
      and the assistant's reply appended, in that order. */
  function Answered(s: Session, content: string, attachments: seq<string>, userId: string,
                    assistantId: string, now: int, reply: string): Session
  {
    s.(messages := s.messages + [UserMessage(content, attachments, userId, now),
                                 Placeholder(assistantId, now).(content := reply)],
       updatedAt := now)
  }

  /** A message id that no message of a session with id `sessionId` has. */
  predicate FreshIn(sessions: seq<Session>, sessionId: string, messageId: string) {
    forall k, m :: 0 <= k < |sessions| && sessions[k].id == sessionId && m in sessions[k].messages ==>
      m.id != messageId
  }

  /** The sessions do not change when no session has the id. */
  lemma SendToUnknownSession(sessions: seq<Session>, sessionId: string, content: string, attachments: seq<string>,
                             userId: string, assistantId: string, now: int, fragments: seq<string>, fails: bool)
    requires forall k :: 0 <= k < |sessions| ==> sessions[k].id != sessionId
    ensures SentSessions(sessions, sessionId, content, attachments, userId, assistantId, now, fragments, fails) == sessions
    ensures SentHistory(sessions, sessionId, content, attachments, userId, assistantId, now).None?
  {
    var u := WithMessage(sessions, sessionId, UserMessage(content, attachments, userId, now), now);
    AddToUnknownSession(sessions, sessionId, UserMessage(content, attachments, userId, now), now);
    AddToUnknownSession(u, sessionId, Placeholder(assistantId, now), now);
  }

  /** The placed sessions, with the reply written into the placeholder,
      are the answered sessions, when the placeholder's id is fresh. */
  lemma PlacedThenWritten(sessions: seq<Session>, sessionId: string, content: string, attachments: seq<string>,
                          userId: string, assistantId: string, now: int, reply: string)
    requires userId != assistantId && FreshIn(sessions, sessionId, assistantId)
    ensures var placed := Placed(sessions, sessionId, content, attachments, userId, assistantId, now);
      var r := WithMessageContent(placed, sessionId, assistantId, reply, now);
      && |r| == |sessions|
      && forall k :: 0 <= k < |sessions| ==>
           r[k] == (if sessions[k].id == sessionId
                    then Answered(sessions[k], content, attachments, userId, assistantId, now, reply)
                    else sessions[k])
  {
    var placed := Placed(sessions, sessionId, content, attachments, userId, assistantId, now);
    var r := WithMessageContent(placed, sessionId, assistantId, reply, now);
    forall k | 0 <= k < |sessions| && sessions[k].id == sessionId
      ensures r[k] == Answered(sessions[k], content, attachments, userId, assistantId, now, reply)
    {
      var old_ := sessions[k].messages;
      var u := UserMessage(content, attachments, userId, now);
      var a := Placeholder(assistantId, now);
      assert placed[k].messages == old_ + [u] + [a];
      ContentOfUnknownMessage(old_, assistantId, reply);
      var w := WithContent(old_ + [u] + [a], assistantId, reply);
      assert w == old_ + [u, a.(content := reply)] by {
        assert forall i :: 0 <= i < |old_| ==> (old_ + [u] + [a])[i] == old_[i];
        assert forall i :: 0 <= i < |old_| ==> w[i] == WithContent(old_, assistantId, reply)[i];
      }
    }
  }

  /** What `handleSend` does to the sessions when the two new ids are
      fresh: every session with the current id gets exactly the user's
      message and then the assistant's message, which holds every fragment
      concatenated or, after an error, the error text alone; no other
      session changes. */
  lemma SendAppendsExchange(sessions: seq<Session>, sessionId: string, content: string, attachments: seq<string>,
                            userId: string, assistantId: string, now: int, fragments: seq<string>, fails: bool)
    requires userId != assistantId && FreshIn(sessions, sessionId, assistantId)
    ensures var r := SentSessions(sessions, sessionId, content, attachments, userId, assistantId, now, fragments, fails);
      && |r| == |sessions|
      && forall k :: 0 <= k < |sessions| ==>
           r[k] == (if sessions[k].id == sessionId
                    then Answered(sessions[k], content, attachments, userId, assistantId, now, Reply(fragments, fails))
                    else sessions[k])
  {
    var placed := Placed(sessions, sessionId, content, attachments, userId, assistantId, now);
    if FindIndex(sessions, sessionId).None? {
      SendToUnknownSession(sessions, sessionId, content, attachments, userId, assistantId, now, fragments, fails);
    } else {
      var k := FindIndex(sessions, sessionId).value;
      assert FindIndex(placed, sessionId) == Some(k) by {
        FindIndexOfPlaced(sessions, placed, sessionId, k);
      }
      var session := placed[k];
      assert Last(session.messages).id == assistantId;
      var streamed := Streamed(placed, sessionId, assistantId, fragments, now);
      PlacedThenWritten(sessions, sessionId, content, attachments, userId, assistantId, now, Reply(fragments, fails));
      if |fragments| == 0 && !fails {
        PlacedThenWritten(sessions, sessionId, content, attachments, userId, assistantId, now, "");
        PlacedUnchangedByEmptyWrite(sessions, placed, sessionId, content, attachments, userId, assistantId, now);
      }
      if fails {
        ErrorOverwrites(sessions, placed, streamed, sessionId, k, assistantId, fragments, now);
      }
    }
  }

  /** Adding messages keeps ids, so the first session with the id stays first. */
  lemma FindIndexOfPlaced(sessions: seq<Session>, placed: seq<Session>, sessionId: string, k: nat)
    requires |placed| == |sessions|
    requires forall i :: 0 <= i < |sessions| ==> placed[i].id == sessions[i].id
    requires FindIndex(sessions, sessionId) == Some(k)
    ensures FindIndex(placed, sessionId) == Some(k)
  {
    match FindIndex(placed, sessionId)
    case None =>
    case Some(j) =>
  }

  /** Adding messages keeps ids, so the sessions with the id are found at
      the same place, or not at all. */
  lemma FindIndexKept(sessions: seq<Session>, placed: seq<Session>, sessionId: string)
    requires |placed| == |sessions|
    requires forall i :: 0 <= i < |sessions| ==> placed[i].id == sessions[i].id
    ensures FindIndex(placed, sessionId) == FindIndex(sessions, sessionId)
  {
    match FindIndex(sessions, sessionId)
    case None =>
    case Some(k) =>
      FindIndexOfPlaced(sessions, placed, sessionId, k);
  }

  /** With no fragment and no error the placeholder keeps its empty text,
      so the placed sessions are already the answered ones. */
  lemma PlacedUnchangedByEmptyWrite(sessions: seq<Session>, placed: seq<Session>, sessionId: string, content: string,
                                    attachments: seq<string>, userId: string, assistantId: string, now: int)
    requires userId != assistantId && FreshIn(sessions, sessionId, assistantId)
    requires placed == Placed(sessions, sessionId, content, attachments, userId, assistantId, now)
    ensures WithMessageContent(placed, sessionId, assistantId, "", now) == placed
  {
    var r := WithMessageContent(placed, sessionId, assistantId, "", now);
    forall k | 0 <= k < |placed| && placed[k].id == sessionId
      ensures r[k] == placed[k]
    {
      assert Placeholder(assistantId, now).(content := "") == Placeholder(assistantId, now);
    }
  }

  /** One turn of the fragment loop: writing the content so far plus the
      next fragment gives the sessions for one more fragment. */
  lemma StreamedStep(placed: seq<Session>, sessionId: string, target: string, fragments: seq<string>,
                     i: nat, now: int)
    requires i < |fragments|
    ensures Concat(fragments[..i + 1]) == Concat(fragments[..i]) + fragments[i]
    ensures WithMessageContent(Streamed(placed, sessionId, target, fragments[..i], now), sessionId, target,
                               Concat(fragments[..i]) + fragments[i], now)
         == Streamed(placed, sessionId, target, fragments[..i + 1], now)
  {
    assert fragments[..i + 1][..i] == fragments[..i];
    if i > 0 {
      UpdateLastWriteWins(placed, sessionId, target, Concat(fragments[..i]), now,
                          Concat(fragments[..i]) + fragments[i], now);
    }
  }

  /** The error text overwrites whatever the fragments left in the placeholder. */
  lemma ErrorOverwrites(sessions: seq<Session>, placed: seq<Session>, streamed: seq<Session>, sessionId: string,
                        k: nat, assistantId: string, fragments: seq<string>, now: int)
    requires k < |placed| && placed[k].id == sessionId && |placed[k].messages| > 0
    requires Last(placed[k].messages).id == assistantId
    requires FindIndex(placed, sessionId) == Some(k)
    requires streamed == Streamed(placed, sessionId, assistantId, fragments, now)
    ensures ErrorWritten(streamed, sessionId, now) == WithMessageContent(placed, sessionId, assistantId, ErrorText, now)
  {
    if |fragments| == 0 {
      assert FindSession(placed, sessionId) == Some(placed[k]);
    } else {
      ErrorAfterFragments(placed, sessionId, k, assistantId, Concat(fragments), now);
    }
  }

  /** The error text written after some fragments: the last message is
      still the placeholder, and the second write wins. */
  lemma ErrorAfterFragments(placed: seq<Session>, sessionId: string, k: nat, assistantId: string,
                            partial: string, now: int)
    requires k < |placed| && placed[k].id == sessionId && |placed[k].messages| > 0
    requires Last(placed[k].messages).id == assistantId
    requires FindIndex(placed, sessionId) == Some(k)
    ensures var streamed := WithMessageContent(placed, sessionId, assistantId, partial, now);
      ErrorWritten(streamed, sessionId, now) == WithMessageContent(placed, sessionId, assistantId, ErrorText, now)
  {
    var streamed := WithMessageContent(placed, sessionId, assistantId, partial, now);
    FindIndexOfPlaced(placed, streamed, sessionId, k);
    LastIdKept(placed[k].messages, assistantId, partial);
    assert FindSession(streamed, sessionId) == Some(streamed[k]);
    assert Last(streamed[k].messages).id == assistantId;
    UpdateLastWriteWins(placed, sessionId, assistantId, partial, now, ErrorText, now);
  }

  /** Replacing contents keeps the id of the last message. */
  lemma LastIdKept(messages: seq<Message>, messageId: string, content: string)
    requires |messages| > 0
    ensures |WithContent(messages, messageId, content)| > 0
    ensures Last(WithContent(messages, messageId, content)).id == Last(messages).id
  {
  }

  /** The history ends with the user's message: it is the session's
      messages as they were, followed by the new user message. */
  lemma HistoryEndsWithUserMessage(sessions: seq<Session>, sessionId: string, content: string, attachments: seq<string>,
                                   userId: string, assistantId: string, now: int)
    ensures var h := SentHistory(sessions, sessionId, content, attachments, userId, assistantId, now);
      && (FindSession(sessions, sessionId).None? ==> h.None?)
      && (FindSession(sessions, sessionId).Some? ==>
            h == Some(FindSession(sessions, sessionId).value.messages + [UserMessage(content, attachments, userId, now)]))
  {
    var placed := Placed(sessions, sessionId, content, attachments, userId, assistantId, now);
    match FindIndex(sessions, sessionId)
    case None =>
      SendToUnknownSession(sessions, sessionId, content, attachments, userId, assistantId, now, [], false);
    case Some(k) =>
      FindIndexOfPlaced(sessions, placed, sessionId, k);
      var u := UserMessage(content, attachments, userId, now);
      assert AllButLast(sessions[k].messages + [u] + [Placeholder(assistantId, now)]) == sessions[k].messages + [u];
  }

  class View {
    var isGenerating: bool
    const store: Store

    constructor(store: Store)
      ensures this.store == store && !isGenerating
    {
      this.store := store;
      isGenerating := false;
    }

    /** `handleSend`: with no current session nothing happens; otherwise
        the session ends as SentSessions says, the history is SentHistory,
        and `isGenerating`, set before the client is called, is cleared on
        every path. */
    method HandleSend(content: string, attachments: seq<string>, userId: string, assistantId: string,
                      now: int, fragments: seq<string>, fails: bool) returns (history: Option<seq<Message>>)
      modifies this, store
      ensures store.currentSessionId == old(store.currentSessionId)
      ensures !Truthy(old(store.currentSessionId)) ==>
        store.sessions == old(store.sessions) && isGenerating == old(isGenerating) && history.None?
      ensures Truthy(old(store.currentSessionId)) ==>
        && store.sessions == SentSessions(old(store.sessions), old(store.currentSessionId).value, content,
                                          attachments, userId, assistantId, now, fragments, fails)
        && history == SentHistory(old(store.sessions), old(store.currentSessionId).value, content,
                                  attachments, userId, assistantId, now)
        && !isGenerating
    {
      if !Truthy(store.currentSessionId) {
        return None;
      }
      var sessionId := store.currentSessionId.value;
      store.AddMessage(sessionId, Draft(User, content, Some(attachments)), userId, now);
      store.AddMessage(sessionId, Draft(Assistant, "", None), assistantId, now);
      ghost var placed := store.sessions;
      isGenerating := true;

      var session := FindSession(store.sessions, sessionId);
      if session.None? {
        isGenerating := false;
        return None;
      }
      var messages := session.value.messages;
      if |messages| == 0 {
        isGenerating := false;
        return None;
      }
      var target := Last(messages);
      history := Some(AllButLast(messages));

      var fullContent := "";
      var i := 0;
      while i < |fragments|
        invariant 0 <= i <= |fragments|
        invariant fullContent == Concat(fragments[..i])
        invariant store.sessions == Streamed(placed, sessionId, target.id, fragments[..i], now)
        invariant store.currentSessionId == old(store.currentSessionId)
        invariant isGenerating
      {
        StreamedStep(placed, sessionId, target.id, fragments, i, now);
        fullContent := fullContent + fragments[i];
        store.UpdateMessage(sessionId, target.id, fullContent, now);
        i := i + 1;
      }
      assert fragments[..i] == fragments;

      if fails {
        var again := FindSession(store.sessions, sessionId);
        if again.Some? && |again.value.messages| > 0 {
          store.UpdateMessage(sessionId, Last(again.value.messages).id, ErrorText, now);
        }
      }
      isGenerating := false;
    }
  }
}
