/** Properties of the update routing in `main.py`, including the membership
    updates that the routing as written never reaches. Each holds for every
    reading of callback data. */
module BotProperties {
  import opened Wrappers
  import opened Py
  import opened Telegram
  import opened Storage
  import opened States
  import opened Handler
  import opened Codecs
  import opened Bot

  /** A membership update as Telegram sends it: no message and no button tap. */
  function MembershipUpdate(updateId: int, chatId: int, status: string): Update {
    Update(updateId, None, None, Some(ChatMemberUpdated(Chat(chatId), ChatMember(status))))
  }

  /** As written, every membership update fails on `Update.chat_id` before
      the membership branches: a blocked bot's snapshot is never deleted. */
  lemma AsWrittenMembershipUpdatesRaise(callbackIndex: string -> Option<int>, st: Store, updateId: int, chatId: int, status: string, render: (int, Question) -> string, t: Transport)
    ensures HandleUpdateAsWritten(callbackIndex, st, MembershipUpdate(updateId, chatId, status), render, t) == Raised(AssertionError, t)
  {
  }

  /** Routed by the chat it names, a "kicked" update deletes exactly that
      chat's snapshot and sends nothing. */
  lemma KickedDeletesSnapshot(callbackIndex: string -> Option<int>, st: Store, updateId: int, chatId: int, render: (int, Question) -> string, t: Transport)
    requires chatId in st.handlers
    ensures var r := HandleUpdate(callbackIndex, st, MembershipUpdate(updateId, chatId, KickedStatus), render, t);
      && r.Done? && r.transport == t
      && GetChatHandler(r.value, chatId) == None
      && r.value.questions == st.questions
      && forall c :: c != chatId ==> GetChatHandler(r.value, c) == GetChatHandler(st, c)
  {
  }

  /** A "kicked" update for a chat without a snapshot raises `KeyError`. */
  lemma KickedWithoutSnapshotRaises(callbackIndex: string -> Option<int>, st: Store, updateId: int, chatId: int, render: (int, Question) -> string, t: Transport)
    requires chatId !in st.handlers
    ensures HandleUpdate(callbackIndex, st, MembershipUpdate(updateId, chatId, KickedStatus), render, t).Raised?
  {
  }

  /** A "member" update changes nothing and sends nothing. */
  lemma UnblockedKeepsStore(callbackIndex: string -> Option<int>, st: Store, updateId: int, chatId: int, render: (int, Question) -> string, t: Transport)
    ensures HandleUpdate(callbackIndex, st, MembershipUpdate(updateId, chatId, MemberStatus), render, t) == Done(st, t)
  {
  }

  /** On first contact the bot greets, whatever was said, and stores the chat
      in an entered Idle state. */
  lemma FirstContactGreets(callbackIndex: string -> Option<int>, st: Store, updateId: int, chatId: int, text: string, render: (int, Question) -> string, t: Transport)
    requires chatId !in st.handlers
    ensures var r := HandleUpdate(callbackIndex, st, TextUpdate(updateId, chatId, text), render, t);
      && r.Done?
      && r.transport.log == t.log + [Sent(SendMessagePayload(chatId, GreetingText, None))]
      && GetChatHandler(r.value, chatId) == Some(Encode(ChatHandler(State(Idle, true), chatId)))
      && forall c :: c != chatId ==> GetChatHandler(r.value, c) == GetChatHandler(st, c)
  {
    var env := BotEnv(st, render);
    var h := ChatHandler(State(Greeting, true), chatId);
    assert LoadHandler(st, chatId, env, t) == Done(DecodedHandler(h), t);
    var step := ProcessWith(callbackIndex, h.state, TextUpdate(updateId, chatId, text), env, t);
    assert step.Done? && step.value.next == MakeIdleState() && step.value.next != step.value.current;
  }

  /** After an ordinary update the chat's stored snapshot is a handler record
      whose state decodes without error: the next update can load it. */
  lemma StoredSnapshotReloads(callbackIndex: string -> Option<int>, st: Store, u: Update, render: (int, Question) -> string, t: Transport)
    requires u.myChatMember.None? && ChatId(u).Ok?
    requires HandleUpdate(callbackIndex, st, u, render, t).Done?
    ensures var st1 := HandleUpdate(callbackIndex, st, u, render, t).value;
      var snap := st1.handlers[ChatId(u).value];
      && snap.HandlerRecord?
      && DecodeState(snap.state).Ok?
  {
    var chatId := ChatId(u).value;
    var env := BotEnv(st, render);
    var loaded := LoadHandler(st, chatId, env, t);
    assert loaded.Done? && loaded.value.DecodedHandler?;
    var processed := Handler.Process(callbackIndex, loaded.value.handler, u, env, loaded.transport);
    DecodeEncodeState(processed.value.state);
  }

  /** Off membership updates the two routings agree, so every property of
      `HandleUpdate` on ordinary updates holds for the source as written. */
  lemma RoutingsAgree(callbackIndex: string -> Option<int>, st: Store, u: Update, render: (int, Question) -> string, t: Transport)
    requires u.myChatMember.None?
    ensures HandleUpdateAsWritten(callbackIndex, st, u, render, t) == HandleUpdate(callbackIndex, st, u, render, t)
  {
  }

  /** In the polling loop as written, a "kicked" update raises, the exception
      is dropped and the chat's snapshot stays; with the corrected routing the
      snapshot is deleted. Either way the offset moves past the update. */
  lemma LoopKeepsKickedChatAsWritten(callbackIndex: string -> Option<int>, ps: Poller, updateId: int, chatId: int, render: (int, Question) -> string)
    requires chatId in ps.store.handlers
    ensures var u := MembershipUpdate(updateId, chatId, KickedStatus);
      var asWritten := PollOne(AsWrittenRouting(callbackIndex, render), ps, u);
      var corrected := PollOne(CorrectedRouting(callbackIndex, render), ps, u);
      && asWritten == Poller(updateId + 1, ps.store, ps.transport)
      && corrected.offset == updateId + 1 && corrected.transport == ps.transport
      && GetChatHandler(corrected.store, chatId) == None
      && GetChatHandler(ps.store, chatId).Some?
  {
  }
}
