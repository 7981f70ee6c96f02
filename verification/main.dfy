/** `main.py`: routing one update through storage and the chat handler, the
    polling loop's offset bookkeeping, and the mapping of client errors to
    HTTP statuses. The HTTP server, the CLI and the live client are not
    modelled. Every entry point takes the reading of callback data as a
    parameter, as `Handler.Process` does, and the polling loop takes the
    routing of updates: as written or corrected. */
module Bot {
  import opened Wrappers
  import opened Py
  import opened Telegram
  import opened Storage
  import opened States
  import opened Handler
  import opened Codecs

  /** The storage the bot runs on: questions plus one snapshot per chat. */
  type Store = MemoryStorage<Snapshot>

  const MemberStatus: string := "member"
  const KickedStatus: string := "kicked"

  /** The factory's view of the storage: its questions, and the renderer of
      answered questions. */
  function BotEnv(st: Store, render: (int, Question) -> string): Env {
    Env(Some(st.questions), render)
  }

  /** The handler to run for a chat: a new Greeting handler on first contact,
      otherwise the decoded snapshot. */
  function LoadHandler(st: Store, chatId: int, env: Env, t: Transport): (r: Outcome<Decoded>)
    ensures chatId !in st.handlers ==>
      r == Done(DecodedHandler(ChatHandler(State(Greeting, true), chatId)), t)
    ensures chatId in st.handlers ==> r == Decode(st.handlers[chatId], env, t)
  {
    match GetChatHandler(st, chatId)
    case None =>
      (match Create(MakeGreetingState(), chatId, env, t)
       case Raised(e, t1) => Raised(e, t1)
       case Done(h, t1) => Done(DecodedHandler(h), t1))
    case Some(snap) => Decode(snap, env, t)
  }

  /** An ordinary update (no membership change): load or create the chat's
      handler, process the update, and store the handler's new snapshot. An
      exception anywhere leaves the storage as it was. */
  function HandleChatUpdate(callbackIndex: string -> Option<int>, st: Store, chatId: int, u: Update, render: (int, Question) -> string, t: Transport): (r: Outcome<Store>)
    ensures r.Done? ==> r.value.questions == st.questions
    ensures r.Done? ==> chatId in r.value.handlers && r.value.handlers[chatId].HandlerRecord?
    ensures r.Done? ==> forall c :: c != chatId ==> GetChatHandler(r.value, c) == GetChatHandler(st, c)
    ensures var loaded := LoadHandler(st, chatId, BotEnv(st, render), t);
      loaded.Done? && loaded.value.DecodedHandler? ==>
      var processed := Handler.Process(callbackIndex, loaded.value.handler, u, BotEnv(st, render), loaded.transport);
      && (processed.Done? ==> r == Done(SetChatHandler(st, chatId, Encode(processed.value)), processed.transport))
      && (processed.Raised? ==> r == Raised(processed.exception, processed.transport))
    ensures var loaded := LoadHandler(st, chatId, BotEnv(st, render), t);
      loaded.Raised? ==> r == Raised(loaded.exception, loaded.transport)
    ensures var loaded := LoadHandler(st, chatId, BotEnv(st, render), t);
      loaded.Done? && loaded.value.Unchanged? ==> r == Raised(AttributeError, loaded.transport)
  {
    var env := BotEnv(st, render);
    match LoadHandler(st, chatId, env, t)
    case Raised(e, t1) => Raised(e, t1)
    case Done(Unchanged(_), t1) => Raised(AttributeError, t1)
    case Done(DecodedHandler(h), t1) =>
      match Handler.Process(callbackIndex, h, u, env, t1)
      case Raised(e, t2) => Raised(e, t2)
      case Done(h2, t2) => Done(SetChatHandler(st, chatId, Encode(h2)), t2)
  }

  /** A change of the bot's membership: "member" (unblocked) changes nothing,
      "kicked" (blocked) deletes the chat's snapshot, raising `KeyError` when
      there is none; any other status is ignored. No message is sent. */
  function HandleMembership(st: Store, chatId: int, m: ChatMemberUpdated, t: Transport): (r: Outcome<Store>)
    ensures r.transport == t
    ensures m.newChatMember.status != KickedStatus ==> r == Done(st, t)
    ensures m.newChatMember.status == KickedStatus ==>
      && (r.Raised? <==> chatId !in st.handlers)
      && (r.Done? ==> GetChatHandler(r.value, chatId) == None && r.value.questions == st.questions)
      && (r.Done? ==> forall c :: c != chatId ==> GetChatHandler(r.value, c) == GetChatHandler(st, c))
  {
    if m.newChatMember.status == MemberStatus then Done(st, t)
    else if m.newChatMember.status == KickedStatus then
      match DelChatHandler(st, chatId)
      case Err(e) => Raised(e, t)
      case Ok(st1) => Done(st1, t)
    else Done(st, t)
  }

  /** `Bot.handle_update` as written: the chat id is read through
      `Update.chat_id` before the membership check. */
  function HandleUpdateAsWritten(callbackIndex: string -> Option<int>, st: Store, u: Update, render: (int, Question) -> string, t: Transport): (r: Outcome<Store>)
    ensures ChatId(u).Err? ==> r == Raised(AssertionError, t)
    ensures ChatId(u).Ok? && u.myChatMember.None? ==> r == HandleChatUpdate(callbackIndex, st, ChatId(u).value, u, render, t)
    ensures ChatId(u).Ok? && u.myChatMember.Some? ==> r == HandleMembership(st, ChatId(u).value, u.myChatMember.value, t)
  {
    match ChatId(u)
    case Err(e) => Raised(e, t)
    case Ok(chatId) =>
      if u.myChatMember.None? then HandleChatUpdate(callbackIndex, st, chatId, u, render, t)
      else HandleMembership(st, chatId, u.myChatMember.value, t)
  }

  /** `Bot.handle_update`, with a membership change routed by the chat it
      names. */
  function HandleUpdate(callbackIndex: string -> Option<int>, st: Store, u: Update, render: (int, Question) -> string, t: Transport): (r: Outcome<Store>)
    ensures u.myChatMember.Some? ==> r == HandleMembership(st, u.myChatMember.value.chat.id, u.myChatMember.value, t)
    ensures u.myChatMember.None? && ChatId(u).Err? ==> r == Raised(AssertionError, t)
    ensures u.myChatMember.None? && ChatId(u).Ok? ==> r == HandleChatUpdate(callbackIndex, st, ChatId(u).value, u, render, t)
  {
    if u.myChatMember.Some? then HandleMembership(st, u.myChatMember.value.chat.id, u.myChatMember.value, t)
    else match ChatId(u)
      case Err(e) => Raised(e, t)
      case Ok(chatId) => HandleChatUpdate(callbackIndex, st, chatId, u, render, t)
  }

  /** The polling loop's state between updates. */
  datatype Poller = Poller(offset: int, store: Store, transport: Transport)

  /** What the loop calls for each update: `Bot.handle_update`. */
  type UpdateHandler = (Store, Update, Transport) -> Outcome<Store>

  /** The loop's update handler as the source writes it. */
  function AsWrittenRouting(callbackIndex: string -> Option<int>, render: (int, Question) -> string): UpdateHandler {
    (st, u, t) => HandleUpdateAsWritten(callbackIndex, st, u, render, t)
  }

  /** The loop's update handler with membership changes routed by their chat. */
  function CorrectedRouting(callbackIndex: string -> Option<int>, render: (int, Question) -> string): UpdateHandler {
    (st, u, t) => HandleUpdate(callbackIndex, st, u, render, t)
  }

  /** Handles one update inside the loop: an exception is logged and dropped,
      and the offset moves past the update either way. */
  function PollOne(handle: UpdateHandler, ps: Poller, u: Update): (r: Poller)
    ensures r.offset == u.updateId + 1
    ensures r.transport == handle(ps.store, u, ps.transport).transport
    ensures handle(ps.store, u, ps.transport).Raised? ==> r.store == ps.store
    ensures handle(ps.store, u, ps.transport).Done? ==> r.store == handle(ps.store, u, ps.transport).value
  {
    match handle(ps.store, u, ps.transport)
    case Raised(_, t1) => Poller(u.updateId + 1, ps.store, t1)
    case Done(st1, t1) => Poller(u.updateId + 1, st1, t1)
  }

  /** The `for update in result` loop of `run_client_mode`. */
  function PollBatch(handle: UpdateHandler, ps: Poller, us: seq<Update>): (r: Poller)
    ensures |us| == 0 ==> r == ps
    ensures |us| > 0 ==> r.offset == us[|us| - 1].updateId + 1
    decreases |us|
  {
    if |us| == 0 then ps else PollBatch(handle, PollOne(handle, ps, us[0]), us[1..])
  }

  /** One round of `run_client_mode`: a failed `get_updates` leaves everything
      as it was; otherwise the fetched updates are handled in order. */
  function PollRound(handle: UpdateHandler, ps: Poller, fetched: Result<seq<Update>, TelegramException>): (r: Poller)
    ensures fetched.Err? ==> r == ps
    ensures fetched.Ok? && |fetched.value| > 0 ==> r.offset == fetched.value[|fetched.value| - 1].updateId + 1
    ensures fetched.Ok? && |fetched.value| == 0 ==> r == ps
  {
    match fetched
    case Err(_) => ps
    case Ok(us) => PollBatch(handle, ps, us)
  }

  /** An HTTP response of the webhook server. */
  datatype Response = Response(statusCode: int, content: string)

  const InternalServerError: Response := Response(500, "Internal server error")
  const BadGateway: Response := Response(502, "Bad gateway")

  /** `telegram_exception_handler`: an unexpected status above 500 is a bad
      gateway; every other client failure is an internal server error. */
  function ExceptionResponse(e: TelegramException): (r: Response)
    ensures r == BadGateway <==> e.UnexpectedStatusCode? && e.statusCode > 500
    ensures r != BadGateway ==> r == InternalServerError
    ensures e.UnexpectedStatusCode? && 400 <= e.statusCode <= 500 ==> r.statusCode == 500
    ensures e.UnexpectedStatusCode? && e.statusCode < 400 ==> r.statusCode == 500
    ensures e.NetworkFailure? || e.UnknownError? ==> r.statusCode == 500
  {
    match e
    case UnexpectedStatusCode(code) =>
      if 400 <= code <= 500 then InternalServerError
      else if 500 < code then BadGateway
      else InternalServerError
    case NetworkFailure => InternalServerError
    case UnknownError => InternalServerError
  }
}
