/** `custom_codecs.py`: the snapshot of a chat handler that is stored between
    updates, and its reconstruction. The JSON text layer is not modelled: a
    snapshot is the decoded JSON object, as a datatype. */
module Codecs {
  import opened Wrappers
  import opened Py
  import opened Telegram
  import opened Storage
  import opened States
  import opened Handler

  /** The `state_name` tags: Python's `f"{type(o)}"` of each state class. */
  const GreetingTag: string := "<class 'bot_state.GreetingState'>"
  const IdleTag: string := "<class 'bot_state.IdleState'>"
  const GameTag: string := "<class 'bot_state.GameState'>"
  const UnknownTagText: string := "Unknown value of 'state_name' key"

  /** The extra keys of a game's entry: `questions` and `game_parameters`. */
  datatype GameRecord = GameRecord(questions: seq<Question>, gameParameters: GameParams)

  /** The `state` entry: its `state_name`, and the game keys when present. */
  datatype StateRecord = StateRecord(stateName: string, game: Option<GameRecord>)

  /** A JSON object met while decoding: one marked `"__chat_handler__": true`,
      with its `chat_id` and `state`, or any other object. */
  datatype Snapshot = HandlerRecord(chatId: int, state: StateRecord) | PlainObject(fields: map<string, string>)

  /** What the encoder's `default` hook can be handed. */
  datatype Encodable = HandlerObject(handler: ChatHandler) | StateObject(state: State) | OtherObject(text: string)

  datatype Encoded = EncodedHandler(snapshot: Snapshot) | EncodedState(record: StateRecord)

  datatype Decoded = DecodedHandler(handler: ChatHandler) | Unchanged(object: Snapshot)

  function EncodeErrorText(text: string): string {
    text + " type object is not subscriptable.An object of type ChatHandler is expected to be encoded, not " + text + "."
  }

  /** The `state` entry of a state: its tag, plus questions and parameters for
      a game. The entered flag is not stored. */
  function EncodeState(s: State): (r: StateRecord)
    ensures s.kind.Greeting? ==> r == StateRecord(GreetingTag, None)
    ensures s.kind.Idle? ==> r == StateRecord(IdleTag, None)
    ensures s.kind.Game? ==> r.stateName == GameTag && r.game == Some(GameRecord(s.kind.params.questions, s.kind.params))
  {
    match s.kind
    case Greeting => StateRecord(GreetingTag, None)
    case Idle => StateRecord(IdleTag, None)
    case Game(p) => StateRecord(GameTag, Some(GameRecord(p.questions, p)))
  }

  /** The snapshot of a handler: marked, with its chat id and its state entry. */
  function Encode(h: ChatHandler): (r: Snapshot)
    ensures r.HandlerRecord? && r.chatId == h.chatId && r.state == EncodeState(h.state)
  {
    HandlerRecord(h.chatId, EncodeState(h.state))
  }

  /** `ChatHandlerEncoder.default`: handlers and states are encoded, any other
      object raises `TypeError`. */
  function Default(o: Encodable): (r: Result<Encoded, Exception>)
    ensures o.HandlerObject? ==> r == Ok(EncodedHandler(Encode(o.handler)))
    ensures o.StateObject? ==> r == Ok(EncodedState(EncodeState(o.state)))
    ensures o.OtherObject? ==> r.Err? && r.error.TypeError?
  {
    match o
    case HandlerObject(h) => Ok(EncodedHandler(Encode(h)))
    case StateObject(s) => Ok(EncodedState(EncodeState(s)))
    case OtherObject(text) => Err(TypeError(EncodeErrorText(text)))
  }

  /** The state named by a `state` entry, built fresh (not yet entered); an
      unknown tag raises `TypeError` and a game entry without its game keys
      raises `KeyError`. */
  function DecodeState(rec: StateRecord): (r: Result<State, Exception>)
    ensures r.Ok? ==> !r.value.entered
    ensures rec.stateName == GreetingTag ==> r == Ok(MakeGreetingState())
    ensures rec.stateName == IdleTag ==> r == Ok(MakeIdleState())
    ensures rec.stateName == GameTag && rec.game.None? ==> r == Err(KeyError("questions"))
    ensures rec.stateName == GameTag && rec.game.Some? ==>
      var g := rec.game.value;
      r == Ok(State(Game(g.gameParameters.(questions := g.questions)), false))
    ensures rec.stateName !in {GreetingTag, IdleTag, GameTag} ==> r == Err(TypeError(UnknownTagText))
  {
    if rec.stateName == GreetingTag then Ok(MakeGreetingState())
    else if rec.stateName == IdleTag then Ok(MakeIdleState())
    else if rec.stateName == GameTag then
      match rec.game
      case None => Err(KeyError("questions"))
      case Some(g) => Ok(State(Game(g.gameParameters.(questions := g.questions)), false))
    else Err(TypeError(UnknownTagText))
  }

  /** `ChatHandlerDecoder.decode_chat_handler`: an unmarked object is handed
      back unchanged; a marked one is rebuilt and goes through
      `ChatHandler.create`, so its state is entered again. */
  function Decode(snap: Snapshot, env: Env, t: Transport): (r: Outcome<Decoded>)
    ensures snap.PlainObject? ==> r == Done(Unchanged(snap), t)
    ensures snap.HandlerRecord? && DecodeState(snap.state).Err? ==> r == Raised(DecodeState(snap.state).error, t)
    ensures snap.HandlerRecord? && DecodeState(snap.state).Ok? ==>
      var created := Create(DecodeState(snap.state).value, snap.chatId, env, t);
      && (created.Raised? ==> r == Raised(created.exception, created.transport))
      && (created.Done? ==> r == Done(DecodedHandler(created.value), created.transport))
  {
    match snap
    case PlainObject(_) => Done(Unchanged(snap), t)
    case HandlerRecord(chatId, rec) =>
      match DecodeState(rec)
      case Err(e) => Raised(e, t)
      case Ok(s) =>
        match Create(s, chatId, env, t)
        case Raised(e, t1) => Raised(e, t1)
        case Done(h, t1) => Done(DecodedHandler(h), t1)
  }

  /** Decoding the entry of a state gives back the same state, not yet entered. */
  lemma DecodeEncodeState(s: State)
    ensures DecodeState(EncodeState(s)) == Ok(State(s.kind, false))
  {
    assert GreetingTag != IdleTag && GreetingTag != GameTag && IdleTag != GameTag;
  }

  /** A `state` entry as the encoder writes it. */
  predicate WellFormedRecord(rec: StateRecord) {
    || ((rec.stateName == GreetingTag || rec.stateName == IdleTag) && rec.game.None?)
    || (rec.stateName == GameTag && rec.game.Some? && rec.game.value.gameParameters.questions == rec.game.value.questions)
  }

  /** The other direction: re-encoding a decoded entry gives back the entry. */
  lemma EncodeDecodeState(rec: StateRecord)
    requires WellFormedRecord(rec)
    ensures DecodeState(rec).Ok? && EncodeState(DecodeState(rec).value) == rec
  {
    assert GreetingTag != IdleTag && GreetingTag != GameTag && IdleTag != GameTag;
  }

  /** The handler a snapshot of `h` decodes to: the same chat and state, where
      a game, being entered again, holds the id of the re-sent question. */
  function Reloaded(h: ChatHandler, t: Transport): ChatHandler {
    match h.state.kind
    case Game(p) => ChatHandler(State(Game(p.(lastQuestionMsgId := t.ids.Current())), true), h.chatId)
    case _ => h
  }

  /** decode(encode(h)) for an entered handler: Greeting and Idle come back
      unchanged and silently; a game comes back with its questions and
      counters, after re-sending its current question. */
  lemma RoundTrip(h: ChatHandler, env: Env, t: Transport)
    requires h.state.entered
    requires h.state.kind.Game? ==> 0 <= h.state.kind.params.currentQuestion < |h.state.kind.params.questions|
    ensures !h.state.kind.Game? ==> Decode(Encode(h), env, t) == Done(DecodedHandler(h), t)
    ensures h.state.kind.Game? ==>
      var p := h.state.kind.params;
      Decode(Encode(h), env, t)
        == Done(DecodedHandler(Reloaded(h, t)), SendMessage(t, QuestionPayload(h.chatId, p.questions[p.currentQuestion])).0)
  {
    DecodeEncodeState(h.state);
  }

  /** With a client that answers one fixed message id, as the test double
      does, a handler whose game already holds that id round-trips exactly. */
  lemma RoundTripWithFixedIds(h: ChatHandler, env: Env, t: Transport)
    requires h.state.entered && t.ids.Fixed?
    requires h.state.kind.Game? ==>
      0 <= h.state.kind.params.currentQuestion < |h.state.kind.params.questions|
      && h.state.kind.params.lastQuestionMsgId == t.ids.id
    ensures Decode(Encode(h), env, t).Done?
    ensures Decode(Encode(h), env, t).value == DecodedHandler(h)
  {
    RoundTrip(h, env, t);
  }

  /** A decoded game is told apart from a game over other questions. */
  lemma RoundTripTellsQuestionSetsApart(h: ChatHandler, other: ChatHandler, env: Env, t: Transport)
    requires h.state.entered && h.state.kind.Game?
    requires 0 <= h.state.kind.params.currentQuestion < |h.state.kind.params.questions|
    requires other.state.kind.Game? && other.state.kind.params.questions != h.state.kind.params.questions
    ensures Decode(Encode(h), env, t).Done?
    ensures !HandlerEquals(Decode(Encode(h), env, t).value.handler, other)
  {
    RoundTrip(h, env, t);
  }
}
