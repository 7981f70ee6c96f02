/** `bot_state.py`: the per-chat conversation states (Greeting, Idle, Game),
    their `on_enter` and `process` operations, and the factory that builds
    fresh states.

    A state is a value carrying the "on_enter already called" flag. Where the
    source mutates a `GameState` in place and returns `self`, `Process` returns
    a `Transition` whose `current` is the value the state object holds after
    the call and whose `next` is the state returned; returning `self` is
    `next == current`. */
module States {
  import opened Wrappers
  import opened Py
  import opened Utils
  import opened Telegram
  import opened Storage
  import opened Format

  const StartCommand: string := "/startgame"
  const StartingGameText: string := "Starting game!"
  const IdlePromptText: string := "Type /startGame to start a new game."
  const GreetingText: string := "Hello. I am Trivia Bot. If you want to play the game,\nplease type /startGame"
  const AnswerHelpText: string := "Please, type the number of your supposed answer"
  const StorageMissingText: string := "Storage must be chosen for creating game state"
  /** How many questions a new game asks for. */
  const QuestionCount: int := 5

  function RangeHelpText(answerCount: int): string {
    "Type the number from 1 to " + ShowInt(answerCount)
  }

  /** The second line of the end-of-game summary. */
  const RetryText: string := "If you want to try again, type /startGame to start a new game."

  function SummaryText(score: int, asked: int): string {
    "You got " + ShowInt(score) + " points out of " + ShowInt(asked) + ".\n" + RetryText
  }

  /** `ProtoGameState`: the serializable part of a game. */
  datatype GameParams = GameParams(questions: seq<Question>, currentQuestion: int, score: int, lastQuestionMsgId: int)

  datatype Kind = Greeting | Idle | Game(params: GameParams)

  /** A bot state and whether its `on_enter` has been called. */
  datatype State = State(kind: Kind, entered: bool)

  /** The outcome of `process`: the state object's value afterwards, and the
      state it returned. */
  datatype Transition = Transition(current: State, next: State)

  /** What the factory injects into states: the question storage (absent when
      none was configured) and the renderer of an answered question
      (`make_answered_question_message`, which format.py does not define, so
      it stays a parameter). */
  datatype Env = Env(source: Option<seq<Question>>, render: (int, Question) -> string)

  function Stay(s: State): Transition {
    Transition(s, s)
  }

  /** A running game: at rest, a game is always waiting for the answer to one
      of its questions. */
  predicate ActiveGame(p: GameParams) {
    0 <= p.score <= p.currentQuestion < |p.questions|
  }

  predicate SameVariant(a: Kind, b: Kind) {
    (a.Greeting? && b.Greeting?) || (a.Idle? && b.Idle?) || (a.Game? && b.Game?)
  }

  /** `BotState.__eq__` and `GameState.__eq__`: same class and same entered
      flag, and for games equal parameters. */
  predicate StateEquals(a: State, b: State) {
    if a.kind.Game? then b.kind.Game? && a.kind.params == b.kind.params && a.entered == b.entered
    else SameVariant(a.kind, b.kind) && a.entered == b.entered
  }

  /** The source's equality on states is exactly equality of the values. */
  lemma StateEqualsIsEquality(a: State, b: State)
    ensures StateEquals(a, b) <==> a == b
  {
  }

  function MakeIdleState(): (s: State)
    ensures s.kind.Idle? && !s.entered
  {
    State(Idle, false)
  }

  function MakeGreetingState(): (s: State)
    ensures s.kind.Greeting? && !s.entered
  {
    State(Greeting, false)
  }

  /** `BotStateFactory.make_game_state`: a fresh game over the first five
      stored questions, with every counter at 0; `TypeError` without storage. */
  function MakeGameState(env: Env): (r: Result<State, Exception>)
    ensures r.Err? <==> env.source.None?
    ensures r.Err? ==> r.error == TypeError(StorageMissingText)
    ensures r.Ok? ==> !r.value.entered && r.value.kind.Game?
    ensures r.Ok? ==> r.value.kind.params.questions <= env.source.value
    ensures r.Ok? ==> |r.value.kind.params.questions| == (if |env.source.value| < QuestionCount then |env.source.value| else QuestionCount)
    ensures r.Ok? ==> r.value.kind.params.currentQuestion == 0 && r.value.kind.params.score == 0
    ensures r.Ok? ==> r.value.kind.params.lastQuestionMsgId == 0
  {
    if env.source.None? then Err(TypeError(StorageMissingText))
    else Ok(State(Game(GameParams(GetQuestions(env.source.value, QuestionCount), 0, 0, 0)), false))
  }

  /** The message that asks question `q`: its text and its answer keyboard. */
  function QuestionPayload(chatId: int, q: Question): SendMessagePayload {
    SendMessagePayload(chatId, q.text, Some(MakeKeyboard(q)))
  }

  /** `BotState.on_enter`: may be called once only. Greeting and Idle do nothing
      more; a game sends its current question and records the new message's id
      as the one to edit on the next answer. */
  function Enter(s: State, chatId: int, env: Env, t: Transport): (r: Outcome<State>)
    ensures s.entered ==> r == Raised(AssertionError, t)
    ensures !s.entered && !s.kind.Game? ==> r == Done(State(s.kind, true), t)
    ensures !s.entered && s.kind.Game? ==>
      var p := s.kind.params;
      && (r.Raised? <==> !(-|p.questions| <= p.currentQuestion < |p.questions|))
      && (r.Raised? ==> r == Raised(IndexError, t))
      && (r.Done? ==> r.value == State(Game(p.(lastQuestionMsgId := t.ids.Current())), true))
      && (0 <= p.currentQuestion < |p.questions| ==>
            r.transport.log == t.log + [Sent(QuestionPayload(chatId, p.questions[p.currentQuestion]))])
  {
    if s.entered then Raised(AssertionError, t)
    else match s.kind
      case Greeting => Done(State(s.kind, true), t)
      case Idle => Done(State(s.kind, true), t)
      case Game(p) =>
        match Index(p.questions, p.currentQuestion)
        case Err(e) => Raised(e, t)
        case Ok(q) =>
          var (t1, id) := SendMessage(t, QuestionPayload(chatId, q));
          Done(State(Game(p.(lastQuestionMsgId := id)), true), t1)
  }

  /** `GreetingState._do_process`: whatever the update, greet the sender and
      move to a fresh Idle state. */
  function GreetingProcess(s: State, u: Update, t: Transport): (r: Outcome<Transition>)
    ensures ChatId(u).Err? ==> r == Raised(AssertionError, t)
    ensures ChatId(u).Ok? ==> r == Done(Transition(s, MakeIdleState()),
                                         SendText(t, ChatId(u).value, GreetingText, None).0)
  {
    match ChatId(u)
    case Err(e) => Raised(e, t)
    case Ok(chatId) => Done(Transition(s, MakeIdleState()), SendText(t, chatId, GreetingText, None).0)
  }

  /** `IdleState._do_process`: the start command (in any letter case) announces
      the game and moves to a fresh game; other text is answered with a prompt;
      updates without a message are ignored. */
  function IdleProcess(s: State, u: Update, env: Env, t: Transport): (r: Outcome<Transition>)
    ensures u.message.None? ==> r == Done(Stay(s), t)
    ensures u.message.Some? && Lower(u.message.value.text) != StartCommand ==>
      r == Done(Stay(s), SendText(t, u.message.value.chat.id, IdlePromptText, None).0)
    ensures u.message.Some? && Lower(u.message.value.text) == StartCommand ==>
      var t1 := SendText(t, u.message.value.chat.id, StartingGameText, None).0;
      && (env.source.None? ==> r == Raised(TypeError(StorageMissingText), t1))
      && (env.source.Some? ==> r == Done(Transition(s, MakeGameState(env).value), t1))
  {
    if u.message.None? then Done(Stay(s), t)
    else
      var chatId := u.message.value.chat.id;
      if Lower(u.message.value.text) == StartCommand then
        var t1 := SendText(t, chatId, StartingGameText, None).0;
        match MakeGameState(env)
        case Err(e) => Raised(e, t1)
        case Ok(g) => Done(Transition(s, g), t1)
      else
        Done(Stay(s), SendText(t, chatId, IdlePromptText, None).0)
  }

  /** How the source reads callback data: the parsed number, used as a 0-based
      answer index without adjustment. */
  function CallbackIndexAsWritten(data: string): (r: Option<int>)
    ensures r.Some? <==> IsSignedNumeral(data)
    ensures r.Some? ==> CallbackIndex(data) == Some(r.value - 1)
  {
    ParseInt(data)
  }

  /** Callback data read consistently with `MakeKeyboard`, which writes 1-based
      positions: the parsed number minus one. */
  function CallbackIndex(data: string): (r: Option<int>)
    ensures r.Some? <==> ParseInt(data).Some?
    ensures r.Some? ==> r.value == ParseInt(data).value - 1
  {
    match ParseInt(data)
    case None => None
    case Some(n) => Some(n - 1)
  }

  /** The game after an in-range answer `answer` to question `q` has been
      counted: one more question asked, one more point if it was right. */
  function Answered(p: GameParams, q: Question, answer: int): (p': GameParams)
    ensures p'.questions == p.questions && p'.lastQuestionMsgId == p.lastQuestionMsgId
    ensures p'.currentQuestion == p.currentQuestion + 1
    ensures p'.score == p.score + (if answer == q.correctAnswer then 1 else 0)
  {
    var score := if answer == q.correctAnswer then p.score + 1 else p.score;
    GameParams(p.questions, p.currentQuestion + 1, score, p.lastQuestionMsgId)
  }

  /** `GameState._handle_answer` for a 0-based `answer`, where `q` is the
      question at the current position (read from the end of the list when
      the position is negative, as Python indexing does). */
  function HandleAnswer(p: GameParams, q: Question, chatId: int, answer: int, env: Env, t: Transport): (r: Outcome<Transition>)
    ensures (answer < 0 || answer >= |q.answers|) ==>
      r == Done(Stay(State(Game(p), true)), SendText(t, chatId, RangeHelpText(|q.answers|), None).0)
    ensures 0 <= p.currentQuestion < |p.questions| && 0 <= answer < |q.answers| ==>
      var p1 := Answered(p, q, answer);
      var edited := EditMessageText(t, MessageEdit(chatId, p.lastQuestionMsgId, env.render(answer, q)));
      && r.Done?
      && (p1.currentQuestion < |p.questions| ==>
            var (t2, id) := SendMessage(edited, QuestionPayload(chatId, p.questions[p1.currentQuestion]));
            r == Done(Stay(State(Game(p1.(lastQuestionMsgId := id)), true)), t2))
      && (p1.currentQuestion == |p.questions| ==>
            r == Done(Transition(State(Game(p1), true), MakeIdleState()),
                      SendText(edited, chatId, SummaryText(p1.score, p1.currentQuestion), None).0))
  {
    if answer < 0 || answer >= |q.answers| then
      Done(Stay(State(Game(p), true)), SendText(t, chatId, RangeHelpText(|q.answers|), None).0)
    else
      var p1 := Answered(p, q, answer);
      var t1 := EditMessageText(t, MessageEdit(chatId, p.lastQuestionMsgId, env.render(answer, q)));
      if p1.currentQuestion != |p.questions| then
        match Index(p.questions, p1.currentQuestion)
        case Err(e) => Raised(e, t1)
        case Ok(next) =>
          var (t2, id) := SendMessage(t1, QuestionPayload(chatId, next));
          Done(Stay(State(Game(p1.(lastQuestionMsgId := id)), true)), t2)
      else
        Done(Transition(State(Game(p1), true), MakeIdleState()),
             SendText(t1, chatId, SummaryText(p1.score, p1.currentQuestion), None).0)
  }

  /** `_handle_answer` including the lookup of the current question, which
      raises `IndexError` when the game has no question at that position. */
  function AnswerAt(p: GameParams, chatId: int, answer: int, env: Env, t: Transport): (r: Outcome<Transition>)
    ensures 0 <= p.currentQuestion < |p.questions| ==>
      r == HandleAnswer(p, p.questions[p.currentQuestion], chatId, answer, env, t)
    ensures !(-|p.questions| <= p.currentQuestion < |p.questions|) ==> r == Raised(IndexError, t)
  {
    match Index(p.questions, p.currentQuestion)
    case Err(e) => Raised(e, t)
    case Ok(q) => HandleAnswer(p, q, chatId, answer, env, t)
  }

  /** `GameState._do_process`, with the reading of callback data as a
      parameter. Text answers are 1-based; unparseable text gets the help
      message and changes nothing; unparseable callback data raises. */
  function GameProcessWith(callbackIndex: string -> Option<int>, p: GameParams, u: Update, env: Env, t: Transport): (r: Outcome<Transition>)
    ensures ChatId(u).Err? ==> r == Raised(AssertionError, t)
    ensures ChatId(u).Ok? && u.message.Some? ==>
      var chatId := ChatId(u).value;
      && (ParseInt(u.message.value.text).None? ==>
            r == Done(Stay(State(Game(p), true)), SendText(t, chatId, AnswerHelpText, None).0))
      && (ParseInt(u.message.value.text).Some? ==>
            r == AnswerAt(p, chatId, ParseInt(u.message.value.text).value - 1, env, t))
    ensures ChatId(u).Ok? && u.message.None? ==>
      var data := u.callbackQuery.value.data;
      && (callbackIndex(data).None? ==> r == Raised(InvalidCallbackData(data), t))
      && (callbackIndex(data).Some? ==> r == AnswerAt(p, ChatId(u).value, callbackIndex(data).value, env, t))
  {
    match ChatId(u)
    case Err(e) => Raised(e, t)
    case Ok(chatId) =>
      if u.message.Some? then
        match ParseInt(u.message.value.text)
        case None => Done(Stay(State(Game(p), true)), SendText(t, chatId, AnswerHelpText, None).0)
        case Some(n) => AnswerAt(p, chatId, n - 1, env, t)
      else
        // `ChatId` succeeded without a message, so there is a callback query.
        var data := u.callbackQuery.value.data;
        match callbackIndex(data)
        case None => Raised(InvalidCallbackData(data), t)
        case Some(i) => AnswerAt(p, chatId, i, env, t)
  }

  /** `BotState.process` with the given reading of callback data: only an
      entered state may process, and the variant decides the rest. */
  function ProcessWith(callbackIndex: string -> Option<int>, s: State, u: Update, env: Env, t: Transport): (r: Outcome<Transition>)
    ensures !s.entered ==> r == Raised(AssertionError, t)
    ensures r.Done? ==> r.value.current.entered
    ensures r.Done? ==> r.value.next == r.value.current || !r.value.next.entered
    ensures r.Done? ==> SameVariant(r.value.current.kind, s.kind)
  {
    if !s.entered then Raised(AssertionError, t)
    else match s.kind
      case Greeting => GreetingProcess(s, u, t)
      case Idle => IdleProcess(s, u, env, t)
      case Game(p) => GameProcessWith(callbackIndex, p, u, env, t)
  }

  /** `BotState.process` as the source writes it: callback data is taken as a
      0-based answer index. */
  function ProcessAsWritten(s: State, u: Update, env: Env, t: Transport): (r: Outcome<Transition>)
    ensures !s.entered ==> r == Raised(AssertionError, t)
    ensures r.Done? ==> r.value.current.entered
    ensures r.Done? ==> r.value.next == r.value.current || !r.value.next.entered
    ensures r.Done? ==> SameVariant(r.value.current.kind, s.kind)
  {
    ProcessWith(CallbackIndexAsWritten, s, u, env, t)
  }

  /** `BotState.process` with callback data read as the 1-based positions the
      keyboard writes: the corrected model. */
  function Process(s: State, u: Update, env: Env, t: Transport): (r: Outcome<Transition>)
    ensures !s.entered ==> r == Raised(AssertionError, t)
    ensures r.Done? ==> r.value.current.entered
    ensures r.Done? ==> r.value.next == r.value.current || !r.value.next.entered
    ensures r.Done? ==> SameVariant(r.value.current.kind, s.kind)
  {
    ProcessWith(CallbackIndex, s, u, env, t)
  }
}
