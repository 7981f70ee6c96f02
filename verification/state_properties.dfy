/** Properties of the conversation states of `bot_state.py` that relate
    several operations, and the callback-index discrepancy between
    `format.py` and `GameState._do_process`. */
module StateProperties {
  import opened Wrappers
  import opened Py
  import opened Utils
  import opened Telegram
  import opened Storage
  import opened Format
  import opened States
  import QuestionStorage

  /** The bounds a game keeps across answers, including the moment its last
      question has just been answered. */
  predicate GameBounds(p: GameParams) {
    0 <= p.score <= p.currentQuestion <= |p.questions|
  }

  /** The callback data of the `i`-th button under question `q`. */
  function TapData(q: Question, i: int): string
    requires 0 <= i < |q.answers|
  {
    MakeKeyboard(q).inlineKeyboard[0][i].callbackData
  }

  /** What an answer, in range or not, does to a running game. */
  predicate KeepsBounds(p: GameParams, r: Outcome<Transition>) {
    && r.Done?
    && r.value.current.kind.Game? && r.value.current.kind.params.questions == p.questions
    && GameBounds(r.value.current.kind.params)
    && (r.value.next.kind.Game? ==> r.value.next == r.value.current && ActiveGame(r.value.next.kind.params))
    && (!r.value.next.kind.Game? ==>
          r.value.next == MakeIdleState() && r.value.current.kind.params.currentQuestion == |p.questions|)
  }

  lemma AnswerKeepsBounds(p: GameParams, chatId: int, answer: int, env: Env, t: Transport)
    requires ActiveGame(p)
    ensures KeepsBounds(p, AnswerAt(p, chatId, answer, env, t))
  {
    var q := p.questions[p.currentQuestion];
    if 0 <= answer < |q.answers| {
      var p1 := Answered(p, q, answer);
      assert p1.score <= p1.currentQuestion;
    }
  }

  /** A running game only ever raises for a malformed update or unparseable
      callback data; it keeps its questions and its bounds; it either stays
      the same running game or, after its last question, hands over to a
      fresh Idle state. This holds for every reading of callback data, the
      source's as well as the corrected one. */
  lemma GameStepKeepsBounds(callbackIndex: string -> Option<int>, p: GameParams, u: Update, env: Env, t: Transport)
    requires ActiveGame(p)
    ensures var r := ProcessWith(callbackIndex, State(Game(p), true), u, env, t);
      && (r.Raised? ==> r.exception == AssertionError || r.exception.InvalidCallbackData?)
      && (r.Done? ==> KeepsBounds(p, r))
  {
    var r := ProcessWith(callbackIndex, State(Game(p), true), u, env, t);
    if ChatId(u).Ok? {
      var chatId := ChatId(u).value;
      if u.message.Some? {
        match ParseInt(u.message.value.text)
        case None =>
        case Some(n) => AnswerKeepsBounds(p, chatId, n - 1, env, t);
      } else {
        match callbackIndex(u.callbackQuery.value.data)
        case None =>
        case Some(i) => AnswerKeepsBounds(p, chatId, i, env, t);
      }
    }
  }

  /** A text answer `n` names answer `n - 1`: the question message is edited,
      one more question counts as asked, and a point is scored exactly when
      answer `n - 1` is the correct one. */
  lemma TextAnswerIsOneBased(callbackIndex: string -> Option<int>, p: GameParams, updateId: int, chatId: int, text: string, env: Env, t: Transport)
    requires ActiveGame(p)
    requires ParseInt(text).Some? && 1 <= ParseInt(text).value <= |p.questions[p.currentQuestion].answers|
    ensures var q := p.questions[p.currentQuestion];
      var n := ParseInt(text).value;
      var r := ProcessWith(callbackIndex, State(Game(p), true), TextUpdate(updateId, chatId, text), env, t);
      && r.Done?
      && r.value.current.kind.Game?
      && r.value.current.kind.params.currentQuestion == p.currentQuestion + 1
      && r.value.current.kind.params.score == p.score + (if n - 1 == q.correctAnswer then 1 else 0)
      && r.transport.log[..|t.log| + 1] == t.log + [Edited(MessageEdit(chatId, p.lastQuestionMsgId, env.render(n - 1, q)))]
  {
  }

  /** Text that is not a number (the empty text included) is answered with
      the help message and leaves the game exactly as it was. */
  lemma UnparseableTextChangesNothing(callbackIndex: string -> Option<int>, p: GameParams, updateId: int, chatId: int, text: string, env: Env, t: Transport)
    requires ParseInt(text).None?
    ensures ProcessWith(callbackIndex, State(Game(p), true), TextUpdate(updateId, chatId, text), env, t)
      == Done(Stay(State(Game(p), true)), SendText(t, chatId, AnswerHelpText, None).0)
  {
  }

  /** A number outside 1..N for a question with N answers is answered with the
      range hint and leaves the game exactly as it was. */
  lemma OutOfRangeAnswerChangesNothing(callbackIndex: string -> Option<int>, p: GameParams, updateId: int, chatId: int, text: string, env: Env, t: Transport)
    requires ActiveGame(p)
    requires ParseInt(text).Some?
    requires var n := ParseInt(text).value; n < 1 || n > |p.questions[p.currentQuestion].answers|
    ensures var n := |p.questions[p.currentQuestion].answers|;
      ProcessWith(callbackIndex, State(Game(p), true), TextUpdate(updateId, chatId, text), env, t)
        == Done(Stay(State(Game(p), true)), SendText(t, chatId, RangeHelpText(n), None).0)
  {
  }

  /** As written, tapping button `i` answers `i + 1`: the button's 1-based
      callback data is used as a 0-based index. */
  lemma AsWrittenTapSelectsNextAnswer(p: GameParams, updateId: int, userId: int, i: int, env: Env, t: Transport)
    requires ActiveGame(p)
    requires 0 <= i < |p.questions[p.currentQuestion].answers|
    ensures var q := p.questions[p.currentQuestion];
      ProcessAsWritten(State(Game(p), true), CallbackUpdate(updateId, userId, TapData(q, i)), env, t)
        == HandleAnswer(p, q, userId, i + 1, env, t)
  {
  }

  /** As written, the last button of every question is rejected as out of
      range. */
  lemma AsWrittenLastButtonIsRejected(p: GameParams, updateId: int, userId: int, env: Env, t: Transport)
    requires ActiveGame(p)
    requires |p.questions[p.currentQuestion].answers| > 0
    ensures var q := p.questions[p.currentQuestion];
      var n := |q.answers|;
      ProcessAsWritten(State(Game(p), true), CallbackUpdate(updateId, userId, TapData(q, n - 1)), env, t)
        == Done(Stay(State(Game(p), true)), SendText(t, userId, RangeHelpText(n), None).0)
  {
    AsWrittenTapSelectsNextAnswer(p, updateId, userId, |p.questions[p.currentQuestion].answers| - 1, env, t);
  }

  /** As written, a player who taps "blue" for "What is the color of sky?"
      (whose correct answer is "blue") scores nothing. */
  lemma AsWrittenCorrectTapIsNotScored(env: Env, t: Transport)
    ensures var p := GameParams(QuestionStorage.Fixture, 0, 0, 0);
      var q := QuestionStorage.Fixture[0];
      && q.answers[q.correctAnswer] == "blue"
      && var r := ProcessAsWritten(State(Game(p), true), CallbackUpdate(1, 7, TapData(q, 1)), env, t);
      && r.Done? && r.value.current.kind.Game? && r.value.current.kind.params.score == 0
  {
    var p := GameParams(QuestionStorage.Fixture, 0, 0, 0);
    AsWrittenTapSelectsNextAnswer(p, 1, 7, 1, env, t);
  }

  /** With callback data read as the keyboard writes it, tapping button `i`
      answers `i`. */
  lemma TapSelectsItsAnswer(p: GameParams, updateId: int, userId: int, i: int, env: Env, t: Transport)
    requires ActiveGame(p)
    requires 0 <= i < |p.questions[p.currentQuestion].answers|
    ensures var q := p.questions[p.currentQuestion];
      Process(State(Game(p), true), CallbackUpdate(updateId, userId, TapData(q, i)), env, t)
        == HandleAnswer(p, q, userId, i, env, t)
  {
  }

  /** With callback data read as the keyboard writes it, tapping the correct
      answer's button scores a point. */
  lemma CorrectTapScores(p: GameParams, updateId: int, userId: int, env: Env, t: Transport)
    requires ActiveGame(p)
    requires WellFormed(p.questions[p.currentQuestion])
    ensures var q := p.questions[p.currentQuestion];
      var r := Process(State(Game(p), true), CallbackUpdate(updateId, userId, TapData(q, q.correctAnswer)), env, t);
      && r.Done? && r.value.current.kind.Game? && r.value.current.kind.params.score == p.score + 1
  {
    TapSelectsItsAnswer(p, updateId, userId, p.questions[p.currentQuestion].correctAnswer, env, t);
  }

  /** Tapping the same button under a text answer's numbering: text `n` and
      the `n`-th button give the same answer. */
  lemma TapAgreesWithTextAnswer(p: GameParams, updateId: int, chatId: int, i: int, env: Env, t: Transport)
    requires ActiveGame(p)
    requires 0 <= i < |p.questions[p.currentQuestion].answers|
    ensures var q := p.questions[p.currentQuestion];
      Process(State(Game(p), true), CallbackUpdate(updateId, chatId, TapData(q, i)), env, t)
        == Process(State(Game(p), true), TextUpdate(updateId, chatId, TapData(q, i)), env, t)
  {
  }

  /** Under the reading `callbackIndex`, update `u` from `userId` picks answer
      `i`: either a message whose text is the 1-based number of that answer,
      or a button tap whose data the reading takes to `i`. */
  predicate Picks(callbackIndex: string -> Option<int>, u: Update, userId: int, i: int) {
    || (&& u.message.Some? && u.callbackQuery.None?
        && u.message.value.chat.id == userId && u.message.value.text == ShowInt(i + 1))
    || (&& u.message.None? && u.callbackQuery.Some?
        && u.callbackQuery.value.sender.id == userId && callbackIndex(u.callbackQuery.value.data) == Some(i))
  }

  /** Whatever the reading of callback data, an update that picks answer `i`
      is handled as the answer `i` to the current question. */
  lemma PickedAnswerIsHandled(callbackIndex: string -> Option<int>, p: GameParams, u: Update, userId: int, i: int, env: Env, t: Transport)
    requires ActiveGame(p)
    requires Picks(callbackIndex, u, userId, i)
    ensures ProcessWith(callbackIndex, State(Game(p), true), u, env, t)
      == HandleAnswer(p, p.questions[p.currentQuestion], userId, i, env, t)
  {
    if u.message.Some? {
      ParseShowInt(i + 1);
    }
  }

  /** Tapping button `i` picks answer `i` under the corrected reading, and
      answer `i + 1` under the source's. */
  lemma TapPicks(q: Question, updateId: int, userId: int, i: int)
    requires 0 <= i < |q.answers|
    ensures Picks(CallbackIndex, CallbackUpdate(updateId, userId, TapData(q, i)), userId, i)
    ensures Picks(CallbackIndexAsWritten, CallbackUpdate(updateId, userId, TapData(q, i)), userId, i + 1)
  {
    KeyboardDataIsOneBased(q, i);
    ParseShowInt(i + 1);
  }

  /** Greeting answers any well-formed update with the welcome text and hands
      over to a fresh Idle state, which differs from it and so gets entered. */
  lemma GreetingHandsOverToIdle(callbackIndex: string -> Option<int>, u: Update, env: Env, t: Transport)
    requires ChatId(u).Ok?
    ensures var r := ProcessWith(callbackIndex, State(Greeting, true), u, env, t);
      && r.Done?
      && r.value.next == MakeIdleState() && r.value.next != r.value.current
      && r.transport.log == t.log + [Sent(SendMessagePayload(ChatId(u).value, GreetingText, None))]
  {
  }

  /** The command the Idle prompt suggests, with its capital G, starts a game. */
  lemma PromptedCommandStartsGame(callbackIndex: string -> Option<int>, updateId: int, chatId: int, env: Env, t: Transport)
    requires env.source.Some?
    ensures var r := ProcessWith(callbackIndex, State(Idle, true), TextUpdate(updateId, chatId, "/startGame"), env, t);
      && r.Done? && r.value.next == MakeGameState(env).value && r.value.next != r.value.current
      && r.transport.log == t.log + [Sent(SendMessagePayload(chatId, StartingGameText, None))]
  {
    assert Lower("/startGame") == StartCommand;
  }

  /** Idle ignores button taps: same state, nothing sent. */
  lemma IdleIgnoresTaps(callbackIndex: string -> Option<int>, updateId: int, userId: int, data: string, env: Env, t: Transport)
    ensures ProcessWith(callbackIndex, State(Idle, true), CallbackUpdate(updateId, userId, data), env, t) == Done(Stay(State(Idle, true)), t)
  {
  }

  /** Idle answers any other text with the prompt and stays. */
  lemma IdlePromptsOnOtherText(callbackIndex: string -> Option<int>, updateId: int, chatId: int, text: string, env: Env, t: Transport)
    requires Lower(text) != StartCommand
    ensures ProcessWith(callbackIndex, State(Idle, true), TextUpdate(updateId, chatId, text), env, t)
      == Done(Stay(State(Idle, true)), SendText(t, chatId, IdlePromptText, None).0)
  {
  }

  /** `on_enter` runs once per state object: the state it leaves behind is
      marked entered, and entering it again fails the assertion. */
  lemma EnterRunsOnce(s: State, chatId: int, env: Env, t: Transport)
    requires Enter(s, chatId, env, t).Done?
    ensures var r := Enter(s, chatId, env, t);
      && !s.entered && r.value.entered && SameVariant(r.value.kind, s.kind)
      && Enter(r.value, chatId, env, r.transport) == Raised(AssertionError, r.transport)
  {
  }

  /** A state that was never entered refuses to process anything. */
  lemma ProcessNeedsEnter(s: State, u: Update, env: Env, t: Transport)
    requires !s.entered
    ensures Process(s, u, env, t) == Raised(AssertionError, t)
    ensures ProcessAsWritten(s, u, env, t) == Raised(AssertionError, t)
  {
  }

  /** Callback data that is not a number raises `InvalidCallbackDataException`
      carrying that data, before anything is sent or changed. */
  lemma MalformedTapRaises(p: GameParams, updateId: int, userId: int, data: string, env: Env, t: Transport)
    requires ParseInt(data).None?
    ensures Process(State(Game(p), true), CallbackUpdate(updateId, userId, data), env, t)
      == Raised(InvalidCallbackData(data), t)
    ensures ProcessAsWritten(State(Game(p), true), CallbackUpdate(updateId, userId, data), env, t)
      == Raised(InvalidCallbackData(data), t)
  {
  }

  /** An update carrying neither a message nor a button tap makes a game fail
      on `Update.chat_id` before anything is sent. */
  lemma GameRejectsEmptyUpdate(callbackIndex: string -> Option<int>, p: GameParams, updateId: int, env: Env, t: Transport)
    ensures ProcessWith(callbackIndex, State(Game(p), true), Update(updateId, None, None, None), env, t) == Raised(AssertionError, t)
  {
  }

  /** The two readings of callback data differ only on button taps: for any
      update without one, the source as written and the corrected model take
      the same step, whatever the state. */
  lemma ReadingsAgreeOnText(s: State, u: Update, env: Env, t: Transport)
    requires u.callbackQuery.None?
    ensures ProcessAsWritten(s, u, env, t) == Process(s, u, env, t)
  {
  }
}
