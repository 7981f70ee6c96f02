/** Properties of `chat_handler.py` driving the states of `bot_state.py`,
    under any reading of callback data unless a lemma names one. */
module HandlerProperties {
  import opened Wrappers
  import opened Py
  import opened Utils
  import opened Telegram
  import opened Storage
  import opened States
  import opened Handler
  import opened StateProperties
  import QuestionStorage

  /** A state that returns itself is never entered again: the handler adds
      nothing to what the state sent, and keeps the state as it now is. */
  lemma StayingIsNotReEntered(callbackIndex: string -> Option<int>, h: ChatHandler, u: Update, env: Env, t: Transport)
    requires ProcessWith(callbackIndex, h.state, u, env, t).Done?
    requires ProcessWith(callbackIndex, h.state, u, env, t).value.next == ProcessWith(callbackIndex, h.state, u, env, t).value.current
    ensures var step := ProcessWith(callbackIndex, h.state, u, env, t);
      Handler.Process(callbackIndex, h, u, env, t) == Done(ChatHandler(step.value.current, h.chatId), step.transport)
  {
  }

  /** A state that returns a different state hands over: the new state is
      entered exactly once, on the handler's chat. */
  lemma ChangingStateEntersIt(callbackIndex: string -> Option<int>, h: ChatHandler, u: Update, env: Env, t: Transport)
    requires ProcessWith(callbackIndex, h.state, u, env, t).Done?
    requires ProcessWith(callbackIndex, h.state, u, env, t).value.next != ProcessWith(callbackIndex, h.state, u, env, t).value.current
    ensures var step := ProcessWith(callbackIndex, h.state, u, env, t);
      var r := Handler.Process(callbackIndex, h, u, env, t);
      && !step.value.next.entered
      && r.transport == Enter(step.value.next, h.chatId, env, step.transport).transport
      && (r.Done? ==> r.value.state == Enter(step.value.next, h.chatId, env, step.transport).value)
  {
  }

  /** An update picking answer `i` to a question that is not the last one
      goes through the handler without re-sending the question: the log
      grows by the edit and the next question only. */
  lemma MidGameAnswerIsNotReEntered(callbackIndex: string -> Option<int>, p: GameParams, chatId: int, u: Update, userId: int, i: int, env: Env, t: Transport)
    requires ActiveGame(p) && p.currentQuestion + 1 < |p.questions|
    requires 0 <= i < |p.questions[p.currentQuestion].answers|
    requires Picks(callbackIndex, u, userId, i)
    ensures var q := p.questions[p.currentQuestion];
      var r := Handler.Process(callbackIndex, ChatHandler(State(Game(p), true), chatId), u, env, t);
      && r.Done? && r.value.state.kind.Game?
      && r.value.state.kind.params.currentQuestion == p.currentQuestion + 1
      && r.transport.log == t.log + [
           Edited(MessageEdit(userId, p.lastQuestionMsgId, env.render(i, q))),
           Sent(QuestionPayload(userId, p.questions[p.currentQuestion + 1]))]
  {
    PickedAnswerIsHandled(callbackIndex, p, u, userId, i, env, t);
  }

  /** An update picking answer `i` to the last question sends the score
      summary and hands over to an entered Idle state. */
  lemma LastAnswerEndsGame(callbackIndex: string -> Option<int>, p: GameParams, chatId: int, u: Update, userId: int, i: int, env: Env, t: Transport)
    requires ActiveGame(p) && p.currentQuestion + 1 == |p.questions|
    requires 0 <= i < |p.questions[p.currentQuestion].answers|
    requires Picks(callbackIndex, u, userId, i)
    ensures var q := p.questions[p.currentQuestion];
      var r := Handler.Process(callbackIndex, ChatHandler(State(Game(p), true), chatId), u, env, t);
      var score := p.score + (if i == q.correctAnswer then 1 else 0);
      && r.Done? && r.value == ChatHandler(State(Idle, true), chatId)
      && r.transport.log == t.log + [
           Edited(MessageEdit(userId, p.lastQuestionMsgId, env.render(i, q))),
           Sent(SendMessagePayload(userId, SummaryText(score, |p.questions|), None))]
  {
    PickedAnswerIsHandled(callbackIndex, p, u, userId, i, env, t);
  }

  lemma ProcessAllStep(callbackIndex: string -> Option<int>, h: ChatHandler, u: Update, us: seq<Update>, env: Env, t: Transport)
    requires Handler.Process(callbackIndex, h, u, env, t).Done?
    ensures var r := Handler.Process(callbackIndex, h, u, env, t);
      ProcessAll(callbackIndex, h, [u] + us, env, t) == ProcessAll(callbackIndex, r.value, us, env, r.transport)
  {
    assert ([u] + us)[1..] == us;
  }

  /** Every question from position `k` on names one of its answers as correct. */
  predicate AllWellFormed(qs: seq<Question>, k: nat) {
    forall j :: k <= j < |qs| ==> WellFormed(qs[j])
  }

  /** Taps on the correct answer of every question from position `k` on. */
  function CorrectTaps(qs: seq<Question>, k: nat, userId: int): (us: seq<Update>)
    requires AllWellFormed(qs, k)
    ensures |us| == if k < |qs| then |qs| - k else 0
    ensures k <= |qs| ==> PicksCorrectAnswers(CallbackIndex, qs, k, us, userId)
  {
    if k >= |qs| then []
    else
      var us := seq(|qs| - k, j requires 0 <= j < |qs| - k =>
                  assert WellFormed(qs[k + j]);
                  CallbackUpdate(1, userId, TapData(qs[k + j], qs[k + j].correctAnswer)));
      assert PicksCorrectAnswers(CallbackIndex, qs, k, us, userId) by {
        forall j | 0 <= j < |us|
          ensures WellFormed(qs[k + j]) && Picks(CallbackIndex, us[j], userId, qs[k + j].correctAnswer)
        {
          assert WellFormed(qs[k + j]);
          TapPicks(qs[k + j], 1, userId, qs[k + j].correctAnswer);
        }
      }
      us
  }

  /** Texts naming, 1-based, the correct answer of every question from
      position `k` on. */
  function CorrectTexts(qs: seq<Question>, k: nat, chatId: int): (us: seq<Update>)
    ensures |us| == if k < |qs| then |qs| - k else 0
  {
    if k >= |qs| then []
    else seq(|qs| - k, j requires 0 <= j < |qs| - k => TextUpdate(1, chatId, ShowInt(qs[k + j].correctAnswer + 1)))
  }

  /** Under the reading `callbackIndex`, the updates `us` pick, one by one,
      the correct answer of every question from position `k` on. */
  predicate PicksCorrectAnswers(callbackIndex: string -> Option<int>, qs: seq<Question>, k: nat, us: seq<Update>, userId: int) {
    && k + |us| == |qs|
    && forall j :: 0 <= j < |us| ==> WellFormed(qs[k + j]) && Picks(callbackIndex, us[j], userId, qs[k + j].correctAnswer)
  }

  /** How a game of `n` questions ends when every answer was right: in an
      entered Idle state, the last message sent being the summary
      "You got n points out of n.". */
  predicate FullMarks(r: Outcome<ChatHandler>, chatId: int, userId: int, n: int) {
    && r.Done?
    && r.value == ChatHandler(State(Idle, true), chatId)
    && |r.transport.log| > 0
    && r.transport.log[|r.transport.log| - 1] == Sent(SendMessagePayload(userId, SummaryText(n, n), None))
  }

  /** Where a correct pick on a question that is not the last one leaves the
      handler: still a game over the same questions, one point and one
      question further. */
  lemma CorrectMidGamePick(callbackIndex: string -> Option<int>, p: GameParams, chatId: int, u: Update, userId: int, env: Env, t: Transport)
      returns (p1: GameParams, t1: Transport)
    requires ActiveGame(p) && p.currentQuestion + 1 < |p.questions|
    requires WellFormed(p.questions[p.currentQuestion])
    requires Picks(callbackIndex, u, userId, p.questions[p.currentQuestion].correctAnswer)
    ensures Handler.Process(callbackIndex, ChatHandler(State(Game(p), true), chatId), u, env, t)
      == Done(ChatHandler(State(Game(p1), true), chatId), t1)
    ensures p1.questions == p.questions && p1.currentQuestion == p.currentQuestion + 1 && p1.score == p.score + 1
  {
    var q := p.questions[p.currentQuestion];
    MidGameAnswerIsNotReEntered(callbackIndex, p, chatId, u, userId, q.correctAnswer, env, t);
    PickedAnswerIsHandled(callbackIndex, p, u, userId, q.correctAnswer, env, t);
    var r := Handler.Process(callbackIndex, ChatHandler(State(Game(p), true), chatId), u, env, t);
    p1, t1 := r.value.state.kind.params, r.transport;
  }

  /** The last correct pick of a game without a miss ends it with full marks. */
  lemma CorrectLastPick(callbackIndex: string -> Option<int>, p: GameParams, chatId: int, us: seq<Update>, userId: int, env: Env, t: Transport)
    requires ActiveGame(p) && p.score == p.currentQuestion && p.currentQuestion + 1 == |p.questions|
    requires PicksCorrectAnswers(callbackIndex, p.questions, p.currentQuestion, us, userId)
    ensures FullMarks(ProcessAll(callbackIndex, ChatHandler(State(Game(p), true), chatId), us, env, t),
                      chatId, userId, |p.questions|)
  {
    var h := ChatHandler(State(Game(p), true), chatId);
    var q := p.questions[p.currentQuestion];
    assert |us| == 1;
    var u := us[0];
    assert WellFormed(p.questions[p.currentQuestion + 0]) && Picks(callbackIndex, us[0], userId, p.questions[p.currentQuestion + 0].correctAnswer);
    assert us == [u] + [];
    LastAnswerEndsGame(callbackIndex, p, chatId, u, userId, q.correctAnswer, env, t);
    ProcessAllStep(callbackIndex, h, u, [], env, t);
  }

  lemma CorrectPicksStep(callbackIndex: string -> Option<int>, p: GameParams, chatId: int, us: seq<Update>, userId: int, env: Env, t: Transport)
      returns (p1: GameParams, t1: Transport)
    requires ActiveGame(p) && p.currentQuestion + 1 < |p.questions|
    requires PicksCorrectAnswers(callbackIndex, p.questions, p.currentQuestion, us, userId)
    ensures p1.questions == p.questions && p1.currentQuestion == p.currentQuestion + 1 && p1.score == p.score + 1
    ensures |us| > 0 && PicksCorrectAnswers(callbackIndex, p.questions, p.currentQuestion + 1, us[1..], userId)
    ensures ProcessAll(callbackIndex, ChatHandler(State(Game(p), true), chatId), us, env, t)
         == ProcessAll(callbackIndex, ChatHandler(State(Game(p1), true), chatId), us[1..], env, t1)
  {
    var h := ChatHandler(State(Game(p), true), chatId);
    assert |us| > 0;
    var u := us[0];
    assert WellFormed(p.questions[p.currentQuestion + 0]) && Picks(callbackIndex, us[0], userId, p.questions[p.currentQuestion + 0].correctAnswer);
    p1, t1 := CorrectMidGamePick(callbackIndex, p, chatId, u, userId, env, t);
    assert us == [u] + us[1..];
    ProcessAllStep(callbackIndex, h, u, us[1..], env, t);
    forall j | 0 <= j < |us[1..]|
      ensures WellFormed(p.questions[p.currentQuestion + 1 + j])
      ensures Picks(callbackIndex, us[1..][j], userId, p.questions[p.currentQuestion + 1 + j].correctAnswer)
    {
      assert us[1..][j] == us[j + 1];
      assert p.currentQuestion + 1 + j == p.currentQuestion + (j + 1);
    }
  }

  /** Whatever the reading of callback data, a player each of whose updates
      picks the correct answer of the question in front of them, having missed
      none so far, ends with full marks: the last message sent is the summary
      "You got N points out of N.", and the chat is back in an entered Idle
      state. */
  lemma {:induction false} CorrectPicksWinEverything(callbackIndex: string -> Option<int>, p: GameParams, chatId: int, us: seq<Update>, userId: int, env: Env, t: Transport)
    requires ActiveGame(p) && p.score == p.currentQuestion
    requires PicksCorrectAnswers(callbackIndex, p.questions, p.currentQuestion, us, userId)
    ensures FullMarks(ProcessAll(callbackIndex, ChatHandler(State(Game(p), true), chatId), us, env, t),
                      chatId, userId, |p.questions|)
    decreases |p.questions| - p.currentQuestion
  {
    if p.currentQuestion + 1 == |p.questions| {
      CorrectLastPick(callbackIndex, p, chatId, us, userId, env, t);
    } else {
      var p1, t1 := CorrectPicksStep(callbackIndex, p, chatId, us, userId, env, t);
      CorrectPicksWinEverything(callbackIndex, p1, chatId, us[1..], userId, env, t1);
    }
  }

  /** With callback data read as the keyboard writes it, tapping the correct
      answer of every remaining question, having missed none so far, ends
      with full marks. */
  lemma CorrectTapsWinEverything(p: GameParams, chatId: int, userId: int, env: Env, t: Transport)
    requires ActiveGame(p) && p.score == p.currentQuestion
    requires AllWellFormed(p.questions, p.currentQuestion)
    ensures FullMarks(ProcessAll(CallbackIndex, ChatHandler(State(Game(p), true), chatId), CorrectTaps(p.questions, p.currentQuestion, userId), env, t),
                      chatId, userId, |p.questions|)
  {
    var us := CorrectTaps(p.questions, p.currentQuestion, userId);
    CorrectPicksWinEverything(CallbackIndex, p, chatId, us, userId, env, t);
  }

  /** Whatever the reading of callback data, the source's included, typing
      the 1-based number of the correct answer of every remaining question,
      having missed none so far, ends with full marks. */
  lemma CorrectTextsWinEverything(callbackIndex: string -> Option<int>, p: GameParams, chatId: int, env: Env, t: Transport)
    requires ActiveGame(p) && p.score == p.currentQuestion
    requires AllWellFormed(p.questions, p.currentQuestion)
    ensures FullMarks(ProcessAll(callbackIndex, ChatHandler(State(Game(p), true), chatId), CorrectTexts(p.questions, p.currentQuestion, chatId), env, t),
                      chatId, chatId, |p.questions|)
  {
    var qs, k := p.questions, p.currentQuestion;
    var us := CorrectTexts(qs, k, chatId);
    forall j | 0 <= j < |us|
      ensures WellFormed(qs[k + j]) && Picks(callbackIndex, us[j], chatId, qs[k + j].correctAnswer)
    {
      assert WellFormed(qs[k + j]);
      assert us[j] == TextUpdate(1, chatId, ShowInt(qs[k + j].correctAnswer + 1));
    }
    CorrectPicksWinEverything(callbackIndex, p, chatId, us, chatId, env, t);
  }

  /** Over the three stored questions, with callback data read as the keyboard
      writes it, tapping the correct answer each time ends with "You got 3
      points out of 3." and the retry hint on the next line. */
  lemma ThreeCorrectTapsScoreThree(chatId: int, userId: int, env: Env, t: Transport)
    ensures var qs := QuestionStorage.Fixture;
      var h := ChatHandler(State(Game(GameParams(qs, 0, 0, 0)), true), chatId);
      FullMarks(ProcessAll(CallbackIndex, h, CorrectTaps(qs, 0, userId), env, t), chatId, userId, 3)
    ensures SummaryText(3, 3) == "You got 3 points out of 3.\n" + RetryText
  {
    var qs := QuestionStorage.InMemoryQuestions(0);
    assert AllWellFormed(qs, 0);
    CorrectTapsWinEverything(GameParams(qs, 0, 0, 0), chatId, userId, env, t);
    SummaryOfThree();
  }

  /** Over the three stored questions, with the source's reading of callback
      data, typing "2", "3" and "4" (the correct answers' numbers) ends with
      "You got 3 points out of 3.". */
  lemma ThreeCorrectTextsScoreThree(chatId: int, env: Env, t: Transport)
    ensures var qs := QuestionStorage.Fixture;
      var h := ChatHandler(State(Game(GameParams(qs, 0, 0, 0)), true), chatId);
      var us := [TextUpdate(1, chatId, "2"), TextUpdate(1, chatId, "3"), TextUpdate(1, chatId, "4")];
      FullMarks(ProcessAll(CallbackIndexAsWritten, h, us, env, t), chatId, chatId, 3)
  {
    var qs := QuestionStorage.InMemoryQuestions(0);
    assert AllWellFormed(qs, 0);
    var us := CorrectTexts(qs, 0, chatId);
    assert ShowInt(2) == "2" && ShowInt(3) == "3" && ShowInt(4) == "4";
    assert us == [TextUpdate(1, chatId, "2"), TextUpdate(1, chatId, "3"), TextUpdate(1, chatId, "4")];
    CorrectTextsWinEverything(CallbackIndexAsWritten, GameParams(qs, 0, 0, 0), chatId, env, t);
  }

  lemma SummaryOfThree()
    ensures SummaryText(3, 3) == "You got 3 points out of 3.\n" + RetryText
  {
    assert ShowInt(3) == ShowNat(3) == [DigitChar(3)] == "3";
    assert "You got " + "3" == "You got 3";
    assert "You got 3" + " points out of " == "You got 3 points out of ";
    assert "You got 3 points out of " + "3" == "You got 3 points out of 3";
    assert "You got 3 points out of 3" + ".\n" == "You got 3 points out of 3.\n";
  }
}
