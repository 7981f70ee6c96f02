/** `question_storage.py`: the fixed in-memory question set and the formatter
    that turns the rows of the per-question queries into `Question`s. */
module QuestionStorage {
  import opened Wrappers
  import opened Py
  import opened Storage

  /** The three questions `InMemoryStorage.get_questions` always answers. */
  const Fixture: seq<Question> := [
    Question("1.What is the color of sky?", ["orange", "blue", "green"], 1),
    Question("2.How much is 2 + 5?", ["4", "10", "7", "8"], 2),
    Question("3.What date is Christmas?", ["Dec 24", "Apr 15", "Jan 1", "Dec 25"], 3)
  ]

  /** `InMemoryStorage.get_questions`: the requested count is ignored. */
  function InMemoryQuestions(maxNumQuestions: int): (r: seq<Question>)
    ensures r == Fixture
    ensures |r| == 3
    ensures forall i :: 0 <= i < |r| ==> WellFormed(r[i])
  {
    Fixture
  }

  /** The loop variables of `_format_to_question_model`: the position in the
      id list, the position within the current question, and the question
      being assembled (text, answers, correct answer), with the questions
      finished so far. */
  datatype Acc = Acc(element: nat, temp: nat, text: string, correct: int, answer: seq<string>, done: seq<Question>)

  const Start: Acc := Acc(0, 0, "", 0, [], [])

  /** One loop iteration. A row whose id is the expected one extends the
      current question; any other row closes it and starts the next one
      with its answer. `fixText` selects whether that second branch also
      takes the new row's question text: the source does not. */
  function Step(ids: seq<int>, acc: Acc, row: QuestionRecord, fixText: bool): (r: Result<Acc, Exception>)
    ensures r.Err? <==> acc.element >= |ids|
    ensures r.Err? ==> r.error == IndexError
  {
    if acc.element >= |ids| then Err(IndexError)
    else if row.id == ids[acc.element] then
      Ok(Acc(acc.element, acc.temp + 1, row.question,
             if row.isCorrect then acc.temp else acc.correct,
             acc.answer + [row.answer], acc.done))
    else
      Ok(Acc(acc.element + 1, 1, if fixText then row.question else acc.text,
             if row.isCorrect then 0 else acc.correct,
             [row.answer], acc.done + [Question(acc.text, acc.answer, acc.correct)]))
  }

  function Run(ids: seq<int>, acc: Acc, rows: seq<QuestionRecord>, fixText: bool): (r: Result<Acc, Exception>)
    decreases |rows|
  {
    if |rows| == 0 then Ok(acc)
    else match Step(ids, acc, rows[0], fixText)
      case Err(e) => Err(e)
      case Ok(acc1) => Run(ids, acc1, rows[1..], fixText)
  }

  /** The append after the loop, which closes the last question. */
  function Finish(acc: Acc): (r: seq<Question>)
    ensures |r| == |acc.done| + 1 && r[..|acc.done|] == acc.done
    ensures r[|acc.done|] == Question(acc.text, acc.answer, acc.correct)
  {
    acc.done + [Question(acc.text, acc.answer, acc.correct)]
  }

  /** `_format_to_question_model` as written. */
  function FormatToQuestionModelAsWritten(ids: seq<int>, rows: seq<QuestionRecord>): (r: Result<seq<Question>, Exception>)
    ensures |rows| == 0 ==> r == Ok([Question("", [], 0)])
  {
    match Run(ids, Start, rows, false)
    case Err(e) => Err(e)
    case Ok(acc) => Ok(Finish(acc))
  }

  /** `_format_to_question_model` with the question text taken from the row
      that starts each new question. */
  function FormatToQuestionModel(ids: seq<int>, rows: seq<QuestionRecord>): (r: Result<seq<Question>, Exception>)
    ensures |rows| == 0 ==> r == Ok([Question("", [], 0)])
  {
    match Run(ids, Start, rows, true)
    case Err(e) => Err(e)
    case Ok(acc) => Ok(Finish(acc))
  }

  lemma AnswersSplit(rows: seq<QuestionRecord>)
    requires |rows| > 0
    ensures Answers(rows) == [rows[0].answer] + Answers(rows[1..])
  {
  }

  lemma {:induction false} AllAnswersAppend(a: seq<Question>, b: seq<Question>)
    ensures AllAnswers(a + b) == AllAnswers(a) + AllAnswers(b)
    decreases |a|
  {
    if |a| == 0 {
      assert a + b == b;
    } else {
      assert (a + b)[1..] == a[1..] + b;
      AllAnswersAppend(a[1..], b);
    }
  }

  lemma {:induction false} RunKeepsAnswers(ids: seq<int>, acc: Acc, rows: seq<QuestionRecord>, fixText: bool)
    requires Run(ids, acc, rows, fixText).Ok?
    ensures AllAnswers(Finish(Run(ids, acc, rows, fixText).value)) == AllAnswers(Finish(acc)) + Answers(rows)
    decreases |rows|
  {
    if |rows| > 0 {
      var acc1 := Step(ids, acc, rows[0], fixText).value;
      assert Run(ids, acc, rows, fixText) == Run(ids, acc1, rows[1..], fixText);
      RunKeepsAnswers(ids, acc1, rows[1..], fixText);
      StepKeepsAnswers(ids, acc, rows[0], fixText);
      AnswersSplit(rows);
    } else {
      assert Answers(rows) == [];
    }
  }

  /** One step adds its row's answer after all the answers gathered so far. */
  lemma StepKeepsAnswers(ids: seq<int>, acc: Acc, row: QuestionRecord, fixText: bool)
    requires Step(ids, acc, row, fixText).Ok?
    ensures AllAnswers(Finish(Step(ids, acc, row, fixText).value)) == AllAnswers(Finish(acc)) + [row.answer]
  {
    var acc1 := Step(ids, acc, row, fixText).value;
    FinishAnswers(acc);
    FinishAnswers(acc1);
    if acc1.done != acc.done {
      AllAnswersAppend(acc.done, [Question(acc.text, acc.answer, acc.correct)]);
      AllAnswersSingle(Question(acc.text, acc.answer, acc.correct));
    }
  }

  lemma AllAnswersSingle(q: Question)
    ensures AllAnswers([q]) == q.answers
  {
    assert [q][1..] == [];
  }

  lemma FinishAnswers(acc: Acc)
    ensures AllAnswers(Finish(acc)) == AllAnswers(acc.done) + acc.answer
  {
    AllAnswersAppend(acc.done, [Question(acc.text, acc.answer, acc.correct)]);
    AllAnswersSingle(Question(acc.text, acc.answer, acc.correct));
  }

  /** Whichever branch each row takes, every answer lands in exactly one
      question, in row order. */
  lemma FormatKeepsAnswerOrder(ids: seq<int>, rows: seq<QuestionRecord>)
    requires FormatToQuestionModelAsWritten(ids, rows).Ok?
    ensures AllAnswers(FormatToQuestionModelAsWritten(ids, rows).value) == Answers(rows)
  {
    RunKeepsAnswers(ids, Start, rows, false);
  }

  /** The corrected loader keeps every answer too, in row order. */
  lemma CorrectedFormatKeepsAnswerOrder(ids: seq<int>, rows: seq<QuestionRecord>)
    requires FormatToQuestionModel(ids, rows).Ok?
    ensures AllAnswers(FormatToQuestionModel(ids, rows).value) == Answers(rows)
  {
    RunKeepsAnswers(ids, Start, rows, true);
  }

  /** Position of the last correct row, if any. */
  function LastCorrectIndex(rows: seq<QuestionRecord>): (r: Option<nat>)
    ensures r.None? <==> forall i :: 0 <= i < |rows| ==> !rows[i].isCorrect
    ensures r.Some? ==> r.value < |rows| && rows[r.value].isCorrect
    ensures r.Some? ==> forall i :: r.value < i < |rows| ==> !rows[i].isCorrect
  {
    if |rows| == 0 then None
    else match LastCorrectIndex(rows[1..])
      case Some(i) => Some(i + 1)
      case None => if rows[0].isCorrect then Some(0) else None
  }

  /** Where a question stands after `rows` of its own id: the answers are
      appended in order, the text is the last row's, and the correct answer
      moves to the last correct row or, with none, keeps the value it had. */
  function Extended(acc: Acc, rows: seq<QuestionRecord>): Acc {
    Acc(acc.element,
        acc.temp + |rows|,
        if |rows| == 0 then acc.text else rows[|rows| - 1].question,
        CorrectAfter(acc.correct, acc.temp, rows),
        acc.answer + Answers(rows),
        acc.done)
  }

  function CorrectAfter(correct: int, temp: nat, rows: seq<QuestionRecord>): int {
    match LastCorrectIndex(rows)
    case None => correct
    case Some(i) => temp + i
  }

  lemma CorrectAfterCons(correct: int, temp: nat, rows: seq<QuestionRecord>)
    requires |rows| > 0
    ensures CorrectAfter(CorrectAfter(correct, temp, rows[..1]), temp + 1, rows[1..]) == CorrectAfter(correct, temp, rows)
  {
    assert LastCorrectIndex(rows[..1]) == (if rows[0].isCorrect then Some(0) else None) by {
      assert rows[..1][1..] == [];
    }
  }

  lemma ExtendedTwice(acc: Acc, rows: seq<QuestionRecord>)
    requires |rows| > 0
    ensures Extended(Extended(acc, rows[..1]), rows[1..]) == Extended(acc, rows)
  {
    ExtendedTwiceText(acc, rows);
    ExtendedTwiceAnswer(acc, rows);
    CorrectAfterCons(acc.correct, acc.temp, rows);
  }

  lemma ExtendedTwiceText(acc: Acc, rows: seq<QuestionRecord>)
    requires |rows| > 0
    ensures Extended(Extended(acc, rows[..1]), rows[1..]).text == Extended(acc, rows).text
  {
    if |rows| > 1 {
      assert rows[1..][|rows| - 2] == rows[|rows| - 1];
    }
  }

  lemma ExtendedTwiceAnswer(acc: Acc, rows: seq<QuestionRecord>)
    requires |rows| > 0
    ensures Extended(Extended(acc, rows[..1]), rows[1..]).answer == Extended(acc, rows).answer
  {
    AnswersHead(rows);
    assert Extended(acc, rows[..1]).answer == acc.answer + Answers(rows[..1]);
    assert (acc.answer + Answers(rows[..1])) + Answers(rows[1..]) == acc.answer + Answers(rows);
  }

  lemma AnswersHead(rows: seq<QuestionRecord>)
    requires |rows| > 0
    ensures Answers(rows[..1]) + Answers(rows[1..]) == Answers(rows)
  {
    var a, b := Answers(rows[..1]), Answers(rows[1..]);
    assert |a + b| == |rows|;
    forall i | 0 <= i < |rows|
      ensures (a + b)[i] == Answers(rows)[i]
    {
      if i > 0 {
        assert b[i - 1] == rows[1..][i - 1].answer;
      }
    }
  }

  lemma {:induction false} RunWithinGroup(ids: seq<int>, acc: Acc, rows: seq<QuestionRecord>, fixText: bool)
    requires acc.element < |ids|
    requires forall i :: 0 <= i < |rows| ==> rows[i].id == ids[acc.element]
    ensures Run(ids, acc, rows, fixText) == Ok(Extended(acc, rows))
    decreases |rows|
  {
    if |rows| > 0 {
      var acc1 := Step(ids, acc, rows[0], fixText).value;
      assert acc1 == Extended(acc, rows[..1]) by {
        assert Answers(rows[..1]) == [rows[0].answer];
      }
      assert Run(ids, acc, rows, fixText) == Run(ids, acc1, rows[1..], fixText);
      RunWithinGroup(ids, acc1, rows[1..], fixText);
      ExtendedTwice(acc, rows);
    } else {
      assert acc.answer + Answers(rows) == acc.answer;
    }
  }

  /** Rows of one question give one question: every answer in row order and
      the correct answer at the LAST correct row, 0 when none is correct. */
  lemma SingleGroup(ids: seq<int>, rows: seq<QuestionRecord>)
    requires |ids| > 0 && |rows| > 0
    requires forall i :: 0 <= i < |rows| ==> rows[i].id == ids[0]
    ensures var r := FormatToQuestionModelAsWritten(ids, rows);
      && r.Ok? && |r.value| == 1
      && r.value[0].text == rows[|rows| - 1].question
      && r.value[0].answers == Answers(rows)
      && r.value[0].correctAnswer == CorrectAfter(0, 0, rows)
  {
    RunWithinGroup(ids, Start, rows, false);
    var acc := Extended(Start, rows);
    assert Finish(acc) == [Question(acc.text, acc.answer, acc.correct)];
    assert acc.answer == Answers(rows);
  }

  /** Once the first `k` rows have used up the id list, whatever the rows
      are, the next row raises `IndexError`, and so does the whole call; with
      an empty id list that is already the first row. */
  lemma RowsBeyondIdsRaise(ids: seq<int>, rows: seq<QuestionRecord>, k: nat, fixText: bool)
    requires k < |rows|
    requires Run(ids, Start, rows[..k], fixText).Ok? && Run(ids, Start, rows[..k], fixText).value.element >= |ids|
    ensures Run(ids, Start, rows, fixText) == Err(IndexError)
    ensures !fixText ==> FormatToQuestionModelAsWritten(ids, rows) == Err(IndexError)
    ensures fixText ==> FormatToQuestionModel(ids, rows) == Err(IndexError)
  {
    RunAppend(ids, Start, rows[..k], rows[k..], fixText);
    assert rows[..k] + rows[k..] == rows;
    var acc := Run(ids, Start, rows[..k], fixText).value;
    assert rows[k..] == [rows[k]] + rows[k + 1..];
    assert Step(ids, acc, rows[k], fixText) == Err(IndexError);
  }

  /** With the single id 1, a second question's row closes the first question
      and moves past the id list, so the row after it raises. */
  lemma SecondQuestionBeyondOneIdRaises()
    ensures FormatToQuestionModelAsWritten([1], [
      QuestionRecord(1, "Q1", "a", true), QuestionRecord(2, "Q2", "b", false),
      QuestionRecord(2, "Q2", "c", true)]) == Err(IndexError)
  {
  }

  lemma RunStep(ids: seq<int>, acc: Acc, next: Acc, row: QuestionRecord, rest: seq<QuestionRecord>, fixText: bool)
    requires Step(ids, acc, row, fixText) == Ok(next)
    ensures Run(ids, acc, [row] + rest, fixText) == Run(ids, next, rest, fixText)
  {
    assert ([row] + rest)[1..] == rest;
  }

  /** The correct answer is never reset between questions: a question with
      no correct row inherits the previous question's value. */
  lemma CorrectAnswerIsInherited()
    ensures FormatToQuestionModelAsWritten([1, 2], [
      QuestionRecord(1, "Q1", "a", true), QuestionRecord(1, "Q1", "b", true),
      QuestionRecord(2, "Q2", "c", false), QuestionRecord(2, "Q2", "d", false)])
      == Ok([Question("Q1", ["a", "b"], 1), Question("Q2", ["c", "d"], 1)])
  {
    var (r0, r1) := (QuestionRecord(1, "Q1", "a", true), QuestionRecord(1, "Q1", "b", true));
    var (r2, r3) := (QuestionRecord(2, "Q2", "c", false), QuestionRecord(2, "Q2", "d", false));
    var done := [Question("Q1", ["a", "b"], 1)];
    var ids := [1, 2];
    assert ids[0] == 1 && ids[1] == 2;
    var a1 := Acc(0, 1, "Q1", 0, ["a"], []);
    var a2 := Acc(0, 2, "Q1", 1, ["a", "b"], []);
    var a3 := Acc(1, 1, "Q1", 1, ["c"], done);
    var a4 := Acc(1, 2, "Q2", 1, ["c", "d"], done);
    assert Start.answer + ["a"] == ["a"] && ["a"] + ["b"] == ["a", "b"] && ["c"] + ["d"] == ["c", "d"];
    assert a2.done + [Question("Q1", ["a", "b"], 1)] == done;
    RunStep(ids, Start, a1, r0, [r1, r2, r3], false);
    RunStep(ids, a1, a2, r1, [r2, r3], false);
    RunStep(ids, a2, a3, r2, [r3], false);
    RunStep(ids, a3, a4, r3, [], false);
    assert [r0, r1, r2, r3] == [r0] + [r1, r2, r3] && [r1, r2, r3] == [r1] + [r2, r3];
    assert [r2, r3] == [r2] + [r3] && [r3] == [r3] + [];
    assert Finish(a4) == [Question("Q1", ["a", "b"], 1), Question("Q2", ["c", "d"], 1)];
  }

  /** Question `j` of `qs` is the one run `j` of the rows describes: its
      answers in row order; the correct answer at the run's last correct
      row or, with none, the previous question's (0 for the first); and the
      text of the run's last row, except that without `fixText` a later
      question of a single row keeps the previous question's text. */
  predicate DescribesRun(qs: seq<Question>, runs: seq<seq<QuestionRecord>>, j: int, fixText: bool) {
    && 0 <= j < |qs| && j < |runs| && |runs[j]| > 0
    && qs[j].answers == Answers(runs[j])
    && qs[j].correctAnswer == CorrectAfter(if j == 0 then 0 else qs[j - 1].correctAnswer, 0, runs[j])
    && qs[j].text == (if j == 0 || fixText || |runs[j]| > 1 then runs[j][|runs[j]| - 1].question else qs[j - 1].text)
  }

  /** The id list names the runs, in order, and neighbouring runs differ. */
  predicate IdsNameRuns(ids: seq<int>, runs: seq<seq<QuestionRecord>>) {
    && |runs| <= |ids|
    && (forall j :: 0 <= j < |runs| ==> IsRun(runs[j]) && runs[j][0].id == ids[j])
    && (forall j :: 0 < j < |runs| ==> runs[j - 1][0].id != runs[j][0].id)
  }

  /** Where the loop stands after the first `m` runs: on id `m - 1`, with the
      closed questions and the open one describing those runs. */
  predicate LoadedRuns(acc: Acc, runs: seq<seq<QuestionRecord>>, m: nat, fixText: bool) {
    && 1 <= m <= |runs|
    && acc.element == m - 1 && |acc.done| == m - 1
    && forall j :: 0 <= j < m ==> DescribesRun(Finish(acc), runs, j, fixText)
  }

  lemma {:induction false} RunAppend(ids: seq<int>, acc: Acc, a: seq<QuestionRecord>, b: seq<QuestionRecord>, fixText: bool)
    ensures Run(ids, acc, a + b, fixText) ==
      match Run(ids, acc, a, fixText)
      case Err(e) => Err(e)
      case Ok(acc1) => Run(ids, acc1, b, fixText)
    decreases |a|
  {
    if |a| == 0 {
      assert a + b == b;
    } else {
      assert (a + b)[0] == a[0] && (a + b)[1..] == a[1..] + b;
      match Step(ids, acc, a[0], fixText)
      case Err(_) =>
      case Ok(acc1) => RunAppend(ids, acc1, a[1..], b, fixText);
    }
  }

  lemma LoadFirstRun(ids: seq<int>, runs: seq<seq<QuestionRecord>>, fixText: bool)
    requires |runs| > 0 && |ids| > 0 && IsRun(runs[0]) && runs[0][0].id == ids[0]
    ensures Run(ids, Start, runs[0], fixText) == Ok(Extended(Start, runs[0]))
    ensures LoadedRuns(Extended(Start, runs[0]), runs, 1, fixText)
  {
    var run := runs[0];
    RunWithinGroup(ids, Start, run, fixText);
    FirstRunQuestion(run);
    var acc := Extended(Start, run);
    var q := Question(run[|run| - 1].question, Answers(run), CorrectAfter(0, 0, run));
    assert DescribesRun([q], runs, 0, fixText);
    assert LoadedRuns(acc, runs, 1, fixText) by {
      forall j | 0 <= j < 1
        ensures DescribesRun(Finish(acc), runs, j, fixText)
      {
      }
    }
  }

  lemma FirstRunQuestion(run: seq<QuestionRecord>)
    requires |run| > 0
    ensures var acc := Extended(Start, run);
      && acc.element == 0
      && Finish(acc) == [Question(run[|run| - 1].question, Answers(run), CorrectAfter(0, 0, run))]
  {
    assert Start.answer + Answers(run) == Answers(run);
  }

  /** The first row of the next run takes the second branch and closes the
      open question; the rest of the run extends the new one. */
  lemma LoadNextRun(ids: seq<int>, runs: seq<seq<QuestionRecord>>, m: nat, acc: Acc, fixText: bool)
    requires IdsNameRuns(ids, runs) && LoadedRuns(acc, runs, m, fixText) && m < |runs|
    ensures Run(ids, acc, runs[m], fixText).Ok?
    ensures LoadedRuns(Run(ids, acc, runs[m], fixText).value, runs, m + 1, fixText)
  {
    var run := runs[m];
    assert IsRun(run) && run[0].id == ids[m];
    assert runs[m - 1][0].id == ids[m - 1] && runs[m - 1][0].id != run[0].id;
    var r0, rest := run[0], run[1..];
    var open := Question(acc.text, acc.answer, acc.correct);
    var acc1 := Acc(m, 1, if fixText then r0.question else acc.text,
                    if r0.isCorrect then 0 else acc.correct, [r0.answer], acc.done + [open]);
    assert Step(ids, acc, r0, fixText) == Ok(acc1);
    assert run == [r0] + rest;
    RunStep(ids, acc, acc1, r0, rest, fixText);
    forall i | 0 <= i < |rest|
      ensures rest[i].id == ids[acc1.element]
    {
      assert rest[i] == run[i + 1];
    }
    RunWithinGroup(ids, acc1, rest, fixText);
    var acc2 := Extended(acc1, rest);
    var qs, qs2 := Finish(acc), Finish(acc2);
    assert acc2.done == qs;
    forall j | 0 <= j < m
      ensures DescribesRun(qs2, runs, j, fixText)
    {
      assert DescribesRun(qs, runs, j, fixText);
      assert qs2[j] == qs[j];
      if j > 0 {
        assert qs2[j - 1] == qs[j - 1];
      }
    }
    assert qs2[m] == Question(acc2.text, acc2.answer, acc2.correct);
    assert qs2[m - 1] == open;
    AnswersSplit(run);
    assert LastCorrectIndex(run[..1]) == (if r0.isCorrect then Some(0) else None) by {
      assert run[..1][1..] == [];
    }
    CorrectAfterCons(acc.correct, 0, run);
    if |rest| > 0 {
      assert rest[|rest| - 1] == run[|run| - 1];
    }
    assert DescribesRun(qs2, runs, m, fixText);
  }

  lemma {:induction false} LoadRemainingRuns(ids: seq<int>, runs: seq<seq<QuestionRecord>>, m: nat, acc: Acc, fixText: bool)
    requires IdsNameRuns(ids, runs) && LoadedRuns(acc, runs, m, fixText)
    ensures Run(ids, acc, Concat(runs[m..]), fixText).Ok?
    ensures LoadedRuns(Run(ids, acc, Concat(runs[m..]), fixText).value, runs, |runs|, fixText)
    decreases |runs| - m
  {
    if m == |runs| {
      assert runs[m..] == [];
    } else {
      assert runs[m..][0] == runs[m] && runs[m..][1..] == runs[m + 1..];
      LoadNextRun(ids, runs, m, acc, fixText);
      RunAppend(ids, acc, runs[m], Concat(runs[m + 1..]), fixText);
      LoadRemainingRuns(ids, runs, m + 1, Run(ids, acc, runs[m], fixText).value, fixText);
    }
  }

  /** The loop over rows whose ids the id list names run by run ends with one
      question per run, each describing its run. */
  lemma LoadFollowsRuns(ids: seq<int>, rows: seq<QuestionRecord>, fixText: bool)
    requires |rows| > 0
    requires |Runs(rows)| <= |ids| && forall j :: 0 <= j < |Runs(rows)| ==> Runs(rows)[j][0].id == ids[j]
    ensures Run(ids, Start, rows, fixText).Ok?
    ensures var qs := Finish(Run(ids, Start, rows, fixText).value);
      && |qs| == |Runs(rows)|
      && forall j :: 0 <= j < |qs| ==> DescribesRun(qs, Runs(rows), j, fixText)
  {
    var runs := Runs(rows);
    RunsPartition(rows);
    assert IdsNameRuns(ids, runs);
    assert IsRun(runs[0]) && runs[0][0].id == ids[0];
    LoadFirstRun(ids, runs, fixText);
    assert Concat(runs) == runs[0] + Concat(runs[1..]);
    RunAppend(ids, Start, runs[0], Concat(runs[1..]), fixText);
    LoadRemainingRuns(ids, runs, 1, Extended(Start, runs[0]), fixText);
  }

  /** For every input whose id list names the runs of equal ids in order (as
      the per-question queries produce them), the source as written returns
      one question per run, each describing its run; a later question with a
      single row keeps the previous question's text. */
  lemma AsWrittenLoaderFollowsRuns(ids: seq<int>, rows: seq<QuestionRecord>)
    requires |rows| > 0
    requires |Runs(rows)| <= |ids| && forall j :: 0 <= j < |Runs(rows)| ==> Runs(rows)[j][0].id == ids[j]
    ensures var r := FormatToQuestionModelAsWritten(ids, rows);
      && r.Ok? && |r.value| == |Runs(rows)|
      && forall j :: 0 <= j < |r.value| ==> DescribesRun(r.value, Runs(rows), j, false)
  {
    LoadFollowsRuns(ids, rows, false);
  }

  /** The same for the corrected loader, where every question's text is that
      of the last row of its own run. */
  lemma LoaderFollowsRuns(ids: seq<int>, rows: seq<QuestionRecord>)
    requires |rows| > 0
    requires |Runs(rows)| <= |ids| && forall j :: 0 <= j < |Runs(rows)| ==> Runs(rows)[j][0].id == ids[j]
    ensures var r := FormatToQuestionModel(ids, rows);
      && r.Ok? && |r.value| == |Runs(rows)|
      && (forall j :: 0 <= j < |r.value| ==> DescribesRun(r.value, Runs(rows), j, true))
      && (forall j :: 0 <= j < |r.value| ==> r.value[j].text == Runs(rows)[j][|Runs(rows)[j]| - 1].question)
  {
    LoadFollowsRuns(ids, rows, true);
    var r := FormatToQuestionModel(ids, rows);
    forall j | 0 <= j < |r.value|
      ensures r.value[j].text == Runs(rows)[j][|Runs(rows)[j]| - 1].question
    {
      assert DescribesRun(r.value, Runs(rows), j, true);
    }
  }

  /** A question's text and its last answer come from the same row; a question
      without answers has the empty text. */
  predicate Coherent(q: Question, rows: seq<QuestionRecord>) {
    if |q.answers| == 0 then q.text == ""
    else exists k :: 0 <= k < |rows| && rows[k].question == q.text && rows[k].answer == q.answers[|q.answers| - 1]
  }

  predicate AccCoherent(acc: Acc, rows: seq<QuestionRecord>) {
    && Coherent(Question(acc.text, acc.answer, acc.correct), rows)
    && forall j :: 0 <= j < |acc.done| ==> Coherent(acc.done[j], rows)
  }

  lemma CoherentGrows(q: Question, rows: seq<QuestionRecord>, more: seq<QuestionRecord>)
    requires Coherent(q, rows)
    ensures Coherent(q, rows + more)
  {
    if |q.answers| > 0 {
      var k :| 0 <= k < |rows| && rows[k].question == q.text && rows[k].answer == q.answers[|q.answers| - 1];
      assert (rows + more)[k] == rows[k];
    }
  }

  lemma {:induction false} RunKeepsCoherence(ids: seq<int>, acc: Acc, seen: seq<QuestionRecord>, rows: seq<QuestionRecord>)
    requires AccCoherent(acc, seen)
    requires Run(ids, acc, rows, true).Ok?
    ensures AccCoherent(Run(ids, acc, rows, true).value, seen + rows)
    decreases |rows|
  {
    if |rows| == 0 {
      assert seen + rows == seen;
    } else {
      var acc1 := Step(ids, acc, rows[0], true).value;
      var seen1 := seen + [rows[0]];
      CoherentGrows(Question(acc.text, acc.answer, acc.correct), seen, [rows[0]]);
      forall j | 0 <= j < |acc.done|
        ensures Coherent(acc.done[j], seen1)
      {
        CoherentGrows(acc.done[j], seen, [rows[0]]);
      }
      assert seen1[|seen|] == rows[0];
      assert Coherent(Question(acc1.text, acc1.answer, acc1.correct), seen1);
      assert AccCoherent(acc1, seen1);
      RunKeepsCoherence(ids, acc1, seen1, rows[1..]);
      assert seen1 + rows[1..] == seen + rows;
    }
  }

  /** With the text taken from the row that starts each question, every
      question's text belongs to the row of its last answer. */
  lemma FormatIsCoherent(ids: seq<int>, rows: seq<QuestionRecord>)
    requires FormatToQuestionModel(ids, rows).Ok?
    ensures forall j :: 0 <= j < |FormatToQuestionModel(ids, rows).value| ==>
      Coherent(FormatToQuestionModel(ids, rows).value[j], rows)
  {
    RunKeepsCoherence(ids, Start, [], rows);
    var acc := Run(ids, Start, rows, true).value;
    assert [] + rows == rows;
    var qs := Finish(acc);
    forall j | 0 <= j < |qs|
      ensures Coherent(qs[j], rows)
    {
      if j < |acc.done| {
        assert qs[j] == acc.done[j];
      }
    }
  }

  /** The counterexample: a question answered by a single row is labelled
      with the previous question's text. */
  lemma SingleRowQuestionTakesPreviousText()
    ensures var rows := [
      QuestionRecord(1, "Q1", "a", true), QuestionRecord(1, "Q1", "b", false),
      QuestionRecord(2, "Q2", "c", true)];
      && FormatToQuestionModelAsWritten([1, 2], rows) == Ok([Question("Q1", ["a", "b"], 0), Question("Q1", ["c"], 0)])
      && !Coherent(Question("Q1", ["c"], 0), rows)
      && FormatToQuestionModel([1, 2], rows) == Ok([Question("Q1", ["a", "b"], 0), Question("Q2", ["c"], 0)])
  {
    var (r0, r1, r2) := (QuestionRecord(1, "Q1", "a", true), QuestionRecord(1, "Q1", "b", false),
      QuestionRecord(2, "Q2", "c", true));
    var done := [Question("Q1", ["a", "b"], 0)];
    var ids := [1, 2];
    assert ids[0] == 1 && ids[1] == 2;
    var a1 := Acc(0, 1, "Q1", 0, ["a"], []);
    var a2 := Acc(0, 2, "Q1", 0, ["a", "b"], []);
    assert Start.answer + ["a"] == ["a"] && ["a"] + ["b"] == ["a", "b"];
    assert a2.done + [Question("Q1", ["a", "b"], 0)] == done;
    RunStep(ids, Start, a1, r0, [r1, r2], false);
    RunStep(ids, a1, a2, r1, [r2], false);
    RunStep(ids, a2, Acc(1, 1, "Q1", 0, ["c"], done), r2, [], false);
    RunStep(ids, Start, a1, r0, [r1, r2], true);
    RunStep(ids, a1, a2, r1, [r2], true);
    RunStep(ids, a2, Acc(1, 1, "Q2", 0, ["c"], done), r2, [], true);
    assert [r0, r1, r2] == [r0] + [r1, r2] && [r1, r2] == [r1] + [r2] && [r2] == [r2] + [];
    assert Finish(Acc(1, 1, "Q1", 0, ["c"], done)) == [Question("Q1", ["a", "b"], 0), Question("Q1", ["c"], 0)];
    assert Finish(Acc(1, 1, "Q2", 0, ["c"], done)) == [Question("Q1", ["a", "b"], 0), Question("Q2", ["c"], 0)];
    assert !Coherent(Question("Q1", ["c"], 0), [r0, r1, r2]) by {
      forall k | 0 <= k < 3
        ensures !([r0, r1, r2][k].question == "Q1" && [r0, r1, r2][k].answer == "c")
      {
      }
    }
  }
}
