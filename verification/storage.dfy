/** `storage.py`: the question model, the in-memory storage of questions and
    serialized chat handlers, and the pure part of the Postgres question
    loader that groups joined rows into questions. */
module Storage {
  import opened Wrappers
  import opened Py
  import opened Utils

  /** A quiz question; `correctAnswer` is a 0-based index into `answers`. */
  datatype Question = Question(text: string, answers: seq<string>, correctAnswer: int)

  predicate WellFormed(q: Question) {
    0 <= q.correctAnswer < |q.answers|
  }

  /** `InMemoryStorage.get_questions`: `questions[:count]`. */
  function GetQuestions(questions: seq<Question>, count: int): (r: seq<Question>)
    ensures r <= questions
    ensures 0 <= count ==> |r| == (if count <= |questions| then count else |questions|)
    ensures count < 0 ==> |r| == (if |questions| + count >= 0 then |questions| + count else 0)
  {
    Prefix(questions, count)
  }

  /** `InMemoryStorage`: the stored questions and one serialized chat handler
      per chat id. The type of a serialized handler is left open. */
  datatype MemoryStorage<S> = MemoryStorage(questions: seq<Question>, handlers: map<int, S>)

  /** `get_chat_handler`: the last value stored for the chat, `None` if there
      is none. */
  function GetChatHandler<S>(st: MemoryStorage<S>, chatId: int): (r: Option<S>)
    ensures r.Some? <==> chatId in st.handlers
    ensures r.Some? ==> r.value == st.handlers[chatId]
  {
    if chatId in st.handlers then Some(st.handlers[chatId]) else None
  }

  /** `set_chat_handler`: an upsert; the questions and the other chats are kept. */
  function SetChatHandler<S>(st: MemoryStorage<S>, chatId: int, handler: S): (r: MemoryStorage<S>)
    ensures r.questions == st.questions
    ensures GetChatHandler(r, chatId) == Some(handler)
    ensures forall c :: c != chatId ==> GetChatHandler(r, c) == GetChatHandler(st, c)
    ensures r.handlers.Keys == st.handlers.Keys + {chatId}
  {
    MemoryStorage(st.questions, st.handlers[chatId := handler])
  }

  /** `del_chat_handler`: removes that chat's entry only; `del` of an absent
      key raises `KeyError`. */
  function DelChatHandler<S>(st: MemoryStorage<S>, chatId: int): (r: Result<MemoryStorage<S>, Exception>)
    ensures r.Err? <==> chatId !in st.handlers
    ensures r.Err? ==> r.error == KeyError(ShowInt(chatId))
    ensures r.Ok? ==> r.value.questions == st.questions
    ensures r.Ok? ==> GetChatHandler(r.value, chatId) == None
    ensures r.Ok? ==> forall c :: c != chatId ==> GetChatHandler(r.value, c) == GetChatHandler(st, c)
  {
    if chatId !in st.handlers then Err(KeyError(ShowInt(chatId)))
    else Ok(MemoryStorage(st.questions, st.handlers - {chatId}))
  }

  /** Writing twice to one chat keeps only the second value. */
  lemma LastWriteWins<S>(st: MemoryStorage<S>, chatId: int, a: S, b: S)
    ensures SetChatHandler(SetChatHandler(st, chatId, a), chatId, b) == SetChatHandler(st, chatId, b)
  {
  }

  /** One row of the questions/answers join: question id and text, one answer
      and whether it is the correct one. */
  datatype QuestionRecord = QuestionRecord(id: int, question: string, answer: string, isCorrect: bool)

  /** The number of leading rows whose id is `id`. */
  function LeadingRun(rows: seq<QuestionRecord>, id: int): (k: nat)
    ensures k <= |rows|
    ensures forall i :: 0 <= i < k ==> rows[i].id == id
    ensures k < |rows| ==> rows[k].id != id
  {
    if |rows| == 0 || rows[0].id != id then 0 else 1 + LeadingRun(rows[1..], id)
  }

  /** `itertools.groupby` by id: the maximal runs of consecutive rows with equal ids. */
  function Runs(rows: seq<QuestionRecord>): (rs: seq<seq<QuestionRecord>>)
    ensures forall j :: 0 <= j < |rs| ==> |rs[j]| > 0
    decreases |rows|
  {
    if |rows| == 0 then []
    else
      var k := LeadingRun(rows, rows[0].id);
      [rows[..k]] + Runs(rows[k..])
  }

  function Concat<T>(xss: seq<seq<T>>): seq<T> {
    if |xss| == 0 then [] else xss[0] + Concat(xss[1..])
  }

  lemma SplitAt<T>(s: seq<T>, k: nat)
    requires k <= |s|
    ensures s[..k] + s[k..] == s
  {
  }

  /** A run: non-empty, with one id throughout. */
  predicate IsRun(run: seq<QuestionRecord>) {
    |run| > 0 && forall i :: 0 <= i < |run| ==> run[i].id == run[0].id
  }

  /** `Runs` cuts the rows into runs, keeps every row in order, and never
      leaves two neighbouring runs with the same id. */
  lemma RunsPartition(rows: seq<QuestionRecord>)
    ensures Concat(Runs(rows)) == rows
    ensures forall j :: 0 <= j < |Runs(rows)| ==> IsRun(Runs(rows)[j])
    ensures forall j :: 0 < j < |Runs(rows)| ==> Runs(rows)[j - 1][0].id != Runs(rows)[j][0].id
  {
    RunsConcat(rows);
    RunsAreRuns(rows);
    RunsNeighboursDiffer(rows);
  }

  lemma {:induction false} RunsConcat(rows: seq<QuestionRecord>)
    ensures Concat(Runs(rows)) == rows
    decreases |rows|
  {
    if |rows| > 0 {
      var k := LeadingRun(rows, rows[0].id);
      RunsConcat(rows[k..]);
      var rs: seq<seq<QuestionRecord>> := Runs(rows);
      assert rs == [rows[..k]] + Runs(rows[k..]);
      assert rs[1..] == Runs(rows[k..]);
      calc {
        Concat(rs);
        rs[0] + Concat(rs[1..]);
        rows[..k] + rows[k..];
        { SplitAt(rows, k); }
        rows;
      }
    }
  }

  lemma {:induction false} RunsAreRuns(rows: seq<QuestionRecord>)
    ensures forall j :: 0 <= j < |Runs(rows)| ==> IsRun(Runs(rows)[j])
    decreases |rows|
  {
    if |rows| > 0 {
      var k := LeadingRun(rows, rows[0].id);
      RunsAreRuns(rows[k..]);
      var rs: seq<seq<QuestionRecord>> := Runs(rows);
      forall j | 0 <= j < |rs|
        ensures IsRun(rs[j])
      {
        if j > 0 {
          assert rs[j] == Runs(rows[k..])[j - 1];
        }
      }
    }
  }

  lemma {:induction false} RunsNeighboursDiffer(rows: seq<QuestionRecord>)
    ensures forall j :: 0 < j < |Runs(rows)| ==> Runs(rows)[j - 1][0].id != Runs(rows)[j][0].id
    decreases |rows|
  {
    if |rows| > 0 {
      var k := LeadingRun(rows, rows[0].id);
      RunsNeighboursDiffer(rows[k..]);
      var rs: seq<seq<QuestionRecord>> := Runs(rows);
      var rest: seq<seq<QuestionRecord>> := Runs(rows[k..]);
      forall j | 0 < j < |rs|
        ensures rs[j - 1][0].id != rs[j][0].id
      {
        if j == 1 {
          assert rs[1] == rest[0];
          assert rest[0][0] == rows[k..][0];
        } else {
          assert rs[j - 1] == rest[j - 2] && rs[j] == rest[j - 1];
        }
      }
    }
  }

  /** The position of the first correct row, if any: `list.index(True)`. */
  function FirstCorrect(run: seq<QuestionRecord>): (r: Option<nat>)
    ensures r.Some? ==> r.value < |run| && run[r.value].isCorrect
    ensures r.Some? ==> forall i :: 0 <= i < r.value ==> !run[i].isCorrect
    ensures r.None? ==> forall i :: 0 <= i < |run| ==> !run[i].isCorrect
  {
    if |run| == 0 then None
    else if run[0].isCorrect then Some(0)
    else match FirstCorrect(run[1..])
      case None => None
      case Some(i) => Some(i + 1)
  }

  function Answers(run: seq<QuestionRecord>): (r: seq<string>)
    ensures |r| == |run|
    ensures forall i :: 0 <= i < |run| ==> r[i] == run[i].answer
  {
    seq(|run|, i requires 0 <= i < |run| => run[i].answer)
  }

  predicate HasCorrect(run: seq<QuestionRecord>) {
    exists i :: 0 <= i < |run| && run[i].isCorrect
  }

  /** The question a run of rows describes; `ValueError` when no row is correct. */
  function QuestionOfRun(run: seq<QuestionRecord>): (r: Result<Question, Exception>)
    requires |run| > 0
    ensures r.Ok? <==> HasCorrect(run)
    ensures r.Err? ==> r.error == ValueError
    ensures r.Ok? ==> r.value.text == run[0].question && r.value.answers == Answers(run)
    ensures r.Ok? ==> WellFormed(r.value) && run[r.value.correctAnswer].isCorrect
    ensures r.Ok? ==> forall i :: 0 <= i < r.value.correctAnswer ==> !run[i].isCorrect
  {
    match FirstCorrect(run)
    case None => Err(ValueError)
    case Some(c) => Ok(Question(run[0].question, Answers(run), c))
  }

  function GroupRuns(runs: seq<seq<QuestionRecord>>): (r: Result<seq<Question>, Exception>)
    requires forall j :: 0 <= j < |runs| ==> |runs[j]| > 0
    ensures r.Ok? <==> forall j :: 0 <= j < |runs| ==> QuestionOfRun(runs[j]).Ok?
    ensures r.Err? ==> r.error == ValueError
    ensures r.Ok? ==> |r.value| == |runs|
    ensures r.Ok? ==> forall j :: 0 <= j < |runs| ==> r.value[j] == QuestionOfRun(runs[j]).value
  {
    if |runs| == 0 then Ok([])
    else
      assert forall j :: 0 < j < |runs| ==> runs[1..][j - 1] == runs[j];
      match QuestionOfRun(runs[0])
      case Err(e) => Err(e)
      case Ok(q) =>
        match GroupRuns(runs[1..])
        case Err(e) =>
          assert exists j :: 0 < j < |runs| && QuestionOfRun(runs[j]).Err? by {
            var k :| 0 <= k < |runs[1..]| && QuestionOfRun(runs[1..][k]).Err?;
            assert QuestionOfRun(runs[k + 1]).Err?;
          }
          Err(e)
        case Ok(qs) => Ok([q] + qs)
  }

  /** The grouping step of `PostgresStorage.get_questions`: one question per
      run of equal ids, in row order, its answers in row order and its correct
      answer the first correct row of the run; a run without a correct row
      raises `ValueError`. */
  function GroupRecords(rows: seq<QuestionRecord>): (r: Result<seq<Question>, Exception>)
    ensures r.Ok? <==> forall j :: 0 <= j < |Runs(rows)| ==> HasCorrect(Runs(rows)[j])
    ensures r.Err? ==> r.error == ValueError
    ensures r.Ok? ==> |r.value| == |Runs(rows)|
    ensures r.Ok? ==> forall j :: 0 <= j < |r.value| ==>
      var run := Runs(rows)[j];
      && r.value[j].text == run[0].question
      && r.value[j].answers == Answers(run)
      && WellFormed(r.value[j])
      && run[r.value[j].correctAnswer].isCorrect
      && (forall i :: 0 <= i < r.value[j].correctAnswer ==> !run[i].isCorrect)
  {
    RunsPartition(rows);
    GroupRuns(Runs(rows))
  }

  /** Every answer of a list of questions, question after question. */
  function AllAnswers(qs: seq<Question>): seq<string> {
    if |qs| == 0 then [] else qs[0].answers + AllAnswers(qs[1..])
  }

  lemma {:induction false} AnswersOfConcat(a: seq<QuestionRecord>, b: seq<QuestionRecord>)
    ensures Answers(a + b) == Answers(a) + Answers(b)
  {
  }

  lemma {:induction false} GroupRunsKeepsAnswers(runs: seq<seq<QuestionRecord>>)
    requires forall j :: 0 <= j < |runs| ==> |runs[j]| > 0
    requires GroupRuns(runs).Ok?
    ensures AllAnswers(GroupRuns(runs).value) == Answers(Concat(runs))
    decreases |runs|
  {
    if |runs| > 0 {
      GroupRunsKeepsAnswers(runs[1..]);
      AnswersOfConcat(runs[0], Concat(runs[1..]));
      var qs := GroupRuns(runs).value;
      assert qs[1..] == GroupRuns(runs[1..]).value;
    }
  }

  /** No answer is lost or reordered by the grouping: reading the answers of
      the questions in order gives back the answer column of the rows. */
  lemma GroupRecordsKeepsAnswers(rows: seq<QuestionRecord>)
    requires GroupRecords(rows).Ok?
    ensures AllAnswers(GroupRecords(rows).value) == Answers(rows)
  {
    RunsPartition(rows);
    GroupRunsKeepsAnswers(Runs(rows));
  }
}
