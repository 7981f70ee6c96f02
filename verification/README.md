# Trivia bot: the per-chat quiz state machine, in Dafny

This project models the core of a Telegram trivia-quiz bot. Each chat has a
`ChatHandler`. The handler holds a conversation state: Greeting, Idle, or a
Game in progress. For every inbound update the bot loads the chat's stored
snapshot, runs the state's `process`, enters the returned state when it
differs from the current one, and stores the new snapshot. The model also
covers the helpers this loop depends on:

- the answer keyboard and the integer parser (the answer wire format);
- the in-memory store of questions and snapshots;
- the two loaders that group question/answer rows into `Question`s;
- the routing and status mapping of `main.py`;
- the self-contained `subarray.py` routine.

Modelling choices:

- Everything is a pure function over immutable datatypes. The Telegram
  client is an append-only log of outgoing requests (`Telegram.Transport`).
  A send answers a message id from an `IdSource`: either a fixed id (the
  test double always answers 0) or a counter.
- A Python exception becomes `Py.Exception`. An effectful call returns an
  `Outcome`: `Done(value, transport)` or `Raised(exception, transport)`. The
  requests made before a raise stay in the log.
- A state is `State(kind, entered)`. `entered` is the "on_enter already
  called" flag. `States.Process` returns a `Transition(current, next)`.
  `current` is the value the state object holds after the call; a game
  mutates itself in place. `next` is the state returned. Returning `self` is
  `next == current`, and the handler enters `next` exactly when the two
  differ. This mirrors `new_state != self._state`, because the source's
  `__eq__` is value equality (`States.StateEqualsIsEquality`).
- The snapshot is the JSON object as a datatype (`Codecs.Snapshot`), not
  JSON text. The variant tags are the strings Python writes for
  `f"{type(o)}"`.
- The question source is a given `seq<Question>`.
- `make_answered_question_message` is imported by src/bot_state.py but is
  not part of this model. It is the `render` parameter of `States.Env`.

Where the shown files disagree with one another, the model follows the
evident contract:

- The encoder reads `o.chat_handler_params` and `o.questions`. The model
  encodes the handler's chat id and state, and the game's questions and
  parameters.
- The decoder passes `GameState` its arguments in another order. The model
  builds the game from the stored parameters and questions.
- `main.py` reads `update.my_chat_member`, which the `Update` class does not
  declare. The model gives `Update` that field.
- src/main.py:59-61 passes the dict that `json.loads` returns to
  `JSONDecoder.decode`, which expects a string. And `ChatHandlerDecoder`
  sets no `object_hook` (src/custom_codecs.py:41-46), so
  `decode_chat_handler` is never reached. `Bot.LoadHandler` models the
  evident contract: the stored snapshot is decoded into a chat handler.

## Model

| member | source | states |
|---|---|---|
| `Py.Index` | src/bot_state.py:148 | Python list indexing: negative indices count from the end, anything else outside the list raises `IndexError` |
| `Py.Prefix` | src/storage.py:185 | `s[:n]` is a prefix of `s` of length `min(n, len)` for `n >= 0`, and drops `-n` elements for negative `n` |
| `Telegram.ChatId` | src/telegram_client.py:98-109 | succeeds exactly when one of message and callback query is present; the chat id of a message, the tapping user's id for a callback; otherwise `AssertionError` |
| `Telegram.SendMessage` | tests/tutils.py:26-28 | a send appends exactly its payload to the log and answers the client's current message id |
| `Telegram.EditMessageText` | tests/tutils.py:30-31 | an edit appends exactly its edit to the log and answers nothing |
| `Telegram.SendText` | src/telegram_client.py:187-194 | `send_text` is a `send_message` of `SendMessagePayload(chat_id, text, reply_markup)` and hands back its message id unchanged |
| `Telegram.CounterIdsAreFresh` | src/telegram_client.py:180-181 | a consecutively numbering client gives two successive sends different ids |
| `Utils.ParseInt` | src/utils.py:4-8 | a result exactly for an optionally signed decimal numeral, with its value; `None`, never an error, otherwise, the empty string included |
| `Utils.ParseShowInt` | src/utils.py:4-6 | `parse_int(str(n)) == n` for every integer `n` of at most 4300 digits (CPython refuses longer conversions; the model has no such limit) |
| `Utils.ShowIntHasNoSpace` | subarray.py:27 | the decimal text of an integer is non-empty and has no space |
| `Utils.Lower` | src/bot_state.py:74 | lower-casing keeps the length and lower-cases each ASCII letter in place |
| `Utils.TransformKeywords` | src/utils.py:11-14 | `from` becomes `from_`; every other key is returned unchanged, and only `from` is changed |
| `Utils.TransformKeywordsIdempotent` | src/utils.py:14 | applying the renaming twice equals applying it once |
| `Storage.GetQuestions` | src/storage.py:184-185 | the first `min(count, len)` stored questions, in order |
| `Storage.GetChatHandler` | src/storage.py:187-191 | `None` for a chat without an entry, the stored value otherwise |
| `Storage.SetChatHandler` | src/storage.py:193-194 | an upsert: the chat now reads the new value, every other chat and the questions are unchanged |
| `Storage.LastWriteWins` | src/storage.py:193-194 | two writes to one chat leave the store as the second write alone would |
| `Storage.DelChatHandler` | src/storage.py:196-197 | removes only that chat's entry; `KeyError` exactly when the chat has no entry |
| `Storage.LeadingRun` | src/storage.py:102 | the length of the longest prefix of rows with the given id |
| `Storage.Runs` | src/storage.py:102 | `groupby` by id yields non-empty groups |
| `Storage.RunsPartition` | src/storage.py:102 | the groups concatenate back to the rows, each has a single id, and neighbouring groups have different ids |
| `Storage.FirstCorrect` | src/storage.py:106 | `list.index(True)`: the first correct position, or none when no row is correct |
| `Storage.Answers` | src/storage.py:105 | the answer column of a group, in row order |
| `Storage.QuestionOfRun` | src/storage.py:103-107 | a group's question has the first row's text, every answer in row order, and the first correct row as correct answer; `ValueError` exactly when no row is correct |
| `Storage.GroupRuns` | src/storage.py:101-109 | one question per group, in group order; `ValueError` exactly when some group has no correct row |
| `Storage.GroupRecords` | src/storage.py:101-109 | the grouping step of `PostgresStorage.get_questions`: one well-formed question per run of equal ids, or `ValueError` |
| `Storage.GroupRecordsKeepsAnswers` | src/storage.py:102-107 | no answer is lost or reordered: the questions' answers read in order are the rows' answer column |
| `Format.MakeKeyboard` | src/format.py:5-10 | exactly one row, one button per answer, button `i` labelled `answers[i]`, and its callback data parses to `i + 1` |
| `Format.Buttons` | src/format.py:6-9 | button `i` carries `answers[i]` and the decimal text of `i + 1` |
| `Format.ButtonDataParses` | src/format.py:8 | every button's callback data parses back to its 1-based position |
| `Format.KeyboardDataIsOneBased` | src/format.py:8 | the callback data of button `i` is exactly `str(i + 1)` |
| `States.StateEqualsIsEquality` | src/bot_state.py:113-116 | the source's state equality (same class and entered flag, equal parameters for games) is exactly value equality |
| `States.MakeGameState` | src/bot_state.py:221-229 | a fresh, not entered game over the first five stored questions with all counters 0; `TypeError` exactly when no storage is configured |
| `States.Enter` | src/bot_state.py:122-127 | entering an entered state fails; Greeting and Idle only set the flag; a game sends its current question with its keyboard and records the new message id |
| `States.GreetingProcess` | src/bot_state.py:205-211 | for any update with a chat id, sends the welcome text to it and returns a fresh, not entered Idle |
| `States.IdleProcess` | src/bot_state.py:72-82 | the start command in any case sends "Starting game!" and returns a new game; other text sends the prompt and stays; non-messages stay silently |
| `States.CallbackIndex` | src/format.py:8 | callback data read as the keyboard writes it: the parsed number minus one, none when unparseable |
| `States.CallbackIndexAsWritten` | src/bot_state.py:140 | as written, callback data is read as the parsed number itself: defined exactly for signed numerals, and always one more than the keyboard's 0-based position |
| `States.Answered` | src/bot_state.py:155-170 | an answer moves one question on and scores exactly when it is the correct index |
| `States.HandleAnswer` | src/bot_state.py:147-186 | out-of-range answers send the range hint and change nothing; in-range answers edit the question, then send the next question or the summary and hand over to Idle |
| `States.AnswerAt` | src/bot_state.py:148 | `_handle_answer` on the current question; `IndexError` when the game has no question there |
| `States.GameProcessWith` | src/bot_state.py:129-145 | text answers are 1-based, unparseable text sends the help text and stays, unparseable callback data raises with the data |
| `States.ProcessWith` | src/bot_state.py:32-34 | for any reading of callback data: only an entered state may process; afterwards the state object is entered, keeps its variant, and a returned other state is fresh |
| `States.ProcessAsWritten` | src/bot_state.py:32-34 | as written, callback data used as a 0-based index: only an entered state may process; afterwards the state object is entered, keeps its variant, and a returned other state is fresh |
| `States.Process` | src/bot_state.py:32-34 | corrected: callback data read as the keyboard writes it; only an entered state may process; afterwards the state object is entered, keeps its variant, and a returned other state is fresh |
| `Handler.HandlerEqualsIsEquality` | src/chat_handler.py:43-47 | two handlers are equal exactly when their chat ids and their states are equal |
| `Handler.Create` | src/chat_handler.py:27-33 | `on_enter` of the initial state runs once on the handler's chat before the handler exists |
| `Handler.Process` | src/chat_handler.py:18-25 | for any reading of callback data: the handler keeps its chat and ends on the returned state; that state is entered exactly when it differs from the current one |
| `Handler.ProcessAll` | src/chat_handler.py:16-25 | for any reading of callback data: across any run of updates the chat id never changes and the state stays entered |
| `Codecs.EncodeState` | src/custom_codecs.py:20-33 | Greeting and Idle carry only their tag; a game carries its tag, questions and parameters |
| `Codecs.Encode` | src/custom_codecs.py:13-18 | a handler's snapshot is marked, carries its chat id and its state's entry |
| `Codecs.Default` | src/custom_codecs.py:12-38 | handlers and states are encoded; any other object raises `TypeError` |
| `Codecs.DecodeState` | src/custom_codecs.py:54-66 | each known tag rebuilds its state, not entered; an unknown tag raises `TypeError` and never falls back to another state |
| `Codecs.Decode` | src/custom_codecs.py:49-69 | an unmarked object comes back unchanged; a marked one is rebuilt and goes through `ChatHandler.create` |
| `Codecs.DecodeEncodeState` | src/custom_codecs.py:55-64 | decoding a state's entry gives back the same state, not yet entered |
| `Codecs.EncodeDecodeState` | src/custom_codecs.py:20-33 | re-encoding a decoded well-formed entry gives back the entry |
| `Codecs.RoundTrip` | src/custom_codecs.py:56-68 | decode(encode(h)) gives back Greeting and Idle handlers silently, and a game with the same questions and counters after re-sending its current question |
| `Codecs.RoundTripWithFixedIds` | tests/test_codecs.py:22-34 | with the test double's fixed message id, decode(encode(h)) equals `h` |
| `Codecs.RoundTripTellsQuestionSetsApart` | tests/test_codecs.py:28-35 | a decoded game is unequal to any handler whose game has other questions |
| `StateProperties.EnterRunsOnce` | src/bot_state.py:27-30 | after `on_enter` the state is marked entered, and entering it again fails the assertion |
| `StateProperties.ProcessNeedsEnter` | src/bot_state.py:32-34 | a state never entered refuses every update with `AssertionError` |
| `StateProperties.AnswerKeepsBounds` | src/bot_state.py:147-186 | any answer keeps `0 <= score <= current_question <= len(questions)`; a game either stays running or hands over to a fresh Idle after its last question |
| `StateProperties.GameStepKeepsBounds` | src/bot_state.py:129-186 | for every reading of callback data, the source's included: a running game raises only for a malformed update or callback data, and otherwise keeps its questions and its bounds |
| `StateProperties.TextAnswerIsOneBased` | src/bot_state.py:131-138 | for any reading of callback data: text `n` answers index `n - 1`: the question is edited, one more question is asked, and the score grows exactly when `n - 1` is correct |
| `StateProperties.UnparseableTextChangesNothing` | src/bot_state.py:132-137 | for any reading of callback data: unparseable text, the empty text included, sends the help text and leaves the game unchanged |
| `StateProperties.OutOfRangeAnswerChangesNothing` | src/bot_state.py:148-153 | for any reading of callback data: a number outside 1..N sends "Type the number from 1 to N" and leaves score, position and message id unchanged |
| `StateProperties.MalformedTapRaises` | src/bot_state.py:139-142 | unparseable callback data raises `InvalidCallbackDataException` with that data, before anything is sent |
| `StateProperties.GameRejectsEmptyUpdate` | src/bot_state.py:130 | for any reading of callback data: an update without message or tap fails on `chat_id` before anything is sent |
| `StateProperties.AsWrittenTapSelectsNextAnswer` | src/bot_state.py:139-145 | as written, tapping button `i` answers index `i + 1` |
| `StateProperties.AsWrittenLastButtonIsRejected` | src/bot_state.py:149-153 | as written, the last button of every question is rejected as out of range |
| `StateProperties.AsWrittenCorrectTapIsNotScored` | src/bot_state.py:155-159 | as written, tapping "blue" for the sky question, the correct answer, scores nothing |
| `StateProperties.TapSelectsItsAnswer` | src/format.py:8 | read as the keyboard writes it, tapping button `i` answers index `i` |
| `StateProperties.CorrectTapScores` | src/bot_state.py:155-159 | read as the keyboard writes it, tapping the correct answer's button scores one point |
| `StateProperties.PickedAnswerIsHandled` | src/bot_state.py:129-145 | for any reading of callback data, text naming answer `i` 1-based, or a tap the reading takes to `i`, is handled as answer `i` to the current question |
| `StateProperties.TapPicks` | src/bot_state.py:139-140 | tapping button `i` picks answer `i` under the corrected reading and answer `i + 1` under the source's |
| `StateProperties.ReadingsAgreeOnText` | src/bot_state.py:131-138 | on every update without a tap, the source as written and the corrected model take the same step |
| `StateProperties.TapAgreesWithTextAnswer` | src/bot_state.py:131-142 | corrected: a tap on button `i` and text equal to its callback data give the same answer |
| `StateProperties.GreetingHandsOverToIdle` | src/bot_state.py:205-211 | for any reading of callback data: Greeting sends only the welcome text to the update's chat and returns a fresh Idle, which differs and so is entered |
| `StateProperties.PromptedCommandStartsGame` | src/bot_state.py:74-79 | for any reading of callback data: the prompted command "/startGame" starts a game after sending "Starting game!" |
| `StateProperties.IdleIgnoresTaps` | src/bot_state.py:73-82 | for any reading of callback data: Idle returns itself and sends nothing for a button tap |
| `StateProperties.IdlePromptsOnOtherText` | src/bot_state.py:81-82 | for any reading of callback data: any text other than the command, in any case, sends the prompt and returns the same state |
| `HandlerProperties.StayingIsNotReEntered` | src/chat_handler.py:21-25 | for any reading of callback data: a state that returns itself is not entered again; the handler adds nothing to what it sent |
| `HandlerProperties.ChangingStateEntersIt` | src/chat_handler.py:21-25 | for any reading of callback data: a returned different state is fresh and entered exactly once on the handler's chat |
| `HandlerProperties.MidGameAnswerIsNotReEntered` | src/bot_state.py:172-178 | for any reading of callback data, an update that picks an answer before the last question edits and sends the next question only; the question is not re-sent |
| `HandlerProperties.LastAnswerEndsGame` | src/bot_state.py:180-186 | for any reading of callback data, an update that picks an answer to the last question edits, sends "You got {score} points out of {n}." and leaves an entered Idle |
| `HandlerProperties.CorrectTaps` | src/format.py:6-9 | one tap per remaining question, each of which, with callback data read as the keyboard writes it, picks that question's correct answer |
| `HandlerProperties.CorrectPicksWinEverything` | src/bot_state.py:129-186 | for any reading of callback data, updates each picking the correct answer, with no miss so far, end in an entered Idle, the last message the full-marks summary |
| `HandlerProperties.CorrectTapsWinEverything` | src/bot_state.py:155-186 | corrected: tapping every correct answer without a miss ends in an entered Idle, the last message the full-marks summary |
| `HandlerProperties.ThreeCorrectTapsScoreThree` | src/bot_state.py:180-185 | corrected: over the three fixture questions, correct taps end with "You got 3 points out of 3." and the retry line |
| `HandlerProperties.CorrectTextsWinEverything` | src/bot_state.py:131-138 | for any reading of callback data, the source's included: typing every correct answer's 1-based number without a miss ends with full marks |
| `HandlerProperties.ThreeCorrectTextsScoreThree` | src/bot_state.py:131-185 | as written: over the three fixture questions, typing "2", "3", "4" ends with "You got 3 points out of 3." |
| `QuestionStorage.InMemoryQuestions` | src/question_storage.py:69-76 | ignores the count and always answers the three stored questions, each well-formed |
| `QuestionStorage.Step` | src/question_storage.py:99-113 | one loop iteration; `IndexError` exactly when the id list is used up |
| `QuestionStorage.Finish` | src/question_storage.py:115-116 | the final append keeps the finished questions and adds the one being assembled |
| `QuestionStorage.FormatToQuestionModelAsWritten` | src/question_storage.py:86-116 | no rows give exactly `[Question("", [], 0)]`; `QuestionStorage.AsWrittenLoaderFollowsRuns` states the other inputs |
| `QuestionStorage.FormatToQuestionModel` | src/question_storage.py:99-113 | the corrected loader: no rows give exactly `[Question("", [], 0)]`; `QuestionStorage.LoaderFollowsRuns` states the other inputs |
| `QuestionStorage.FormatKeepsAnswerOrder` | src/question_storage.py:102-110 | every answer lands in exactly one question, in row order |
| `QuestionStorage.CorrectedFormatKeepsAnswerOrder` | src/question_storage.py:102-110 | corrected: every answer lands in exactly one question, in row order |
| `QuestionStorage.AsWrittenLoaderFollowsRuns` | src/question_storage.py:86-116 | as written, for ids naming the runs of equal ids in order: one question per run with its answers, the correct answer at its last correct row or inherited from the previous question (0 for the first), and its last row's text, except that a later one-row question keeps the previous text |
| `QuestionStorage.LoaderFollowsRuns` | src/question_storage.py:86-116 | corrected, for ids naming the runs in order: the same, with every question's text that of its own run's last row |
| `QuestionStorage.LastCorrectIndex` | src/question_storage.py:103-104 | the last correct position, or none when no row is correct |
| `QuestionStorage.SingleGroup` | src/question_storage.py:100-105 | rows of one id give one question: answers in row order, correct answer at the last correct row, 0 when none |
| `QuestionStorage.RowsBeyondIdsRaise` | src/question_storage.py:100 | once the rows read so far have used up the id list, the next row raises `IndexError` and so does the whole call, in both loaders; an empty id list raises on the first row |
| `QuestionStorage.SecondQuestionBeyondOneIdRaises` | src/question_storage.py:100 | with one id, a second row of a second question raises `IndexError` |
| `QuestionStorage.CorrectAnswerIsInherited` | src/question_storage.py:96-113 | an instance: a group without a correct row inherits the previous group's correct answer |
| `QuestionStorage.SingleRowQuestionTakesPreviousText` | src/question_storage.py:106-113 | as written, a one-row question is labelled with the previous question's text; corrected, it gets its own |
| `QuestionStorage.FormatIsCoherent` | src/question_storage.py:99-113 | corrected, every question's text comes from the row of its last answer |
| `Bot.LoadHandler` | src/main.py:53-61 | first contact gives an entered Greeting handler; otherwise the stored snapshot is decoded |
| `Bot.HandleChatUpdate` | src/main.py:52-65 | for any reading of callback data: an ordinary update stores the encoding of the handler after `process` under that chat only; an exception while loading the snapshot (a failed decode, or an unmarked object whose `process` raises `AttributeError`) or while processing propagates with storage as it was |
| `Bot.HandleMembership` | src/main.py:66-70 | "member" changes nothing; "kicked" deletes that chat's snapshot only; nothing is sent |
| `Bot.HandleUpdateAsWritten` | src/main.py:49-70 | the chat id is read first, so an update without message or tap raises `AssertionError`; with a chat id, an ordinary update goes through the chat handler and a membership update through the membership branch |
| `Bot.HandleUpdate` | src/main.py:49-70 | corrected: for any reading of callback data, membership updates are routed by the chat they name; other updates go through the chat handler |
| `Bot.PollOne` | src/main.py:82-88 | for any update handler, the source's routing included: the offset becomes `update_id + 1` even when handling raised; a raise leaves storage unchanged |
| `Bot.PollBatch` | src/main.py:82-88 | for any update handler: after a batch the offset is one past the last update's id |
| `Bot.PollRound` | src/main.py:75-88 | for any update handler: a failed `get_updates` leaves offset and storage unchanged |
| `Bot.ExceptionResponse` | src/main.py:119-139 | 502 exactly for an unexpected status above 500; 500 for 400..500, below 400, network and other errors |
| `BotProperties.AsWrittenMembershipUpdatesRaise` | src/main.py:50-52 | as written, every membership update raises on `chat_id` before its branch, so a blocked chat is never deleted |
| `BotProperties.RoutingsAgree` | src/main.py:49-65 | on every update that is not a membership change, the routing as written and the corrected one give the same outcome |
| `BotProperties.LoopKeepsKickedChatAsWritten` | src/main.py:49-88 | in the loop as written a "kicked" update raises, is dropped, and the chat's snapshot stays; with the corrected routing it is deleted; the offset moves on either way |
| `BotProperties.KickedDeletesSnapshot` | src/main.py:68-70 | a "kicked" update deletes exactly that chat's snapshot and sends nothing |
| `BotProperties.KickedWithoutSnapshotRaises` | src/storage.py:196-197 | "kicked" for a chat without a snapshot raises |
| `BotProperties.UnblockedKeepsStore` | src/main.py:66-67 | a "member" update changes nothing and sends nothing |
| `BotProperties.FirstContactGreets` | src/main.py:53-65 | on first contact the bot greets and stores the chat in an entered Idle state, other chats untouched |
| `BotProperties.StoredSnapshotReloads` | src/main.py:62-65 | after an ordinary update the stored snapshot's state decodes without error |
| `Subarray.Accumulate` | subarray.py:9-15 | the recursive walk appends the depth-first, left-to-right flattening to the accumulator |
| `Subarray.ModifyArray` | subarray.py:9-15 | the instance's accumulator grows by the flattened input and is the result |
| `Subarray.SecondCallRepeatsEarlierElements` | subarray.py:6-15 | a second call on one instance returns the first call's elements before its own |
| `Subarray.Insert` | subarray.py:26 | inserting into a strictly sorted list keeps it strictly sorted and adds exactly that element |
| `Subarray.HighestCount` | subarray.py:21-22 | the count of a most frequent element: no element occurs more often, and one occurs that often |
| `Subarray.ElementsWithCount` | subarray.py:23-25 | exactly the elements with the given count, ascending |
| `Subarray.MostCommon` | subarray.py:20-26 | exactly the most frequent elements, ascending, at least one |
| `Subarray.JoinIntsReadsBack` | subarray.py:27 | the space-joined text splits and parses back to the same numbers |
| `Subarray.CountElements` | subarray.py:17-27 | the space-joined, ascending most frequent accumulated elements; `IndexError` exactly when nothing is accumulated |
| `Subarray.DistinctElementsAreAllModes` | subarray.py:20-26 | when no element repeats, every element is returned |
| `Subarray.ScriptOutput` | subarray.py:30 | the script's own call prints "-999999999 0 2 5 10" |

## Left out

- The live Telegram client, its HTTP calls, webhooks, the FastAPI/uvicorn server, the typer CLI and the payload filter of `run_server_mode`: I/O and framework glue.
- Subarray.ModifyArray: returns a value copy of the accumulator. `modify_array` returns the instance's own list (subarray.py:15), so a list a caller kept from an earlier call grows with later calls; that aliasing is not modelled, and `count_elements` does not depend on it.
- The SQL, connection pools and handler-table creation of `PostgresStorage` and `PostgresQuestionStorage`; only their pure row grouping is modelled. The random choice of questions is left out too: the question source is a given sequence.
- src/load_balancer.py (per-chat Redis locks) and src/scripts/: concurrency, an external service and ETL.
- The JSON text layer (`json.dumps`, `json.loads`, `object_hook`): a snapshot is the decoded object, as a datatype.
- async/await: everything runs sequentially. This includes the factory calling the async `get_questions` without awaiting it.
- Logging and the `continue` retry loop of `run_client_mode`: one round is modelled, and a failed fetch is a round with no change.
- `make_answered_question_message` is not part of this model. The text of an edited question is the uninterpreted `render` parameter.
- Utils.ParseInt: accepts one optional sign and ASCII digits only. Python's `int` also accepts surrounding whitespace, underscores and non-ASCII digits. CPython also raises `ValueError` (so `parse_int` answers `None`) for numerals longer than 4300 digits; the model parses them. Telegram texts of at most 4096 characters and callback data of at most 64 bytes never reach that limit.
- Utils.Lower: folds ASCII letters only. Python's `str.lower` also folds other letters, which cannot match "/startgame" anyway.
- Subarray.Accumulate: list elements are integers or nested lists. The source takes any non-list value as an element.
- HandlerProperties.CorrectTapsWinEverything: proves the final state and the final summary message. It does not count that exactly N questions and N edits were sent. The same holds for `HandlerProperties.CorrectPicksWinEverything` and `HandlerProperties.CorrectTextsWinEverything`.
- QuestionStorage.AsWrittenLoaderFollowsRuns: stated for id lists that name the runs of the rows in order. When an id has no answer rows, the pairing of ids and runs shifts; for those inputs only the answer order (`QuestionStorage.FormatKeepsAnswerOrder`) is stated. The same holds for `QuestionStorage.LoaderFollowsRuns`.
- The superseded revisions (the root main.py, telegram_client.py, bot_state.py, chat_handler.py and models.py; src/models.py; src/form_buttons.py; src/custom_encoder.py) are not modelled. tests/test_format.py expects letter callback data, which src/format.py does not write.

## Findings

| source | as written | input that shows it | evidently intended | confidence | as-written member | corrected member |
|---|---|---|---|---|---|---|
| src/bot_state.py:140 | callback data is used as a 0-based index, but src/format.py:8 writes 1-based positions | tap "blue" (data "2") on the sky question, whose correct index is 1: index 2 is taken and nothing is scored; the last button is always out of range | subtract 1 from callback data, as is done for text answers | high, not executed | `StateProperties.AsWrittenLastButtonIsRejected` | `StateProperties.TapSelectsItsAnswer` |
| src/main.py:50 | `update.chat_id` is read before the membership check, and it asserts that a message or a tap is present | any membership update, e.g. status "kicked", which carries neither | route membership updates by the chat they name, so a blocked chat's snapshot is deleted | medium, not executed | `BotProperties.AsWrittenMembershipUpdatesRaise` | `BotProperties.KickedDeletesSnapshot` |
| src/question_storage.py:106-113 | starting a new question does not take the new row's text | rows (1,"Q1","a"), (1,"Q1","b"), (2,"Q2","c"): the second question is labelled "Q1" | take the text of the row that starts the question | high, not executed | `QuestionStorage.SingleRowQuestionTakesPreviousText` | `QuestionStorage.FormatIsCoherent` |

The chat handler and the bot take the reading of callback data as a
parameter: `States.CallbackIndexAsWritten` gives the source as written,
`States.CallbackIndex` the corrected model. Lemmas marked "for any reading"
hold for both. The polling loop takes the update handler as a parameter:
`Bot.AsWrittenRouting` is the source as written, and `Bot.CorrectedRouting`
routes membership updates by their own chat. The two agree on every other
update (`BotProperties.RoutingsAgree`). The corrected loader is
`QuestionStorage.FormatToQuestionModel`.
