# Quiz session model

A Dafny model of the DMV practice quiz front end (`frontend/script.js`): the
state machine that starts a quiz from a list of question ids, loads one
question at a time, records the user's pick, advances while grading and
scoring, and finally shows a pass/fail verdict with a numbered per-question
summary.

The page's six state variables plus its visible screen become one immutable
`Session.SessionState`:

| source variable | model field |
|---|---|
| `questionIds` | `ids` |
| `currentQuestionIndex` | `index` |
| `score` | `score` |
| `userAnswers` | `history` |
| `currentSelection` | `selection` |
| `currentQuestion` | `current` |
| visible screen (start / question / result) | `screen` |

Each handler is a pure function; every network response is a parameter
(`None` for a failed request or a body that is not JSON):

- `StartQuiz(s, response, first)` — `startQuiz`; `first` is the outcome of
  loading the first question.
- `ShowQuestion(s, fetched)` — `showQuestion`.
- `HandleAnswer(s, k)` — `handleAnswer`.
- `NextQuestion(s, next)` — `nextQuestion`; `next` is the outcome of loading
  the following question, ignored when the quiz ends.
- `ShowResults(s)` and `Report.ResultsOf(s)` — `showResults`, split into
  the screen switch and the content of the results screen.

Module `Interaction` drives these with user clicks. A click only reaches its
handler when its button is on the visible screen. The model defines
`Reachable` as the session invariants plus a per-screen relation between
index and id list, and proves it is kept by every click sequence.

Two quirks of the code are modelled as written:

- **Empty id list.** `startQuiz` stores the fetched list before testing it
  for emptiness, and then returns without resetting anything. So an empty
  list replaces `ids` and keeps the old index, score and history. After a
  finished quiz this leaves the index past the end of the list
  (`Interaction.EmptyRestartLeavesIndexPastEnd`). Hence the index bound holds
  on every screen except the results screen after such a restart.
- **Failed question load.** Only the selection is cleared. The previously
  loaded question stays in `current`. Advancing is still blocked because the
  selection is empty.

## Model

| member | source | states |
|---|---|---|
| Session.Initial | frontend/script.js:25-30 | the page starts with no ids, no answers, zero score and zero index, no selection, no loaded question and the start screen shown; this satisfies the session invariants and the index bound |
| Session.RequestedId | frontend/script.js:88 | a question load asks for the id at the current index, and there is such an id exactly when the index is inside the list |
| Session.StartQuiz | frontend/script.js:39-75 | a failed id request changes nothing. An empty list only replaces the ids (no reset, no screen change). A non-empty list resets index, score and history, shows the question screen and loads the first question, giving a consistent, bounded session |
| Session.StartQuizResets | frontend/script.js:55-58 | starting with a non-empty list yields index 0, score 0, empty history and no selection, and satisfies the invariants whatever the previous state was |
| Session.StartQuizPreservesConsistent | frontend/script.js:46-58 | every start outcome (failure, empty list, non-empty list) keeps history length = index and score = correct records |
| Session.ShowQuestion | frontend/script.js:78-120 | loading always clears the selection. Success replaces the loaded question. Failure keeps the previous one. Index, score, history, ids and screen are untouched |
| Session.ShowQuestionPreserves | frontend/script.js:78-94 | loading keeps the session invariants and the index bound |
| Session.HandleAnswer | frontend/script.js:124-125 | picking sets the pending selection to the key, replacing any earlier pick, and changes nothing else; afterwards advancing is possible exactly when a question has been loaded (even a stale one after a failed load) |
| Session.HandleAnswerPreserves | frontend/script.js:124-125 | picking keeps the session invariants and the index bound |
| Session.LastSelectionWins | frontend/script.js:124-125 | two picks in a row leave the same state as the last pick alone |
| Session.ShowResults | frontend/script.js:168-170 | the results screen becomes visible and no other state changes. The selection is not cleared, so whether the next handler would act is unchanged: only hiding the question screen prevents a second commit |
| Session.NextQuestion | frontend/script.js:141-165 | with no selection or no loaded question it is a no-op. Otherwise it appends exactly the graded record, adds 1 to the score iff the pick is the correct key, and adds 1 to the index. It then loads the next question if one remains, and otherwise shows results with selection and question kept |
| Session.NextQuestionPreservesConsistent | frontend/script.js:144-156 | advancing keeps history length = index, score = number of correct records, and every flag equal to (selection = correct key) |
| Session.NextQuestionPreservesBounded | frontend/script.js:156-164 | advancing from an index inside the list keeps the index within the list. From the question screen, the results screen appears exactly when the index reaches the list length |
| Session.PerfectScoreIff | frontend/script.js:144-156 | in a consistent session the score equals the number of questions answered exactly when every recorded answer is correct |
| Session.AdvancePastEndOverruns | frontend/script.js:141-164 | the guard in the next handler does not check the index: at the end of the list with a selection pending, advancing pushes another record and moves the index past the end, which is why the model gates clicks by visible screen |
| QuizData.CountCorrectAppend | frontend/script.js:144-154 | committing one record raises the correct count by one exactly when that record is correct |
| QuizData.Grade | frontend/script.js:144-154 | the record committed for a pick holds the loaded question and the picked key, flagged correct exactly when the key is the question's correct answer |
| QuizData.CountCorrectAllIff | frontend/script.js:144-156 | the count of correct records equals the history length if and only if every record is correct |
| Report.Passed | frontend/script.js:175-176 | for a non-empty list the verdict is pass iff score x 100 >= 80 x total. For an empty list it follows division by zero: pass iff the score is positive |
| Report.PassedMatchesPercentage | frontend/script.js:175-176 | the integer verdict is equivalent to the page's test (score / total) x 100 >= 80, evaluated over exact reals |
| Report.PassedBoundary | frontend/script.js:175-182 | 4 of 5 (exactly 80%) passes and 2 of 3 fails |
| Report.Summary | frontend/script.js:188-207 | one entry per history record, in history order, numbered position + 1. Each entry carries that record's correctness, prompt, selected key and its option text, correct key and its option text (absent where the question lacks the key), and explanation |
| Report.SummaryAppend | frontend/script.js:188-197 | recording one more answer appends exactly one summary entry, numbered next, and leaves earlier entries unchanged |
| Report.SummaryCountsCorrect | frontend/script.js:188-193 | the summary marks as many entries "Correct" as the history has correct records |
| Report.ResultsOf | frontend/script.js:168-208 | the results show the score, the 80% verdict against the id count, and the summary of the whole history in answer order. For a consistent session there is one entry per answered question, and the entries marked correct add up to the displayed score |
| Report.ProgressPercent | frontend/script.js:102 | the progress width is 0 for the first question and lies in [0, 100) for any index inside the list |
| Interaction.Step | frontend/script.js:34-36 | a click on a button that is not on the visible screen changes nothing, and only the start/restart and next handlers can switch screens |
| Interaction.InitialReachable | frontend/script.js:25-30 | the page's initial state is reachable: consistent and meeting the per-screen index relation |
| Interaction.StepPreserves | frontend/script.js:34-36 | any click on a visible button (start, restart, option, next) keeps the session invariants and the per-screen index relation |
| Interaction.RunPreserves | frontend/script.js:32-36 | any sequence of clicks from a reachable state ends in a reachable state |
| Interaction.ReachableBounded | frontend/script.js:156-164 | in a reachable state, 0 <= index <= length of ids, and score <= length of ids, except on the results screen after an empty restart |
| Interaction.EmptyRestartLeavesIndexPastEnd | frontend/script.js:48-53 | after a one-question quiz, a restart that fetches an empty list keeps index 1, score 1 and one history record, with no ids. The index bound is broken and the screen stays on results |
| Interaction.ProgressInRange | frontend/script.js:101-103 | while the question screen is visible the list is non-empty and the progress lies in [0, 100) |
| Interaction.FinishShowsResults | frontend/script.js:159-176 | answering the last question shows results for a non-empty list, with index = length, one summary entry per question, correct entries adding up to the score, and pass iff 5 x score >= 4 x total |
| Interaction.FailedLoadBlocksAdvance | frontend/script.js:142 | after a failed load the previous question stays loaded but advancing changes nothing |
| Interaction.RequestedIdOnQuestionScreen | frontend/script.js:88 | while the question screen is visible there is an id to load at the current index; a non-empty start asks for the first id, and an advance that stays on the question screen asks for the next one |
| Interaction.AdvanceRecordsLastPick | frontend/script.js:141-154 | after two picks, advancing records the second pick against the loaded question |

## Left out

- DOM rendering: element lookup, class toggling, option buttons, summary HTML, setting the progress element's width (line 103; the percentage itself is `Report.ProgressPercent`) and the "Score: Hidden" text. The model keeps only which screen is visible.
- `fetch`, `async`/`await` and concurrency. Responses are parameters of the transitions. Overlap between an in-flight load and further clicks is not modelled, and neither is the start button being disabled during loading, because the model treats each handler as one atomic step.
- Alerts and the error text shown on a failed load. They are messages to the user and do not change session state.
- Interaction.Step: option buttons are gated only by the question screen being visible. The page also has no option buttons after a failed load, and that is not modelled, so a pick followed by next after a failed load would commit against the previous question. The placement of buttons on screens is taken from the element ids, because `frontend/index.html` is not part of this model.
- A question response that parses as JSON but is malformed (for example `null`, or an object without `options`). The page assigns it to `currentQuestion` before rendering throws, so it would replace the loaded question. The model has only a well-formed question or a failure. The service never sends such a body.
- A response body that is not a list (for example `null`) in `startQuiz`. The model treats every id response as either a list or a failure.
- QuizData.Question: the correct answer is one of the keys A, B, C. A service value outside that set, which would never match a pick, is not modelled.
- Report.Passed: the page compares in IEEE doubles. The model compares exactly. The two agree for any realistic quiz size (the service sends at most 10 ids).
- The assignment to the undeclared `isAnswered` in `startQuiz`. Nothing reads it.
- Stale responses from an abandoned session are applied as they arrive; the page has no way to discard them, and the model applies each response to the state it is given.
- `backend/main.py`, `backend/database.py`, `check_duplicates.py` and `inspect_excel.py`: the web service, database access, random sampling and data-inspection scripts are outside the front-end state machine.
