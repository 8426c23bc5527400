/**
 The quiz session state machine of the front end. The page keeps six
 variables (question ids, current index, score, answer history, pending
 selection, loaded question) plus which of its three screens is visible; each
 user-triggered handler is one pure transition here. Network responses are
 parameters: `None` stands for a failed request or a body that is not JSON.
 */
module Session {
  import opened QuizData

  /** The three screens of the page; exactly one is visible. */
  datatype Screen = StartScreen | QuestionScreen | ResultScreen

  datatype SessionState = SessionState(
    ids: seq<QuestionId>,         // questionIds
    index: nat,                   // currentQuestionIndex
    score: nat,                   // score
    history: seq<AnsweredQuestion>, // userAnswers
    selection: Option<Key>,       // currentSelection
    current: Option<Question>,    // currentQuestion
    screen: Screen)

  /** The invariants every transition keeps: one history record per question
      passed, the score counts the correct records, and each record's flag
      agrees with its selection. */
  ghost predicate Consistent(s: SessionState) {
    && |s.history| == s.index
    && s.score == CountCorrect(s.history)
    && forall i :: 0 <= i < |s.history| ==> Graded(s.history[i])
  }

  /** The index stays within the id list. */
  ghost predicate Bounded(s: SessionState) {
    s.index <= |s.ids|
  }

  /** The state when the page has loaded: nothing fetched, start screen shown. */
  function Initial(): (s: SessionState)
    ensures s.ids == [] && s.index == 0 && s.score == 0 && s.history == []
    ensures Consistent(s) && Bounded(s)
    ensures s.selection.None? && s.current.None? && s.screen == StartScreen
  {
    SessionState([], 0, 0, [], None, None, StartScreen)
  }

  /** True when a pending selection and a loaded question let the user advance. */
  predicate CanAdvance(s: SessionState) {
    s.selection.Some? && s.current.Some?
  }

  /** The id whose content the next question load asks for; past the end of
      the list the page would ask for `undefined`. */
  function RequestedId(s: SessionState): (id: Option<QuestionId>)
    ensures id.Some? <==> s.index < |s.ids|
    ensures id.Some? ==> id.value == s.ids[s.index]
  {
    if s.index < |s.ids| then Some(s.ids[s.index]) else None
  }

  /** Loading the question at the current index. The pending selection is
      cleared first, whatever the outcome; the loaded question is replaced
      only when the fetch succeeds, so a failure keeps the previous one. */
  function ShowQuestion(s: SessionState, fetched: Option<Question>): (r: SessionState)
    ensures r.selection.None?
    ensures fetched.Some? ==> r.current == fetched
    ensures fetched.None? ==> r.current == s.current
    ensures r.ids == s.ids && r.index == s.index && r.score == s.score
    ensures r.history == s.history && r.screen == s.screen
  {
    match fetched
    case Some(q) => s.(selection := None, current := Some(q))
    case None => s.(selection := None)
  }

  /** Starting (or restarting) a quiz. `response` is the fetched id list
      (`None` when the request fails); `first` is the outcome of loading the
      first question, used only when the list is non-empty. An empty list
      still replaces the stored ids but resets nothing else. */
  function StartQuiz(s: SessionState, response: Option<seq<QuestionId>>, first: Option<Question>): (r: SessionState)
    ensures response.None? ==> r == s
    ensures response == Some([]) ==> r == s.(ids := [])
    ensures response.Some? && response.value != [] ==>
      && r.ids == response.value
      && r.index == 0 && r.score == 0 && r.history == []
      && r.screen == QuestionScreen
      && r.selection.None?
      && r.current == (if first.Some? then first else s.current)
    ensures response.Some? && response.value != [] ==> Consistent(r) && Bounded(r) && r.index < |r.ids|
  {
    match response
    case None => s
    case Some(ids) =>
      if |ids| == 0 then s.(ids := ids)
      else
        var reset := s.(ids := ids, index := 0, score := 0, history := [], screen := QuestionScreen);
        ShowQuestion(reset, first)
  }

  /** Picking an option: the pending selection becomes `k`, replacing any
      earlier pick. */
  function HandleAnswer(s: SessionState, k: Key): (r: SessionState)
    ensures r.selection == Some(k)
    ensures r.(selection := s.selection) == s
    ensures CanAdvance(r) <==> s.current.Some?
  {
    s.(selection := Some(k))
  }

  /** The results screen replaces the question screen; the state is otherwise
      left as it is. The pending selection is not cleared, so the handler
      itself would still accept an advance: only the hidden question screen
      stops one. */
  function ShowResults(s: SessionState): (r: SessionState)
    ensures r.screen == ResultScreen
    ensures r.(screen := s.screen) == s
    ensures CanAdvance(r) == CanAdvance(s)
  {
    s.(screen := ResultScreen)
  }

  /** Advancing: without a pending selection or a loaded question nothing
      happens. Otherwise the selection is graded and committed as one history
      record, the score and the index move on, and either the next question
      is loaded (with outcome `next`) or the results screen is shown. */
  function NextQuestion(s: SessionState, next: Option<Question>): (r: SessionState)
    ensures !CanAdvance(s) ==> r == s
    ensures CanAdvance(s) ==>
      && r.ids == s.ids
      && r.index == s.index + 1
      && r.history == s.history + [Grade(s.current.value, s.selection.value)]
      && r.score == s.score + (if s.selection.value == s.current.value.correctAnswer then 1 else 0)
    ensures CanAdvance(s) && s.index + 1 < |s.ids| ==>
      && r.screen == s.screen
      && r.selection.None?
      && r.current == (if next.Some? then next else s.current)
    ensures CanAdvance(s) && s.index + 1 >= |s.ids| ==>
      && r.screen == ResultScreen
      && r.selection == s.selection
      && r.current == s.current
  {
    if !CanAdvance(s) then s
    else
      var q := s.current.value;
      var k := s.selection.value;
      var record := Grade(q, k);
      var advanced := s.(
        score := if record.isCorrect then s.score + 1 else s.score,
        history := s.history + [record],
        index := s.index + 1);
      if advanced.index < |advanced.ids| then ShowQuestion(advanced, next)
      else ShowResults(advanced)
  }

  /** Starting with a non-empty list yields a consistent fresh session,
      whatever the previous session left behind. */
  lemma StartQuizResets(s: SessionState, ids: seq<QuestionId>, first: Option<Question>)
    requires ids != []
    ensures var r := StartQuiz(s, Some(ids), first);
      Consistent(r) && r.index == 0 && r.score == 0 && r.history == [] && r.selection.None?
  {
  }

  /** Every start keeps the session invariants, including the failed and the
      empty-list paths. */
  lemma StartQuizPreservesConsistent(s: SessionState, response: Option<seq<QuestionId>>, first: Option<Question>)
    requires Consistent(s)
    ensures Consistent(StartQuiz(s, response, first))
  {
  }

  /** Loading a question keeps both the session invariants and the bound. */
  lemma ShowQuestionPreserves(s: SessionState, fetched: Option<Question>)
    ensures Consistent(s) ==> Consistent(ShowQuestion(s, fetched))
    ensures Bounded(s) ==> Bounded(ShowQuestion(s, fetched))
  {
  }

  /** Picking an option keeps both the session invariants and the bound. */
  lemma HandleAnswerPreserves(s: SessionState, k: Key)
    ensures Consistent(s) ==> Consistent(HandleAnswer(s, k))
    ensures Bounded(s) ==> Bounded(HandleAnswer(s, k))
  {
  }

  /** Only the last pick before advancing counts. */
  lemma LastSelectionWins(s: SessionState, k1: Key, k2: Key)
    ensures HandleAnswer(HandleAnswer(s, k1), k2) == HandleAnswer(s, k2)
  {
  }

  /** Advancing keeps the session invariants: the history grows by exactly
      the record that the index and the score account for. */
  lemma {:induction false} NextQuestionPreservesConsistent(s: SessionState, next: Option<Question>)
    requires Consistent(s)
    ensures Consistent(NextQuestion(s, next))
  {
    if CanAdvance(s) {
      var record := Grade(s.current.value, s.selection.value);
      CountCorrectAppend(s.history, record);
      var r := NextQuestion(s, next);
      assert r.history == s.history + [record];
      forall i | 0 <= i < |r.history| ensures Graded(r.history[i]) {
        if i < |s.history| {
          assert r.history[i] == s.history[i];
        }
      }
    }
  }

  /** Advancing from a question still inside the list keeps the bound, and
      the results screen is shown exactly when the index reaches the end. */
  lemma NextQuestionPreservesBounded(s: SessionState, next: Option<Question>)
    requires s.index < |s.ids|
    ensures Bounded(NextQuestion(s, next))
    ensures CanAdvance(s) && s.screen == QuestionScreen ==>
      (NextQuestion(s, next).screen == ResultScreen <==> NextQuestion(s, next).index == |s.ids|)
  {
  }

  /** The handler alone does not stop a second commit once the quiz is over:
      advancing from the end of the list with the selection still pending
      pushes one more record and moves the index past the end. */
  lemma AdvancePastEndOverruns(s: SessionState, next: Option<Question>)
    requires s.index == |s.ids| && CanAdvance(s)
    ensures var r := NextQuestion(s, next);
      r.index == |s.ids| + 1 && !Bounded(r) && r.screen == ResultScreen
  {
  }

  /** In a consistent session the score equals the number of questions
      passed exactly when every recorded answer is correct. */
  lemma PerfectScoreIff(s: SessionState)
    requires Consistent(s)
    ensures s.score == s.index <==> forall i :: 0 <= i < |s.history| ==> s.history[i].isCorrect
  {
    CountCorrectAllIff(s.history);
  }
}
