/**
 The session as driven by the user. A click reaches a handler only when the
 button is on the visible screen: start on the start screen, restart on the
 results screen (both run the start handler), option buttons and next on
 the question screen. Each action carries the network outcomes its handler
 would receive.
 */
module Interaction {
  import opened QuizData
  import opened Session
  import opened Report

  datatype Action =
    | ClickStart(response: Option<seq<QuestionId>>, first: Option<Question>)
    | ClickOption(key: Key)
    | ClickNext(next: Option<Question>)

  /** Whether the button an action clicks is on the visible screen. */
  predicate Enabled(s: SessionState, a: Action) {
    match a
    case ClickStart(_, _) => s.screen != QuestionScreen
    case ClickOption(_) => s.screen == QuestionScreen
    case ClickNext(_) => s.screen == QuestionScreen
  }

  /** One user action; a click on a hidden button changes nothing, and only
      the start and next handlers switch screens. */
  function Step(s: SessionState, a: Action): (r: SessionState)
    ensures !Enabled(s, a) ==> r == s
    ensures r.screen != s.screen ==> Enabled(s, a) && !a.ClickOption?
  {
    if !Enabled(s, a) then s
    else match a
      case ClickStart(response, first) => StartQuiz(s, response, first)
      case ClickOption(k) => HandleAnswer(s, k)
      case ClickNext(next) => NextQuestion(s, next)
  }

  /** A sequence of user actions, applied in order. */
  function Run(s: SessionState, actions: seq<Action>): (r: SessionState)
    decreases |actions|
  {
    if |actions| == 0 then s else Run(Step(s, actions[0]), actions[1..])
  }

  /** How the index relates to the id list on each screen: nothing answered
      on the start screen, a question inside the list on the question screen,
      and on the results screen the index at the end of the list unless an
      empty restart has since emptied the list. */
  ghost predicate ScreenInv(s: SessionState) {
    && (s.screen == StartScreen ==> s.index == 0)
    && (s.screen == QuestionScreen ==> s.index < |s.ids|)
    && (s.screen == ResultScreen ==> s.index == |s.ids| || s.ids == [])
  }

  ghost predicate Reachable(s: SessionState) {
    Consistent(s) && ScreenInv(s)
  }

  /** Every user action keeps the session invariants and the screen invariant. */
  lemma StepPreserves(s: SessionState, a: Action)
    requires Reachable(s)
    ensures Reachable(Step(s, a))
  {
    if Enabled(s, a) {
      match a
      case ClickStart(response, first) =>
        StartQuizPreservesConsistent(s, response, first);
      case ClickOption(k) =>
      case ClickNext(next) =>
        NextQuestionPreservesConsistent(s, next);
    }
  }

  /** Any sequence of actions from the page's initial state, or from any
      reachable state, ends in a reachable state. */
  lemma {:induction false} RunPreserves(s: SessionState, actions: seq<Action>)
    requires Reachable(s)
    ensures Reachable(Run(s, actions))
    decreases |actions|
  {
    if |actions| > 0 {
      StepPreserves(s, actions[0]);
      RunPreserves(Step(s, actions[0]), actions[1..]);
    }
  }

  lemma InitialReachable()
    ensures Reachable(Initial())
  {
  }

  /** In a reachable state the index stays within the id list, except on the
      results screen after a restart that fetched an empty list. */
  lemma ReachableBounded(s: SessionState)
    requires Reachable(s)
    requires !(s.screen == ResultScreen && s.ids == [])
    ensures Bounded(s)
    ensures |s.history| <= |s.ids| && s.score <= |s.ids|
  {
  }

  /** The empty-restart quirk: after a one-question quiz, a restart whose id
      list comes back empty keeps index 1, score and history, but the list
      now has no entries, so the index lies past its end. */
  lemma EmptyRestartLeavesIndexPastEnd(q: Question)
    ensures var finished := Run(Initial(), [ClickStart(Some(["q1"]), Some(q)), ClickOption(q.correctAnswer), ClickNext(None)]);
      var restarted := Step(finished, ClickStart(Some([]), None));
      && finished.screen == ResultScreen && finished.index == 1 && finished.score == 1
      && restarted.screen == ResultScreen
      && restarted.ids == [] && restarted.index == 1 && restarted.score == 1
      && |restarted.history| == 1
      && !Bounded(restarted)
  {
    var s0 := Initial();
    var s1 := Step(s0, ClickStart(Some(["q1"]), Some(q)));
    var s2 := Step(s1, ClickOption(q.correctAnswer));
    var s3 := Step(s2, ClickNext(None));
    var acts := [ClickStart(Some(["q1"]), Some(q)), ClickOption(q.correctAnswer), ClickNext(None)];
    assert acts[1..] == [ClickOption(q.correctAnswer), ClickNext(None)];
    assert acts[1..][1..] == [ClickNext(None)];
    assert acts[1..][1..][1..] == [];
    assert Run(s3, []) == s3;
    assert Run(s2, acts[1..][1..]) == s3;
    assert Run(s1, acts[1..]) == s3;
    assert Run(s0, acts) == s3;
  }

  /** While a question is shown its progress lies in [0, 100). */
  lemma ProgressInRange(s: SessionState)
    requires Reachable(s) && s.screen == QuestionScreen
    ensures |s.ids| > 0
    ensures 0.0 <= ProgressPercent(s.index, |s.ids|) < 100.0
  {
  }

  /** Answering the last question of a reachable session shows the results
      for a non-empty list: one summary entry per question, the entries
      marked correct adding up to the score, and the verdict decided by
      the 80% threshold. */
  lemma FinishShowsResults(s: SessionState, next: Option<Question>)
    requires Reachable(s) && s.screen == QuestionScreen
    requires CanAdvance(s) && s.index + 1 == |s.ids|
    ensures var r := Step(s, ClickNext(next));
      var res := ResultsOf(r);
      && r.screen == ResultScreen
      && r.index == |r.ids| > 0
      && |res.summary| == res.total
      && CountCorrectItems(res.summary) == res.finalScore
      && (res.passed <==> 5 * res.finalScore >= 4 * res.total)
  {
    NextQuestionPreservesConsistent(s, next);
  }

  /** After a failed question load the previous question stays loaded but the
      selection is gone, so advancing changes nothing. */
  lemma FailedLoadBlocksAdvance(s: SessionState, next: Option<Question>)
    ensures var failed := ShowQuestion(s, None);
      NextQuestion(failed, next) == failed && failed.current == s.current
  {
  }

  /** The pick recorded when advancing is the last one made. */
  lemma AdvanceRecordsLastPick(s: SessionState, k1: Key, k2: Key, next: Option<Question>)
    requires s.current.Some?
    ensures var r := NextQuestion(HandleAnswer(HandleAnswer(s, k1), k2), next);
      && r.history == s.history + [Grade(s.current.value, k2)]
      && r.history[|s.history|].selectedKey == k2
  {
  }

  /** Whenever the question screen is visible the page has an id to load:
      the one at the current index. A non-empty start asks for the first id,
      and an advance that stays on the question screen asks for the next. */
  lemma RequestedIdOnQuestionScreen(s: SessionState, ids: seq<QuestionId>, first: Option<Question>, next: Option<Question>)
    requires Reachable(s)
    ensures s.screen == QuestionScreen ==> RequestedId(s) == Some(s.ids[s.index])
    ensures ids != [] ==> RequestedId(StartQuiz(s, Some(ids), first)) == Some(ids[0])
    ensures s.screen == QuestionScreen && CanAdvance(s) && s.index + 1 < |s.ids| ==>
      RequestedId(Step(s, ClickNext(next))) == Some(s.ids[s.index + 1])
  {
  }
}
