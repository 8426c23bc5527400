/**
 What the results screen and the progress bar show: the pass/fail verdict,
 the per-question summary in answer order, and the progress percentage.
 The page computes the verdict and the progress in floating point; here the
 verdict is exact integer arithmetic and the progress an exact real.
 */
module Report {
  import opened QuizData
  import opened Session

  /** Pass when the score is at least 80% of the question count. With no
      questions the page divides by zero: a positive score gives +Infinity,
      which passes, and 0/0 gives NaN, which fails. */
  function Passed(score: nat, total: nat): (p: bool)
    ensures total > 0 ==> (p <==> score * 100 >= 80 * total)
    ensures total == 0 ==> (p <==> score > 0)
  {
    if total == 0 then score > 0
    else 5 * score >= 4 * total
  }

  /** The integer verdict agrees with the page's percentage test, taken over
      exact reals instead of doubles. */
  lemma PassedMatchesPercentage(score: nat, total: nat)
    requires total > 0
    ensures Passed(score, total) <==> (score as real / total as real) * 100.0 >= 80.0
  {
  }

  /** The two boundary cases: 4 of 5 (exactly 80%) passes, 2 of 3 fails. */
  lemma PassedBoundary()
    ensures Passed(4, 5)
    ensures !Passed(2, 3)
  {
  }

  /** One entry of the results summary. `number` is the 1-based position;
      option texts are `None` where the question lacks that key. */
  datatype SummaryItem = SummaryItem(
    number: nat,
    isCorrect: bool,
    prompt: string,
    selectedKey: Key,
    selectedText: Option<string>,
    correctAnswer: Key,
    correctText: Option<string>,
    explanation: string)

  /** The entry shown at 0-based position `i` for record `r`. */
  function Item(i: nat, r: AnsweredQuestion): (item: SummaryItem)
    ensures item.number == i + 1
  {
    SummaryItem(i + 1, r.isCorrect, r.question.prompt,
      r.selectedKey, OptionText(r.question, r.selectedKey),
      r.question.correctAnswer, OptionText(r.question, r.question.correctAnswer),
      r.question.explanation)
  }

  /** The summary lists the history in the order it was recorded, numbered
      from 1, each entry showing the record's own selection and question. */
  function Summary(h: seq<AnsweredQuestion>): (items: seq<SummaryItem>)
    ensures |items| == |h|
    ensures forall i :: 0 <= i < |h| ==>
      && items[i].number == i + 1
      && items[i].isCorrect == h[i].isCorrect
      && items[i].selectedKey == h[i].selectedKey
      && items[i].prompt == h[i].question.prompt
      && items[i].correctAnswer == h[i].question.correctAnswer
      && items[i].selectedText == OptionText(h[i].question, h[i].selectedKey)
      && items[i].correctText == OptionText(h[i].question, h[i].question.correctAnswer)
      && items[i].explanation == h[i].question.explanation
  {
    seq(|h|, i requires 0 <= i < |h| => Item(i, h[i]))
  }

  /** Recording one more answer appends exactly one entry, numbered next,
      and leaves the earlier entries as they were. */
  lemma SummaryAppend(h: seq<AnsweredQuestion>, r: AnsweredQuestion)
    ensures Summary(h + [r]) == Summary(h) + [Item(|h|, r)]
  {
  }

  /** The "Correct"/"Incorrect" status of each entry, in order. */
  function StatusFlags(items: seq<SummaryItem>): (f: seq<bool>)
    ensures |f| == |items|
    ensures forall i :: 0 <= i < |items| ==> f[i] == items[i].isCorrect
  {
    seq(|items|, i requires 0 <= i < |items| => items[i].isCorrect)
  }

  /** The number of entries marked correct. */
  function CountCorrectItems(items: seq<SummaryItem>): (n: nat)
    ensures n <= |items|
  {
    CountTrue(StatusFlags(items))
  }

  /** The summary marks as many entries correct as the history holds
      correct records. */
  lemma SummaryCountsCorrect(h: seq<AnsweredQuestion>)
    ensures CountCorrectItems(Summary(h)) == CountCorrect(h)
  {
    assert StatusFlags(Summary(h)) == Flags(h);
  }

  /** The content of the results screen. */
  datatype Results = Results(finalScore: nat, total: nat, passed: bool, summary: seq<SummaryItem>)

  /** The results of a session: final score, verdict against the id count, and
      the summary of the whole history in answer order. For a consistent
      session the entries marked correct add up to the displayed score and
      there is one entry per question passed. */
  function ResultsOf(s: SessionState): (res: Results)
    ensures res.finalScore == s.score && res.total == |s.ids|
    ensures res.passed == Passed(s.score, |s.ids|)
    ensures res.summary == Summary(s.history)
    ensures res.passed <==> (if |s.ids| == 0 then s.score > 0 else s.score * 100 >= 80 * |s.ids|)
    ensures Consistent(s) ==> CountCorrectItems(res.summary) == res.finalScore
    ensures Consistent(s) ==> |res.summary| == s.index
  {
    SummaryCountsCorrect(s.history);
    Results(s.score, |s.ids|, Passed(s.score, |s.ids|), Summary(s.history))
  }

  /** The progress-bar width, in percent, for the question at `index`. */
  function ProgressPercent(index: nat, total: nat): (p: real)
    requires total > 0
    ensures index < total ==> 0.0 <= p < 100.0
    ensures index == 0 ==> p == 0.0
  {
    var ratio := index as real / total as real;
    assert index < total ==> ratio < 1.0 by {
      assert ratio * total as real == index as real;
    }
    ratio * 100.0
  }
}
