/**
 The data the quiz front end works with: the fixed option keys, a question as
 fetched from the question service, and the answer-history records that a
 session accumulates as the user advances.
 */
module QuizData {

  /** A value that may be absent: JavaScript's `null` (or `undefined`). */
  datatype Option<+T> = None | Some(value: T)

  /** The three option keys every question offers, in display order. */
  datatype Key = A | B | C

  /** Question identifiers are opaque tokens handed out by the service. */
  type QuestionId = string

  /** A question as fetched from the service. `options` maps each key to its
      text; the service always sends all three keys, but nothing in the front
      end relies on that, so a key may be missing. */
  datatype Question = Question(
    prompt: string,
    options: map<Key, string>,
    correctAnswer: Key,
    explanation: string)

  /** One history record, created when the user advances past a question. */
  datatype AnsweredQuestion = AnsweredQuestion(
    question: Question,
    selectedKey: Key,
    isCorrect: bool)

  /** A record is graded when its flag says whether the selection is the
      question's correct key. */
  predicate Graded(r: AnsweredQuestion) {
    r.isCorrect <==> r.selectedKey == r.question.correctAnswer
  }

  /** The record committed for selection `k` on question `q`. */
  function Grade(q: Question, k: Key): (r: AnsweredQuestion)
    ensures Graded(r)
    ensures r.question == q && r.selectedKey == k
  {
    AnsweredQuestion(q, k, k == q.correctAnswer)
  }

  /** The number of `true` entries in a sequence of flags. */
  function CountTrue(flags: seq<bool>): (n: nat)
    ensures n <= |flags|
  {
    if |flags| == 0 then 0
    else (if flags[0] then 1 else 0) + CountTrue(flags[1..])
  }

  /** Appending one flag adds one to the count exactly when it is set. */
  lemma {:induction false} CountTrueAppend(flags: seq<bool>, b: bool)
    ensures CountTrue(flags + [b]) == CountTrue(flags) + (if b then 1 else 0)
  {
    if |flags| == 0 {
      assert flags + [b] == [b];
    } else {
      assert (flags + [b])[1..] == flags[1..] + [b];
      CountTrueAppend(flags[1..], b);
    }
  }

  /** Every flag is counted exactly when every flag is set. */
  lemma {:induction false} CountTrueAllIff(flags: seq<bool>)
    ensures CountTrue(flags) == |flags| <==> forall i :: 0 <= i < |flags| ==> flags[i]
  {
    if |flags| > 0 {
      CountTrueAllIff(flags[1..]);
      if forall i :: 0 <= i < |flags| ==> flags[i] {
        assert forall i :: 0 <= i < |flags[1..]| ==> flags[1..][i] by {
          forall i | 0 <= i < |flags[1..]| ensures flags[1..][i] {
            assert flags[1..][i] == flags[i + 1];
          }
        }
      } else if flags[0] {
        var j :| 0 <= j < |flags| && !flags[j];
        assert flags[1..][j - 1] == flags[j];
      }
    }
  }

  /** The correctness flags of a history, in order. */
  function Flags(h: seq<AnsweredQuestion>): (f: seq<bool>)
    ensures |f| == |h|
    ensures forall i :: 0 <= i < |h| ==> f[i] == h[i].isCorrect
  {
    seq(|h|, i requires 0 <= i < |h| => h[i].isCorrect)
  }

  /** The number of correct records in a history. */
  function CountCorrect(h: seq<AnsweredQuestion>): (n: nat)
    ensures n <= |h|
  {
    CountTrue(Flags(h))
  }

  /** Appending one record adds one to the count exactly when it is correct. */
  lemma CountCorrectAppend(h: seq<AnsweredQuestion>, r: AnsweredQuestion)
    ensures CountCorrect(h + [r]) == CountCorrect(h) + (if r.isCorrect then 1 else 0)
  {
    assert Flags(h + [r]) == Flags(h) + [r.isCorrect];
    CountTrueAppend(Flags(h), r.isCorrect);
  }

  /** A perfect count means every record is correct, and conversely. */
  lemma CountCorrectAllIff(h: seq<AnsweredQuestion>)
    ensures CountCorrect(h) == |h| <==> forall i :: 0 <= i < |h| ==> h[i].isCorrect
  {
    CountTrueAllIff(Flags(h));
  }

  /** Looking up an option's text; a missing key reads as `undefined`. */
  function OptionText(q: Question, k: Key): (t: Option<string>)
    ensures t.Some? <==> k in q.options
    ensures t.Some? ==> t.value == q.options[k]
  {
    if k in q.options then Some(q.options[k]) else None
  }
}
