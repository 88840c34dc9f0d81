/**
 * Review scheduling, attempt scoring and question rotation of the Python
 * data model (app/models.py). Time is an explicit parameter counted in
 * seconds; scores are real numbers.
 */
module Models {
  import opened Wrappers

  const SecondsPerDay: int := 86400

  /**
   * The review interval, in days, that `Attempt.calculate_next_due` uses
   * for an attempt's score (`None` when the attempt was never scored).
   */
  function ReviewIntervalDays(score: Option<real>): nat
  {
    match score
    case None => 1
    case Some(s) => if s < 80.0 then 3 else if s < 90.0 then 7 else 30
  }

  /** The interval never shrinks as the score grows, and every bracket boundary belongs to the upper bracket. */
  lemma ReviewIntervalMonotone(s1: real, s2: real)
    requires s1 <= s2
    ensures ReviewIntervalDays(Some(s1)) <= ReviewIntervalDays(Some(s2))
    ensures ReviewIntervalDays(Some(s1)) in {3, 7, 30}
  {
  }

  /** Each interval belongs to exactly one score bracket. */
  lemma ReviewIntervalBrackets(score: Option<real>)
    ensures ReviewIntervalDays(score) == 1 <==> score.None?
    ensures ReviewIntervalDays(score) == 3 <==> (score.Some? && score.value < 80.0)
    ensures ReviewIntervalDays(score) == 7 <==> (score.Some? && 80.0 <= score.value < 90.0)
    ensures ReviewIntervalDays(score) == 30 <==> (score.Some? && 90.0 <= score.value)
  {
  }

  /** The sum of a sequence of scores (Python `sum`). */
  function Sum(s: seq<real>): real
  {
    if |s| == 0 then 0.0 else s[0] + Sum(s[1..])
  }

  /** The mean of the scores, 0.0 for none (`calculate_overall_score`). */
  function Mean(s: seq<real>): real
  {
    if |s| == 0 then 0.0 else Sum(s) / (|s| as real)
  }

  /** `lo` and `hi` bound every score. */
  ghost predicate Bounds(s: seq<real>, lo: real, hi: real)
  {
    forall i :: 0 <= i < |s| ==> lo <= s[i] <= hi
  }

  lemma {:induction false} SumBounds(s: seq<real>, lo: real, hi: real)
    requires Bounds(s, lo, hi)
    ensures (|s| as real) * lo <= Sum(s) <= (|s| as real) * hi
  {
    if |s| > 0 {
      assert Bounds(s[1..], lo, hi) by {
        forall i | 0 <= i < |s| - 1 ensures lo <= s[1..][i] <= hi {
          assert s[1..][i] == s[i + 1];
        }
      }
      SumBounds(s[1..], lo, hi);
    }
  }

  /** The mean of a non-empty list lies between any lower and upper bound of its elements. */
  lemma MeanBetween(s: seq<real>, lo: real, hi: real)
    requires |s| > 0 && Bounds(s, lo, hi)
    ensures lo <= Mean(s) <= hi
  {
    SumBounds(s, lo, hi);
    var n := |s| as real;
    assert Mean(s) * n == Sum(s);
  }

  /** A question of a lesson's `questions["all"]` list. */
  datatype QuestionEntry = QuestionEntry(question: string, answer: string)

  /** The value stored under `questions["current"]`: missing, JSON null, or a text. */
  datatype Current = Absent | Null | Text(text: string)

  /** A lesson's `questions` JSON document. `all` is `None` when missing or null. */
  datatype Questions = Questions(all: Option<seq<QuestionEntry>>, current: Current)

  /** The dictionary `get_next_question` returns. */
  datatype NextQuestion = NextQuestion(current: string, answer: string)

  /** The first position whose question text is `text`, as the generator scan finds it. */
  function FirstIndexOf(all: seq<QuestionEntry>, text: string): (r: Option<nat>)
    ensures r.Some? ==> r.value < |all| && all[r.value].question == text
    ensures r.Some? ==> forall j :: 0 <= j < r.value ==> all[j].question != text
    ensures r.None? ==> forall j :: 0 <= j < |all| ==> all[j].question != text
  {
    if |all| == 0 then None
    else if all[0].question == text then Some(0)
    else match FirstIndexOf(all[1..], text)
      case None => None
      case Some(i) => Some(i + 1)
  }

  /**
   * `Lesson.get_next_question`: `Ok(None)` when there is no question list,
   * an error when the list is non-empty but `current` is missing (the scan
   * raises `KeyError`), and otherwise the successor of the matching question.
   */
  function GetNextQuestion(q: Questions): Result<Option<NextQuestion>>
  {
    match q.all
    case None => Ok(None)
    case Some(all) =>
      if |all| == 0 then Ok(None)
      else if q.current.Absent? then Err("KeyError: 'current'")
      else
        var idx := if q.current.Text? then FirstIndexOf(all, q.current.text) else None;
        var next := if idx.None? || idx.value == |all| - 1 then all[0] else all[idx.value + 1];
        Ok(Some(NextQuestion(next.question, next.answer)))
  }

  /**
   * The successor rule: with a non-empty list, the result is the entry after the
   * first question whose text equals `current`, wrapping to the first entry
   * after the last one; when no question matches (or `current` is null) it is
   * the first entry.
   */
  lemma NextQuestionIsSuccessor(q: Questions, k: nat)
    requires q.all.Some? && 0 < |q.all.value| && !q.current.Absent?
    requires k < |q.all.value|
    requires q.current.Text? && q.all.value[k].question == q.current.text
    requires forall j :: 0 <= j < k ==> q.all.value[j].question != q.current.text
    ensures var next := q.all.value[if k + 1 < |q.all.value| then k + 1 else 0];
            GetNextQuestion(q) == Ok(Some(NextQuestion(next.question, next.answer)))
  {
    FirstMatchIsFound(q.all.value, q.current.text, k);
  }

  /** A first match is what `FirstIndexOf` finds. */
  lemma FirstMatchIsFound(all: seq<QuestionEntry>, text: string, k: nat)
    requires k < |all| && all[k].question == text
    requires forall j :: 0 <= j < k ==> all[j].question != text
    ensures FirstIndexOf(all, text) == Some(k)
  {
  }

  /** A text that matches no question, or a null `current`, selects the first question. */
  lemma NextQuestionWrapsWhenUnmatched(q: Questions)
    requires q.all.Some? && 0 < |q.all.value|
    requires q.current.Null? || (q.current.Text? && forall j :: 0 <= j < |q.all.value| ==> q.all.value[j].question != q.current.text)
    ensures GetNextQuestion(q) == Ok(Some(NextQuestion(q.all.value[0].question, q.all.value[0].answer)))
  {
  }

  /** A missing or empty question list gives no next question; a missing `current` key raises. */
  lemma NextQuestionEdgeCases(q: Questions)
    ensures (q.all.None? || q.all.value == []) ==> GetNextQuestion(q) == Ok(None)
    ensures (q.all.Some? && q.all.value != [] && q.current.Absent?) ==> GetNextQuestion(q).Err?
  {
  }

  /**
   * An attempt row. Only the columns the two methods use are modelled:
   * the score, the review due time (seconds) and the scores of its answers.
   */
  class Attempt {
    var score: Option<real>
    var nextDue: Option<int>
    var answerScores: seq<real>

    constructor (score: Option<real>, answerScores: seq<real>)
      ensures this.score == score && this.answerScores == answerScores && nextDue == None
    {
      this.score := score;
      this.answerScores := answerScores;
      nextDue := None;
    }

    /** `calculate_next_due`: schedules the next review from the score, relative to `now`. */
    method CalculateNextDue(now: int)
      modifies this`nextDue
      ensures nextDue == Some(now + ReviewIntervalDays(score) * SecondsPerDay)
      ensures score == old(score) && answerScores == old(answerScores)
    {
      if score.None? {
        nextDue := Some(now + 1 * SecondsPerDay);
      } else if score.value < 80.0 {
        nextDue := Some(now + 3 * SecondsPerDay);
      } else if score.value < 90.0 {
        nextDue := Some(now + 7 * SecondsPerDay);
      } else {
        nextDue := Some(now + 30 * SecondsPerDay);
      }
    }

    /** `calculate_overall_score`: 0.0 without answers, otherwise the mean answer score. */
    function OverallScore(): (r: real)
      reads this
      ensures answerScores == [] ==> r == 0.0
      ensures forall lo, hi :: answerScores != [] && Bounds(answerScores, lo, hi) ==> lo <= r <= hi
    {
      forall lo, hi | answerScores != [] && Bounds(answerScores, lo, hi) ensures lo <= Mean(answerScores) <= hi {
        MeanBetween(answerScores, lo, hi);
      }
      Mean(answerScores)
    }
  }
}
