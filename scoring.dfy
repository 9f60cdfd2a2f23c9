/** What the results screen derives from the recorded answers: the score, its
    colour band and the rounded percentage.

    Recorded answers are a sparse map from question index to chosen option index;
    an index that is not a key is an unanswered question.
 */
module Scoring {
  import opened QuizData

  /** Question `i` counts as correct when an answer is recorded for it and that
      answer equals the question's correct index. An unanswered question compares
      `undefined` with a number in the page and is never correct. */
  predicate IsCorrect(qs: seq<Question>, answers: map<nat, nat>, i: nat)
    requires i < |qs|
  {
    i in answers && answers[i] == qs[i].correct
  }

  /** The number of correct answers among the first `n` questions, counted in
      question order as the page's scan does. */
  function ScoreUpTo(qs: seq<Question>, answers: map<nat, nat>, n: nat): (r: nat)
    requires n <= |qs|
    ensures r <= n
  {
    if n == 0 then 0
    else ScoreUpTo(qs, answers, n - 1) + (if IsCorrect(qs, answers, n - 1) then 1 else 0)
  }

  /** The score: the number of correct answers over all questions. */
  function Score(qs: seq<Question>, answers: map<nat, nat>): (r: nat)
    ensures r <= |qs|
  {
    ScoreUpTo(qs, answers, |qs|)
  }

  /** The indices below `n` whose recorded answer is correct. */
  ghost function CorrectSet(qs: seq<Question>, answers: map<nat, nat>, n: nat): set<nat>
    requires n <= |qs|
  {
    set i: nat | i < n && IsCorrect(qs, answers, i)
  }

  /** The indices below `n` that have an answer recorded at all. */
  ghost function AnsweredSet(answers: map<nat, nat>, n: nat): set<nat>
  {
    set i: nat | i < n && i in answers
  }

  lemma {:induction false} ScoreUpToIsCount(qs: seq<Question>, answers: map<nat, nat>, n: nat)
    requires n <= |qs|
    ensures ScoreUpTo(qs, answers, n) == |CorrectSet(qs, answers, n)|
  {
    if n > 0 {
      ScoreUpToIsCount(qs, answers, n - 1);
      var before := CorrectSet(qs, answers, n - 1);
      if IsCorrect(qs, answers, n - 1) {
        assert CorrectSet(qs, answers, n) == before + {n - 1};
      } else {
        assert CorrectSet(qs, answers, n) == before;
      }
    }
  }

  /** The score is the size of the set of questions answered correctly. */
  lemma ScoreIsCount(qs: seq<Question>, answers: map<nat, nat>)
    ensures Score(qs, answers) == |set i: nat | i < |qs| && IsCorrect(qs, answers, i)|
  {
    ScoreUpToIsCount(qs, answers, |qs|);
  }

  /** Unanswered questions never count: the score is at most the number of
      questions that have an answer recorded. */
  lemma ScoreAtMostAnswered(qs: seq<Question>, answers: map<nat, nat>)
    ensures Score(qs, answers) <= |AnsweredSet(answers, |qs|)|
  {
    ScoreUpToIsCount(qs, answers, |qs|);
    assert CorrectSet(qs, answers, |qs|) <= AnsweredSet(answers, |qs|);
    SubsetCardinality(CorrectSet(qs, answers, |qs|), AnsweredSet(answers, |qs|));
  }

  lemma {:induction false} SubsetCardinality(a: set<nat>, b: set<nat>)
    requires a <= b
    ensures |a| <= |b|
  {
    if a != {} {
      var x :| x in a;
      SubsetCardinality(a - {x}, b - {x});
    }
  }

  lemma {:induction false} ScoreUpToAllCorrect(qs: seq<Question>, answers: map<nat, nat>, n: nat)
    requires n <= |qs|
    requires forall i: nat :: i < n ==> IsCorrect(qs, answers, i)
    ensures ScoreUpTo(qs, answers, n) == n
  {
    if n > 0 {
      ScoreUpToAllCorrect(qs, answers, n - 1);
    }
  }

  /** When every question is answered correctly the score is the number of questions. */
  lemma ScoreAllCorrect(qs: seq<Question>, answers: map<nat, nat>)
    requires forall i: nat :: i < |qs| ==> IsCorrect(qs, answers, i)
    ensures Score(qs, answers) == |qs|
  {
    ScoreUpToAllCorrect(qs, answers, |qs|);
  }

  lemma {:induction false} ScoreUpToNoneCorrect(qs: seq<Question>, answers: map<nat, nat>, n: nat)
    requires n <= |qs|
    requires forall i: nat :: i < n ==> !IsCorrect(qs, answers, i)
    ensures ScoreUpTo(qs, answers, n) == 0
  {
    if n > 0 {
      ScoreUpToNoneCorrect(qs, answers, n - 1);
    }
  }

  /** When no question is answered correctly (in particular when nothing is
      answered) the score is zero. */
  lemma ScoreNoneCorrect(qs: seq<Question>, answers: map<nat, nat>)
    requires forall i: nat :: i < |qs| ==> !IsCorrect(qs, answers, i)
    ensures Score(qs, answers) == 0
  {
    ScoreUpToNoneCorrect(qs, answers, |qs|);
  }

  /** The contribution of question `k` to the score (0 or 1). */
  function Point(qs: seq<Question>, answers: map<nat, nat>, k: nat): (p: nat)
    requires k < |qs|
  {
    if IsCorrect(qs, answers, k) then 1 else 0
  }

  lemma {:induction false} ScoreUpToAfterSelect(qs: seq<Question>, answers: map<nat, nat>, k: nat, v: nat, n: nat)
    requires k < |qs| && n <= |qs|
    ensures ScoreUpTo(qs, answers[k := v], n)
      == ScoreUpTo(qs, answers, n) + (if k < n then Point(qs, answers[k := v], k) - Point(qs, answers, k) else 0)
  {
    if n > 0 {
      ScoreUpToAfterSelect(qs, answers, k, v, n - 1);
    }
  }

  /** Recording option `v` for question `k` changes only that question's
      contribution: the score moves by at most one, and choosing the correct
      option never lowers it. */
  lemma ScoreAfterSelect(qs: seq<Question>, answers: map<nat, nat>, k: nat, v: nat)
    requires k < |qs|
    ensures Score(qs, answers[k := v]) == Score(qs, answers) + Point(qs, answers[k := v], k) - Point(qs, answers, k)
    ensures Score(qs, answers) - 1 <= Score(qs, answers[k := v]) <= Score(qs, answers) + 1
    ensures v == qs[k].correct ==> Score(qs, answers[k := v]) >= Score(qs, answers)
  {
    ScoreUpToAfterSelect(qs, answers, k, v, |qs|);
  }

  /** The four colour bands of the results screen. */
  datatype ScoreColor = Green | Blue | Yellow | Red

  /** Bands ordered from worst (0) to best (3). */
  function Rank(c: ScoreColor): (r: nat) {
    match c
    case Red => 0
    case Yellow => 1
    case Blue => 2
    case Green => 3
  }

  /** `(score / total) * 100 >= p`, computed on exact rationals. A positive
      total keeps the direction of the comparison and a negative one flips it;
      with a zero total the quotient is +Infinity, -Infinity or NaN, and only
      +Infinity (a positive score) reaches a threshold. */
  predicate PercentAtLeast(score: int, total: int, p: int) {
    if total > 0 then score * 100 >= p * total
    else if total < 0 then score * 100 <= p * total
    else score > 0
  }

  /** The colour of the score: the first of the thresholds 80, 60 and 40 that
      the percentage reaches, and red below all three. */
  function GetScoreColor(score: int, total: int): (c: ScoreColor)
    ensures total > 0 ==> (c == Green <==> 5 * score >= 4 * total)
    ensures total > 0 ==> (c == Blue <==> 5 * score < 4 * total && 5 * score >= 3 * total)
    ensures total > 0 ==> (c == Yellow <==> 5 * score < 3 * total && 5 * score >= 2 * total)
    ensures total > 0 ==> (c == Red <==> 5 * score < 2 * total)
  {
    if PercentAtLeast(score, total, 80) then Green
    else if PercentAtLeast(score, total, 60) then Blue
    else if PercentAtLeast(score, total, 40) then Yellow
    else Red
  }

  /** A higher score out of the same positive total never gets a lower band. */
  lemma ScoreColorMonotone(s1: int, s2: int, total: int)
    requires total > 0 && s1 <= s2
    ensures Rank(GetScoreColor(s1, total)) <= Rank(GetScoreColor(s2, total))
  {
  }

  /** The bands for the five-question test: 4 or 5 correct is green, 3 blue,
      2 yellow, 0 or 1 red. */
  lemma ScoreColorForFive()
    ensures GetScoreColor(5, 5) == Green && GetScoreColor(4, 5) == Green
    ensures GetScoreColor(3, 5) == Blue
    ensures GetScoreColor(2, 5) == Yellow
    ensures GetScoreColor(1, 5) == Red && GetScoreColor(0, 5) == Red
  {
  }

  /** `Math.round((score / total) * 100)`: the percentage rounded to the
      nearest integer, halves rounded up. */
  function RoundedPercent(score: int, total: int): (r: int)
    requires total > 0
    ensures 2 * r * total <= 200 * score + total < 2 * (r + 1) * total
    ensures 0 <= score <= total ==> 0 <= r <= 100
  {
    NearestQuotient(200 * score + total, 2 * total);
    (200 * score + total) / (2 * total)
  }

  lemma NearestQuotient(n: int, d: int)
    requires d > 0
    ensures d * (n / d) <= n < d * (n / d) + d
    ensures 0 <= n ==> 0 <= n / d
    ensures n < 101 * d ==> n / d <= 100
  {
    var r := n / d;
    assert n == d * r + n % d && 0 <= n % d < d;
    assert d * (r + 1) > n;
    assert 0 <= n ==> d * (r + 1) > 0;
    assert n < 101 * d ==> d * r < d * 101;
  }
}
