/**
 * The quiz engine of script.js: `submitQuiz` collects the checked options,
 * `displayResults` counts the correct answers, rounds the percentage and
 * builds the per-question review.
 */
module Quiz {
  import opened Options
  import opened Catalog
  import opened Decimal

  /** The value of a radio button: one of the option letters `['A', 'B', 'C', 'D', 'E']`. */
  type Letter = c: char | 'A' <= c <= 'E' witness 'A'

  /** One entry of `userAnswers`: the checked letter, or `None` for `null`. */
  type Answer = Option<Letter>

  /** The radio value of the option at each position. */
  const OptionLetters: seq<Letter> := ['A', 'B', 'C', 'D', 'E']

  // ----- submitQuiz: collecting the answers -----

  /**
   * The answers submitQuiz collects for `count` questions when `checked`
   * maps a question's index to the letter of its checked radio button.
   */
  function Collected(count: nat, checked: map<nat, Letter>): seq<Answer>
  {
    seq(count, i requires 0 <= i < count => if i in checked then Some(checked[i]) else None)
  }

  /** Every question has a checked option. */
  predicate AllAnswered(count: nat, checked: map<nat, Letter>)
  {
    forall i: nat :: i < count ==> i in checked
  }

  /**
   * The `forEach` over the questions in submitQuiz: it pushes the checked
   * letter or `null` per question and clears `allAnswered` at the first
   * unchecked question, so `allAnswered` holds exactly when no entry is `null`.
   */
  method CollectAnswers(questions: seq<Question>, checked: map<nat, Letter>) returns (userAnswers: seq<Answer>, allAnswered: bool)
    ensures userAnswers == Collected(|questions|, checked)
    ensures allAnswered <==> forall i :: 0 <= i < |userAnswers| ==> userAnswers[i].Some?
    ensures allAnswered <==> AllAnswered(|questions|, checked)
  {
    userAnswers := [];
    allAnswered := true;
    for index := 0 to |questions|
      invariant userAnswers == Collected(index, checked)
      invariant allAnswered <==> AllAnswered(index, checked)
    {
      if index in checked {
        userAnswers := userAnswers + [Some(checked[index])];
      } else {
        userAnswers := userAnswers + [None];
        allAnswered := false;
      }
    }
    assert forall i :: 0 <= i < |userAnswers| ==> (userAnswers[i].Some? <==> i in checked);
  }

  // ----- displayResults: the score -----

  /**
   * `answer === material.answerKey[index]`: the entry is the key's letter.
   * Past the end of the key the key entry is `undefined`, which no entry equals.
   */
  predicate Matches(answers: seq<Answer>, key: seq<char>, i: int)
    requires 0 <= i < |answers|
  {
    i < |key| && answers[i].Some? && answers[i].value == key[i]
  }

  /** The number of the first `n` entries that match the key. */
  function CorrectIn(answers: seq<Answer>, key: seq<char>, n: nat): (c: nat)
    requires n <= |answers|
    ensures c <= n
  {
    if n == 0 then 0
    else CorrectIn(answers, key, n - 1) + (if Matches(answers, key, n - 1) then 1 else 0)
  }

  /** `correctCount` after the `forEach` over `userAnswers`. */
  function CorrectCount(answers: seq<Answer>, key: seq<char>): nat
  {
    CorrectIn(answers, key, |answers|)
  }

  /** The counting loop of displayResults. */
  method CountCorrect(userAnswers: seq<Answer>, answerKey: seq<char>) returns (correctCount: nat)
    ensures correctCount == CorrectCount(userAnswers, answerKey)
  {
    correctCount := 0;
    for index := 0 to |userAnswers|
      invariant correctCount == CorrectIn(userAnswers, answerKey, index)
    {
      if userAnswers[index].Some? && index < |answerKey| && userAnswers[index].value == answerKey[index] {
        correctCount := correctCount + 1;
      }
    }
  }

  /** Every answer counts exactly when every answer matches the key. */
  lemma {:induction false} AllCorrectIff(answers: seq<Answer>, key: seq<char>, n: nat)
    requires n <= |answers|
    ensures CorrectIn(answers, key, n) == n <==> forall i :: 0 <= i < n ==> Matches(answers, key, i)
  {
    if n > 0 {
      AllCorrectIff(answers, key, n - 1);
    }
  }

  /** No answer counts exactly when no answer matches the key. */
  lemma {:induction false} NoneCorrectIff(answers: seq<Answer>, key: seq<char>, n: nat)
    requires n <= |answers|
    ensures CorrectIn(answers, key, n) == 0 <==> forall i :: 0 <= i < n ==> !Matches(answers, key, i)
  {
    if n > 0 {
      NoneCorrectIff(answers, key, n - 1);
    }
  }

  /**
   * `Math.round((correct / total) * 100)` on exact rationals: the integer
   * nearest to 100 * correct / total, halves rounded up.
   */
  function Percent(correct: nat, total: nat): (p: nat)
    requires total > 0
    ensures -(total as int) <= 200 * correct - 2 * total * p < total
  {
    var a, b := 200 * correct + total, 2 * total;
    assert a == b * (a / b) + a % b;
    a / b
  }

  lemma MulMonotone(k: int, x: int, y: int)
    requires k >= 0 && x <= y
    ensures k * x <= k * y
  {
    assert k * y - k * x == k * (y - x);
  }

  /** A percentage of at most all questions lies in 0..100; all correct is 100 and none correct is 0. */
  lemma PercentBounds(correct: nat, total: nat)
    requires total > 0 && correct <= total
    ensures Percent(correct, total) <= 100
    ensures correct == total ==> Percent(correct, total) == 100
    ensures correct == 0 ==> Percent(correct, total) == 0
  {
    var p := Percent(correct, total);
    var t2 := 2 * total;
    assert -(total as int) <= 200 * correct - t2 * p < total;
    if p > 100 {
      MulMonotone(t2, 101, p);
    }
    if correct == total && p < 100 {
      MulMonotone(t2, p, 99);
    }
    if correct == 0 && p > 0 {
      MulMonotone(t2, 1, p);
    }
  }

  /**
   * `score.toString()`: with no questions the division yields NaN
   * (or Infinity, when stale answers still match a key).
   */
  function ScoreText(correct: nat, total: nat): string
  {
    if total == 0 then (if correct == 0 then "NaN" else "Infinity")
    else NatToString(Percent(correct, total))
  }

  /** The score displayResults computes and stores for `answers` to `m`. */
  function Score(answers: seq<Answer>, m: Material): string
  {
    ScoreText(CorrectCount(answers, m.answerKey), |m.questions|)
  }

  /**
   * One answer per question: the stored score is the digits of a number in
   * 0..100 that `parseInt` reads back as the rounded percentage; it is 100
   * when every answer matches the key and 0 when none does.
   */
  lemma ScoreOfCompleteAnswers(answers: seq<Answer>, m: Material)
    requires |answers| == |m.questions| > 0
    ensures var s := Score(answers, m);
      && (forall k :: 0 <= k < |s| ==> IsDigit(s[k]))
      && DigitsValue(s) == Percent(CorrectCount(answers, m.answerKey), |m.questions|) <= 100
    ensures (forall i :: 0 <= i < |answers| ==> Matches(answers, m.answerKey, i)) ==> Score(answers, m) == "100"
    ensures (forall i :: 0 <= i < |answers| ==> !Matches(answers, m.answerKey, i)) ==> Score(answers, m) == "0"
  {
    var c, t := CorrectCount(answers, m.answerKey), |m.questions|;
    PercentBounds(c, t);
    DigitsValueOfNatToString(Percent(c, t));
    AllCorrectIff(answers, m.answerKey, |answers|);
    NoneCorrectIff(answers, m.answerKey, |answers|);
    assert NatToString(100) == NatToString(10) + "0" == NatToString(1) + "0" + "0" == "100";
  }

  // ----- displayResults: the review -----

  /** One reviewed question. `yourAnswer` is `None` where the page shows "Tidak dijawab". */
  datatype ReviewItem = ReviewItem(yourAnswer: Answer, correctAnswer: char, correctOption: Option<string>, isCorrect: bool)

  /** `q.options[correctAnswer.charCodeAt(0) - 65]`; `None` stands for `undefined`. */
  function OptionOf(q: Question, letter: char): Option<string>
  {
    var idx := (letter as int) - ('A' as int);
    if 0 <= idx < |q.options| then Some(q.options[idx]) else None
  }

  /** The letter a radio button carries names its own option again in the review. */
  lemma OptionOfLetter(q: Question, j: nat)
    requires j < |q.options| && j < |OptionLetters|
    ensures OptionOf(q, OptionLetters[j]) == Some(q.options[j])
  {
  }

  /** The review of question `i` (the key entry must exist: `charCodeAt` of `undefined` throws). */
  function ReviewItemAt(answers: seq<Answer>, m: Material, i: nat): ReviewItem
    requires i < |m.questions| && i < |m.answerKey|
  {
    var yours := if i < |answers| then answers[i] else None;
    ReviewItem(yours, m.answerKey[i], OptionOf(m.questions[i], m.answerKey[i]),
               i < |answers| && Matches(answers, m.answerKey, i))
  }

  /**
   * The review `forEach` over the questions; `None` when it throws because
   * the answer key is shorter than the question list.
   */
  function Review(answers: seq<Answer>, m: Material): (r: Option<seq<ReviewItem>>)
    ensures r.Some? <==> |m.questions| <= |m.answerKey|
    ensures r.Some? ==> |r.value| == |m.questions|
  {
    if |m.answerKey| < |m.questions| then None
    else Some(seq(|m.questions|, i requires 0 <= i < |m.questions| => ReviewItemAt(answers, m, i)))
  }

  /** The number of the first `n` review items marked correct. */
  function MarkedCorrect(items: seq<ReviewItem>, n: nat): nat
    requires n <= |items|
  {
    if n == 0 then 0 else MarkedCorrect(items, n - 1) + (if items[n - 1].isCorrect then 1 else 0)
  }

  lemma {:induction false} MarkedCorrectIsCorrectIn(answers: seq<Answer>, m: Material, items: seq<ReviewItem>, n: nat)
    requires Review(answers, m) == Some(items) && |answers| == |m.questions|
    requires n <= |items|
    ensures MarkedCorrect(items, n) == CorrectIn(answers, m.answerKey, n)
  {
    if n > 0 {
      MarkedCorrectIsCorrectIn(answers, m, items, n - 1);
      assert items[n - 1] == ReviewItemAt(answers, m, n - 1);
    }
  }

  /**
   * The review agrees with the score: with one answer per question, the
   * questions it marks correct are as many as displayResults counted, and
   * each shows the answer given and is marked correct exactly on an exact
   * letter match.
   */
  lemma ReviewAgreesWithScore(answers: seq<Answer>, m: Material)
    requires |answers| == |m.questions| <= |m.answerKey|
    ensures Review(answers, m).Some?
    ensures MarkedCorrect(Review(answers, m).value, |answers|) == CorrectCount(answers, m.answerKey)
    ensures forall i :: 0 <= i < |answers| ==>
      Review(answers, m).value[i].yourAnswer == answers[i] &&
      (Review(answers, m).value[i].isCorrect <==> answers[i].Some? && answers[i].value == m.answerKey[i])
  {
    var items := Review(answers, m).value;
    MarkedCorrectIsCorrectIn(answers, m, items, |answers|);
  }
}
