/**
  The expression-only helpers of the quiz page (src/app/page.tsx): the quiz
  data it receives, the time bonus, the per-question results and their sum,
  the maximum score, the medal, the correct-answer count and the values the
  score animation passes through.
 */
module Scoring {
  import opened Wrappers

  /** Seconds on the shared countdown when a quiz is loaded (INITIAL_TIME). */
  const InitialTime: nat := 60
  /** Points for every correct answer before the time bonus. */
  const BasePoints: nat := 10
  /** The largest time bonus: the 5 in floor(timeLeft / INITIAL_TIME * 5). */
  const MaxTimeBonus: nat := 5
  /** The score animation advances by ceil(score / 40) per tick. */
  const AnimationTicks: nat := 40

  datatype QuestionType = MultipleChoice | TrueOrFalse

  datatype Question = Question(question: string, kind: QuestionType, options: seq<string>, answer: string)

  datatype Quiz = Quiz(questions: seq<Question>)

  /** What the page shows under a question after submission. */
  datatype QuestionResult = QuestionResult(correct: bool, points: nat)

  // ---------------------------------------------------------------------------
  // Time bonus and maximum score
  // ---------------------------------------------------------------------------

  /**
    Math.max(0, Math.floor((timeLeft / INITIAL_TIME) * 5)) on the integer
    seconds the countdown holds: the floor of timeLeft * 5 / 60, never negative.
   */
  function TimeBonus(timeLeft: int): (bonus: nat)
    ensures timeLeft <= 0 ==> bonus == 0
    ensures timeLeft >= 0 ==> bonus * 60 <= timeLeft * 5 < (bonus + 1) * 60
    ensures timeLeft <= InitialTime ==> bonus <= MaxTimeBonus
  {
    var f := timeLeft * 5 / 60;
    if f < 0 then 0 else f
  }

  /**
    maxScore: 10 base points and at most 5 bonus points per question, 0
    without a quiz. It is the score of a quiz answered entirely correctly with
    the full minute left; ScoreAtMostMax shows that no run scores more.
   */
  function MaxScore(quiz: Option<Quiz>): (max: nat)
    ensures quiz.None? ==> max == 0
    ensures quiz.Some? ==>
              max == TotalPoints(ResultsOf(quiz.value.questions, PerfectAnswers(quiz.value.questions), TimeBonus(InitialTime)))
  {
    match quiz
    case None => 0
    case Some(q) =>
      var perfect := PerfectAnswers(q.questions);
      AllCorrectIffFullCount(q.questions, perfect, |q.questions|);
      ScoreIsCorrectTimesPoints(q.questions, perfect, TimeBonus(InitialTime));
      |q.questions| * (BasePoints + MaxTimeBonus)
  }

  /** The answers of a player who picks the right option for every question. */
  function PerfectAnswers(questions: seq<Question>): map<int, string>
  {
    map i | 0 <= i < |questions| :: questions[i].answer
  }

  // ---------------------------------------------------------------------------
  // Correct answers
  // ---------------------------------------------------------------------------

  /** answers[i] === q.answer: an unanswered question (undefined) never matches. */
  predicate AnsweredCorrectly(questions: seq<Question>, answers: map<int, string>, i: int)
    requires 0 <= i < |questions|
  {
    i in answers && answers[i] == questions[i].answer
  }

  /** The number of correct answers among the first n questions. */
  function CountCorrectBelow(questions: seq<Question>, answers: map<int, string>, n: nat): (count: nat)
    requires n <= |questions|
    ensures count <= n
    decreases n
  {
    if n == 0 then 0
    else CountCorrectBelow(questions, answers, n - 1) + (if AnsweredCorrectly(questions, answers, n - 1) then 1 else 0)
  }

  /** questions.filter((q, i) => answers[i] === q.answer).length */
  function CorrectCount(questions: seq<Question>, answers: map<int, string>): (count: nat)
    ensures count <= |questions|
  {
    CountCorrectBelow(questions, answers, |questions|)
  }

  /** The indices of the first n questions that were answered correctly. */
  ghost function CorrectIndicesBelow(questions: seq<Question>, answers: map<int, string>, n: nat): set<int>
    requires n <= |questions|
  {
    set i | 0 <= i < n && AnsweredCorrectly(questions, answers, i)
  }

  /** The count is the size of the set of correctly answered indices. */
  lemma {:induction false} CountCorrectIsCardinality(questions: seq<Question>, answers: map<int, string>, n: nat)
    requires n <= |questions|
    ensures CountCorrectBelow(questions, answers, n) == |CorrectIndicesBelow(questions, answers, n)|
  {
    if n > 0 {
      CountCorrectIsCardinality(questions, answers, n - 1);
      var below := CorrectIndicesBelow(questions, answers, n - 1);
      var last: set<int> := if AnsweredCorrectly(questions, answers, n - 1) then {n - 1} else {};
      assert CorrectIndicesBelow(questions, answers, n) == below + last;
      assert below !! last;
    }
  }

  /** Every question answered correctly exactly when the count is the quiz length. */
  lemma {:induction false} AllCorrectIffFullCount(questions: seq<Question>, answers: map<int, string>, n: nat)
    requires n <= |questions|
    ensures CountCorrectBelow(questions, answers, n) == n
            <==> forall i :: 0 <= i < n ==> AnsweredCorrectly(questions, answers, i)
  {
    if n > 0 {
      AllCorrectIffFullCount(questions, answers, n - 1);
    }
  }

  // ---------------------------------------------------------------------------
  // Per-question results and the score (calculateScore)
  // ---------------------------------------------------------------------------

  /** The result of question i: 10 + bonus points when answered correctly, else none. */
  function QuestionPoints(questions: seq<Question>, answers: map<int, string>, bonus: nat, i: int): QuestionResult
    requires 0 <= i < |questions|
  {
    if AnsweredCorrectly(questions, answers, i) then QuestionResult(true, BasePoints + bonus)
    else QuestionResult(false, 0)
  }

  /** The results of the first n questions, in order. */
  function ResultsBelow(questions: seq<Question>, answers: map<int, string>, bonus: nat, n: nat): (results: seq<QuestionResult>)
    requires n <= |questions|
    ensures |results| == n
    ensures forall i :: 0 <= i < n ==> results[i] == QuestionPoints(questions, answers, bonus, i)
    decreases n
  {
    if n == 0 then []
    else ResultsBelow(questions, answers, bonus, n - 1) + [QuestionPoints(questions, answers, bonus, n - 1)]
  }

  /**
    quiz.questions.map(...): one result per question, in order; a question
    is marked correct exactly when its recorded answer matches, and only a
    correct one earns points, 10 + bonus of them.
   */
  function ResultsOf(questions: seq<Question>, answers: map<int, string>, bonus: nat): (results: seq<QuestionResult>)
    ensures |results| == |questions|
    ensures forall i :: 0 <= i < |questions| ==>
              && (results[i].correct <==> AnsweredCorrectly(questions, answers, i))
              && results[i].points == (if results[i].correct then BasePoints + bonus else 0)
  {
    ResultsBelow(questions, answers, bonus, |questions|)
  }

  /** The sum of the points of a list of results (totalPoints). */
  function TotalPoints(results: seq<QuestionResult>): nat
  {
    if results == [] then 0 else TotalPoints(results[..|results| - 1]) + results[|results| - 1].points
  }

  /**
    The sum is additive over any split of the list.
   */
  lemma {:induction false} TotalPointsConcat(front: seq<QuestionResult>, back: seq<QuestionResult>)
    ensures TotalPoints(front + back) == TotalPoints(front) + TotalPoints(back)
    decreases |back|
  {
    if back == [] {
      assert front + back == front;
    } else {
      var last := |back| - 1;
      assert (front + back)[..|front + back| - 1] == front + back[..last];
      assert (front + back)[|front + back| - 1] == back[last];
      TotalPointsConcat(front, back[..last]);
    }
  }

  /** Scoring question i extends the results and the sum of the first i questions. */
  lemma ResultsStep(questions: seq<Question>, answers: map<int, string>, bonus: nat, i: nat)
    requires i < |questions|
    ensures ResultsBelow(questions, answers, bonus, i + 1)
            == ResultsBelow(questions, answers, bonus, i) + [QuestionPoints(questions, answers, bonus, i)]
    ensures TotalPoints(ResultsBelow(questions, answers, bonus, i + 1))
            == TotalPoints(ResultsBelow(questions, answers, bonus, i)) + QuestionPoints(questions, answers, bonus, i).points
  {
    var rs := ResultsBelow(questions, answers, bonus, i + 1);
    assert rs[..i] == ResultsBelow(questions, answers, bonus, i);
  }

  /** The points of the first n results are (correct answers among them) * (10 + bonus). */
  lemma {:induction false} TotalPointsBelow(questions: seq<Question>, answers: map<int, string>, bonus: nat, n: nat)
    requires n <= |questions|
    ensures TotalPoints(ResultsBelow(questions, answers, bonus, n))
            == CountCorrectBelow(questions, answers, n) * (BasePoints + bonus)
  {
    if n > 0 {
      TotalPointsBelow(questions, answers, bonus, n - 1);
      var rs := ResultsBelow(questions, answers, bonus, n);
      assert rs[..n - 1] == ResultsBelow(questions, answers, bonus, n - 1);
      var c := CountCorrectBelow(questions, answers, n - 1);
      if AnsweredCorrectly(questions, answers, n - 1) {
        MulSuccessor(c, 10 + bonus);
      }
    } else {
      assert ResultsBelow(questions, answers, bonus, 0) == [] && CountCorrectBelow(questions, answers, 0) == 0;
      assert TotalPoints([]) == 0 * (10 + bonus);
    }
  }

  /** The score is the number of correct answers times (10 + time bonus). */
  lemma ScoreIsCorrectTimesPoints(questions: seq<Question>, answers: map<int, string>, bonus: nat)
    ensures TotalPoints(ResultsOf(questions, answers, bonus)) == CorrectCount(questions, answers) * (BasePoints + bonus)
  {
    TotalPointsBelow(questions, answers, bonus, |questions|);
  }

  /** With the countdown in 0..60 the score never exceeds maxScore. */
  lemma ScoreAtMostMax(questions: seq<Question>, answers: map<int, string>, timeLeft: int)
    requires 0 <= timeLeft <= InitialTime
    ensures TotalPoints(ResultsOf(questions, answers, TimeBonus(timeLeft))) <= MaxScore(Some(Quiz(questions)))
  {
    var bonus := TimeBonus(timeLeft);
    var c := CorrectCount(questions, answers);
    ScoreIsCorrectTimesPoints(questions, answers, bonus);
    assert c * (BasePoints + bonus) <= |questions| * (BasePoints + bonus) by {
      MulMonotone(c, |questions|, BasePoints + bonus);
    }
    assert |questions| * (BasePoints + bonus) <= |questions| * (BasePoints + MaxTimeBonus) by {
      MulMonotone(BasePoints + bonus, BasePoints + MaxTimeBonus, |questions|);
    }
  }

  lemma MulSuccessor(a: nat, k: nat)
    ensures (a + 1) * k == a * k + k
  {
  }

  lemma MulMonotone(a: nat, b: nat, k: nat)
    requires a <= b
    ensures a * k <= b * k
  {
  }

  // ---------------------------------------------------------------------------
  // Medal
  // ---------------------------------------------------------------------------

  const GoldLabel: string := "\U{1F947} Gull"
  const SilverLabel: string := "\U{1F948} S\U{F8}lv"
  const BronzeLabel: string := "\U{1F949} Bronse"
  const TryAgainLabel: string := "\U{1F605} Pr\U{F8}v igjen!"

  /** The four labels, from the lowest to the highest. */
  const MedalLabels: seq<string> := [TryAgainLabel, BronzeLabel, SilverLabel, GoldLabel]

  /** getMedal: Gull from 100, Sølv from 70, Bronse from 40, otherwise Prøv igjen!. */
  function GetMedal(score: int): (medal: string)
    ensures medal in MedalLabels
  {
    if score >= 100 then GoldLabel
    else if score >= 70 then SilverLabel
    else if score >= 40 then BronzeLabel
    else TryAgainLabel
  }

  /** The position of a label in MedalLabels. */
  function MedalRank(medal: string): nat
  {
    if medal == GoldLabel then 3
    else if medal == SilverLabel then 2
    else if medal == BronzeLabel then 1
    else 0
  }

  /** A higher score never earns a lower medal. */
  lemma GetMedalMonotone(low: int, high: int)
    requires low <= high
    ensures MedalRank(GetMedal(low)) <= MedalRank(GetMedal(high))
  {
    assert GoldLabel != SilverLabel && GoldLabel != BronzeLabel && SilverLabel != BronzeLabel;
    assert TryAgainLabel != GoldLabel && TryAgainLabel != SilverLabel && TryAgainLabel != BronzeLabel;
  }

  /**
    A quiz of at most six questions (the generator is asked for five) can
    never reach 100 points, so it never earns Gull.
   */
  lemma ShortQuizNeverGold(questions: seq<Question>, answers: map<int, string>, timeLeft: int)
    requires |questions| <= 6
    requires 0 <= timeLeft <= InitialTime
    ensures GetMedal(TotalPoints(ResultsOf(questions, answers, TimeBonus(timeLeft)))) != GoldLabel
  {
    ScoreAtMostMax(questions, answers, timeLeft);
    assert GoldLabel != SilverLabel && GoldLabel != BronzeLabel && GoldLabel != TryAgainLabel;
  }

  // ---------------------------------------------------------------------------
  // Score animation
  // ---------------------------------------------------------------------------

  /** Math.ceil(score / 40): the smallest step with which 40 ticks reach the score. */
  function AnimationStep(score: nat): (step: nat)
    ensures step * AnimationTicks >= score
    ensures step > 0 ==> (step - 1) * AnimationTicks < score
    ensures step == 0 <==> score == 0
  {
    (score + AnimationTicks - 1) / AnimationTicks
  }

  /**
    The animated value after the given number of ticks: each tick adds the
    step, and the value is clamped to the score.
   */
  function AnimatedAfter(score: nat, ticks: nat): (shown: nat)
    ensures shown <= score
  {
    var reached := ticks * AnimationStep(score);
    if reached >= score then score else reached
  }

  /** One tick: add the step, clamp to the score. */
  lemma AnimatedAfterTick(score: nat, ticks: nat)
    ensures AnimatedAfter(score, ticks + 1)
            == if AnimatedAfter(score, ticks) + AnimationStep(score) >= score then score
               else AnimatedAfter(score, ticks) + AnimationStep(score)
  {
    var step := AnimationStep(score);
    assert (ticks + 1) * step == ticks * step + step;
  }

  /** The animated value never decreases from one tick to a later one. */
  lemma AnimatedAfterMonotone(score: nat, earlier: nat, later: nat)
    requires earlier <= later
    ensures AnimatedAfter(score, earlier) <= AnimatedAfter(score, later)
  {
    MulMonotone(earlier, later, AnimationStep(score));
  }

  /** Whatever the score, 40 ticks reach it. */
  lemma AnimationConverges(score: nat, ticks: nat)
    requires ticks >= AnimationTicks
    ensures AnimatedAfter(score, ticks) == score
  {
    MulMonotone(AnimationTicks, ticks, AnimationStep(score));
  }
}
