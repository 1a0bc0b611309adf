/**
  The state of the quiz page (src/app/page.tsx) and the handlers that change
  it: choosing an answer, submitting, the once-per-second countdown, the
  score animation, a successful fetch and the reset. React's scheduling is
  not modelled: each handler, timer tick and animation tick is a method the
  caller invokes, and each runs to completion.
 */
module Session {
  import opened Wrappers
  import opened Scoring

  class QuizSession {
    var quiz: Option<Quiz>
    /** The chosen option per question index; an index without an entry is unanswered. */
    var answers: map<int, string>
    var results: seq<QuestionResult>
    /** null until the answers are scored. */
    var score: Option<nat>
    var animatedScore: nat
    var timeLeft: int
    var submitted: bool
    /** Whether the score-animation interval is live. */
    var animating: bool
    /** The number of animation ticks since the running animation restarted at 0. */
    ghost var animationTicks: nat

    /**
      The page's invariant: the countdown stays in 0..60, a score exists
      exactly when the answers were submitted, the shown results are those
      of the current answers, and the animated score follows the animation.
     */
    ghost predicate Valid()
      reads this
    {
      && 0 <= timeLeft <= InitialTime
      && (submitted <==> score.Some?)
      && (submitted ==>
            && quiz.Some?
            && results == ResultsOf(quiz.value.questions, answers, TimeBonus(timeLeft))
            && score.value == TotalPoints(results))
      && (!submitted ==> results == [])
      && (score.None? ==> animatedScore == 0 && !animating)
      && (score.Some? && animating ==>
            && animationTicks < AnimationTicks
            && animatedScore == AnimatedAfter(score.value, animationTicks)
            && (animationTicks > 0 ==> animatedScore < score.value))
      && (score.Some? && !animating ==> animatedScore == score.value)
    }

    /**
      isLocked: no answer may change once submitted or out of time. In a
      valid session a scored session is locked, and an unlocked one has
      neither a score nor results yet and still has time left.
     */
    predicate IsLocked()
      reads this
      ensures Valid() && score.Some? ==> IsLocked()
      ensures Valid() && !IsLocked() ==> score.None? && results == [] && 0 < timeLeft <= InitialTime
    {
      submitted || timeLeft <= 0
    }

    /** The most animation ticks still to come before the animated score settles. */
    ghost function AnimationTicksLeft(): nat
      reads this
    {
      if animating && animationTicks <= AnimationTicks then AnimationTicks - animationTicks else 0
    }

    /** The page's first render: no quiz, nothing answered, a full minute. */
    constructor ()
      ensures Valid()
      ensures quiz == None && answers == map[] && results == [] && score == None
      ensures animatedScore == 0 && timeLeft == InitialTime && !submitted && !animating
    {
      quiz := None;
      answers := map[];
      results := [];
      score := None;
      animatedScore := 0;
      timeLeft := InitialTime;
      submitted := false;
      animating := false;
      animationTicks := 0;
    }

    /** selectAnswer: record the option for one question unless the session is locked. */
    method SelectAnswer(qIndex: int, option: string)
      requires Valid()
      modifies this`answers
      ensures Valid()
      ensures old(IsLocked()) ==> answers == old(answers)
      ensures !old(IsLocked()) ==> answers == old(answers)[qIndex := option]
    {
      if IsLocked() {
        return;
      }
      answers := answers[qIndex := option];
    }

    /**
      calculateScore: with a quiz loaded, score the current answers with the
      time bonus of the current countdown and show the results.
     */
    method CalculateScore()
      modifies this`results, this`score
      ensures old(quiz).None? ==> results == old(results) && score == old(score)
      ensures old(quiz).Some? ==>
                && results == ResultsOf(quiz.value.questions, answers, TimeBonus(timeLeft))
                && score == Some(TotalPoints(results))
                && score == Some(CorrectCount(quiz.value.questions, answers) * (BasePoints + TimeBonus(timeLeft)))
    {
      if quiz.None? {
        return;
      }
      var questionResults, totalPoints := ScoreAnswers(quiz.value.questions, answers, TimeBonus(timeLeft));
      results := questionResults;
      score := Some(totalPoints);
    }

    /**
      onSubmit: with a quiz loaded and the session unlocked, score the answers,
      mark them submitted and restart the score animation from 0.
     */
    method Submit()
      requires Valid()
      modifies this
      ensures Valid()
      ensures old(quiz.None? || IsLocked()) ==> unchanged(this)
      ensures old(quiz.Some? && !IsLocked()) ==>
                && submitted && IsLocked()
                && quiz == old(quiz) && answers == old(answers) && timeLeft == old(timeLeft)
                && results == ResultsOf(quiz.value.questions, answers, TimeBonus(timeLeft))
                && score == Some(CorrectCount(quiz.value.questions, answers) * (BasePoints + TimeBonus(timeLeft)))
                && animating && animatedScore == 0 && AnimationTicksLeft() == AnimationTicks
    {
      if quiz.None? || IsLocked() {
        return;
      }
      CalculateScore();
      submitted := true;
      animating, animationTicks := true, 0;
    }

    /**
      One second of the countdown, which runs only while a quiz is loaded and
      the session is unlocked: above one second it counts down by one; at one
      second it stops at 0 and submits the answers, with no time bonus left.
     */
    method Tick()
      requires Valid()
      modifies this
      ensures Valid()
      ensures old(quiz.None? || IsLocked()) ==> unchanged(this)
      ensures old(quiz.Some? && !IsLocked()) && old(timeLeft) > 1 ==>
                && timeLeft == old(timeLeft) - 1
                && quiz == old(quiz) && answers == old(answers) && results == old(results)
                && score == old(score) && submitted == old(submitted)
                && animatedScore == old(animatedScore) && animating == old(animating)
      ensures old(quiz.Some? && !IsLocked()) && old(timeLeft) <= 1 ==>
                && timeLeft == 0 && submitted && IsLocked()
                && quiz == old(quiz) && answers == old(answers)
                && results == ResultsOf(quiz.value.questions, answers, 0)
                && score == Some(CorrectCount(quiz.value.questions, answers) * BasePoints)
                && animating && animatedScore == 0
    {
      if quiz.None? || IsLocked() {
        return;
      }
      if timeLeft <= 1 {
        if !submitted {
          CalculateScore();
          submitted := true;
          animating, animationTicks := true, 0;
        }
        timeLeft := 0;
      } else {
        timeLeft := timeLeft - 1;
      }
    }

    /**
      One tick of the score animation: add ceil(score / 40), clamp to the
      score and stop the interval once the score is reached.
     */
    method AnimationTick()
      requires Valid()
      modifies this`animatedScore, this`animating, this`animationTicks
      ensures Valid()
      ensures !old(animating) ==> animatedScore == old(animatedScore) && !animating
      ensures old(animating) ==> animatedScore == AnimatedAfter(score.value, old(animationTicks) + 1)
      ensures old(animatedScore) <= animatedScore
      ensures score.Some? ==> animatedScore <= score.value
      ensures old(animating) && !animating ==> animatedScore == score.value
      ensures old(animating) ==> AnimationTicksLeft() < old(AnimationTicksLeft())
      ensures old(animating) && score == Some(0) ==> !animating && animatedScore == 0
    {
      if !animating {
        return;
      }
      var target := score.value;
      AnimatedAfterTick(target, animationTicks);
      AnimatedAfterMonotone(target, animationTicks, animationTicks + 1);
      var current := animatedScore + AnimationStep(target);
      if current >= target {
        current := target;
        animating := false;
      }
      animatedScore := current;
      animationTicks := animationTicks + 1;
      if animating && animationTicks >= AnimationTicks {
        AnimationConverges(target, animationTicks);
      }
    }

    /** fetchQuiz: a quiz that arrives starts a fresh round; a failed fetch changes nothing. */
    method FetchQuiz(response: Option<Quiz>)
      requires Valid()
      modifies this
      ensures Valid()
      ensures response.None? ==> unchanged(this)
      ensures response.Some? ==>
                && quiz == response && answers == map[] && results == [] && score == None
                && !submitted && timeLeft == InitialTime && animatedScore == 0 && !animating
    {
      if response.None? {
        return;
      }
      quiz := response;
      score := None;
      results := [];
      answers := map[];
      submitted := false;
      timeLeft := InitialTime;
      animatedScore := 0;
      animating := false;
    }

    /** resetQuiz: back to the start page with no quiz. */
    method ResetQuiz()
      requires Valid()
      modifies this
      ensures Valid()
      ensures quiz == None && answers == map[] && results == [] && score == None
      ensures !submitted && timeLeft == InitialTime && animatedScore == 0 && !animating
    {
      quiz := None;
      answers := map[];
      results := [];
      score := None;
      submitted := false;
      timeLeft := InitialTime;
      animatedScore := 0;
      animating := false;
    }

    /** The score and the animated score never exceed maxScore. */
    lemma ScoreWithinMax()
      requires Valid()
      ensures score.Some? ==> score.value <= MaxScore(quiz)
      ensures animatedScore <= MaxScore(quiz)
    {
      if score.Some? {
        ScoreAtMostMax(quiz.value.questions, answers, timeLeft);
      }
    }
  }

  /**
    The loop of calculateScore: every question whose chosen option equals its
    answer earns 10 plus the time bonus, every other question earns nothing,
    and the points are summed as the results are built.
   */
  method ScoreAnswers(questions: seq<Question>, answers: map<int, string>, timeBonus: nat)
    returns (questionResults: seq<QuestionResult>, totalPoints: nat)
    ensures questionResults == ResultsOf(questions, answers, timeBonus)
    ensures totalPoints == TotalPoints(questionResults)
    ensures totalPoints == CorrectCount(questions, answers) * (BasePoints + timeBonus)
  {
    totalPoints := 0;
    questionResults := [];
    var i := 0;
    while i < |questions|
      invariant 0 <= i <= |questions|
      invariant questionResults == ResultsBelow(questions, answers, timeBonus, i)
      invariant totalPoints == TotalPoints(questionResults)
    {
      var result;
      if i in answers && answers[i] == questions[i].answer {
        var pts := BasePoints + timeBonus;
        totalPoints := totalPoints + pts;
        result := QuestionResult(true, pts);
      } else {
        result := QuestionResult(false, 0);
      }
      assert result == QuestionPoints(questions, answers, timeBonus, i);
      ResultsStep(questions, answers, timeBonus, i);
      questionResults := questionResults + [result];
      i := i + 1;
    }
    ScoreIsCorrectTimesPoints(questions, answers, timeBonus);
  }
}
