# News quiz: session state and quiz validation in Dafny

This project models the two parts of the news-quiz web application that hold
logic, and proves properties of them.

- **The quiz page** (`src/app/page.tsx`). A player loads a generated quiz,
  answers all questions within one shared 60-second countdown and submits them
  together (or the countdown submits them at zero). Each correct answer earns 10
  points plus a time bonus of `floor(timeLeft / 60 * 5)`. The page then animates
  the score up from 0 in steps of `ceil(score / 40)`, shows a medal and the
  number of correct answers, and offers a reset.
  - `Scoring` (scoring.dfy) holds the quiz data and the expression-only helpers:
    the time bonus, the per-question results and their sum, `maxScore`,
    `getMedal`, the correct-answer count and the values of the score animation.
  - `Session` (session.dfy) holds the class `QuizSession`, whose fields are the
    page's state (`quiz`, `answers`, `results`, `score`, `animatedScore`,
    `timeLeft`, `submitted`). Its methods are the handlers, the countdown tick
    and the animation tick. Its invariant `Valid()` keeps the countdown in
    0..60 and ties `score` to `submitted`. It also keeps the shown results equal
    to those of the current answers and the animated score on its animation
    path.
- **The quiz-generation endpoint** (`src/app/api/generate-quiz/route.ts`).
  `QuizValidation` (validation.dfy) models the generator's parsed output as a
  JSON value, with JavaScript's truthiness and `includes`. It models the
  structural check of that value as a function (`Validate`) and as the
  endpoint's loop (`ValidateQuiz`). It also models the endpoint's response,
  including the 404 for an empty article list.
- `Wrappers` (wrappers.dfy) holds `Option` (null / undefined) and `Result`
  (a step that may throw).

Properties proved include these:
- The score equals (number correct) × (10 + time bonus).
- The score never exceeds `maxScore`.
- Selecting an answer, submitting and ticking do nothing once the session is
  locked.
- A timeout submission scores with no bonus.
- The animation never decreases and never overshoots, and it reaches the
  score within 40 ticks.
- `getMedal` is monotone. A quiz of at most six questions, such as the five
  the generator is asked for, can never reach the 100 points for gold.
- The validator accepts exactly the quizzes in which every question passes.
  It rejects a quiz for its first failing question. It returns an accepted
  quiz unchanged.
- The validator does not reject an empty question list, a wrong option count,
  true/false labels other than Sant/Usant, or a string in place of the
  options array.

The page's metadata (layout.tsx:5) advertises a streak system; the code has none.

## Model

| member | source | states |
|---|---|---|
| `Scoring.MaxScore` | src/app/page.tsx:53 | maxScore is 0 without a quiz. With a quiz it is the score of answering every question correctly with the full minute left (together with ScoreAtMostMax: the largest score a run can reach). |
| `Scoring.TimeBonus` | src/app/page.tsx:37 | The bonus is the floor of timeLeft·5/60 (bonus·60 ≤ timeLeft·5 < (bonus+1)·60). It is 0 when no time is left and at most 5 while timeLeft ≤ 60. |
| `Scoring.CorrectCount` | src/app/page.tsx:200 | The number of correct answers never exceeds the number of questions. |
| `Scoring.CountCorrectIsCardinality` | src/app/page.tsx:200 | The count is the size of the set of indices i whose recorded answer equals question i's answer. An unanswered index never counts. |
| `Scoring.AllCorrectIffFullCount` | src/app/page.tsx:200 | The count equals the number of questions exactly when every question was answered correctly. |
| `Scoring.ResultsBelow` | src/app/page.tsx:40-47 | There is one result per question, in order. Question i gets (correct, 10 + bonus) when its answer matches, and (not correct, 0) otherwise, including when it is unanswered. |
| `Scoring.ResultsOf` | src/app/page.tsx:40-47 | One result per question, in order. A result is marked correct exactly when the recorded answer matches, and only a correct one earns points, 10 + bonus. |
| `Scoring.TotalPointsConcat` | src/app/page.tsx:39-43 | The sum of the points is additive over any split of the results. |
| `Scoring.TotalPointsBelow` | src/app/page.tsx:39-47 | The points of the first n results sum to (correct answers among them) × (10 + bonus). |
| `Scoring.ScoreIsCorrectTimesPoints` | src/app/page.tsx:34-51 | totalPoints equals (number correct) × (10 + time bonus). |
| `Scoring.ScoreAtMostMax` | src/app/page.tsx:34-53 | With timeLeft in 0..60, the score is at most maxScore = 15 × the number of questions. |
| `Scoring.GetMedal` | src/app/page.tsx:136-141 | getMedal is total: every score gets one of the four labels. |
| `Scoring.GetMedalMonotone` | src/app/page.tsx:136-141 | A higher score never gets a lower medal (Prøv igjen < Bronse < Sølv < Gull). |
| `Scoring.ShortQuizNeverGold` | src/app/page.tsx:136-141 | A quiz of at most six questions scores at most 90, so it never earns Gull. |
| `Scoring.AnimationStep` | src/app/page.tsx:102 | The step is ceil(score/40): the least step whose 40 multiples reach the score. It is 0 exactly when the score is 0. |
| `Scoring.AnimatedAfter` | src/app/page.tsx:101-109 | After any number of ticks, the animated value never exceeds the score. |
| `Scoring.AnimatedAfterTick` | src/app/page.tsx:104-109 | One tick adds the step and clamps to the score. |
| `Scoring.AnimatedAfterMonotone` | src/app/page.tsx:99-112 | The animated value never decreases from one tick to a later one. |
| `Scoring.AnimationConverges` | src/app/page.tsx:99-112 | After 40 ticks the animated value equals the score, whatever the score. |
| `Session.QuizSession.constructor` | src/app/page.tsx:22-28 | The initial state has no quiz, no answers, no results and a null score. The animated score is 0, the countdown is 60 and nothing is submitted. |
| `Session.QuizSession.IsLocked` | src/app/page.tsx:32 | In a valid session a scored session is locked, and an unlocked session has no score, no results and time left in 1..60. |
| `Session.QuizSession.SelectAnswer` | src/app/page.tsx:114-117 | When locked (submitted or no time left) nothing changes. Otherwise only answers[qIndex] is set and every other entry is kept. No other field changes. |
| `Session.QuizSession.CalculateScore` | src/app/page.tsx:34-51 | Without a quiz nothing changes. Otherwise results are the per-question results and score = (number correct) × (10 + TimeBonus(timeLeft)). |
| `Session.ScoreAnswers` | src/app/page.tsx:36-47 | The loop builds exactly ResultsOf (one result per question) and sums their points, and the sum is (number correct) × (10 + bonus). |
| `Session.QuizSession.Submit` | src/app/page.tsx:119-124 | With no quiz or a locked session nothing changes. Otherwise the answers are scored, submitted is set, the session is locked (so a second submit is a no-op) and the animation restarts from 0. |
| `Session.QuizSession.Tick` | src/app/page.tsx:56-71 | The tick does nothing without a quiz or when locked. Above 1 second it decrements timeLeft by exactly 1 and changes nothing else. At 1 second it sets timeLeft to 0 and submits once, with no time bonus. timeLeft stays in 0..60. |
| `Session.QuizSession.AnimationTick` | src/app/page.tsx:99-112 | The animated score follows AnimatedAfter: it never decreases and never exceeds the score. It equals the score when the interval stops. At most 40 ticks are left, and fewer after each tick. A score of 0 stops at once at 0. |
| `Session.QuizSession.FetchQuiz` | src/app/page.tsx:73-96 | A failed fetch changes nothing. A successful one sets the quiz, clears answers, results, score and submitted, restores the countdown to 60 and sets the animated score to 0. |
| `Session.QuizSession.ResetQuiz` | src/app/page.tsx:126-134 | Like a successful fetch, except that the quiz becomes null. |
| `Session.QuizSession.ScoreWithinMax` | src/app/page.tsx:53 | In every valid state the score and the animated score are at most maxScore. |
| `QuizValidation.CheckQuestion` | src/app/api/generate-quiz/route.ts:118-135 | A question passes exactly when it is an object with truthy question/type/options/answer, an allowed type and a listed answer. A listed answer is an element of an options array, or, for an options string, an answer that converts to text occurring in it. A null question gives a TypeError. A missing or falsy field gives "missing required fields" before the type is looked at. A wrong type gives "Invalid question type" before the options are looked at. With an options array, "Answer not found in options" is given exactly when the answer is not listed. |
| `QuizValidation.FirstFailure` | src/app/api/generate-quiz/route.ts:117-135 | The question loop fails for none of the questions exactly when every question passes. |
| `QuizValidation.Validate` | src/app/api/generate-quiz/route.ts:112-137 | Validation succeeds exactly for an object whose questions array holds only passing questions, and the quiz is then returned unchanged. A null value gives a TypeError on reading questions. |
| `QuizValidation.ValidateQuiz` | src/app/api/generate-quiz/route.ts:112-137 | The loop that stops at the first failing question gives the same outcome as Validate. |
| `QuizValidation.FirstFailureIsFirst` | src/app/api/generate-quiz/route.ts:117-135 | A failure is that of some question i, and every question before i passed. |
| `QuizValidation.MissingQuestionsRejected` | src/app/api/generate-quiz/route.ts:113-115 | A non-null value without a questions array is rejected with "missing questions array". |
| `QuizValidation.ValidateRejectsFirstFailing` | src/app/api/generate-quiz/route.ts:117-135 | A rejected quiz that has a questions array is rejected for its first failing question. No partial quiz results. |
| `QuizValidation.EmptyQuizAccepted` | src/app/api/generate-quiz/route.ts:113-118 | An empty questions array is accepted. |
| `QuizValidation.OptionCountNotChecked` | src/app/api/generate-quiz/route.ts:119-134 | For every non-empty text, allowed type and non-empty answer, any options array of any length that lists the answer passes. |
| `QuizValidation.TrueFalseLabelsNotChecked` | src/app/api/generate-quiz/route.ts:119-134 | A true/false question with a non-empty text passes exactly when its answer is a non-empty text listed in its options, whatever the labels. |
| `QuizValidation.OptionsStringAccepted` | src/app/api/generate-quiz/route.ts:119-134 | With a non-empty string in place of the options array and an allowed type, a question passes exactly when its answer occurs in that string. |
| `QuizValidation.UnconvertibleAnswerRejected` | src/app/api/generate-quiz/route.ts:132-134 | With an options string, an answer that cannot be converted to text (an object with its own "toString" key, or an array holding one at any depth) makes includes throw a TypeError. |
| `QuizValidation.ToStringKeyAnswerFails` | src/app/api/generate-quiz/route.ts:132-147 | The answer {"toString": 0} against the options string "[object Object]" ends the request with a 500 carrying "Cannot convert object to primitive value". |
| `QuizValidation.Post` | src/app/api/generate-quiz/route.ts:31-148 | Status 404 occurs exactly when the article list is empty, whatever the generator would produce. Status 200 occurs exactly when articles exist and the parsed quiz passes validation, and the body is then that quiz unchanged. Every other outcome is a 500 "Could not generate quiz". A validation failure carries its message as details. |

## Left out

- Loading the articles, the generator call, reading its content and JSON.parse (route.ts lines 10-29 and 78-110). These are file, network and library calls. Their outcomes are the parameters of `Post`: the loaded articles or a load failure, and a generator outcome.
- NextResponse construction and console.error. A response is a status and a body value.
- The fetch request and the alert in fetchQuiz. `FetchQuiz` takes the outcome: a quiz or a failure. The page uses the response body as a quiz without converting it. The model does not relate that body's JSON to the typed `Quiz` the page holds.
- The isLoading flag. It only disables the fetch button while a request is pending.
- setInterval, useEffect, React's state batching and stale closures. The countdown and the animation are tick methods the caller drives. The score effect's restart of the animation is done where the score is set, in `Submit` and `Tick`.
- The progress-bar width (line 204). It is a floating-point percentage used only for display.
- The JSX rendering and the components and layout files. They are markup and styling only.
- `Scoring.TimeBonus`: the model computes the floating-point expression as the exact floor of timeLeft·5/60. timeLeft is always an integer in 0..60, and at the multiples of 12 the product rounds to the exact integer.
- `QuizValidation.Json`: JSON numbers are exact integers, while JavaScript numbers are doubles. Non-integral numbers are not modelled. Two integer literals above 2^53 that round to the same double are equal for `options.includes(answer)` in JavaScript but distinct `JNumber`s here. `JsText` writes the exact digits, while JavaScript prints the double's shortest form (2^60 as "1152921504606847000") and switches to exponent form from 1e21. `JString` holds Unicode scalar values, not UTF-16 code units, so a lone surrogate such as "\ud83d", which JSON.parse accepts, cannot be represented.
- `QuizValidation.ErrorMessage`: the wording of the three TypeError messages follows the V8 engine.

