/**
  The quiz-generation endpoint (src/app/api/generate-quiz/route.ts): the
  guard on the loaded articles, the structural check of the generator's
  parsed output, and the response the endpoint sends. Loading the articles,
  calling the generator and parsing its text are outside the model: their
  outcomes are parameters.
 */
module QuizValidation {
  import opened Wrappers

  /** A value JSON.parse can produce (numbers restricted to integers). */
  datatype Json =
    | JNull
    | JBool(b: bool)
    | JNumber(n: int)
    | JString(s: string)
    | JArray(items: seq<Json>)
    | JObject(fields: map<string, Json>)

  /** Why the parsed quiz is refused; each ends the request with status 500. */
  datatype QuizError =
    | NullProperty(key: string)   // a TypeError: reading a property of null
    | MissingQuestions
    | MissingFields
    | InvalidType
    | AnswerNotInOptions
    | IncludesNotAFunction        // a TypeError: `options` has no includes method
    | NotConvertible              // a TypeError: the answer has no primitive text

  /** The message of the error, which the response carries as `details`. */
  function ErrorMessage(e: QuizError): string
  {
    match e
    case NullProperty(key) => "Cannot read properties of null (reading '" + key + "')"
    case MissingQuestions => "Invalid quiz format: missing questions array"
    case MissingFields => "Invalid question format: missing required fields"
    case InvalidType => "Invalid question type"
    case AnswerNotInOptions => "Answer not found in options"
    case IncludesNotAFunction => "question.options.includes is not a function"
    case NotConvertible => "Cannot convert object to primitive value"
  }

  // ---------------------------------------------------------------------------
  // The JavaScript semantics the check relies on
  // ---------------------------------------------------------------------------

  /**
    value[key] for a value that is not null; None stands for undefined. Only
    objects have the properties read here (question, type, options, answer,
    questions).
   */
  function Field(value: Json, key: string): Option<Json>
    requires !value.JNull?
  {
    match value
    case JObject(fields) => if key in fields then Some(fields[key]) else None
    case _ => None
  }

  /** JavaScript truthiness: undefined, null, false, 0 and "" are falsy. */
  predicate Truthy(v: Option<Json>)
  {
    match v
    case None => false
    case Some(JNull) => false
    case Some(JBool(b)) => b
    case Some(JNumber(n)) => n != 0
    case Some(JString(s)) => s != ""
    case Some(_) => true
  }

  /**
    SameValueZero, the equality of Array.prototype.includes. JSON.parse
    builds a fresh object for every array and object it reads, so such a
    value is never the same value as another one.
   */
  predicate SameValueZero(a: Json, b: Json)
  {
    !a.JArray? && !a.JObject? && a == b
  }

  /** Array.prototype.includes. */
  predicate ArrayIncludes(items: seq<Json>, x: Json)
  {
    exists i :: 0 <= i < |items| && SameValueZero(items[i], x)
  }

  /** needle occurs in haystack starting at index i. */
  predicate OccursAt(needle: string, haystack: string, i: int)
  {
    0 <= i && i + |needle| <= |haystack| && haystack[i..i + |needle|] == needle
  }

  /** String.prototype.includes: needle occurs in haystack as a contiguous piece. */
  predicate IsSubstring(needle: string, haystack: string)
  {
    exists i :: 0 <= i <= |haystack| - |needle| && OccursAt(needle, haystack, i)
  }

  function DigitText(d: nat): string
    requires d < 10
  {
    [(48 + d) as char]
  }

  function NaturalText(n: nat): string
  {
    if n < 10 then DigitText(n) else NaturalText(n / 10) + DigitText(n % 10)
  }

  /**
    String(v) does not throw. An object with its own "toString" key has a
    toString that is not callable (JSON holds no functions), and valueOf
    gives back the object itself, so converting it throws a TypeError; an
    array converts every element through join.
   */
  predicate HasText(v: Json)
  {
    match v
    case JObject(fields) => "toString" !in fields
    case JArray(items) => forall x :: x in items ==> HasText(x)
    case _ => true
  }

  /** String(v): the text JavaScript converts a value to, when HasText(v). */
  function JsText(v: Json): string
    decreases v, 1
  {
    match v
    case JNull => "null"
    case JBool(b) => if b then "true" else "false"
    case JNumber(n) => if n < 0 then "-" + NaturalText(-n) else NaturalText(n)
    case JString(s) => s
    case JArray(items) => JoinFrom(v, 0)
    case JObject(_) => "[object Object]"
  }

  /** Array.prototype.join(",") from index i on; null elements become "". */
  function JoinFrom(list: Json, i: nat): string
    requires list.JArray? && i <= |list.items|
    decreases list, 0, |list.items| - i
  {
    if i == |list.items| then ""
    else
      var element := list.items[i];
      (if i > 0 then "," else "") + (if element.JNull? then "" else JsText(element)) + JoinFrom(list, i + 1)
  }

  /**
    options.includes(answer): membership for an array, a substring search on
    String(answer) for a string (a TypeError when the answer cannot be
    converted), a TypeError for anything else.
   */
  function Includes(container: Json, x: Json): Result<bool, QuizError>
  {
    match container
    case JArray(items) => Success(ArrayIncludes(items, x))
    case JString(s) => if HasText(x) then Success(IsSubstring(JsText(x), s)) else Failure(NotConvertible)
    case JNull => Failure(NullProperty("includes"))
    case _ => Failure(IncludesNotAFunction)
  }

  // ---------------------------------------------------------------------------
  // The check of one question and of the whole quiz
  // ---------------------------------------------------------------------------

  const AllowedTypes: seq<Json> := [JString("multipleChoice"), JString("trueOrFalse")]

  /** The four properties a question must carry with a truthy value. */
  predicate HasRequiredFields(q: Json)
  {
    && !q.JNull?
    && Truthy(Field(q, "question"))
    && Truthy(Field(q, "type"))
    && Truthy(Field(q, "options"))
    && Truthy(Field(q, "answer"))
  }

  /** The answer is listed: an element of an options array, or text inside an options string. */
  predicate AnswerListed(options: Json, answer: Json)
  {
    || (options.JArray? && !answer.JArray? && !answer.JObject?
        && exists i :: 0 <= i < |options.items| && options.items[i] == answer)
    || (options.JString? && HasText(answer) && IsSubstring(JsText(answer), options.s))
  }

  /** What a question must be for the check to let it through. */
  predicate QuestionAccepted(q: Json)
  {
    && q.JObject?
    && HasRequiredFields(q)
    && q.fields["type"] in AllowedTypes
    && AnswerListed(q.fields["options"], q.fields["answer"])
  }

  /**
    The checks on one question, in source order: the required fields, then
    the type, then the answer's membership in the options. None when all pass.
   */
  function CheckQuestion(q: Json): (failure: Option<QuizError>)
    ensures failure == None <==> QuestionAccepted(q)
    ensures q.JNull? ==> failure == Some(NullProperty("question"))
    ensures !q.JNull? && !HasRequiredFields(q) ==> failure == Some(MissingFields)
    ensures HasRequiredFields(q) && Field(q, "type").value !in AllowedTypes ==> failure == Some(InvalidType)
    ensures HasRequiredFields(q) && Field(q, "type").value in AllowedTypes && Field(q, "options").value.JArray?
            ==> (failure == Some(AnswerNotInOptions) <==> !AnswerListed(q.fields["options"], q.fields["answer"]))
  {
    if q.JNull? then Some(NullProperty("question"))
    else
      var text, kind, options, answer := Field(q, "question"), Field(q, "type"), Field(q, "options"), Field(q, "answer");
      if !Truthy(text) || !Truthy(kind) || !Truthy(options) || !Truthy(answer) then Some(MissingFields)
      else if !ArrayIncludes(AllowedTypes, kind.value) then Some(InvalidType)
      else
        match Includes(options.value, answer.value)
        case Failure(e) => Some(e)
        case Success(found) => if found then None else Some(AnswerNotInOptions)
  }

  /**
    The loop over the questions: the failure of the first question that
    fails, and none exactly when every question passes.
   */
  function FirstFailure(questions: seq<Json>): (failure: Option<QuizError>)
    ensures failure == None <==> forall i :: 0 <= i < |questions| ==> QuestionAccepted(questions[i])
  {
    if questions == [] then None
    else
      assert forall i :: 1 <= i < |questions| ==> questions[i] == questions[1..][i - 1];
      match CheckQuestion(questions[0])
      case Some(e) => Some(e)
      case None => FirstFailure(questions[1..])
  }

  /**
    The validation block: a questions array must be present, then every
    question is checked in order and the first failure aborts. On success
    the parsed value is returned as it is. It accepts exactly the quizzes of
    QuizAccepted.
   */
  function Validate(parsed: Json): (result: Result<Json, QuizError>)
    ensures result.Success? <==> QuizAccepted(parsed)
    ensures result.Success? ==> result.value == parsed
    ensures parsed.JNull? ==> result == Failure(NullProperty("questions"))
  {
    if parsed.JNull? then Failure(NullProperty("questions"))
    else
      var questions := Field(parsed, "questions");
      if !Truthy(questions) || !questions.value.JArray? then Failure(MissingQuestions)
      else
        match FirstFailure(questions.value.items)
        case Some(e) => Failure(e)
        case None => Success(parsed)
  }

  /** The for...of loop of the endpoint, exiting at the first failing question. */
  method ValidateQuiz(parsed: Json) returns (result: Result<Json, QuizError>)
    ensures result == Validate(parsed)
  {
    if parsed.JNull? {
      return Failure(NullProperty("questions"));
    }
    var questions := Field(parsed, "questions");
    if !Truthy(questions) || !questions.value.JArray? {
      return Failure(MissingQuestions);
    }
    var items := questions.value.items;
    for i := 0 to |items|
      invariant FirstFailure(items) == FirstFailure(items[i..])
    {
      assert items[i..][1..] == items[i + 1..];
      var failure := CheckQuestion(items[i]);
      if failure.Some? {
        return Failure(failure.value);
      }
    }
    return Success(parsed);
  }

  // ---------------------------------------------------------------------------
  // What the check accepts and rejects
  // ---------------------------------------------------------------------------

  /** A failure is that of some question, every question before it having passed. */
  lemma {:induction false} FirstFailureIsFirst(questions: seq<Json>)
    ensures FirstFailure(questions).Some? ==>
              exists i :: 0 <= i < |questions|
                          && CheckQuestion(questions[i]) == FirstFailure(questions)
                          && forall j :: 0 <= j < i ==> QuestionAccepted(questions[j])
  {
    if questions != [] {
      FirstFailureIsFirst(questions[1..]);
      if CheckQuestion(questions[0]).None? {
        assert forall i :: 1 <= i < |questions| ==> questions[i] == questions[1..][i - 1];
        if FirstFailure(questions).Some? {
          var k :| 0 <= k < |questions[1..]|
                   && CheckQuestion(questions[1..][k]) == FirstFailure(questions[1..])
                   && forall j :: 0 <= j < k ==> QuestionAccepted(questions[1..][j]);
          assert CheckQuestion(questions[k + 1]) == FirstFailure(questions);
        }
      }
    }
  }

  /** The shape of a quiz the check lets through. */
  predicate QuizAccepted(parsed: Json)
  {
    && parsed.JObject?
    && "questions" in parsed.fields
    && parsed.fields["questions"].JArray?
    && forall i :: 0 <= i < |parsed.fields["questions"].items| ==> QuestionAccepted(parsed.fields["questions"].items[i])
  }

  /** Without a questions array (missing, falsy or another kind of value) the quiz is rejected. */
  lemma MissingQuestionsRejected(parsed: Json)
    requires !parsed.JNull?
    requires !(parsed.JObject? && "questions" in parsed.fields && parsed.fields["questions"].JArray?)
    ensures Validate(parsed) == Failure(MissingQuestions)
  {
  }

  /**
    A rejected quiz with a questions array is rejected for the first question
    that fails, every question before it having passed.
   */
  lemma ValidateRejectsFirstFailing(parsed: Json, e: QuizError)
    requires parsed.JObject? && "questions" in parsed.fields && parsed.fields["questions"].JArray?
    requires Validate(parsed) == Failure(e)
    ensures exists i :: 0 <= i < |parsed.fields["questions"].items|
                        && CheckQuestion(parsed.fields["questions"].items[i]) == Some(e)
                        && forall j :: 0 <= j < i ==> QuestionAccepted(parsed.fields["questions"].items[j])
  {
    FirstFailureIsFirst(parsed.fields["questions"].items);
  }

  /** An empty question list passes: the check does not ask for any question. */
  lemma EmptyQuizAccepted(parsed: Json)
    requires parsed.JObject? && "questions" in parsed.fields && parsed.fields["questions"] == JArray([])
    ensures Validate(parsed) == Success(parsed)
  {
  }

  /** A question object whose four fields are a text, a type, the given options and an answer text. */
  function TextQuestion(text: string, kind: string, options: Json, answer: string): Json
  {
    JObject(map["question" := JString(text), "type" := JString(kind),
                "options" := options, "answer" := JString(answer)])
  }

  /**
    The option count is not checked: with an allowed type, any options array,
    of any length, that lists the answer lets the question through.
   */
  lemma OptionCountNotChecked(text: string, kind: string, options: seq<Json>, answer: string)
    requires text != "" && answer != ""
    requires JString(kind) in AllowedTypes
    requires JString(answer) in options
    ensures CheckQuestion(TextQuestion(text, kind, JArray(options), answer)) == None
  {
    var i :| 0 <= i < |options| && options[i] == JString(answer);
  }

  /**
    A true/false question passes exactly when its answer is a non-empty text
    listed in its options: the labels Sant and Usant are not required.
   */
  lemma TrueFalseLabelsNotChecked(text: string, options: seq<Json>, answer: string)
    requires text != ""
    ensures CheckQuestion(TextQuestion(text, "trueOrFalse", JArray(options), answer)) == None
            <==> answer != "" && JString(answer) in options
  {
    if answer != "" && JString(answer) in options {
      OptionCountNotChecked(text, "trueOrFalse", options, answer);
    }
  }

  /**
    With a non-empty string in place of the options array, a question with an
    allowed type passes exactly when its answer occurs in that string.
   */
  lemma OptionsStringAccepted(text: string, kind: string, options: string, answer: string)
    requires text != "" && answer != "" && options != ""
    requires JString(kind) in AllowedTypes
    ensures CheckQuestion(TextQuestion(text, kind, JString(options), answer)) == None
            <==> IsSubstring(answer, options)
  {
  }

  /**
    With a string in place of the options array, an answer that cannot be
    converted to text (an object with its own "toString" key, or an array
    holding one) makes includes throw a TypeError.
   */
  lemma UnconvertibleAnswerRejected(text: string, kind: string, options: string, answer: Json)
    requires text != "" && options != ""
    requires JString(kind) in AllowedTypes
    requires !HasText(answer)
    ensures CheckQuestion(JObject(map["question" := JString(text), "type" := JString(kind),
                                      "options" := JString(options), "answer" := answer]))
            == Some(NotConvertible)
  {
  }

  /** The endpoint answers 500 with the TypeError for {"answer": {"toString": 0}} against an options string. */
  lemma ToStringKeyAnswerFails()
    ensures var question := JObject(map["question" := JString("q"), "type" := JString("multipleChoice"),
                                        "options" := JString("[object Object]"),
                                        "answer" := JObject(map["toString" := JNumber(0)])]);
            Post(Some([JNull]), Parsed(JObject(map["questions" := JArray([question])])))
            == GenerationError("Cannot convert object to primitive value")
  {
    var question := JObject(map["question" := JString("q"), "type" := JString("multipleChoice"),
                                "options" := JString("[object Object]"),
                                "answer" := JObject(map["toString" := JNumber(0)])]);
    UnconvertibleAnswerRejected("q", "multipleChoice", "[object Object]", JObject(map["toString" := JNumber(0)]));
    assert FirstFailure([question]) == Some(NotConvertible);
  }

  // ---------------------------------------------------------------------------
  // The endpoint
  // ---------------------------------------------------------------------------

  /** What the generator step yields: its own failure, no content, text that does not parse, or a parsed value. */
  datatype Generation =
    | GenerationFailed(message: string)
    | NoContent
    | InvalidJson
    | Parsed(value: Json)

  datatype Body =
    | QuizBody(quiz: Json)
    | NotFoundBody(error: string)
    | ErrorBody(error: string, details: string)

  datatype Response = Response(status: int, body: Body)

  /** The error response of every failure after the articles are found. */
  function GenerationError(details: string): Response
  {
    Response(500, ErrorBody("Could not generate quiz", details))
  }

  /**
    POST: None for articles means loading them failed. No articles gives 404
    whatever the generator would have done; a generated quiz is sent only when
    it passes the check, unchanged; every other outcome is a 500.
   */
  function Post(articles: Option<seq<Json>>, generation: Generation): (response: Response)
    ensures articles == Some([]) ==> response == Response(404, NotFoundBody("No articles found"))
    ensures response.status == 404 <==> articles == Some([])
    ensures response.status == 200 <==>
              articles.Some? && articles.value != [] && generation.Parsed? && Validate(generation.value).Success?
    ensures response.status == 200 ==> response.body == QuizBody(generation.value)
    ensures response.status != 200 && response.status != 404 ==>
              response.status == 500 && response.body.ErrorBody? && response.body.error == "Could not generate quiz"
    ensures articles.Some? && articles.value != [] && generation.Parsed? && Validate(generation.value).Failure?
            ==> response == GenerationError(ErrorMessage(Validate(generation.value).error))
  {
    match articles
    case None => GenerationError("Failed to load articles")
    case Some(loaded) =>
      if |loaded| == 0 then Response(404, NotFoundBody("No articles found"))
      else
        match generation
        case GenerationFailed(message) => GenerationError(message)
        case NoContent => GenerationError("No content received from OpenAI")
        case InvalidJson => GenerationError("Invalid JSON response from OpenAI")
        case Parsed(quiz) =>
          match Validate(quiz)
          case Success(valid) => Response(200, QuizBody(valid))
          case Failure(e) => GenerationError(ErrorMessage(e))
  }
}
