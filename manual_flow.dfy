/**
 * The scripted conversation engine (`ManualFlowService`): a flow definition of question nodes,
 * each with an ordered list of routes, and the three queries the conversation handlers use.
 * The engine is a set of pure functions of the loaded definition; loading it from the YAML file
 * is not modelled.
 */
module ManualFlow {
  import opened Wrappers
  import opened JsString

  /** A route's `next_question`: the YAML value is a number (a question id) or a string. */
  datatype QuestionRef = Number(n: int) | Text(s: string)

  /** One entry of a question's `routes`; an absent `default` is `false`. */
  datatype Route = Route(answerContains: Option<string>, isDefault: bool, nextQuestion: QuestionRef)

  datatype Question = Question(id: int, text: string, routes: seq<Route>)

  /** The loaded document: `questions` and the two entries of `config`. */
  datatype FlowConfig = FlowConfig(questions: seq<Question>, startQuestion: int, endMarker: string)

  /** The service's state: the loaded configuration, if any, and the `initialized` flag. */
  datatype Service = Service(flowConfig: Option<FlowConfig>, initialized: bool)

  /** The errors the engine throws. */
  datatype EngineError =
    | NotInitialized                 // "Manual flow service not initialized"
    | StartQuestionNotFound(id: int) // "Start question N not found in configuration"
    | QuestionNotFound(id: int)      // "Question N not found in configuration"

  datatype FirstQuestion = FirstQuestion(questionId: int, text: string)

  datatype NextQuestion = NextQuestion(questionId: QuestionRef, text: string, isEnd: bool)

  const UserNamePlaceholder: string := "{userName}"

  /** The closing text returned when a route leads to the end marker. */
  const ClosingText: string :=
    "Thank you" + " for providing all this information. Based on what you've shared, I'll prepare a summary of your situation. A "
    + "legal professional" + " will review your case and get back to you soon."

  /** The closing text returned when a route leads to a question that does not exist. */
  const FallbackClosingText: string :=
    "Thank you" + " for providing this information. We'll review your case and get back to you soon."

  /** `isReady()`. */
  predicate IsReady(svc: Service) {
    svc.initialized && svc.flowConfig.Some?
  }

  /** The index of the first question at or after `from` whose id is `id`. */
  function QuestionIndexFrom(questions: seq<Question>, id: int, from: nat): (r: Option<nat>)
    ensures r.Some? ==> from <= r.value < |questions| && questions[r.value].id == id
    ensures r.Some? ==> forall j :: from <= j < r.value ==> questions[j].id != id
    ensures r.None? ==> forall j :: from <= j < |questions| ==> questions[j].id != id
    decreases |questions| - from
  {
    if from >= |questions| then None
    else if questions[from].id == id then Some(from)
    else QuestionIndexFrom(questions, id, from + 1)
  }

  /** `questions.find((q) => q.id === id)`: the first question with that id. */
  function FindQuestion(questions: seq<Question>, id: int): (r: Option<Question>)
    ensures r.Some? ==> r.value in questions && r.value.id == id
    ensures r.None? <==> forall q :: q in questions ==> q.id != id
  {
    match QuestionIndexFrom(questions, id, 0)
    case Some(k) => Some(questions[k])
    case None => None
  }

  /** With several questions sharing an id, the first one in document order is found. */
  lemma FindQuestionFirst(questions: seq<Question>, id: int, k: nat)
    requires k < |questions| && questions[k].id == id
    requires forall j :: 0 <= j < k ==> questions[j].id != id
    ensures FindQuestion(questions, id) == Some(questions[k])
  {
  }

  /**
   * `getFirstQuestion(userName)`: the start question, with the first `{userName}` in its text
   * replaced by the name (JavaScript `replace` with a string pattern).
   */
  function GetFirstQuestion(svc: Service, userName: string): (r: Result<FirstQuestion, EngineError>)
    ensures !IsReady(svc) ==> r == Failure(NotInitialized)
    ensures IsReady(svc) ==>
      var cfg := svc.flowConfig.value;
      (r.Failure? <==> FindQuestion(cfg.questions, cfg.startQuestion).None?) &&
      (r.Failure? ==> r.error == StartQuestionNotFound(cfg.startQuestion)) &&
      (r.Success? ==> r.value.questionId == cfg.startQuestion)
  {
    if !IsReady(svc) then Failure(NotInitialized)
    else
      var cfg := svc.flowConfig.value;
      match FindQuestion(cfg.questions, cfg.startQuestion)
      case None => Failure(StartQuestionNotFound(cfg.startQuestion))
      case Some(question) =>
        Success(FirstQuestion(question.id, Replace(question.text, UserNamePlaceholder, userName)))
  }

  /** The text of the start question, `q`, when the service is ready and `q` exists. */
  ghost predicate StartQuestionIs(svc: Service, q: Question) {
    IsReady(svc) && FindQuestion(svc.flowConfig.value.questions, svc.flowConfig.value.startQuestion) == Some(q)
  }

  /**
   * A name without `$` is put verbatim in place of the first `{userName}` of the start
   * question's text; the rest of the text, later placeholders included, is left as it is.
   */
  lemma FirstQuestionSubstitutesName(svc: Service, userName: string, q: Question, k: nat)
    requires StartQuestionIs(svc, q)
    requires OccursAt(q.text, UserNamePlaceholder, k)
    requires forall j :: 0 <= j < k ==> !OccursAt(q.text, UserNamePlaceholder, j)
    requires '$' !in userName
    ensures GetFirstQuestion(svc, userName).Success?
    ensures GetFirstQuestion(svc, userName).value.text ==
      q.text[..k] + userName + q.text[k + |UserNamePlaceholder|..]
    ensures Includes(GetFirstQuestion(svc, userName).value.text, userName)
  {
    ReplaceFirstOccurrence(q.text, UserNamePlaceholder, userName, k);
    ReplaceIncludesReplacement(q.text, UserNamePlaceholder, userName);
  }

  /** A start question without the placeholder is returned verbatim, whatever the name. */
  lemma FirstQuestionWithoutPlaceholder(svc: Service, userName: string, q: Question)
    requires StartQuestionIs(svc, q)
    requires !Includes(q.text, UserNamePlaceholder)
    ensures GetFirstQuestion(svc, userName) == Success(FirstQuestion(q.id, q.text))
  {
    ReplaceAbsent(q.text, UserNamePlaceholder, userName);
  }

  /** The answer as routes see it: `userAnswer.toLowerCase().trim()`. */
  function Normalize(answer: string): string {
    Trim(ToLower(answer))
  }

  /** Normalising is idempotent, so a normalised answer routes like the raw one. */
  lemma NormalizeIdempotent(answer: string)
    ensures Normalize(Normalize(answer)) == Normalize(answer)
  {
    ToLowerTrim(ToLower(answer));
    ToLowerIdempotent(answer);
    TrimIdempotent(ToLower(answer));
  }

  /**
   * A route fires when it has a non-empty `answer_contains` that the normalised answer
   * contains once lower-cased; an empty or absent `answer_contains` never fires.
   */
  predicate Fires(route: Route, normalizedAnswer: string) {
    && route.answerContains.Some?
    && route.answerContains.value != ""
    && Includes(normalizedAnswer, ToLower(route.answerContains.value))
  }

  /** The index of the first route at or after `from` that fires. */
  function FirstFiring(routes: seq<Route>, normalizedAnswer: string, from: nat): (r: Option<nat>)
    ensures r.Some? ==> from <= r.value < |routes| && Fires(routes[r.value], normalizedAnswer)
    ensures r.Some? ==> forall j :: from <= j < r.value ==> !Fires(routes[j], normalizedAnswer)
    ensures r.None? ==> forall j :: from <= j < |routes| ==> !Fires(routes[j], normalizedAnswer)
    decreases |routes| - from
  {
    if from >= |routes| then None
    else if Fires(routes[from], normalizedAnswer) then Some(from)
    else FirstFiring(routes, normalizedAnswer, from + 1)
  }

  /** The index of the last route marked `default`. */
  function LastDefault(routes: seq<Route>): (r: Option<nat>)
    ensures r.Some? ==> r.value < |routes| && routes[r.value].isDefault
    ensures r.Some? ==> forall j :: r.value < j < |routes| ==> !routes[j].isDefault
    ensures r.None? ==> forall j :: 0 <= j < |routes| ==> !routes[j].isDefault
    decreases |routes|
  {
    if |routes| == 0 then None
    else if routes[|routes| - 1].isDefault then Some(|routes| - 1)
    else LastDefault(routes[..|routes| - 1])
  }

  /** Where the defaults send an answer no route fires for: the last default, else the end marker. */
  function DefaultTarget(routes: seq<Route>, endMarker: string): (r: QuestionRef)
    ensures (forall i :: 0 <= i < |routes| ==> !routes[i].isDefault) ==> r == Text(endMarker)
    ensures forall k :: 0 <= k < |routes| && routes[k].isDefault && (forall j :: k < j < |routes| ==> !routes[j].isDefault)
              ==> r == routes[k].nextQuestion
  {
    match LastDefault(routes)
    case Some(k) => routes[k].nextQuestion
    case None => Text(endMarker)
  }

  /**
   * The route selection of `getNextQuestion`: the first firing route decides, even when a
   * default comes before it; if none fires, the last default decides; with neither, the end
   * marker is the next id.
   */
  function SelectNext(routes: seq<Route>, normalizedAnswer: string, endMarker: string): (r: QuestionRef)
    ensures forall i :: 0 <= i < |routes| && Fires(routes[i], normalizedAnswer)
              && (forall j :: 0 <= j < i ==> !Fires(routes[j], normalizedAnswer))
              ==> r == routes[i].nextQuestion
    ensures (forall i :: 0 <= i < |routes| ==> !Fires(routes[i], normalizedAnswer)) ==>
              forall k :: 0 <= k < |routes| && routes[k].isDefault
                && (forall j :: k < j < |routes| ==> !routes[j].isDefault)
                ==> r == routes[k].nextQuestion
    ensures (forall i :: 0 <= i < |routes| ==> !Fires(routes[i], normalizedAnswer) && !routes[i].isDefault) ==>
              r == Text(endMarker)
  {
    match FirstFiring(routes, normalizedAnswer, 0)
    case Some(i) => routes[i].nextQuestion
    case None => DefaultTarget(routes, endMarker)
  }

  /**
   * The `for` loop over `currentQuestion.routes`: a default records its target and the scan
   * goes on; the first firing route sets the target and stops it.
   */
  method ScanRoutes(routes: seq<Route>, normalizedAnswer: string, endMarker: string) returns (next: QuestionRef)
    ensures next == SelectNext(routes, normalizedAnswer, endMarker)
  {
    next := Text(endMarker);
    var i := 0;
    while i < |routes|
      invariant 0 <= i <= |routes|
      invariant forall j :: 0 <= j < i ==> !Fires(routes[j], normalizedAnswer)
      invariant next == DefaultTarget(routes[..i], endMarker)
    {
      var route := routes[i];
      if Fires(route, normalizedAnswer) {
        next := route.nextQuestion;
        break;
      } else if route.isDefault {
        next := route.nextQuestion;
      }
      assert routes[..i + 1][..i] == routes[..i];
      i := i + 1;
    }
    if i == |routes| {
      assert routes[..i] == routes;
    }
  }

  /** What the selected next id leads to: the closing text, the next question, or the fallback closing text. */
  function Resolve(cfg: FlowConfig, next: QuestionRef): (r: NextQuestion)
    ensures next == Text(cfg.endMarker) ==> r == NextQuestion(next, ClosingText, true)
    ensures next != Text(cfg.endMarker) && (next.Text? || FindQuestion(cfg.questions, next.n).None?) ==>
      r == NextQuestion(Text(cfg.endMarker), FallbackClosingText, true)
    ensures !r.isEnd <==> r.questionId.Number? && FindQuestion(cfg.questions, r.questionId.n).Some?
    ensures !r.isEnd ==> r.questionId == next && r.text == FindQuestion(cfg.questions, next.n).value.text
  {
    if next == Text(cfg.endMarker) then NextQuestion(next, ClosingText, true)
    else
      match if next.Number? then FindQuestion(cfg.questions, next.n) else None
      case Some(q) => NextQuestion(Number(q.id), q.text, false)
      case None => NextQuestion(Text(cfg.endMarker), FallbackClosingText, true)
  }

  /** `getNextQuestion(currentQuestionId, userAnswer)`. */
  function GetNextQuestion(svc: Service, currentId: int, answer: string): (r: Result<NextQuestion, EngineError>)
    ensures !IsReady(svc) ==> r == Failure(NotInitialized)
    ensures IsReady(svc) ==>
      var cfg := svc.flowConfig.value;
      (r.Failure? <==> FindQuestion(cfg.questions, currentId).None?) &&
      (r.Failure? ==> r.error == QuestionNotFound(currentId))
    // the three outcomes, by the id the routes select
    ensures r.Success? ==>
      var cfg := svc.flowConfig.value;
      var next := SelectNext(FindQuestion(cfg.questions, currentId).value.routes, Normalize(answer), cfg.endMarker);
      var target := if next.Number? then FindQuestion(cfg.questions, next.n) else None;
      (next == Text(cfg.endMarker) ==> r.value == NextQuestion(next, ClosingText, true)) &&
      (next != Text(cfg.endMarker) && target.Some? ==> r.value == NextQuestion(next, target.value.text, false)) &&
      (next != Text(cfg.endMarker) && target.None? ==> r.value == NextQuestion(Text(cfg.endMarker), FallbackClosingText, true))
    // isEnd is false exactly when the returned id names a question, whose text is returned verbatim
    ensures r.Success? ==>
      var cfg := svc.flowConfig.value;
      (r.value.isEnd <==> !(r.value.questionId.Number? && FindQuestion(cfg.questions, r.value.questionId.n).Some?)) &&
      (r.value.isEnd ==> r.value.questionId == Text(cfg.endMarker)) &&
      (!r.value.isEnd ==> r.value.text == FindQuestion(cfg.questions, r.value.questionId.n).value.text)
  {
    if !IsReady(svc) then Failure(NotInitialized)
    else
      var cfg := svc.flowConfig.value;
      match FindQuestion(cfg.questions, currentId)
      case None => Failure(QuestionNotFound(currentId))
      case Some(current) =>
        Success(Resolve(cfg, SelectNext(current.routes, Normalize(answer), cfg.endMarker)))
  }

  /** Routing sees only the normalised answer: case and surrounding whitespace do not matter. */
  lemma NextQuestionIgnoresCaseAndPadding(svc: Service, currentId: int, answer: string)
    ensures GetNextQuestion(svc, currentId, Normalize(answer)) == GetNextQuestion(svc, currentId, answer)
  {
    NormalizeIdempotent(answer);
  }

  /** `isEndOfFlow(questionId)`: false while the service is not ready. */
  function IsEndOfFlow(svc: Service, questionId: QuestionRef): (r: bool)
    ensures r ==> IsReady(svc)
    ensures IsReady(svc) ==> (r <==> questionId == Text(svc.flowConfig.value.endMarker))
  {
    IsReady(svc) && questionId == Text(svc.flowConfig.value.endMarker)
  }

  /** `isEndOfFlow` of the id `getNextQuestion` returns agrees with its `isEnd`. */
  lemma IsEndOfFlowAgreesWithIsEnd(svc: Service, currentId: int, answer: string)
    requires GetNextQuestion(svc, currentId, answer).Success?
    ensures IsEndOfFlow(svc, GetNextQuestion(svc, currentId, answer).value.questionId)
            == GetNextQuestion(svc, currentId, answer).value.isEnd
  {
  }

  /** Both closing texts thank the user; the one for the end marker mentions a legal professional. */
  lemma ClosingTexts()
    ensures OccursAt(ClosingText, "Thank you", 0) && OccursAt(FallbackClosingText, "Thank you", 0)
    ensures OccursAt(ClosingText, "legal professional", 119)
    ensures ClosingText != FallbackClosingText
  {
    assert |" for providing all this information. Based on what you've shared, I'll prepare a summary of your situation. A "| == 110;
  }
}
