/**
 * A small flow with the question ids and letter routes of the legal-intake flow the engine's
 * tests walk through: question 1 sorts the matter by the letters `a` to `d` (otherwise 11),
 * question 2 by `a` (written) or `b` (verbal), the branches meet at 12, and 12 -> 13 -> 14 -> END.
 * The keyword routes (`contract`, `employment`, `written`, `verbal`) are not part of it, and the
 * question texts are stand-ins; the routing is what the lemmas below pin down.
 */
module ExampleFlow {
  import opened Wrappers
  import opened JsString
  import opened ManualFlow

  function Contains(word: string, next: int): Route {
    Route(Some(word), false, Number(next))
  }

  function Otherwise(next: QuestionRef): Route {
    Route(None, true, next)
  }

  const GreetingTail: string := ", welcome! What is your legal matter?"
  const Greeting: string := UserNamePlaceholder + GreetingTail

  const Q1: Question := Question(1, Greeting, [
    Contains("a", 2), Contains("b", 5), Contains("c", 8), Contains("d", 11), Otherwise(Number(11))])
  const Q2: Question := Question(2, "Was the contract written or verbal?",
    [Contains("a", 3), Contains("b", 4)])
  const Q3: Question := Question(3, "Do you have a copy?", [Otherwise(Number(12))])
  const Q4: Question := Question(4, "Were there witnesses?", [Otherwise(Number(12))])
  const Q5: Question := Question(5, "What is the employment issue?", [Otherwise(Number(12))])
  const Q8: Question := Question(8, "What is the real estate matter?", [Otherwise(Number(12))])
  const Q11: Question := Question(11, "Please describe your legal matter.", [Otherwise(Number(12))])
  const Q12: Question := Question(12, "When did this start?", [Otherwise(Number(13))])
  const Q13: Question := Question(13, "Have you taken any action?", [Otherwise(Number(14))])
  const Q14: Question := Question(14, "Is there anything else?", [Otherwise(Text("END"))])

  const Questions: seq<Question> := [Q1, Q2, Q3, Q4, Q5, Q8, Q11, Q12, Q13, Q14]

  const Example: Service := Service(Some(FlowConfig(Questions, 1, "END")), true)

  /** The question at index `k` of the example is the one with id `id`. */
  lemma Found(id: int, k: nat)
    requires k < |Questions| && Questions[k].id == id
    requires forall j :: 0 <= j < k ==> Questions[j].id != id
    ensures FindQuestion(Questions, id) == Some(Questions[k])
  {
    FindQuestionFirst(Questions, id, k);
  }

  lemma FoundStart()
    ensures FindQuestion(Questions, 1) == Some(Q1)
  {
    Found(1, 0);
  }

  lemma FoundWritten()
    ensures FindQuestion(Questions, 2) == Some(Q2)
  {
    Found(2, 1);
  }

  lemma FoundDescribe()
    ensures FindQuestion(Questions, 11) == Some(Q11)
  {
    Found(11, 6);
  }

  /** No occurrence of `t` in `s` can start where `s` does not have `t`'s first character. */
  lemma NotIncluded(s: string, t: string)
    requires t != []
    requires forall k :: 0 <= k && k + |t| <= |s| ==> s[k] != t[0]
    ensures !Includes(s, t)
  {
    forall k | 0 <= k && k + |t| <= |s| ensures !OccursAt(s, t, k) {
      assert s[k..k + |t|][0] == s[k];
    }
  }

  /** In any ready flow: route `i` of question `q` is the first to fire and names question `target`. */
  lemma FiringStep(svc: Service, currentId: int, q: Question, answer: string, i: nat, target: Question)
    requires IsReady(svc)
    requires FindQuestion(svc.flowConfig.value.questions, currentId) == Some(q)
    requires i < |q.routes| && Fires(q.routes[i], Normalize(answer))
    requires forall j :: 0 <= j < i ==> !Fires(q.routes[j], Normalize(answer))
    requires q.routes[i].nextQuestion == Number(target.id)
    requires FindQuestion(svc.flowConfig.value.questions, target.id) == Some(target)
    ensures GetNextQuestion(svc, currentId, answer) == Success(NextQuestion(Number(target.id), target.text, false))
  {
    var cfg := svc.flowConfig.value;
    assert SelectNext(q.routes, Normalize(answer), cfg.endMarker) == Number(target.id);
  }

  /** In any ready flow: question `q` has a default as its only route, naming `next`. */
  lemma DefaultStep(svc: Service, currentId: int, q: Question, answer: string, next: QuestionRef)
    requires IsReady(svc)
    requires FindQuestion(svc.flowConfig.value.questions, currentId) == Some(q)
    requires q.routes == [Otherwise(next)]
    ensures GetNextQuestion(svc, currentId, answer) == Success(Resolve(svc.flowConfig.value, next))
  {
    var cfg := svc.flowConfig.value;
    assert !Fires(q.routes[0], Normalize(answer));
    assert SelectNext(q.routes, Normalize(answer), cfg.endMarker) == next;
  }

  /** The greeting names the user in place of the placeholder. */
  lemma GreetingNamesUser()
    ensures GetFirstQuestion(Example, "Jane Smith") == Success(FirstQuestion(1, "Jane Smith" + GreetingTail))
  {
    Found(1, 0);
    assert Greeting[..10] == UserNamePlaceholder;
    assert Greeting[10..] == GreetingTail;
    FirstQuestionSubstitutesName(Example, "Jane Smith", Q1, 0);
  }

  /** `A` normalises to `a`. */
  lemma NormalizeCapital()
    ensures Normalize("A") == "a"
  {
    assert ToLower("A") == "a";
    TrimPadded("", "a", "");
    assert "" + "a" + "" == "a";
  }

  /** `  A  ` and `\ta\n` normalise to `a`: surrounding spaces, tabs and newlines go. */
  lemma NormalizePadded()
    ensures Normalize("  A  ") == "a" && Normalize("\ta\n") == "a"
  {
    assert ToLower("  A  ") == "  " + "a" + "  ";
    TrimPadded("  ", "a", "  ");
    assert ToLower("\ta\n") == "\t" + "a" + "\n";
    TrimPadded("\t", "a", "\n");
  }

  /** The first route of question 1 fires for the normalised answer `a`. */
  lemma LetterFires()
    ensures Fires(Q1.routes[0], "a")
  {
    assert ToLower("a") == "a";
    assert OccursAt("a", "a", 0);
  }

  /**
   * Every answer that normalises to `a` (such as `A` or `  A  `) routes from question 1 to
   * question 2: case and surrounding whitespace do not matter.
   */
  lemma LetterRoutes(answer: string)
    requires Normalize(answer) == "a"
    ensures GetNextQuestion(Example, 1, answer) == Success(NextQuestion(Number(2), Q2.text, false))
  {
    FoundStart();
    FoundWritten();
    LetterFires();
    FiringStep(Example, 1, Q1, answer, 0, Q2);
  }

  /** In any ready flow: no route of `q` fires and route `k`, its last default, names question `target`. */
  lemma DefaultingStep(svc: Service, currentId: int, q: Question, answer: string, k: nat, target: Question)
    requires IsReady(svc)
    requires FindQuestion(svc.flowConfig.value.questions, currentId) == Some(q)
    requires forall i :: 0 <= i < |q.routes| ==> !Fires(q.routes[i], Normalize(answer))
    requires k < |q.routes| && q.routes[k].isDefault
    requires forall j :: k < j < |q.routes| ==> !q.routes[j].isDefault
    requires q.routes[k].nextQuestion == Number(target.id)
    requires FindQuestion(svc.flowConfig.value.questions, target.id) == Some(target)
    ensures GetNextQuestion(svc, currentId, answer) == Success(NextQuestion(Number(target.id), target.text, false))
  {
    var cfg := svc.flowConfig.value;
    assert SelectNext(q.routes, Normalize(answer), cfg.endMarker) == Number(target.id);
  }

  /** An answer without the letters `a` to `d` fires no route of question 1. */
  lemma NoStartRouteFires(s: string)
    requires forall k :: 0 <= k < |s| ==> s[k] !in "abcd"
    ensures forall i :: 0 <= i < |Q1.routes| ==> !Fires(Q1.routes[i], s)
  {
    var words := ["a", "b", "c", "d"];
    forall i | 0 <= i < 4 ensures !Fires(Q1.routes[i], s) {
      assert Q1.routes[i].answerContains == Some(words[i]);
      assert ToLower(words[i]) == words[i];
      NotIncluded(s, words[i]);
    }
  }

  const Unmatched: string := "xyz qwerty"

  lemma UnmatchedAvoidsRouteLetters()
    ensures forall k :: 0 <= k < |Unmatched| ==> Unmatched[k] !in "abcd"
  {
  }

  /** An answer that normalises to `xyz qwerty` fires no route of question 1 and takes its default, question 11. */
  lemma UnmatchedAnswerTakesDefault(answer: string)
    requires Normalize(answer) == Unmatched
    ensures GetNextQuestion(Example, 1, answer) == Success(NextQuestion(Number(11), Q11.text, false))
  {
    FoundStart();
    FoundDescribe();
    UnmatchedAvoidsRouteLetters();
    NoStartRouteFires(Normalize(answer));
    DefaultingStep(Example, 1, Q1, answer, 4, Q11);
  }

  /** The shared tail 12 -> 13 -> 14 -> END has only defaults, so every answer takes it. */
  lemma SharedTailIgnoresAnswers(answer: string)
    ensures GetNextQuestion(Example, 12, answer) == Success(NextQuestion(Number(13), Q13.text, false))
    ensures GetNextQuestion(Example, 13, answer) == Success(NextQuestion(Number(14), Q14.text, false))
    ensures GetNextQuestion(Example, 14, answer) == Success(NextQuestion(Text("END"), ClosingText, true))
  {
    Found(12, 7);
    Found(13, 8);
    Found(14, 9);
    DefaultStep(Example, 12, Q12, answer, Number(13));
    DefaultStep(Example, 13, Q13, answer, Number(14));
    DefaultStep(Example, 14, Q14, answer, Text("END"));
  }

  /** An id no question has is an error. */
  lemma UnknownQuestionFails()
    ensures GetNextQuestion(Example, 999, "Any answer") == Failure(QuestionNotFound(999))
  {
    assert forall q :: q in Questions ==> q.id != 999;
  }
}
