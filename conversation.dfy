/**
 * The conversation session controller (`routes/conversation.ts`) without HTTP and the
 * database: the conversations table as a map from id to session, each conversation's messages
 * as an append-only transcript, and the start, message and history handlers as methods on them.
 * The generative collaborator is an uninterpreted parameter.
 */
module Conversation {
  import opened Wrappers
  import opened JsString
  import opened Http
  import ManualFlow
  import Admin

  datatype Mode = OpenAI | Manual

  datatype Status = Active | Completed

  datatype Role = UserRole | AssistantRole

  datatype Message = Message(role: Role, content: string)

  /** A row of the `conversation` table apart from its id. */
  datatype Session = Session(userId: nat, status: Status, mode: Mode, currentQuestionId: Option<int>)

  /**
   * The generative service (`openAIService`): its three calls, uninterpreted. It never
   * throws (it falls back to fixed texts), so each call is a total function.
   */
  datatype Assistant = Assistant(
    firstQuestion: string -> string,
    shouldEnd: seq<Message> -> bool,
    nextQuestion: (seq<Message>, string) -> string)

  /** What the collaborator of a turn answers: the next question, whether it ends the conversation, and the next question id. */
  datatype Reply = Reply(question: string, end: bool, nextQuestionId: Option<int>)

  datatype StartData = StartData(conversationId: nat, question: string, messageId: nat, mode: Mode)

  datatype TurnData = TurnData(question: string, messageId: nat, completed: bool)

  datatype History = History(session: Session, messages: seq<Message>)

  const MaxMessageLength: nat := 5000

  const UserNotFound: string := "User not found"
  const ConversationNotFound: string := "Conversation not found"
  const NotActive: string := "Conversation is not active"
  const MissingQuestionId: string := "Invalid conversation state: missing current question ID"

  /** `startConversationSchema`: a positive integer `userId`; `mode` is `openai` (the default) or `manual`. */
  function ParseStart(userId: int, mode: Option<string>): (r: Option<Mode>)
    ensures r.Some? <==> userId > 0 && mode in {None, Some("openai"), Some("manual")}
    ensures r == Some(Manual) <==> userId > 0 && mode == Some("manual")
  {
    if userId <= 0 then None
    else
      match mode
      case None => Some(OpenAI)
      case Some(m) => if m == "openai" then Some(OpenAI) else if m == "manual" then Some(Manual) else None
  }

  /** `sendMessageSchema`: a positive integer `conversationId` and 1 to 5000 UTF-16 code units of text. */
  predicate ValidTurnInput(conversationId: int, message: string) {
    conversationId > 0 && 1 <= Utf16Length(message) <= MaxMessageLength
  }

  /** Every message up to 5000 characters of the Basic Multilingual Plane passes the length check. */
  lemma BmpMessageAccepted(conversationId: int, message: string)
    requires conversationId > 0 && 1 <= |message| <= MaxMessageLength
    requires forall i :: 0 <= i < |message| ==> message[i] as int <= 0xFFFF
    ensures ValidTurnInput(conversationId, message)
  {
    Utf16LengthBmp(message);
  }

  lemma {:induction false} Utf16LengthBmp(s: string)
    requires forall i :: 0 <= i < |s| ==> s[i] as int <= 0xFFFF
    ensures Utf16Length(s) == |s|
  {
    if |s| > 0 {
      assert forall i :: 0 <= i < |s| - 1 ==> s[1..][i] == s[i + 1];
      Utf16LengthBmp(s[1..]);
    }
  }

  /**
   * The transcript of a conversation whose every turn succeeded: assistant and user messages
   * alternate, starting and ending with the assistant.
   */
  ghost predicate Alternating(t: seq<Message>) {
    && |t| % 2 == 1
    && forall i :: 0 <= i < |t| ==> t[i].role == (if i % 2 == 0 then AssistantRole else UserRole)
  }

  /** A successful turn appends one user and one assistant message, so alternation is kept. */
  lemma TurnKeepsAlternation(t: seq<Message>, answer: string, question: string)
    requires Alternating(t)
    ensures Alternating(t + [Message(UserRole, answer), Message(AssistantRole, question)])
  {
    var u := t + [Message(UserRole, answer), Message(AssistantRole, question)];
    forall i | 0 <= i < |u| ensures u[i].role == (if i % 2 == 0 then AssistantRole else UserRole) {
      if i == |t| {
        assert i % 2 == 1;
      } else if i == |t| + 1 {
        assert i % 2 == 0;
      } else {
        assert u[i] == t[i];
      }
    }
  }

  /** A turn that fails after storing the user's message leaves two user messages in a row possible. */
  lemma FailedTurnBreaksAlternation(t: seq<Message>, answer: string, answer2: string, question: string)
    requires Alternating(t)
    ensures !Alternating(t + [Message(UserRole, answer)] + [Message(UserRole, answer2), Message(AssistantRole, question)])
  {
    var u := t + [Message(UserRole, answer)] + [Message(UserRole, answer2), Message(AssistantRole, question)];
    assert u[|t|].role == UserRole && u[|t| + 1].role == UserRole;
  }

  /** How a session tracks its place in the flow: only manual sessions carry a question id. */
  ghost predicate TracksQuestion(s: Session) {
    (s.mode == OpenAI ==> s.currentQuestionId.None?) && (s.mode == Manual ==> s.currentQuestionId.Some?)
  }

  /** The question id of a manual session names a question of the (ready) flow. */
  ghost predicate AtRealQuestion(flow: ManualFlow.Service, s: Session) {
    s.mode == Manual ==>
      && s.currentQuestionId.Some?
      && ManualFlow.IsReady(flow)
      && ManualFlow.FindQuestion(flow.flowConfig.value.questions, s.currentQuestionId.value).Some?
  }

  /**
   * The opening question of a new conversation and the question id it starts at: the engine's
   * first question (with the user's name in it) for a manual conversation, none when the engine
   * fails; the generative service's first question, and no id, for an openai one.
   */
  function Opening(flow: ManualFlow.Service, m: Mode, name: string, assistant: Assistant): (r: Option<(string, Option<int>)>)
    ensures m == OpenAI ==> r == Some((assistant.firstQuestion(name), None))
    ensures m == Manual ==>
      var first := ManualFlow.GetFirstQuestion(flow, name);
      && (r.None? <==> first.Failure?)
      && (r.Some? ==> r.value == (first.value.text, Some(first.value.questionId)))
    ensures r.Some? ==> TracksQuestion(Session(0, Active, m, r.value.1))
  {
    match m
    case OpenAI => Some((assistant.firstQuestion(name), None))
    case Manual =>
      match ManualFlow.GetFirstQuestion(flow, name)
      case Failure(_) => None
      case Success(first) => Some((first.text, Some(first.questionId)))
  }

  /** A manual conversation starts at the flow's start question, which exists. */
  lemma OpeningAtRealQuestion(flow: ManualFlow.Service, userId: nat, name: string, assistant: Assistant)
    requires Opening(flow, Manual, name, assistant).Some?
    ensures Opening(flow, Manual, name, assistant).value.1 == Some(flow.flowConfig.value.startQuestion)
    ensures AtRealQuestion(flow, Session(userId, Active, Manual, Opening(flow, Manual, name, assistant).value.1))
  {
  }

  /**
   * The reply an accepted turn gets. A manual conversation asks the engine with its current
   * question id and the raw message; a missing id, or id 0 (which JavaScript takes for false), and
   * an engine error are 500s. An openai conversation asks the generative service with the
   * transcript before the user's message; it always replies.
   */
  function TurnReply(flow: ManualFlow.Service, s: Session, history: seq<Message>, message: string, assistant: Assistant)
    : (r: Result<Reply, string>)
    ensures s.mode == OpenAI ==>
      r == Success(Reply(assistant.nextQuestion(history, message), assistant.shouldEnd(history), None))
    ensures s.mode == Manual && (s.currentQuestionId.None? || s.currentQuestionId.value == 0) ==>
      r == Failure(MissingQuestionId)
    ensures s.mode == Manual && s.currentQuestionId.Some? && s.currentQuestionId.value != 0 ==>
      var next := ManualFlow.GetNextQuestion(flow, s.currentQuestionId.value, message);
      && (next.Failure? <==> r == Failure(ServerError))
      && (next.Success? ==> r.Success? && r.value.question == next.value.text && r.value.end == next.value.isEnd)
      && (next.Success? ==>
            r.Success? && r.value.nextQuestionId == (if next.value.questionId.Number? then Some(next.value.questionId.n) else None))
  {
    if s.mode == OpenAI then
      Success(Reply(assistant.nextQuestion(history, message), assistant.shouldEnd(history), None))
    else if s.currentQuestionId.None? || s.currentQuestionId.value == 0 then
      Failure(MissingQuestionId)
    else
      match ManualFlow.GetNextQuestion(flow, s.currentQuestionId.value, message)
      case Failure(_) => Failure(ServerError)
      case Success(next) =>
        var nextId := match next.questionId case Number(n) => Some(n) case Text(_) => None;
        Success(Reply(next.text, next.isEnd, nextId))
  }

  /**
   * The session after a reply: a final reply completes it and leaves its question id; any other
   * reply moves a manual session to the next question id when there is one.
   */
  function Advanced(s: Session, reply: Reply): (t: Session)
    ensures t.userId == s.userId && t.mode == s.mode
    ensures t.status == (if reply.end then Completed else s.status)
    ensures t.currentQuestionId ==
      (if !reply.end && s.mode == Manual && reply.nextQuestionId.Some? then reply.nextQuestionId else s.currentQuestionId)
    ensures TracksQuestion(s) ==> TracksQuestion(t)
  {
    if reply.end then s.(status := Completed)
    else if s.mode == Manual && reply.nextQuestionId.Some? then s.(currentQuestionId := reply.nextQuestionId)
    else s
  }

  /** A manual turn reads only the engine: the generative service and the transcript play no part. */
  lemma ManualTurnIgnoresAssistant(flow: ManualFlow.Service, s: Session, h1: seq<Message>, h2: seq<Message>,
                                   message: string, a1: Assistant, a2: Assistant)
    requires s.mode == Manual
    ensures TurnReply(flow, s, h1, message, a1) == TurnReply(flow, s, h2, message, a2)
  {
  }

  /** An openai turn reads only the generative service: the flow plays no part and the question id stays unset. */
  lemma OpenAITurnIgnoresFlow(f1: ManualFlow.Service, f2: ManualFlow.Service, s: Session, history: seq<Message>,
                              message: string, assistant: Assistant)
    requires s.mode == OpenAI
    ensures TurnReply(f1, s, history, message, assistant) == TurnReply(f2, s, history, message, assistant)
    ensures TurnReply(f1, s, history, message, assistant).value.nextQuestionId.None?
  {
  }

  /**
   * At a real question the engine always replies, and a reply that does not end the
   * conversation moves it to another real question.
   */
  lemma AdvancedAtRealQuestion(flow: ManualFlow.Service, s: Session, history: seq<Message>, message: string, assistant: Assistant)
    requires AtRealQuestion(flow, s) && s.currentQuestionId != Some(0)
    ensures s.mode == Manual ==> TurnReply(flow, s, history, message, assistant).Success?
    ensures TurnReply(flow, s, history, message, assistant).Success? ==>
      AtRealQuestion(flow, Advanced(s, TurnReply(flow, s, history, message, assistant).value))
  {
  }

  class Controller {
    /** The flow engine's state, loaded once before any request and never changed. */
    const flow: ManualFlow.Service
    var sessions: map<nat, Session>
    var transcripts: map<nat, seq<Message>>
    /** The next values of the conversation and message autoincrement ids. */
    var nextSessionId: nat
    var nextMessageId: nat

    ghost predicate Valid()
      reads this
    {
      && nextSessionId >= 1
      && nextMessageId >= 1
      && sessions.Keys == transcripts.Keys
      && (forall id :: id in sessions ==> 0 < id < nextSessionId)
      && (forall id :: id in transcripts ==> |transcripts[id]| >= 1 && transcripts[id][0].role == AssistantRole)
      && (forall id :: id in sessions ==> TracksQuestion(sessions[id]))
    }

    constructor (flow: ManualFlow.Service)
      ensures Valid()
      ensures this.flow == flow && sessions == map[] && transcripts == map[]
    {
      this.flow := flow;
      sessions := map[];
      transcripts := map[];
      nextSessionId := 1;
      nextMessageId := 1;
    }

    /**
     * POST /start. After validation and the user lookup, the conversation is created active at
     * its opening question (`Opening`), with a transcript of exactly that one assistant message;
     * without an opening question the handler answers 500 and creates nothing.
     */
    method Start(users: map<nat, Admin.User>, userId: int, mode: Option<string>, assistant: Assistant)
      returns (r: Response<StartData>)
      requires Valid()
      modifies this
      ensures Valid()
      ensures ParseStart(userId, mode).None? ==> r == Fail(400, ValidationFailed) && unchanged(this)
      ensures ParseStart(userId, mode).Some? && userId as nat !in users ==>
        r == Fail(404, UserNotFound) && unchanged(this)
      ensures ParseStart(userId, mode).Some? && userId as nat in users ==>
        var m := ParseStart(userId, mode).value;
        var opening := Opening(flow, m, users[userId as nat].name, assistant);
        && (opening.None? ==> r == Fail(500, ServerError) && unchanged(this))
        && (opening.Some? ==> r.Ok? && r.data.conversationId == old(nextSessionId) && r.data.mode == m)
      ensures r.Ok? ==>
        var m := ParseStart(userId, mode).value;
        var opening := Opening(flow, m, users[userId as nat].name, assistant).value;
        var id := old(nextSessionId);
        && id !in old(sessions)
        && sessions == old(sessions)[id := Session(userId as nat, Active, m, opening.1)]
        && transcripts == old(transcripts)[id := [Message(AssistantRole, opening.0)]]
        && r == Ok(201, StartData(id, opening.0, old(nextMessageId), m))
        && nextSessionId == id + 1 && nextMessageId == old(nextMessageId) + 1
    {
      var m := ParseStart(userId, mode);
      if m.None? {
        return Fail(400, ValidationFailed);
      }
      var uid := userId as nat;
      if uid !in users {
        return Fail(404, UserNotFound);
      }
      var opening := Opening(flow, m.value, users[uid].name, assistant);
      if opening.None? {
        return Fail(500, ServerError);
      }
      r := Create(uid, m.value, opening.value.0, opening.value.1);
    }

    /** `prisma.conversation.create` and the first `prisma.message.create` of POST /start. */
    method Create(userId: nat, m: Mode, question: string, questionId: Option<int>) returns (r: Response<StartData>)
      requires Valid()
      requires TracksQuestion(Session(userId, Active, m, questionId))
      modifies this
      ensures Valid()
      ensures old(nextSessionId) !in old(sessions)
      ensures sessions == old(sessions)[old(nextSessionId) := Session(userId, Active, m, questionId)]
      ensures transcripts == old(transcripts)[old(nextSessionId) := [Message(AssistantRole, question)]]
      ensures r == Ok(201, StartData(old(nextSessionId), question, old(nextMessageId), m))
      ensures nextSessionId == old(nextSessionId) + 1 && nextMessageId == old(nextMessageId) + 1
    {
      var id := nextSessionId;
      sessions := sessions[id := Session(userId, Active, m, questionId)];
      nextSessionId := nextSessionId + 1;
      var messageId := nextMessageId;
      transcripts := transcripts[id := [Message(AssistantRole, question)]];
      nextMessageId := nextMessageId + 1;
      r := Ok(201, StartData(id, question, messageId, m));
    }

    /**
     * POST /message. A valid message to an active conversation is stored first; then the
     * turn's collaborator is asked for a reply (`TurnReply`). A reply is stored as one assistant
     * message, completing the conversation or moving it to the next question (`Advanced`); without
     * one the handler answers 500 and the user's message stays stored.
     */
    method SendMessage(conversationId: int, message: string, assistant: Assistant) returns (r: Response<TurnData>)
      requires Valid()
      modifies this
      ensures Valid()
      // rejected before anything is stored
      ensures !ValidTurnInput(conversationId, message) ==> r == Fail(400, ValidationFailed) && unchanged(this)
      ensures ValidTurnInput(conversationId, message) && conversationId as nat !in old(sessions) ==>
        r == Fail(404, ConversationNotFound) && unchanged(this)
      ensures (&& ValidTurnInput(conversationId, message) && conversationId as nat in old(sessions)
               && old(sessions)[conversationId as nat].status != Active) ==>
        r == Fail(400, NotActive) && unchanged(this)
      // accepted: the user's message is stored whatever follows
      ensures (&& ValidTurnInput(conversationId, message) && conversationId as nat in old(sessions)
               && old(sessions)[conversationId as nat].status == Active) ==>
        var id := conversationId as nat;
        var session := old(sessions)[id];
        var reply := TurnReply(flow, session, old(transcripts)[id], message, assistant);
        && nextSessionId == old(nextSessionId)
        && (reply.Failure? ==>
              && r == Fail(500, reply.error)
              && sessions == old(sessions)
              && transcripts == old(transcripts)[id := old(transcripts)[id] + [Message(UserRole, message)]]
              && nextMessageId == old(nextMessageId) + 1)
        && (reply.Success? ==>
              && r == Ok(200, TurnData(reply.value.question, old(nextMessageId) + 1, reply.value.end))
              && sessions == old(sessions)[id := Advanced(session, reply.value)]
              && transcripts == old(transcripts)[id :=
                   old(transcripts)[id] + [Message(UserRole, message), Message(AssistantRole, reply.value.question)]]
              && nextMessageId == old(nextMessageId) + 2)
    {
      if !ValidTurnInput(conversationId, message) {
        return Fail(400, ValidationFailed);
      }
      var id := conversationId as nat;
      if id !in sessions {
        return Fail(404, ConversationNotFound);
      }
      var session := sessions[id];
      if session.status != Active {
        return Fail(400, NotActive);
      }
      var reply := TurnReply(flow, session, transcripts[id], message, assistant);
      r := Accept(id, message, reply);
    }

    /**
     * The accepted turn of POST /message, from storing the user's message on, given the reply
     * the turn's collaborator gives.
     */
    method Accept(id: nat, message: string, reply: Result<Reply, string>) returns (r: Response<TurnData>)
      requires Valid() && id in sessions
      modifies this
      ensures Valid()
      ensures nextSessionId == old(nextSessionId)
      ensures reply.Failure? ==>
        && r == Fail(500, reply.error)
        && sessions == old(sessions)
        && transcripts == old(transcripts)[id := old(transcripts)[id] + [Message(UserRole, message)]]
        && nextMessageId == old(nextMessageId) + 1
      ensures reply.Success? ==>
        && r == Ok(200, TurnData(reply.value.question, old(nextMessageId) + 1, reply.value.end))
        && sessions == old(sessions)[id := Advanced(old(sessions)[id], reply.value)]
        && transcripts == old(transcripts)[id :=
             old(transcripts)[id] + [Message(UserRole, message), Message(AssistantRole, reply.value.question)]]
        && nextMessageId == old(nextMessageId) + 2
    {
      var history := transcripts[id];
      if reply.Failure? {
        transcripts := transcripts[id := history + [Message(UserRole, message)]];
        nextMessageId := nextMessageId + 1;
        return Fail(500, reply.error);
      }
      sessions := sessions[id := Advanced(sessions[id], reply.value)];
      transcripts := transcripts[id := history + [Message(UserRole, message), Message(AssistantRole, reply.value.question)]];
      r := Ok(200, TurnData(reply.value.question, nextMessageId + 1, reply.value.end));
      nextMessageId := nextMessageId + 2;
    }

    /** GET /:id: the session and its messages, oldest first. */
    method GetConversation(conversationId: int) returns (r: Response<History>)
      requires Valid()
      ensures conversationId in sessions ==>
        r == Ok(200, History(sessions[conversationId], transcripts[conversationId]))
      ensures conversationId !in sessions ==> r == Fail(404, ConversationNotFound)
    {
      if conversationId < 0 || conversationId as nat !in sessions {
        return Fail(404, ConversationNotFound);
      }
      var id := conversationId as nat;
      r := Ok(200, History(sessions[id], transcripts[id]));
    }
  }

}
