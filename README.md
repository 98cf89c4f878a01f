# EASYLEGAL backend core in Dafny

This project models the part of the EASYLEGAL legal-intake backend that decides what a
conversation does next. It has three parts.

- **The scripted flow engine** (`ManualFlowService`, `manual_flow.dfy`). A loaded flow
  definition holds question nodes, a start question and an end marker. Each node lists its
  routes in order.
  - `getFirstQuestion` returns the start node, with the user's name in place of the
    `{userName}` placeholder.
  - `getNextQuestion` lower-cases and trims the answer, then scans the current node's routes.
    A default records its target and the scan goes on. The first `answer_contains` route the
    answer contains wins and stops the scan. With no match the last default decides, and
    with no default the end marker does. The selected id then leads to the closing text, to
    the next node, or, for a dangling reference, to a fallback closing text.
  - `isEndOfFlow` reports whether an id is the end marker.

  The engine is pure functions over a `Service` value: the loaded configuration, if any, plus
  the `initialized` flag. The routing loop is also written as the source's `for` loop with
  `break` (`ScanRoutes`), and that loop is proved equal to the declarative selection
  (`SelectNext`).
- **The conversation controller** (`routes/conversation.ts`, `conversation.dfy`). This is a
  class holding the conversations table (a map from id to session) and each conversation's
  transcript, plus the two autoincrement counters.
  - `Start` models `POST /start`, `SendMessage` models `POST /message` and `GetConversation`
    models `GET /:id`.
  - Each does the source's validation, lookups and early returns.
  - Each stores messages in the source's order: the user's message is stored before the
    reply is computed.
  - The generative service is an uninterpreted `Assistant` value passed to each call.
- **The admin user table** (`routes/admin.ts`, `admin.dfy`). This is a class over a map from id
  to user. It has get, list (newest first), create, update and delete, with the email-uniqueness
  checks of create and update.
  - The table keeps the invariant that emails are unique and lower-case.
  - The schema's transforms are applied: the email is lower-cased and the name is trimmed.

Four supporting files:

- `wrappers.dfy` gives the `Option` and `Result` datatypes.
- `js_string.dfy` gives the JavaScript string built-ins the code relies on: `toLowerCase`,
  `trim`, `includes`, `replace` with a string pattern, and the UTF-16 `length`.
- `http.dfy` gives the status-plus-data shape of the replies.
- `example_flow.dfy` holds a small example flow whose question ids and letter routes follow
  the legal-intake flow the engine's tests use. It has only the single-letter routes (`a` to
  `d` at question 1, `a` and `b` at question 2), not the keyword routes such as `contract`,
  `employment`, `written` or `verbal`. The scenarios proved about it are those of
  `manualFlow.test.ts` lines 40-45, 70-78, 172-178, 182-203, 205-219 and 246-251.

Three behaviours of the code a reader might not expect:

- **Several defaults.** With several defaults and no firing route, the **last** default wins,
  because each default overwrites the recorded target and the scan goes on
  (`manualFlow.ts` lines 117-119).
- **Name substitution.** `question.text.replace('{userName}', userName)` (`manualFlow.ts`
  line 87) is JavaScript `replace` with a string pattern. It replaces only the first
  `{userName}`, and it expands `$$`, `$&`, `` $` `` and `$'` in the name. The model does the
  same; verbatim insertion is proved for names without `$`.
- **Question id 0.** `!conversation.currentQuestionId` (`conversation.ts` line 159) treats
  question id 0 like a missing id. A manual conversation resting on id 0 therefore answers 500
  on every turn.

## Model

| member | source | states |
|---|---|---|
| JsString.LowerChar | packages/backend/src/services/manualFlow.ts:111 | one code point lower-cased: non-letters kept, the result is never an upper-case letter, whitespace stays whitespace |
| JsString.ToLower | packages/backend/src/services/manualFlow.ts:111 | `toLowerCase` keeps the length and lower-cases every code point |
| JsString.ToLowerIdempotent | packages/backend/src/services/manualFlow.ts:111 | lower-casing twice equals lower-casing once |
| JsString.TrimStart | packages/backend/src/services/manualFlow.ts:111 | the result is a suffix of the input that does not start with whitespace, and only whitespace was removed |
| JsString.TrimEnd | packages/backend/src/services/manualFlow.ts:111 | the result is a prefix of the input that does not end with whitespace, and only whitespace was removed |
| JsString.Trim | packages/backend/src/services/manualFlow.ts:111 | `trim` is `trimStart` followed by `trimEnd`; what it leaves is stated by `TrimIsCore` and `TrimPadded` |
| JsString.TrimIsCore | packages/backend/src/services/manualFlow.ts:111 | `trim` returns a slice of its input with no whitespace at either end; an empty result means the input was all whitespace |
| JsString.TrimIdempotent | packages/backend/src/services/manualFlow.ts:111 | trimming twice equals trimming once |
| JsString.TrimPadded | packages/backend/src/services/manualFlow.ts:111 | `trim` of a text padded with whitespace on both sides is exactly that text |
| JsString.ToLowerTrim | packages/backend/src/services/manualFlow.ts:111 | lower-casing and trimming commute |
| JsString.IndexOfFrom | packages/backend/src/services/manualFlow.ts:114 | the index found is an occurrence with none before it from `from` on; none found means no occurrence from `from` on |
| JsString.IndexOf | packages/backend/src/services/manualFlow.ts:87 | `indexOf` finds an occurrence with none before it, and finds nothing exactly when there is no occurrence |
| JsString.IndexOfFirst | packages/backend/src/services/manualFlow.ts:87 | `indexOf` returns exactly the first occurrence |
| JsString.Includes | packages/backend/src/services/manualFlow.ts:114 | `includes` is true exactly when the text occurs at some index |
| JsString.Substitution | packages/backend/src/services/manualFlow.ts:87 | the replacement text of `replace` (GetSubstitution): `$$`, `$&`, `` $` `` and `$'` expanded, every other character copied; `SubstitutionLiteral` states it for `$`-free names |
| JsString.Replace | packages/backend/src/services/manualFlow.ts:87 | `replace` with a string pattern changes only the first occurrence; stated by `ReplaceAbsent`, `ReplaceFirstOccurrence` and `ReplaceIncludesReplacement` |
| JsString.SubstitutionLiteral | packages/backend/src/services/manualFlow.ts:87 | a replacement without `$` is inserted verbatim |
| JsString.ReplaceAbsent | packages/backend/src/services/manualFlow.ts:87 | `replace` with an absent pattern returns the input unchanged |
| JsString.ReplaceFirstOccurrence | packages/backend/src/services/manualFlow.ts:87 | `replace` with a `$`-free replacement swaps only the first occurrence and keeps the rest |
| JsString.ReplaceIncludesReplacement | packages/backend/src/services/manualFlow.ts:87 | after `replace` the text contains the replacement |
| JsString.Utf16Length | packages/backend/src/routes/conversation.ts:17 | the UTF-16 length lies between the number of code points and twice that |
| ManualFlow.QuestionIndexFrom | packages/backend/src/services/manualFlow.ts:80 | the index found holds the id and none before it does; none found means no question holds the id |
| ManualFlow.IsReady | packages/backend/src/services/manualFlow.ts:67-69 | ready exactly when the service is initialized and holds a configuration; `GetFirstQuestion`, `GetNextQuestion` and `IsEndOfFlow` state what follows when it is not |
| ManualFlow.FindQuestion | packages/backend/src/services/manualFlow.ts:103-107 | `find` returns a question of the list with that id, and returns nothing exactly when no question has the id |
| ManualFlow.FindQuestionFirst | packages/backend/src/services/manualFlow.ts:80 | when ids repeat, the first question in document order is found |
| ManualFlow.GetFirstQuestion | packages/backend/src/services/manualFlow.ts:74-93 | "not initialized" unless ready; "start question not found" exactly when no node has the start id; otherwise the start id unchanged |
| ManualFlow.FirstQuestionSubstitutesName | packages/backend/src/services/manualFlow.ts:86-92 | a `$`-free name replaces exactly the first placeholder, the rest of the text is kept, and the result contains the name |
| ManualFlow.FirstQuestionWithoutPlaceholder | packages/backend/src/services/manualFlow.ts:86-92 | a start text without the placeholder is returned verbatim with the start id |
| ManualFlow.Normalize | packages/backend/src/services/manualFlow.ts:111 | the answer as routes see it, lower-cased and then trimmed; `NormalizeIdempotent` and `NextQuestionIgnoresCaseAndPadding` state its properties |
| ManualFlow.NormalizeIdempotent | packages/backend/src/services/manualFlow.ts:111 | normalising a normalised answer changes nothing |
| ManualFlow.Fires | packages/backend/src/services/manualFlow.ts:114 | a route fires exactly when it has a non-empty `answer_contains` whose lower-cased form the normalised answer contains |
| ManualFlow.FirstFiring | packages/backend/src/services/manualFlow.ts:113-116 | the route found fires and none before it fires; none found means no route fires |
| ManualFlow.LastDefault | packages/backend/src/services/manualFlow.ts:117-119 | the route found is a default with no default after it; none found means there is no default |
| ManualFlow.DefaultTarget | packages/backend/src/services/manualFlow.ts:110-119 | with no default, the end marker; otherwise the target of the last default |
| ManualFlow.SelectNext | packages/backend/src/services/manualFlow.ts:110-120 | the first firing route decides even after a default; with none firing, the last default decides; with neither, the end marker |
| ManualFlow.ScanRoutes | packages/backend/src/services/manualFlow.ts:110-120 | the source's loop, with a default recorded and the scan continued and `break` on a match, computes exactly `SelectNext` |
| ManualFlow.Resolve | packages/backend/src/services/manualFlow.ts:122-147 | the end marker gives the closing text with `isEnd`; a dangling id gives the end marker with the fallback text; `isEnd` is false exactly when the returned id names a node, and then the id is the selected one and the text is that node's |
| ManualFlow.GetNextQuestion | packages/backend/src/services/manualFlow.ts:98-148 | "not initialized" unless ready; it fails exactly when the current id is not a node. The end marker gives the closing text with `isEnd`; a node gives its text verbatim with `isEnd` false; a dangling id gives the end marker with the fallback text. `isEnd` is false exactly when the id names a node |
| ManualFlow.NextQuestionIgnoresCaseAndPadding | packages/backend/src/services/manualFlow.ts:111 | the raw answer and its lower-cased, trimmed form get the same result |
| ManualFlow.IsEndOfFlow | packages/backend/src/services/manualFlow.ts:153-158 | false when not ready; otherwise true exactly for the end marker |
| ManualFlow.IsEndOfFlowAgreesWithIsEnd | packages/backend/src/services/manualFlow.ts:122-147 | `isEndOfFlow` of the id `getNextQuestion` returns equals its `isEnd` |
| ManualFlow.ClosingTexts | packages/backend/src/services/manualFlow.ts:126-138 | both closing texts start with "Thank you"; the end-marker text mentions "legal professional"; the two texts differ |
| ExampleFlow.GreetingNamesUser | packages/backend/src/services/manualFlow.test.ts:40-45 | the example greeting for "Jane Smith" is start question 1 with the name in place of the placeholder |
| ExampleFlow.NormalizeCapital | packages/backend/src/services/manualFlow.test.ts:205-207 | `A` normalises to `a` |
| ExampleFlow.NormalizePadded | packages/backend/src/services/manualFlow.test.ts:217-219 | `  A  ` and a tab-and-newline padded `a` normalise to `a` |
| ExampleFlow.LetterFires | packages/backend/src/services/manualFlow.test.ts:70-78 | the first route of question 1 fires for `a` |
| ExampleFlow.LetterRoutes | packages/backend/src/services/manualFlow.test.ts:70-78 | every answer that normalises to `a` goes from question 1 to question 2, not the end |
| ExampleFlow.NoStartRouteFires | packages/backend/src/services/manualFlow.test.ts:172-178 | an answer without the letters a to d fires no route of question 1 |
| ExampleFlow.UnmatchedAnswerTakesDefault | packages/backend/src/services/manualFlow.test.ts:172-178 | an answer that normalises to `xyz qwerty` takes question 1's default to question 11 |
| ExampleFlow.SharedTailIgnoresAnswers | packages/backend/src/services/manualFlow.test.ts:182-203 | for any answer, 12 leads to 13, 13 to 14, and 14 to the end marker with the closing text |
| ExampleFlow.UnknownQuestionFails | packages/backend/src/services/manualFlow.test.ts:246-251 | question 999 is "question not found" |
| Admin.Updated | packages/backend/src/routes/admin.ts:181-185 | the updated user takes each supplied field and keeps every omitted field and the creation time |
| Admin.EmailsUnique | packages/backend/src/routes/admin.ts:98-108 | no two users share an email: the invariant the checks of create and update keep |
| Admin.EmailTaken | packages/backend/src/routes/admin.ts:99-101 | `findUnique` by email finds a user, here: some user in the table has that email |
| Admin.ReplacedKeepsUnique | packages/backend/src/routes/admin.ts:167-185 | giving one user an email no other user has keeps emails unique |
| Admin.InsertNewestFirst | packages/backend/src/routes/admin.ts:20-22 | insertion keeps the list newest first, its multiset of entries is the old one plus the new entry, and ids stay distinct when the new id is fresh |
| Admin.UserTable.GetUser | packages/backend/src/routes/admin.ts:46-65 | 200 with the user when the id is in the table, otherwise 404 "User not found" |
| Admin.UserTable.Valid | packages/backend/src/routes/admin.ts:98-119 | the table invariant: ids below the next autoincrement value, emails unique and lower-case |
| Admin.UserTable.ListUsers | packages/backend/src/routes/admin.ts:18-27 | every user exactly once, ordered by `createdAt` descending |
| Admin.UserTable.CreateUser | packages/backend/src/routes/admin.ts:93-119 | a taken lower-cased email gives 409 and no change. Otherwise exactly one user (lower-cased email, trimmed name) is added under a fresh id and the rest is untouched. Emails stay unique |
| Admin.UserTable.UpdateUser | packages/backend/src/routes/admin.ts:147-191 | no field gives 400 and an unknown id 404, both with no change. A changed email held by another user gives 409 with no change; otherwise only the supplied fields of that user change. Emails stay unique |
| Admin.UserTable.DeleteUser | packages/backend/src/routes/admin.ts:220-245 | an unknown id gives 404 and no change; otherwise exactly that id is removed |
| Conversation.ParseStart | packages/backend/src/routes/conversation.ts:10-13 | accepted exactly for a positive user id and a mode that is absent, `openai` or `manual`; manual exactly when `manual` is given |
| Conversation.BmpMessageAccepted | packages/backend/src/routes/conversation.ts:15-18 | 1 to 5000 characters of the Basic Multilingual Plane pass the message check |
| Conversation.ValidTurnInput | packages/backend/src/routes/conversation.ts:15-18 | `sendMessageSchema`: a positive conversation id and a message of 1 to 5000 UTF-16 code units |
| Conversation.Utf16LengthBmp | packages/backend/src/routes/conversation.ts:17 | without characters above U+FFFF the UTF-16 length is the number of characters |
| Conversation.TurnKeepsAlternation | packages/backend/src/routes/conversation.ts:144-151 | appending one user and one assistant message keeps the transcript alternating, starting with the assistant |
| Conversation.FailedTurnBreaksAlternation | packages/backend/src/routes/conversation.ts:159-164 | after a 500 that stored only the user's message, the next successful turn breaks the alternation |
| Conversation.Opening | packages/backend/src/routes/conversation.ts:41-59 | manual: the engine's first question and its id, none exactly when the engine fails. Openai: the generative first question and no id |
| Conversation.OpeningAtRealQuestion | packages/backend/src/routes/conversation.ts:48-53 | a manual conversation opens at the flow's start question, which names a node |
| Conversation.TurnReply | packages/backend/src/routes/conversation.ts:153-179 | openai: the generative reply on the transcript before the user's message, with no id. Manual with no id or id 0: the missing-id error. Otherwise an engine error is a server error; the engine's text and `isEnd` come back, and a numeric next id is kept while a text one is dropped |
| Conversation.Advanced | packages/backend/src/routes/conversation.ts:181-213 | a final reply completes the session and keeps its question id. Otherwise only a manual session with a numeric next id moves, and the status is kept. User and mode never change |
| Conversation.ManualTurnIgnoresAssistant | packages/backend/src/routes/conversation.ts:157-169 | a manual turn's reply does not depend on the generative service or the transcript |
| Conversation.OpenAITurnIgnoresFlow | packages/backend/src/routes/conversation.ts:170-179 | an openai turn's reply does not depend on the flow and carries no question id |
| Conversation.AdvancedAtRealQuestion | packages/backend/src/routes/conversation.ts:166-213 | at a real node the engine always replies, and a reply that does not end the conversation moves to another real node |
| Conversation.Controller.Start | packages/backend/src/routes/conversation.ts:25-108 | 400 and no change for invalid input; 404 and no change for an unknown user; 500 and no change without an opening. Otherwise 201 and one new active session under a fresh id, whose transcript is exactly the one assistant message returned |
| Conversation.Controller.Create | packages/backend/src/routes/conversation.ts:61-88 | the conversation and its first assistant message are added under fresh ids and nothing else changes |
| Conversation.Controller.SendMessage | packages/backend/src/routes/conversation.ts:115-252 | invalid input 400, unknown conversation 404 and inactive conversation 400, each with no change. Otherwise the user's message is stored. With no reply, 500 and the session is unchanged. With a reply, the session advances, one assistant message is appended and `completed` is the reply's end flag |
| Conversation.Controller.Accept | packages/backend/src/routes/conversation.ts:144-231 | given the reply: the user message alone on failure, or user plus assistant message and the advanced session on success, with the message ids in order |
| Conversation.Controller.GetConversation | packages/backend/src/routes/conversation.ts:258-295 | the session and its transcript for a known id, otherwise 404 "Conversation not found" |

## Left out

- Loading the flow (`initialize`: path search, file reading, YAML parsing) is file I/O and a foreign parser. The model starts from the loaded `FlowConfig` and the `initialized` flag, and the controller holds one fixed flow for its lifetime.
- The generative service (`services/openai.ts`) is network I/O. It is an uninterpreted `Assistant` value of three total functions. The functions are total because the service falls back to fixed texts instead of throwing.
- Database errors and their 500 replies are left out, as are foreign-key effects of deleting a user, timestamps other than a user's `createdAt` (which is a parameter), logging and the `success` flags of the JSON bodies.
- Conversation.Controller.GetConversation takes the id as an integer. `parseInt` and the 400 reply for a non-numeric id are not modelled.
- Conversation.ParseStart and Conversation.ValidTurnInput treat the request body's fields as already typed. A non-integer number, a string user id or `mode: null` are not modelled.
- Admin.UserTable.CreateUser and Admin.UserTable.UpdateUser do not check the email format or the name length (1 to 255 characters). They only apply the schema's transforms (lower-cased email, trimmed name). The 400 for a change with no field is modelled.
- Admin.UserTable.UpdateUser requires a supplied email to be non-empty, because the schema's email format rejects the empty string before the handler runs.
- Admin.UserTable.GetUser, UpdateUser and DeleteUser take the id as a number. The id schema's digit check is not modelled.
- JsString.LowerChar lower-cases only ASCII and Latin-1 letters. `toLowerCase` on other scripts is not modelled.
- ManualFlow.FirstQuestionSubstitutesName states verbatim insertion only for names without `$`. With a `$`, `replace` expands the replacement patterns; `GetFirstQuestion` models that, but no lemma states the result.
- Conversation: there is no controller-wide invariant saying that every manual session sits at a real node. Conversation.AdvancedAtRealQuestion and Conversation.OpeningAtRealQuestion state it per session and per turn instead.
- Concurrent requests on the same conversation are not modelled. Turns are sequential.
- The example flow's question texts are stand-ins, and it lacks the keyword routes (`contract`, `employment`, `written`, `verbal`). Scenarios that rely on them, such as `written` at question 2 or `employment issue here` at question 1, are not proved. The repository's own flow file is not part of this model.
