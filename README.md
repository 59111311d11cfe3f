# CodeBuddy collaboration core, modelled in Dafny

CodeBuddy is a collaborative code editor. People working on a project join a real-time room for that project, chat in it, and can address an AI assistant with an `@ai` prompt. The assistant may answer with files, which every client merges into its local file tree. Edits to that tree are saved back to the project with a one-second debounce.

This project models that core and proves properties of it:

- **Room protocol** (`backend/server.js`), module `RoomServer`:
  - the handshake gate: project-id format, project lookup, token, verification;
  - the room registry as a map from room id to connected sockets;
  - the `project-message` router: the relay to the other peers, the `@ai` directive with its empty-prompt notice, the AI answer to the whole room, and the failure path.
- **AI reply handling** (`backend/services/ai.service.js`), module `AiService`:
  - the lazily built client singleton;
  - reply post-processing: extract and trim, reject a missing or blank text, strip a markdown fence with the `/```json|```/g` pass, then parse.
- **Project service** (`backend/services/project.service.js`), module `ProjectService`:
  - the validations in their order, with their exact error messages;
  - `$addToSet` membership growth;
  - the whole-tree replace of `updateFileTree`, over an abstract document store.
- **Authentication middleware** (`backend/middleware/auth.middleware.js`), module `AuthMiddleware`: token from the cookie or the bearer header, then the revocation list, then verification, with one 401 body on every failure path.
- **Route guard** (`frontend/src/auth/UserAuth.jsx`), module `UserAuthGuard`: loading, redirect to login, or the page.
- **Editor screen** (`frontend/src/screens/Project.jsx`), modules `EditorFiles` and `ProjectScreen`.
  - `EditorFiles` holds the pure pieces: the AI file-tree merge, the mount conversion, the tab list, the language of a file name, and the text a chat message is shown with.
  - `ProjectScreen` holds the component's state machine as a class: edits, the debounce timer, Ctrl+S, unmount, the save request and its status, tabs, `send`, and the receive filter.

Shared modules:
- `Wrappers`: `Option` and `Result`.
- `JsValues`: JSON values with JavaScript truthiness, `typeof … === 'object'`, property access and `===`.
- `Text`: `startsWith`, `endsWith`, `trim`, `replace` with a string pattern, and `split(' ')[1]`.

Calls into code outside the core are parameters of the operations that use them:
- Mongo's `ObjectId.isValid`, `Project.findById` and the document store;
- `jwt.verify`;
- the Redis `get`;
- `JSON.parse` and `JSON.stringify`;
- the Gemini SDK call.

Clocks are explicit arguments (`now`). Timers, HTTP requests, socket emissions and sandbox mounts become fields that the methods set or append to.

## Model

| member | source | states |
|---|---|---|
| Text.Trim | backend/services/ai.service.js:113 | `trim()` leaves no whitespace at either end, never lengthens, and gives '' exactly when the text is all whitespace |
| Text.TrimOfPadded | backend/services/ai.service.js:113 | trimming a body padded with whitespace gives back exactly the body |
| Text.TrimIdempotent | backend/services/ai.service.js:113 | trimming twice is trimming once |
| Text.ReplaceFirstAbsent | backend/server.js:64 | `replace` with a pattern that does not occur returns the string unchanged |
| Text.FirstOccurrenceIsFirst | backend/server.js:64 | the search for a string pattern stops at an occurrence with none before it, and finds none exactly when the pattern does not occur |
| Text.ReplaceFirstAtFirstOccurrence | backend/server.js:64 | `replace` with a string pattern keeps the text before the first occurrence, puts the replacement in its place, and keeps everything after it |
| Text.SecondWord | backend/server.js:23 | `split(' ')[1]` is undefined exactly when there is no space, and never contains a space |
| Text.SecondWordAfterFirstSpace | backend/server.js:23 | with the first space at `i`, `split(' ')[1]` is the text after it up to the next space or the end |
| Text.SecondWordOfSchemeAndCredential | backend/middleware/auth.middleware.js:8 | a `scheme credential` header yields the credential |
| AiService.StripFences | backend/services/ai.service.js:119 | the one-pass removal of "```json" and "```" never lengthens the text |
| AiService.StripFencesLeavesNoFence | backend/services/ai.service.js:119 | after the pass no three consecutive backticks remain |
| AiService.StripFencesOfPlainPrefix | backend/services/ai.service.js:119 | text without backticks passes through the pass untouched |
| AiService.StripFencedText | backend/services/ai.service.js:119 | stripping "```json" + body + "```" leaves the body when it has no backtick |
| AiService.DoubleBacktickSurvives | backend/services/ai.service.js:119 | two backticks match neither marker, so "``" passes through the pass untouched |
| AiService.CleanedRemovesFences | backend/services/ai.service.js:118-120 | a text not opening with "```" is handed on unchanged; a fenced one comes out trimmed and with no three backticks in a row |
| AiService.PostProcess | backend/services/ai.service.js:113-128 | a missing or blank text fails with "No response text" (iff); success returns exactly the parse of the cleaned trimmed text; a failed parse gives the distinct invalid-JSON error |
| AiService.BlankReplyIsNeverParsed | backend/services/ai.service.js:115 | a missing or blank reply is rejected whatever the parser would say |
| AiService.JsonFenceTestIsRedundant | backend/services/ai.service.js:118 | the `startsWith('```json')` test is subsumed by the `startsWith('```')` test |
| AiService.UnfencedReplyParsedAsTrimmed | backend/services/ai.service.js:118-124 | a reply not opening with a fence reaches the parser exactly as trimmed |
| AiService.NonBlankReply | backend/services/ai.service.js:115-128 | a non-blank reply is decided by the parse of its cleaned form alone |
| AiService.CleanedFencedText | backend/services/ai.service.js:118-120 | cleaning a fenced reply yields the trimmed body |
| AiService.CleanedPlainText | backend/services/ai.service.js:118 | a trimmed reply without backticks is not altered by cleaning |
| AiService.FencedReplyParsesLikeBody | backend/services/ai.service.js:118-124 | a body wrapped in "```json … ```" is handled exactly as the bare body |
| AiService.PaddedReplyParsesLikeBody | backend/services/ai.service.js:113 | surrounding whitespace does not change how a reply is handled |
| AiService.ReplyDecidedByTrim | backend/services/ai.service.js:113-128 | two replies with the same trimmed text are handled identically |
| AiService.FencedExampleReply | backend/services/ai.service.js:113-124 | the fenced reply "```json\n{"text":"hi"}\n```" is handled as `{"text":"hi"}` |
| AiService.GeminiService.constructor | backend/services/ai.service.js:5 | no client exists before the first call |
| AiService.GeminiService.GenerateContent | backend/services/ai.service.js:7-128 | the client is built at most once and reused; a failed build leaves it unset and fails the call; the result is the model call's error or the post-processing of its text; exactly the unparsable cleaned text is logged |
| RoomServer.HandshakeToken | backend/server.js:23 | a non-empty `auth.token` wins; otherwise the second word of the Authorization header, or none |
| RoomServer.BearerHeaderSuppliesToken | backend/server.js:23 | with no handshake token, a "Bearer x" header supplies x |
| RoomServer.Gate | backend/server.js:20-46 | a missing or malformed id is rejected first; admission iff the id is valid, the lookup did not throw, a token is present, verification succeeds and the payload is truthy; the admission carries the decoded payload and the project found, or none |
| RoomServer.InvalidIdRejectedBeforeToken | backend/server.js:26-29 | a malformed id gives 'Invalid Project ID' whatever the store, the token or the verifier |
| RoomServer.MissingTokenRejected | backend/server.js:31-33 | with a valid id and a lookup that did not throw, no token means 'Authentication error' |
| RoomServer.FalsyPayloadRejected | backend/server.js:35-38 | a verification that yields a falsy payload gives 'Authentication error' |
| RoomServer.GatePassesCalleeErrors | backend/server.js:29-45 | a throwing project lookup, or a throwing `jwt.verify` on a present token, rejects the handshake with that callee's own error |
| RoomServer.MessageText | backend/server.js:59-60 | the message text exists exactly when `data.message` is a string, and then it is that string |
| RoomServer.AiPayload | backend/server.js:71-77 | the AI answer has exactly the keys `message`, carrying the response, and `sender`, which is `{_id:'ai', email:'AI'}` |
| RoomServer.RouteMessage | backend/server.js:55-85 | the first emission is always the relay of the unchanged payload to every other member |
| RoomServer.PlainMessageOnlyRelayed | backend/server.js:55-62 | a message that is not an "@ai" directive, or not a string, gives exactly the relay to the other members, leaves the payload as it was and calls no AI; the outcome is `NotAString` iff the message is not a string |
| RoomServer.PromptDropsDirective | backend/server.js:64 | the prompt is the message without its leading "@ai", untrimmed |
| RoomServer.EmptyPromptOnlyForBareDirective | backend/server.js:64-68 | the prompt is empty exactly for the message "@ai" |
| RoomServer.AiCalledOnlyForDirective | backend/server.js:59-70 | the AI is called iff the message is a string starting with "@ai" that is not just "@ai", and then with the rest of the message |
| RoomServer.EmptyPromptNotice | backend/server.js:62-68 | the empty-prompt path is taken iff the message is exactly "@ai"; then the relay and the payload rewritten with the notice go to the other members, and no AI call is made |
| RoomServer.AiAnswerReachesRoom | backend/server.js:62-77 | an AI answer is sent iff the message is a string opening with "@ai", other than "@ai", whose rest the model answers; then the relay goes to the others and the answer, carried by the AI payload, to the whole room |
| RoomServer.SenderExcludedExceptFromAiAnswer | backend/server.js:57-77 | every emission is a `project-message` to the other members, except the AI answer, which reaches the whole room |
| RoomServer.FailureSendsOnlyTheRelay | backend/server.js:59-82 | the outcome is an AI failure exactly when the message is "@ai" plus a non-empty prompt and the model call on that prompt fails; then only the relay is sent, the prompt is the text after "@ai", and the payload's message becomes the busy text without being emitted |
| RoomServer.ReceivedDistributes | backend/server.js:57 | what a socket receives from consecutive emissions is the concatenation, in order |
| RoomServer.HelloScenario | backend/server.js:57 | in a room of A and B, A's "hello" reaches B once and A not at all, with no AI call |
| RoomServer.AiAnswerScenario | backend/server.js:57-77 | a successful directive from A gives A the answer, and B the relay then the answer |
| RoomServer.SocketServer.constructor | backend/server.js:11-16 | the server starts with no rooms, sessions or emissions |
| RoomServer.SocketServer.Connect | backend/server.js:20-53 | rejected iff the gate fails, with the gate's error; the handler throws iff the gate admits with no project, and then nothing is joined; an admission with a project joins that project's room and nothing else changes; rooms stay the non-empty groupings of sessions |
| RoomServer.SocketServer.Disconnect | backend/server.js:88-91 | the socket leaves its room, an emptied room disappears, and every other room is unchanged |
| RoomServer.SocketServer.OnProjectMessage | backend/server.js:55-85 | the outbox, the prompts sent to the AI and the error log grow exactly by what the route of the message prescribes; rooms and sessions do not change |
| ProjectService.AddToSet | backend/services/project.service.js:73-77 | `$addToSet/$each` keeps the old elements in front, holds exactly the union, and adds no duplicate |
| ProjectService.AddToSetOfPresent | backend/services/project.service.js:73-77 | adding elements already present changes nothing |
| ProjectService.AddToSetIdempotent | backend/services/project.service.js:70-90 | adding the same users twice is adding them once |
| ProjectService.AddUserChecks | backend/services/project.service.js:41-60 | each error is reported iff its check is the first to fail, in the source's order |
| ProjectService.ProjectIdChecks | backend/services/project.service.js:96-101 | 'Project ID is required' iff the id is empty; then 'It should be a valid project ID' iff it is malformed |
| ProjectService.Populate | backend/services/project.service.js:103-105 | the populated members are exactly the records of member ids that exist |
| ProjectService.ProjectStore.CreateProject | backend/services/project.service.js:5-27 | the name is checked before the user; the new project has the creator as only member; the creator's record gains the id; nothing changes on an error |
| ProjectService.ProjectStore.GetAllProjectsByUserId | backend/services/project.service.js:29-38 | fails with 'UserId is Required' iff the id is empty; otherwise exactly the projects whose members include the user |
| ProjectService.ProjectStore.AddUserToProject | backend/services/project.service.js:40-93 | succeeds iff every check passes and the caller is a member of an existing project; otherwise the first failing check or the authorisation error is reported; on success the members grow by `$addToSet` and every listed user gains the project once; nothing changes on an error |
| ProjectService.ProjectStore.GetProjectById | backend/services/project.service.js:95-107 | id errors as checked; `null` iff no such project; otherwise the project with populated members |
| ProjectService.ProjectStore.UpdateFileTree | backend/services/project.service.js:109-130 | succeeds iff the id passes its checks and the tree is truthy and of type object; the errors come in that order; an existing project's tree is replaced wholesale and nothing else changes |
| AuthMiddleware.RequestToken | backend/middleware/auth.middleware.js:8 | a truthy cookie wins; with a falsy cookie the token is the second word of the Authorization header, and with no header the `split` throws (iff) |
| AuthMiddleware.BearerHeaderSuppliesRequestToken | backend/middleware/auth.middleware.js:8 | with a falsy cookie, a "Bearer x" header supplies x |
| AuthMiddleware.Authenticate | backend/middleware/auth.middleware.js:5-27 | proceed iff a token exists, it is not revoked, the store read did not fail and verification succeeds, with `req.user` the decoded payload; the cookie is cleared iff the token is revoked |
| AuthMiddleware.NoTokenSourceRejected | backend/middleware/auth.middleware.js:8-11 | no cookie and no header means 401 |
| AuthMiddleware.RevokedTokenRejected | backend/middleware/auth.middleware.js:13-17 | a revoked token is rejected and its cookie cleared, whatever verification would say |
| AuthMiddleware.LoggedOutTokenRejected | backend/controllers/user.controller.js:69 | after logout stores the token as 'logout', the same request is rejected and its cookie cleared |
| AuthMiddleware.CookieTakesPrecedence | backend/middleware/auth.middleware.js:8 | with a truthy cookie the Authorization header has no influence |
| AuthMiddleware.Exchange.AuthUser | backend/middleware/auth.middleware.js:5-27 | either `req.user` is set and `next` runs, or 401 with `{error:'Unauthorised User'}` is sent, clearing the cookie for a revoked token |
| UserAuthGuard.Guard | frontend/src/auth/UserAuth.jsx:5-19 | the page iff a user is present; loading iff a token is stored and no user; otherwise a replacing redirect to /login carrying the location |
| UserAuthGuard.GuardDependsOnPresenceOnly | frontend/src/auth/UserAuth.jsx:10-18 | the outcome depends only on whether a token and a user are present |
| UserAuthGuard.GuardCases | frontend/src/auth/UserAuth.jsx:10-18 | the four combinations of token and user map onto the three outcomes |
| EditorFiles.DeltaContent | frontend/src/screens/Project.jsx:142 | a delta entry contributes its truthy `file.contents`, else '' |
| EditorFiles.MergeAiDelta | frontend/src/screens/Project.jsx:135-147 | the merged keys are the old keys plus the delta's; each delta key maps to its contents or ''; every other key keeps its entry |
| EditorFiles.MergeIdempotent | frontend/src/screens/Project.jsx:135-147 | merging the same delta twice equals merging it once |
| EditorFiles.MergeKeepsFiles | frontend/src/screens/Project.jsx:137-145 | a merge never drops a file |
| EditorFiles.ToMountable | frontend/src/screens/Project.jsx:280-287 | the mountable snapshot has the tree's key set |
| EditorFiles.MountableFiles | frontend/src/screens/Project.jsx:280-287 | the accumulating `reduce` builds exactly the mountable snapshot |
| EditorFiles.MountRoundTrip | frontend/src/screens/Project.jsx:280-287 | reading a snapshot back with the merge's mapping gives the tree with every falsy content as '' |
| EditorFiles.MountEntryReadBack | frontend/src/screens/Project.jsx:280-287 | the merge reads one mounted entry back as its content, a falsy content as '' |
| EditorFiles.MountRoundTripExact | frontend/src/screens/Project.jsx:283 | the round trip recovers the tree iff every content is truthy or '' |
| EditorFiles.NormalizedFixesNormalTrees | frontend/src/screens/Project.jsx:283 | replacing falsy contents by '' changes the tree iff some content is neither truthy nor '' |
| EditorFiles.OpenTab | frontend/src/screens/Project.jsx:659 | the file is open afterwards; an open file changes nothing; a new one is appended; no duplicate arises |
| EditorFiles.CloseTab | frontend/src/screens/Project.jsx:825 | the file is no longer open, every other tab stays, and a first tab other than the file stays first |
| EditorFiles.CloseTabOfConcat | frontend/src/screens/Project.jsx:825 | `filter` works run by run: closing in a concatenation is the concatenation of the closings, so the remaining tabs keep their order |
| EditorFiles.CloseTabOfOne | frontend/src/screens/Project.jsx:825 | a single tab is kept exactly when it is not the closed file |
| EditorFiles.CloseTabKeepsNoDuplicates | frontend/src/screens/Project.jsx:825 | closing a tab keeps the list free of duplicates |
| EditorFiles.CloseAbsentTab | frontend/src/screens/Project.jsx:825 | closing a file that is not open changes nothing |
| EditorFiles.CloseTabAppend | frontend/src/screens/Project.jsx:825 | closing a file removes the copy appended at the end along with the others |
| EditorFiles.OpenThenClose | frontend/src/screens/Project.jsx:659 | opening a new file and closing it restores the list |
| EditorFiles.CurrentAfterClose | frontend/src/screens/Project.jsx:826-828 | closing the current file selects the first remaining tab, or none iff none remain; another current file stays |
| EditorFiles.LanguageIsFirstMatch | frontend/src/screens/Project.jsx:99-111 | the chain of tests is the suffix table read in order, with 'plaintext' last |
| EditorFiles.LanguageTailIsFirstMatch | frontend/src/screens/Project.jsx:104-110 | the last five tests of the chain are the table read from its `.scss` entry |
| EditorFiles.TableIsExtensions | frontend/src/screens/Project.jsx:99-109 | every listed suffix is a dot followed by dot-free text, and no two are the same |
| EditorFiles.ExtensionSuffixIsEqual | frontend/src/screens/Project.jsx:99-109 | one such suffix ends another only if they are equal, so at most one listed suffix matches a name |
| EditorFiles.LanguageOfListedSuffix | frontend/src/screens/Project.jsx:99-111 | a name ending with a listed suffix gets that suffix's language |
| EditorFiles.UnlistedIsPlaintext | frontend/src/screens/Project.jsx:110 | a name with no listed suffix is 'plaintext' |
| EditorFiles.LanguageExamples | frontend/src/screens/Project.jsx:99-111 | 'package.json' is 'json' and 'App.tsx' is 'typescript' |
| EditorFiles.LanguageOf | frontend/src/screens/Project.jsx:99-111 | every file name gets one of the eleven editor languages |
| EditorFiles.ExtractMessage | frontend/src/screens/Project.jsx:255-270 | it throws iff the sender is missing or null, or an AI message is null; an AI object with a truthy `text` shows that text; an AI string shows the parsed `text` when it is truthy, else the string itself; anyone else's string is shown as it is; any other message is shown as its `JSON.stringify` form |
| EditorFiles.AiStringMessageShowsParsedText | frontend/src/screens/Project.jsx:260-264 | an AI message whose string parses to a value with a truthy `text` shows that text |
| ProjectScreen.Receive | frontend/src/screens/Project.jsx:126-151 | dropped when reading the sender, the user or `message.FileTree` throws; ignored iff the sender's email equals the user's; any other message is appended with type 'incoming' and the arrival time, except a null AI message, which is dropped; it carries a delta iff the sender is the AI, the message is an object and its `FileTree` is truthy |
| ProjectScreen.OwnMessageIgnored | frontend/src/screens/Project.jsx:120-150 | the echo of a message the user sent is ignored by the user's own screen |
| ProjectScreen.Outgoing | frontend/src/screens/Project.jsx:120 | the sent message carries the given text (the trimmed input, in `send`), the user as sender, type 'outgoing' and the send time |
| ProjectScreen.OnlyAiMessagesCarryFiles | frontend/src/screens/Project.jsx:127-131 | a message from anyone but the AI never changes the tree |
| ProjectScreen.AiFileTreeReplyIsMerged | frontend/src/screens/Project.jsx:127-147 | an AI reply `{text, FileTree}` from the room is appended and its tree merged |
| ProjectScreen.EditorText | frontend/src/screens/Project.jsx:886-890 | no editor iff there is no current file; otherwise the file's content when it is truthy, and '' when it is falsy or the file is missing |
| ProjectScreen.ProjectScreen.constructor | frontend/src/screens/Project.jsx:20-32 | a loaded screen starts with no file, tabs, messages, timer or save |
| ProjectScreen.ProjectScreen.SaveFileTree | frontend/src/screens/Project.jsx:166-189 | a request iff the project is known and the tree non-empty; then the indicator is on and one request carries the whole tree |
| ProjectScreen.ProjectScreen.FinishSave | frontend/src/screens/Project.jsx:182-188 | the indicator turns off on every path; the last-saved time changes only on success |
| ProjectScreen.ProjectScreen.HandleFileChange | frontend/src/screens/Project.jsx:200-212 | with no current file nothing changes; otherwise only the current entry is replaced and the timer is re-armed with the new tree |
| ProjectScreen.ProjectScreen.FireSaveTimer | frontend/src/screens/Project.jsx:195-197 | the timer disarms and saves the tree it was armed with; a request turns the indicator on and counts one more request in flight, otherwise both stay as they were |
| ProjectScreen.ProjectScreen.CtrlS | frontend/src/screens/Project.jsx:344-350 | the timer is cancelled and the current tree saved at once; a request turns the indicator on and counts one more request in flight, otherwise both stay as they were |
| ProjectScreen.ProjectScreen.Unmount | frontend/src/screens/Project.jsx:334-336 | the pending timer is cleared and nothing else changes |
| ProjectScreen.ProjectScreen.OpenFile | frontend/src/screens/Project.jsx:657-659 | the file becomes current and is opened once |
| ProjectScreen.ProjectScreen.SelectTab | frontend/src/screens/Project.jsx:817 | the tab becomes current |
| ProjectScreen.ProjectScreen.CloseFile | frontend/src/screens/Project.jsx:824-829 | the tab closes and the current file follows `CurrentAfterClose` |
| ProjectScreen.ProjectScreen.EditDraft | frontend/src/screens/Project.jsx:594 | the chat input holds the typed text |
| ProjectScreen.ProjectScreen.Send | frontend/src/screens/Project.jsx:118-124 | a message is sent iff a user is present and the trimmed input is non-empty; the same outgoing message is appended to the history and emitted, and the input is cleared |
| ProjectScreen.ProjectScreen.OnSocketMessage | frontend/src/screens/Project.jsx:242-246 | the receipt is `Receive` of the message; only an incoming message is appended, and only its delta changes the tree |
| ProjectScreen.ProjectScreen.MountFiles | frontend/src/screens/Project.jsx:272-298 | the snapshot is mounted iff the sandbox is ready and the tree non-empty |
| ProjectScreen.EditsCoalesceIntoOneSave | frontend/src/screens/Project.jsx:191-198 | two edits and the timer give exactly one save request, carrying the last edit |
| ProjectScreen.CtrlSFlushesPendingEdit | frontend/src/screens/Project.jsx:344-350 | Ctrl+S after an edit saves the edited tree at once and leaves no timer |

The `Valid()` invariants of the classes are kept by every method:
- rooms are the non-empty groupings of the sessions by room id;
- the AI client is built at most once;
- tabs are distinct files of the tree, and the current file is one of the tree's;
- a pending save holds a non-empty tree;
- the save indicator is on only while a request is in flight.

## Where the code and its design differ

The model follows the code in each case below.

- `RoomServer.Gate`: a failure of the project lookup or of `jwt.verify` reaches the client with the callee's own error, not 'Authentication error'.
- `RoomServer.Gate` does not check that the user is a member of the project.
- A well-formed id of a project that does not exist passes the gate. The connection handler then reads `_id` of `null` (backend/server.js:50) and the socket joins no room; this is `HandlerThrew` in `RoomServer.SocketServer.Connect`.
- The prompt sent to the AI is the message with "@ai" removed, not trimmed. Only the bare message "@ai" produces the empty-prompt notice.
- On an AI failure the text 'Server Busy, please try again later.' is written into the payload and never emitted.
- A payload whose `message` is not a string has been relayed before `startsWith` throws (`NotAString`).
- Merging an AI file tree on the client does not schedule a save: persistence follows only a later edit or Ctrl+S.

## Left out

- Asynchrony and interleaving are not modelled. Each handler step, AI call, store access and save request is one atomic step. The lazy client build could race between two concurrent first calls.
- Numbers are unbounded integers: floating point is not modelled.
- The gate's Mongo cast errors and the store itself are not modelled: the store is an oracle, or one map per collection.
- The prompt template, the Gemini SDK request and the credential decoding are not modelled. They are a `ModelCall` and a `connect` result.
- backend/models/project.model.js is not part of this model. `ProjectService.ProjectStore.CreateProject` assumes the new project's stored tree is `{}`.
- `ProjectService.ProjectStore.CreateProject` takes the store's new id as a parameter that must be unused.
- `ProjectService.ProjectStore.GetAllProjectsByUserId`: returns the matching projects as a map keyed by id, not the array `Project.find` yields, so the order of the result is not modelled.
- `ProjectService.ProjectStore.AddUserToProject`: `users` is a list of ids or absent, so the `!Array.isArray(users)` branch never fires.
- `EditorFiles.MergeAiDelta`: a `FileTree` that is an array or a string would contribute index keys. Here it contributes none.
- `ProjectScreen.ProjectScreen.FireSaveTimer` reads the project id when the timer fires. The source's callback captures `saveFileTree` when it is armed, which reads the same id only as long as the project is not reloaded meanwhile.
- `ProjectScreen.ProjectScreen.OpenFile` requires a file of the tree, since only the tree's keys are listed.
- `ProjectScreen.ProjectScreen.SelectTab` and `ProjectScreen.ProjectScreen.CloseFile` require an open tab, since only those are shown.
- `ProjectScreen.ProjectScreen.constructor` starts from a loaded project. The initial `GET /projects/:id`, the user list and `addCollaborators` are left out as request wiring.
- `RoomServer.SocketServer.Connect` requires a fresh socket id: socket.io never reuses one.
- The auto-join of every socket to a room of its own id, and the `event` listener, are not modelled.
- backend/server.js:18 calls the server instance as if it were a client constructor. Module loading and listening are not modelled.
- JSX rendering, layout, the responsive and resize handlers, `formatTimestamp`, the WebContainer boot and `runCode` are UI, DOM, float or foreign-sandbox concerns.
- `EditorFiles.ExtractMessage`: `JSON.parse` and `JSON.stringify` are oracles.
- Uncaught exceptions are not modelled beyond the outcome. The handler's read of `_id` of `null` (backend/server.js:50, `HandlerThrew`) and the `startsWith` of a non-string (backend/server.js:60, `NotAString`, inside an async listener) are thrown outside any `try`. Either may end the Node process; the model only records the outcome and leaves the other state as it was.
- Sending through the socket is an appended entry of `sent` (`ProjectScreen.ProjectScreen.Post`); the socket client itself is not modelled.
