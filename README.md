# CosmicLearn core, modelled in Dafny

CosmicLearn is a demo learning dashboard: an Express server with an in-memory
record store and an adapter to a language-model completion API, and a React
client. This project models the parts of it that follow rules:

- **`MemStorage`** (`storage.dfy`, module `Storage`): a class with an id counter
  and seven insertion-ordered maps (`id_map.dfy`, module `IdMaps`, models a
  JavaScript `Map<number, V>`). `createUser` hands out the counter's value and
  bumps it. `getUserByUsername` returns the first match in insertion order, and
  the `getAll*` listers return the maps' values.
- **The route decisions** (`routes.dfy`, module `Routes`): login (200/401),
  register (400/400/201; the only handler that changes the store), user lookup
  through `parseInt` (200/404), the assistant route's input check and its
  always-200 apology, and the 200/500 mapping of the seven JSON AI routes.
  Status codes mean what section 15 of RFC 9110 says.
- **The completion adapter** (`openai.dfy`, module `OpenAiService`):
  `safeJsonParse`, the `content || "{}"` handling of the JSON features, the
  placeholder-key check, and `answerQuestion`. When no usable key is set,
  `answerQuestion` lower-cases the question and picks a canned paragraph by
  substring match over three keyword lists, in priority order. It never throws.
- **The chat panel** (`ai_assistant.dfy`, module `ChatAssistant`): class
  `AiAssistant`, with the transcript, input box, loading flags and error line.
  It has the mount effect, send, Ctrl/Cmd+Enter, retry and "Clear chat", plus the
  numbering invariant "each id is the message's 1-based position".
- **The session context** (`user_context.dfy`, module `UserContext`): class
  `UserProvider` with its nullable `user` cell, `isAuthenticated`, `logout` and
  `setRole`.
- **The login form** (`login_form.dfy`, module `Login`): the length-only schema,
  and `onSubmit`, which signs anyone in with a demo profile for the chosen role.
- **The plagiarism badge** (`papers_to_review.dfy`, module `PapersToReview`): the
  three-way threshold classifier.

`js_text.dfy` (module `JsText`) holds the JavaScript string built-ins these rely
on: `trim`, `toLowerCase`, `includes` and `parseInt` with no radix.
`wrappers.dfy` holds `Option` and `Result`.

Awaited calls are given as parameters:
- a completion request is a `Completion`: content, possibly `null`, or a thrown error;
- `JSON.parse` is an arrow `string -> Option<Json>`, where `None` means it threw;
- the client's `askAIAssistant` result is an `AskOutcome`;
- `onSuccess` throwing is a flag;
- the clock is a `now` parameter.

Each handler runs as one sequential step.

## Model

| member | source | states |
|---|---|---|
| IdMaps.Empty | server/services/storage.ts:46-52 | `new Map()` holds no key and meets the map invariant |
| IdMaps.Get | server/services/storage.ts:58 | `Map.get` yields a value iff the key is present, and then the value stored under it |
| IdMaps.Set | server/services/storage.ts:74 | `Map.set` stores the value under the key; a new key goes to the end of the insertion order, an existing one keeps its place |
| IdMaps.Values | server/services/storage.ts:62 | `values()` lists one value per key, in the keys' insertion order |
| IdMaps.GetAfterSet | server/services/storage.ts:57-59 | `Map.get` after `Map.set` reads the new value under that key, and every other key reads as before |
| IdMaps.ValuesAfterSetFresh | server/services/storage.ts:62 | setting a fresh key appends its value to `values()`, keeping earlier values in insertion order |
| Storage.FindByUsername | server/services/storage.ts:61-65 | `find` by username yields nothing iff no user has that name; otherwise it yields the earliest user with it |
| Storage.FindAfterAppend | server/services/storage.ts:61-65 | appending a user never changes what an existing username finds; it makes the new user findable only when the name was free |
| Storage.StoreUserKeepsValid | server/services/storage.ts:67-74 | storing a user under the counter's value: that id was free, ids stay unique, in range and in insertion order, and the user is listed last |
| Storage.MemStorage.constructor | server/services/storage.ts:45-54 | a fresh store has counter 1 and every map empty, so every listing is empty |
| Storage.MemStorage.GetUser | server/services/storage.ts:57-59 | returns the user stored under the id, whose own id is that id, and nothing when none is stored |
| Storage.MemStorage.GetUserByUsername | server/services/storage.ts:61-65 | the loop over the values in insertion order returns exactly the first match (`FindByUsername`) |
| Storage.MemStorage.CreateUser | server/services/storage.ts:67-76 | the new user carries the old counter as id and every inserted field unchanged; the counter rises by 1; the id was free; the user is appended to the values; the other six maps are untouched; there is no uniqueness check; the store invariant is kept |
| Storage.MemStorage.GetAllSubjects | server/services/storage.ts:79-81 | returns the subjects in insertion order |
| Storage.MemStorage.GetAllLectures | server/services/storage.ts:84-86 | returns the lectures in insertion order |
| Storage.MemStorage.GetAllAssignments | server/services/storage.ts:89-91 | returns the assignments in insertion order |
| Storage.MemStorage.GetAllSubmissions | server/services/storage.ts:94-96 | returns the submissions in insertion order |
| Storage.MemStorage.GetAllDocuments | server/services/storage.ts:99-101 | returns the documents in insertion order |
| Storage.MemStorage.GetAllStudentProgress | server/services/storage.ts:104-106 | returns the progress records in insertion order |
| Storage.CreateTwice | server/services/storage.ts:67-75 | two successive creations get strictly increasing, consecutive ids, and both users remain stored |
| Storage.CreateThenGet | server/services/storage.ts:57-74 | `getUser` on a created user's id returns that user; every previously stored user keeps its record |
| Storage.ListingsOfFreshStore | server/services/storage.ts:79-106 | on a fresh store all six `getAll*` listings are empty |
| Routes.Redact | server/services/routes.ts:30 | the user sent out keeps every field except the password, which the type cannot hold |
| Routes.LookupUsername | server/services/routes.ts:24 | a field that is not a string finds nothing; a found user has exactly that username and is stored; nothing found means no stored user has it |
| Routes.Login | server/services/routes.ts:21-34 | 200 iff the username is a string whose first stored user has exactly this password, and then the body is that first user redacted; otherwise 401 with the one "Invalid credentials" body |
| Routes.LoginIffStoredCredentials | server/services/routes.ts:24-28 | with unique usernames, login succeeds iff some stored user has exactly this username and password |
| Routes.Lookup | server/services/routes.ts:56-69 | 404 "User not found" iff `parseInt` gives `NaN` or no user has the parsed id; otherwise 200 with that user redacted |
| Routes.LookupDecimalId | server/services/routes.ts:58-63 | an id written in decimal, even followed by non-digits, gets 200 iff a user is stored under that number, and then the body is that user redacted |
| Routes.LookupNonNumeric | server/services/routes.ts:58-62 | an id with no decimal digit is `NaN` and always gets 404 |
| Routes.ValidQuestion | server/services/routes.ts:150 | a missing, non-string or empty question is rejected; any non-empty string passes |
| Routes.AssistantRoute | server/services/routes.ts:146-168 | 400 with the fixed message iff the question is missing, empty or not a string; otherwise 200 with the service's answer, or the fixed apology when the service threw |
| Routes.AssistantRouteNeverApologises | server/services/routes.ts:156-160 | wired to `answerQuestion`, a valid question always gets the service's own answer, never the apology |
| Routes.FailureMessage | server/services/routes.ts:142-269 | each JSON AI route's own 500 message, each of the form "Failed to …" (lines 142, 183, 200, 217, 234, 252 and 269) |
| Routes.AiRoute | server/services/routes.ts:131-144 | a JSON AI route answers 200 with the service's JSON verbatim iff the service succeeded, else 500 with the route's message and the error text (the same shape at lines 170-271) |
| Routes.AiRouteUnparsableReply | server/services/routes.ts:137-139 | a model reply that is not JSON reaches the client as `{}` with status 200 |
| Routes.Register | server/services/routes.ts:36-53 | 400 "Invalid data" on a rejected body and 400 "Username already exists" on a taken name, both with the store unchanged; otherwise the user is created and 201 carries it redacted; the other six maps are untouched; unique usernames stay unique |
| Routes.RegisterTwice | server/services/routes.ts:39-46 | registering the same body twice: the second gets 400 "Username already exists"; if the first gave 201, its account stays stored with its password |
| OpenAiService.SafeJsonParse | server/services/openai.ts:15-23 | `{}` for missing or empty text and for text the parser rejects; non-empty text the parser accepts yields exactly what the parser produced |
| OpenAiService.OrElse | server/services/openai.ts:42 | the logical-or fallback keeps non-empty content and replaces `null` or `""` with the fallback |
| OpenAiService.JsonFeature | server/services/openai.ts:42-47 | fails iff the request failed, with its error; content that parses (with `"{}"` substituted for missing or empty content) is returned as parsed; anything else is `{}` |
| OpenAiService.JsonFeatureEmptyObject | server/services/openai.ts:42-43 | missing, empty or unparsable content all yield `{}` as a success |
| OpenAiService.UsesFallback | server/services/openai.ts:52 | the placeholder key "181005" counts as no key; any other non-empty key is used |
| OpenAiService.MentionsAny | server/services/openai.ts:64-68 | an empty keyword list matches nothing; a list holding "" matches every text, as `includes("")` does |
| OpenAiService.Classify | server/services/openai.ts:62-69 | science iff the lower-cased question includes a science keyword; math iff it includes no science keyword and some math keyword; literature iff neither of those and some literature keyword |
| OpenAiService.FallbackAnswer | server/services/openai.ts:64-72 | the paragraph is the science, math, literature or general one exactly when that is the detected topic |
| OpenAiService.AnswersDistinct | server/services/openai.ts:65-71 | the four canned paragraphs differ from one another |
| OpenAiService.AnswerQuestion | server/services/openai.ts:50-103 | never fails; without a usable key (missing, empty or "181005") it gives the keyword fallback; otherwise the non-empty content, the "couldn't process" text for empty content, or the connection apology for a failed request |
| OpenAiService.FallbackIgnoresCompletion | server/services/openai.ts:52-75 | without a usable key the answer does not depend on the API at all |
| OpenAiService.ModelAnswerShape | server/services/openai.ts:92-101 | with a usable key the answer is the model's non-empty content or one of the two fixed texts |
| OpenAiService.ClassifyIgnoresCase | server/services/openai.ts:62-64 | upper-casing or lower-casing a question never changes its topic |
| OpenAiService.ScienceKeywordAnywhere | server/services/openai.ts:56-65 | a science keyword in any letter case anywhere in the question makes it science, whatever else it mentions |
| OpenAiService.MathKeywordAnywhere | server/services/openai.ts:57-67 | a math keyword anywhere makes it math when no science keyword is present |
| OpenAiService.LiteratureKeywordAnywhere | server/services/openai.ts:58-69 | a literature keyword anywhere makes it literature when no science or math keyword is present |
| OpenAiService.ScienceBeforeMath | server/services/openai.ts:64-67 | a question naming both Calculus and Physics gets the science paragraph |
| OpenAiService.SubstringMatch | server/services/openai.ts:64 | matching is by substring: "excellent" matches "cell" |
| OpenAiService.NoKeywordIsGeneral | server/services/openai.ts:70-72 | a question with no keyword from any list gets the demonstration-mode paragraph |
| JsText.IsBlank | client/components/student/ai-assistant.tsx:117 | the empty input is blank; input that starts or ends with a non-whitespace character is not |
| JsText.TrimStart | client/components/student/ai-assistant.tsx:117 | the result is a suffix that does not start with whitespace, and everything dropped is ECMAScript whitespace |
| JsText.BlankIffTrimsToEmpty | client/components/student/ai-assistant.tsx:117 | `!s.trim()` (every character is whitespace) holds iff trimming the leading whitespace already leaves nothing |
| JsText.ToLower | server/services/openai.ts:62 | lower-casing keeps the length, leaves no ASCII capital, and keeps every other character |
| JsText.ToLowerForgetsCase | server/services/openai.ts:62 | lower-casing forgets an earlier upper-casing and is idempotent |
| JsText.ToLowerConcat | server/services/openai.ts:62 | lower-casing distributes over concatenation |
| JsText.Includes | server/services/openai.ts:64 | `includes` holds iff the text occurs at some index |
| JsText.IncludesMiddle | server/services/openai.ts:64 | a string is included in any concatenation it sits in the middle of |
| JsText.ParseInt | server/services/routes.ts:58 | `parseInt` yields a number only for text that is not blank, and a negative one only after a leading minus |
| JsText.ParseIntNeedsDigit | server/services/routes.ts:58 | `parseInt` of text without a decimal digit is `NaN` |
| JsText.ToDecimalValue | server/services/routes.ts:58 | the decimal digits of a number denote that number |
| JsText.ParseIntDecimal | server/services/routes.ts:58 | `parseInt` reads back a decimal rendering and stops at the first non-digit |
| ChatAssistant.Welcome | client/components/student/ai-assistant.tsx:32-39 | the welcome message is the assistant's, numbered 1 |
| ChatAssistant.FindLastUserFromEnd | client/components/student/ai-assistant.tsx:84 | `reverse().findIndex` is -1 iff the user sent nothing; otherwise it is the distance from the end of the last user message |
| ChatAssistant.AiAssistant.constructor | client/components/student/ai-assistant.tsx:18-22 | empty transcript and input, loading, no response pending, no error |
| ChatAssistant.AiAssistant.LoadInitialMessages | client/components/student/ai-assistant.tsx:27-50 | the transcript becomes the single welcome message, loading ends, numbering holds |
| ChatAssistant.AiAssistant.ChangeInput | client/components/student/ai-assistant.tsx:60-66 | the input box holds the typed value and nothing else changes |
| ChatAssistant.AiAssistant.HandleSendMessage | client/components/student/ai-assistant.tsx:114-154 | blank input changes nothing; otherwise the raw input is appended as user message old length + 1 and the box clears; then the answer follows as old length + 2, or on failure only the error is set; numbering is preserved |
| ChatAssistant.AiAssistant.HandleKeyDown | client/components/student/ai-assistant.tsx:74-78 | Ctrl+Enter or Cmd+Enter has exactly the effect of `handleSendMessage` (blank input a no-op, otherwise the question, and the answer or the error, appended); any other key changes nothing |
| ChatAssistant.AiAssistant.HandleRetry | client/components/student/ai-assistant.tsx:80-112 | a no-op under two messages or with no user message; otherwise the final message is dropped whoever sent it, the last user message is re-asked, and the answer is numbered old length + 1 |
| ChatAssistant.AiAssistant.RetryKeepingQuestion | client/components/student/ai-assistant.tsx:89-105 | the retry the comment at line 89 describes: only a trailing assistant message is dropped, and numbering is preserved |
| ChatAssistant.AiAssistant.ClearChat | client/components/student/ai-assistant.tsx:286-296 | whatever came before, the transcript is the welcome message alone and the error is cleared |
| ChatAssistant.RetryAfterFailedSend | client/components/student/ai-assistant.tsx:80-112 | after a failed send of "Why?", retry as written leaves [welcome, answer numbered 3]: the question is lost and numbering breaks |
| ChatAssistant.RetryAfterFailedRetry | client/components/student/ai-assistant.tsx:80-112 | after [welcome, Q1, A1, Q2] with Q2's send failed, a failed retry leaves [welcome, Q1, A1] with the error line still set, and the next retry re-asks Q1 |
| ChatAssistant.SendAfterBrokenRetry | client/components/student/ai-assistant.tsx:114-124 | after the broken retry leaves [welcome (1), answer (3)], the next send is numbered 3 too, repeating a list key |
| ChatAssistant.RetryKeepingQuestionAfterFailedSend | client/components/student/ai-assistant.tsx:80-112 | the same steps with the corrected retry keep the question and the numbering |
| UserContext.WithRole | client/components/context/user-context.tsx:34-39 | the id is kept and the role set; "student" gives John / john_student; any other role, `null` included, gives Prof. Taylor / prof_taylor |
| UserContext.WithRoleIdempotent | client/components/context/user-context.tsx:34-39 | setting the same role twice equals setting it once |
| UserContext.WithRoleForgetsProfile | client/components/context/user-context.tsx:34-39 | after `setRole`, only the previous user's id survives |
| UserContext.UserProvider.constructor | client/components/context/user-context.tsx:23-25 | initially no user and not authenticated |
| UserContext.UserProvider.IsAuthenticated | client/components/context/user-context.tsx:25 | authenticated iff a user is set and its role is not `null` |
| UserContext.UserProvider.SetUser | client/components/context/user-context.tsx:25 | after `setUser(u)`, authenticated iff `u` is set and its role is not `null` |
| UserContext.UserProvider.Logout | client/components/context/user-context.tsx:27-29 | no user and not authenticated, whatever came before |
| UserContext.UserProvider.SetRole | client/components/context/user-context.tsx:31-40 | no user stays no user; otherwise the user is rewritten by `WithRole`; authenticated afterwards iff a user was set and the role is not `null` |
| UserContext.SetRoleTwice | client/components/context/user-context.tsx:31-40 | calling `setRole` twice with one role leaves the same user as calling it once |
| Login.LoginIssues | client/components/UI/login-form.tsx:20-23 | no issue iff username ≥ 3 and password ≥ 6 characters; each field's message appears iff that field is short, once, and the username's comes first |
| Login.DemoUser | client/components/UI/login-form.tsx:55-60 | id 1, the typed username, the form's role, and "John Doe" for a student or "Prof. Sarah Taylor" for a teacher |
| Login.LoginForm.constructor | client/components/UI/login-form.tsx:32-35 | not loading, no error |
| Login.LoginForm.OnSubmit | client/components/UI/login-form.tsx:45-69 | the user is set, and authenticated, before `onSuccess` is called; a throwing `onSuccess` sets the failure text; loading ends false |
| Login.LoginForm.Submit | client/components/UI/login-form.tsx:96 | a failing schema reports its issues and changes nothing; a passing one signs in the demo user, with `onSubmit`'s error line and its exact effect trace |
| Login.AnyLongEnoughCredentials | client/components/UI/login-form.tsx:20-61 | any long-enough username and password sign in; nothing is compared |
| PapersToReview.PlagiarismBadgeClass | client/components/teacher/papers-to-review.tsx:81-89 | green iff under 5, yellow iff from 5 to under 25, red iff 25 or more |
| PapersToReview.BadgesDistinct | client/components/teacher/papers-to-review.tsx:83-87 | the three classes differ, so each match gets exactly one |
| PapersToReview.BadgeMonotone | client/components/teacher/papers-to-review.tsx:81-89 | a higher match never gets a less severe badge |
| PapersToReview.FixtureBadges | client/components/teacher/papers-to-review.tsx:30-89 | the three listed papers, at 1, 18 and 0, are badged green, yellow and green |

## Left out

- The completion API (`openai.chat.completions.create`) is a network call. Each use is a `Completion` parameter. Prompts, the model name and `response_format` are left out.
- `JSON.parse` is an abstract parser parameter. Its grammar is not modelled.
- `insertUserSchema` lives in a schema module that is not part of this model. Register takes the schema's outcome as an `Option<InsertUser>`. The Zod `errors` list in the 400 body is not modelled, so `InvalidDataBody` carries no details.
- Concurrency is left out: async interleaving, `setTimeout` delays, the check-then-create race in register, and a "Clear chat" while a reply is pending. Every handler is one atomic step.
- React's deferred state updates are left out. `HandleRetry` numbers the answer from the transcript as it was when retry began, which is what the closure in the source reads.
- Timestamps are left out. `createdAt` is a `now` parameter, and chat message timestamps are display-only and dropped.
- The 500 "Server error" branches of login, register and user lookup are left out. The in-memory store never throws, so they cannot be reached.
- The list routes (`/api/subjects` and the five others) only wrap a `getAll*` call in `{ name: list }`. They are modelled through those listers.
- The subject, lecture, assignment, submission, document and progress records are opaque `Entity` values. Their fields come from the schema module, which is not part of this model.
- JsText.ToLower: maps only the ASCII letters. JavaScript's full Unicode case mapping is not modelled. Every keyword list is ASCII, but a non-ASCII capital in a question is left as it is. JsText.ToLowerForgetsCase and OpenAiService.ClassifyIgnoresCase hold for this ASCII mapping only; under JavaScript's Unicode mapping "ı" upper-cases to "I", which lower-cases to "i", so their `ToUpper` halves would fail. The source itself never upper-cases.
- Strings are sequences of code points. JavaScript measures length in UTF-16 units, which can change the login form's length checks for characters outside the Basic Multilingual Plane.
- JavaScript numbers are unbounded `int`s and `real`s here. `parseInt` precision loss on huge ids, `-0`, and a `NaN` plagiarism match are not modelled.
- The client helper `askAIAssistant` is not modelled; its outcome is the `AskOutcome` parameter. As written (client/lib/openai(1).ts:62-85) it catches every error and resolves with a fallback `{ response }`, so it never rejects. `AskFailed` therefore covers more than that helper can produce: it stands for a helper that rejects. With the helper as written, the panel's catch branch, its error line and its Retry button are unreachable.
- Console logging, the startup warning, textarea auto-resize, scroll-into-view, animation and all rendering are left out.

## Findings

| source | as written | input that shows it | evidently intended | confidence | as-written member | corrected member |
|---|---|---|---|---|---|---|
| client/components/student/ai-assistant.tsx:89-105 | `handleRetry` drops the final message whoever sent it, and numbers the answer `messages.length + 1`. The Retry button (lines 232-244) shows whenever the error line is set, which a failed send or a failed retry leaves behind. After a failed send the final message is the user's own question, so retry deletes it. After a failed retry the final message can be an assistant answer: from [welcome, Q1, A1, Q2], a failed retry leaves [welcome, Q1, A1], and the next retry re-asks Q1, not Q2. The next send after [welcome (1), answer (3)] is numbered `messages.length + 1` = 3, reusing the list key of line 180, which shows that ids were meant to be positions. The bug is latent: the reply fails only if `askAIAssistant` rejects, and as written (client/lib/openai(1).ts:62-85) it never does | welcome, then send "Why?" with a rejecting helper, then retry with a successful answer: the transcript is [welcome (1), answer (3)]. The question is gone and id 2 is skipped | as the comment on line 89 says, remove only the last AI response; keep the question; number the answer after what is kept, so each id stays its position | not executed | ChatAssistant.RetryAfterFailedSend | ChatAssistant.AiAssistant.RetryKeepingQuestion |
