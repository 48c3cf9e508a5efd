# Task manager and chat widget: a Dafny model

This project models the four pieces of a small task manager that contain
logic of their own:

- **The task list** (`frontend/src/components/TaskList.tsx`). It is an ordered
  list of task records, newest first, plus the state of the create form. It
  has three handlers. Create refuses a blank title and otherwise puts the new
  task at the front. Delete filters out every task with the given id. Update
  status changes only the status of the tasks with the given id. The module
  `Tasks` holds the list operations as pure functions (`RemoveId`,
  `SetStatus`, `DatePart`). The class `Tasks.TaskList` holds the fields
  `tasks`, `formData` and `showForm`, and its methods update them through
  those functions.
- **The chat panel** (`frontend/src/components/ChatAssistant.tsx`). It keeps
  a message log, an input string and a `loading` flag. The class
  `ChatSession.ChatAssistant` splits `handleSendMessage` at its `await`:
  - `Submit` checks for blank input, appends the user message, clears the
    input and sets `loading`.
  - `Resolve` appends the one ai message for the request's outcome and clears
    `loading`.
  - `SendMessage` runs the two in a row.

  The network call is a `FetchOutcome` value the caller supplies: answered
  with or without a reply, a non-ok status, or a thrown error.
- **The current chat endpoint** (`backend/src/api/routes/chat.py`, module
  `ChatRoute`). A blank message is refused with status 400. Any other message
  is lower-cased and stripped. Six keyword groups are then tried in a fixed
  order as substrings, and the first hit picks a fixed reply. When nothing
  matches, the reply quotes the original message.
- **The older chat endpoint** (`backend/src/routes/chat.py`, module
  `LegacyChatRoute`). It lower-cases the message but does not strip it and
  does not check for emptiness. It tries four keyword groups and otherwise
  echoes the message. Both endpoints are mounted at `/api/chat`, and which one
  the application registers is not visible in the code. The module
  `RouteComparison` states where the two agree and where they differ.

The module `Text` models JavaScript's `trim`, Python's `strip` and `lower`,
and Python's substring test `w in s`. The two runtimes use different
whitespace sets, and the model gives each its own:
- `JsSpace` is what JavaScript's `trim` removes.
- `PySpace` is what Python's `strip` removes.

Both sets hold tab through carriage return, the Unicode space separators, and
U+2028 and U+2029. JavaScript adds U+FEFF. Python adds U+001C–U+001F and
U+0085. The front end's blank tests use `JsSpace` and the endpoints use
`PySpace`. The trimming and substring lemmas hold for any whitespace test.
Lower-casing is modelled in ASCII: only `A`–`Z` have a lower-case form.

Some behaviours differ from what a reader might expect. The model follows the code:

- Ids come from the clock and nothing makes them unique. `UniqueIds` is
  proved to be kept by delete (`RemoveIdKeepsUnique`) and by status updates
  (`SetStatusKeepsUnique`). Create keeps it exactly when the new id is fresh
  (`PrependKeepsUnique`).
- The chat request carries the untrimmed input. The user message text is the
  untrimmed input too.
- `handleSendMessage` does not look at `loading`. A second submission while a
  request is outstanding is stopped only by the disabled send button
  (`SendEnabled`). `Submit` therefore does not require `!loading`.
- Delete removes every task with the given id, not just one.
- The panel's blank test and the current endpoint's disagree. A message made
  of U+001C is sent by the panel and refused with 400 by the endpoint
  (`RouteComparison.SentButRefused`).

Two reply literals in `backend/src/api/routes/chat.py` hold mis-decoded
characters. A bullet appears as U+00E2 U+20AC U+00A2, and a waving-hand emoji
appears as U+00F0 U+0178 U+2018 U+2039. The model keeps these characters as
the file has them (`ChatRoute.Bullet`, `ChatRoute.Wave`).

## Model

| member | source | states |
|---|---|---|
| Text.WhitespaceSetsDiffer | backend/src/api/routes/chat.py:33 | Python's `strip` removes U+001C, which JavaScript's `trim` keeps. JavaScript's `trim` removes U+FEFF, which Python's `strip` keeps. |
| Text.Trim | frontend/src/components/TaskList.tsx:46 | The trimmed string is a contiguous slice of the input, and it is empty or starts and ends with a non-space. |
| Text.TrimDropsOnlySpace | backend/src/api/routes/chat.py:39 | Everything `Trim` drops, before and after the kept slice, is whitespace. |
| Text.TrimEmptyIffAllSpace | frontend/src/components/ChatAssistant.tsx:28 | Trimming leaves nothing exactly when every character is whitespace, the empty string included. |
| Text.IsBlank | frontend/src/components/TaskList.tsx:46 | `!s.trim()` and `not s.strip()` hold exactly when every character of `s` is whitespace under that runtime's set. |
| Text.LowerCharKeepsSpace | backend/src/api/routes/chat.py:39 | Lower-casing a character never changes whether it is whitespace, for any whitespace set that contains no ASCII letter. |
| Text.Contains | backend/src/routes/chat.py:19 | Python's `w in s`: `w` occurs as a contiguous slice of `s`. The empty word occurs in every string, and no word longer than `s` occurs in it. |
| Text.ContainsAny | backend/src/api/routes/chat.py:42 | `any(w in s for w in words)`: some word of the list, tried in order, occurs in `s`. It never holds for an empty list. |
| Text.TrimStart | frontend/src/components/ChatAssistant.tsx:28 | Leading whitespace is dropped: the result is a suffix that is empty or starts with a non-space. |
| Text.TrimStartDropsOnlySpace | frontend/src/components/ChatAssistant.tsx:28 | Everything `TrimStart` drops is whitespace, so its result is the longest such suffix. |
| Text.TrimEnd | frontend/src/components/ChatAssistant.tsx:28 | Trailing whitespace is dropped: the result is a prefix that is empty or ends with a non-space. |
| Text.TrimEndDropsOnlySpace | frontend/src/components/ChatAssistant.tsx:28 | Everything `TrimEnd` drops is whitespace, so its result is the longest such prefix. |
| Text.Lower | backend/src/api/routes/chat.py:39 | Lower-casing keeps the length and maps each character to its lower-case form. |
| Text.LowerChar | backend/src/api/routes/chat.py:39 | Upper-case ASCII letters move up by 32. Every other character is unchanged. |
| Text.LowerKeepsSpace | backend/src/api/routes/chat.py:33-39 | A string is all whitespace exactly when its lower-cased form is. |
| Text.ContainsTrimIff | backend/src/api/routes/chat.py:39-42 | For a keyword with non-space ends, occurring in the stripped string is the same as occurring in the unstripped one. |
| Text.ContainsInTrimmed | backend/src/api/routes/chat.py:39 | An occurrence in the stripped string is an occurrence in the original. |
| Text.ContainsSurvivesTrim | backend/src/api/routes/chat.py:39 | An occurrence of a keyword with non-space ends in the original survives stripping. |
| Text.OccurrenceSurvivesTrim | backend/src/api/routes/chat.py:39 | Such an occurrence lies after the stripped prefix and sits at the shifted index in the stripped string. |
| Text.ContainsAnyTrimIff | backend/src/api/routes/chat.py:42-53 | `any(w in s for w in words)` gives the same answer before and after stripping when no keyword has a space at either end. |
| Text.NoWordInBlank | backend/src/routes/chat.py:16-28 | A whitespace-only string contains no word that starts with a non-space. |
| Text.ContainsAt | backend/src/api/routes/chat.py:42 | A slice equal to `w` at a known index makes `w in s` true. |
| ChatRoute.Keywords | backend/src/api/routes/chat.py:42-53 | Each keyword branch has a non-empty keyword group and the fallback has none. No keyword starts or ends with whitespace. |
| ChatRoute.ReplyFor | backend/src/api/routes/chat.py:42-55 | Each keyword branch answers with one of the six fixed texts, whatever the message. The fallback answers with the echo of the message. |
| ChatRoute.ReplyIdentifiesBranch | backend/src/api/routes/chat.py:42-55 | Two replies are equal only when they come from the same branch. No two branches share a fixed text, and no echo equals a fixed text. |
| ChatRoute.Classify | backend/src/api/routes/chat.py:42-55 | The branch chosen is the first in priority order (create, list, delete, update, help, greeting) whose keyword group occurs as a substring. No earlier group occurs. The fallback is chosen only when no group occurs. |
| ChatRoute.ClassifyUnique | backend/src/api/routes/chat.py:42-55 | That first-hit property fixes the branch: any branch satisfying it is the one `Classify` returns. |
| ChatRoute.ClassifyIgnoresTrim | backend/src/api/routes/chat.py:39 | Stripping the lower-cased message never changes the branch. |
| ChatRoute.Chat | backend/src/api/routes/chat.py:32-58 | The response is the 400 error "Message cannot be empty" exactly when the message is empty or all Python whitespace. Otherwise it is the reply of the branch chosen on the lower-cased message. |
| ChatRoute.EchoReply | backend/src/api/routes/chat.py:54-55 | The fallback reply holds the message as received, right after `You said: "`. |
| ChatRoute.KeywordSelects | backend/src/api/routes/chat.py:42-53 | A message whose lower-cased form contains a keyword of some branch, and no keyword of an earlier branch, gets that branch's reply. This holds even when the keyword sits inside a word. |
| ChatRoute.AddAnywhereCreates | backend/src/api/routes/chat.py:42-43 | Any message containing "add" in any letter case, even inside a word, gets the create reply. |
| ChatRoute.CaseInsensitive | backend/src/api/routes/chat.py:39 | Messages equal up to letter case are both refused or both answered. When a keyword matches, they get the same reply. |
| ChatRoute.EchoQuotesOriginal | backend/src/api/routes/chat.py:54-55 | An unmatched, non-blank message gets the fallback reply, which contains the original message, not the lower-cased or stripped one. |
| ChatRoute.SevenReplyForms | backend/src/api/routes/chat.py:42-58 | Every non-blank message gets a reply, and that reply is one of the six fixed replies or the echo of that message. |
| LegacyChatRoute.Keywords | backend/src/routes/chat.py:19-25 | Each keyword branch has a non-empty keyword group and the fallback has none. No keyword starts or ends with whitespace. |
| LegacyChatRoute.ReplyFor | backend/src/routes/chat.py:19-28 | Each keyword branch answers with one of the four fixed texts, whatever the message. The fallback answers with the echo of the message. |
| LegacyChatRoute.Classify | backend/src/routes/chat.py:19-28 | The branch chosen is the first in priority order (create/add, list/show, delete/remove, help) with a keyword occurring as a substring. There is no update or greeting branch. |
| LegacyChatRoute.ClassifyUnique | backend/src/routes/chat.py:19-28 | The first-hit property fixes the branch. |
| LegacyChatRoute.Chat | backend/src/routes/chat.py:13-30 | Every message gets a reply. A matched message gets one of the four fixed replies. An unmatched one gets the echo of the original message. |
| LegacyChatRoute.EchoReply | backend/src/routes/chat.py:27-28 | The fallback holds the message as received, right after `You said: `. |
| LegacyChatRoute.KeywordSelects | backend/src/routes/chat.py:19-26 | A keyword of a branch occurring anywhere in the lower-cased message, with no keyword of an earlier branch, selects that branch's reply. |
| LegacyChatRoute.BlankIsEchoed | backend/src/routes/chat.py:16-28 | There is no emptiness check. An empty or whitespace-only message reaches the echo fallback. |
| LegacyChatRoute.CaseInsensitive | backend/src/routes/chat.py:16 | Messages equal up to letter case get the same branch, and the same reply when a keyword matches. |
| RouteComparison.BlankDiverges | backend/src/api/routes/chat.py:33-37 | A blank message is refused with 400 by the current route but echoed by the older one. |
| RouteComparison.KeywordsIncluded | backend/src/routes/chat.py:19-25 | Each keyword of the older route belongs to the same branch of the current route. |
| RouteComparison.CreateAgrees | backend/src/routes/chat.py:19-20 | When the older route gives its create reply, the message is not blank and the current route gives its create reply too. |
| RouteComparison.LegacyUnmatched | backend/src/routes/chat.py:19-28 | A string without the current route's create, list and delete keywords, and without "help", is unmatched by the older route. |
| RouteComparison.UnmatchedAgrees | backend/src/routes/chat.py:27-28 | A message the current route leaves unmatched is echoed by the older route too. |
| RouteComparison.UpdateDiverges | backend/src/api/routes/chat.py:48-49 | A message whose only keyword is "update" gets the update reply from the current route and the echo from the older one. |
| RouteComparison.GreetingDiverges | backend/src/api/routes/chat.py:52-53 | A message that only greets gets the greeting from the current route and the echo from the older one. |
| RouteComparison.SentButRefused | backend/src/api/routes/chat.py:33-37 | A message made of U+001C is not blank to the panel, which sends it. The current route refuses it with 400. The panel sees a response that is not ok, modelled as the `HttpFailure` outcome, and answers with its connection error. |
| Tasks.DatePart | frontend/src/components/TaskList.tsx:53 | `split("T")[0]` returns the prefix before the first 'T', or the whole string when it has no 'T'. |
| Tasks.DatePartOfTimestamp | frontend/src/components/TaskList.tsx:53 | For an ISO timestamp `date + "T" + time`, the creation date is exactly `date`. |
| Tasks.RemoveId | frontend/src/components/TaskList.tsx:61-63 | After delete, a task is in the list exactly when it was before and its id differs from the argument. The list never grows. |
| Tasks.RemoveIdAppend | frontend/src/components/TaskList.tsx:62 | Delete distributes over concatenation, so the surviving tasks keep their relative order. |
| Tasks.RemoveAbsentId | frontend/src/components/TaskList.tsx:62 | Deleting an id that no task has leaves the list unchanged. |
| Tasks.RemoveIdIdempotent | frontend/src/components/TaskList.tsx:62 | Deleting the same id twice gives the same list as deleting it once. |
| Tasks.RemovePresentIdShrinks | frontend/src/components/TaskList.tsx:62 | Deleting an id that some task has makes the list strictly shorter. |
| Tasks.SetStatus | frontend/src/components/TaskList.tsx:65-71 | Update status keeps the length and order and each task's id, title, description and creation date. Only tasks with the matching id take the new status. |
| Tasks.SetStatusAbsentId | frontend/src/components/TaskList.tsx:66-70 | Updating the status of an absent id leaves the list unchanged. |
| Tasks.SetStatusIdempotent | frontend/src/components/TaskList.tsx:66-70 | Applying the same status update twice gives the same list as applying it once. |
| Tasks.SetStatusKeepsIds | frontend/src/components/TaskList.tsx:67-69 | A status update keeps the sequence of ids unchanged. |
| Tasks.RemoveAfterSetStatus | frontend/src/components/TaskList.tsx:61-71 | Updating a status and then deleting that id gives the same list as deleting it straight away. |
| Tasks.SetStatusKeepsUnique | frontend/src/components/TaskList.tsx:66-70 | If ids were unique before a status update, they stay unique after it. |
| Tasks.RemoveIdKeepsUnique | frontend/src/components/TaskList.tsx:62 | If ids were unique before a delete, they stay unique after it. |
| Tasks.PrependKeepsUnique | frontend/src/components/TaskList.tsx:48-56 | On a list with unique ids, creating a task keeps ids unique exactly when the new id is not already present. |
| Tasks.CreateThenUpdate | frontend/src/components/TaskList.tsx:44-71 | A created task whose status is then updated keeps its id, title, description and creation date, and carries the new status. |
| Tasks.TaskList.constructor | frontend/src/components/TaskList.tsx:14-36 | The initial state is two tasks with ids "1" and "2" and statuses completed and in-progress, an empty form with status pending, and the form hidden. |
| Tasks.TaskList.ToggleForm | frontend/src/components/TaskList.tsx:79 | The button flips form visibility and changes nothing else. |
| Tasks.TaskList.EditTitle | frontend/src/components/TaskList.tsx:97-99 | Typing a title replaces only the form's title. |
| Tasks.TaskList.EditDescription | frontend/src/components/TaskList.tsx:111-113 | Typing a description replaces only the form's description. |
| Tasks.TaskList.EditStatus | frontend/src/components/TaskList.tsx:123-128 | Choosing a status replaces only the form's status. |
| Tasks.TaskList.AddTask | frontend/src/components/TaskList.tsx:44-59 | A blank title leaves the list, the form and its visibility unchanged. Otherwise the list grows by one. The new task is at index 0 with the untrimmed title, the description, the status, the given id and the date part of the given timestamp. The old tasks follow in order. The form is reset to empty with status pending and hidden. |
| Tasks.TaskList.DeleteTask | frontend/src/components/TaskList.tsx:61-63 | The list becomes `RemoveId` of the old list, no task with that id remains, and the form is untouched. |
| Tasks.TaskList.UpdateStatus | frontend/src/components/TaskList.tsx:65-71 | The list becomes `SetStatus` of the old list, the ids stay the same, and the form is untouched. |
| ChatSession.AiText | frontend/src/components/ChatAssistant.tsx:51-78 | The ai text is never empty. It is the reply when the response was ok and the reply is non-empty. It is "Sorry, I couldn't process that." when the reply is missing or empty. It is the connection error on a non-ok status or a thrown error. |
| ChatSession.ExchangesAppend | frontend/src/components/ChatAssistant.tsx:40-78 | Appending a user message and then an ai message to a log of completed exchanges gives a log of completed exchanges. |
| ChatSession.ExchangesEven | frontend/src/components/ChatAssistant.tsx:40-78 | A log of completed exchanges has even length: every user message got exactly one answer. |
| ChatSession.ChatAssistant.constructor | frontend/src/components/ChatAssistant.tsx:13-15 | The panel starts with an empty log, empty input and loading false. |
| ChatSession.ChatAssistant.SendEnabled | frontend/src/components/ChatAssistant.tsx:141 | The send button is enabled exactly when loading is false and the input is not all whitespace. |
| ChatSession.ChatAssistant.SetInput | frontend/src/components/ChatAssistant.tsx:135 | Typing replaces the input and nothing else. |
| ChatSession.ChatAssistant.Submit | frontend/src/components/ChatAssistant.tsx:26-42 | Blank input changes nothing. Otherwise exactly one user message holding the untrimmed input is appended, the input is cleared and loading is set. A submission that sends, made on a log of completed exchanges, leaves one question awaiting its answer. |
| ChatSession.ChatAssistant.Resolve | frontend/src/components/ChatAssistant.tsx:44-81 | Exactly one ai message with the text `AiText` gives for the outcome is appended, earlier messages are untouched, and loading ends false on every outcome. A question awaiting its answer becomes a completed exchange. |
| ChatSession.ChatAssistant.SendMessage | frontend/src/components/ChatAssistant.tsx:26-82 | A full cycle on non-blank input appends exactly two messages, user then ai, clears the input and ends with loading false. Blank input changes nothing. From any starting state, a log of completed exchanges stays completed. |

## Left out

- The JSX rendering, CSS classes, the scroll-into-view effect and `console.error`/`logger` calls: presentation and diagnostics with no effect on the modelled state.
- The `fetch` call and JSON parsing: replaced by the `FetchOutcome` parameter. A `reply` field that is truthy but not a string is not modelled.
- `Date.now()`, `new Date().toISOString()` and `toLocaleTimeString`: ids, the ISO timestamp and message timestamps are parameters.
- Uniqueness of task and message ids: the code derives them from clock milliseconds and does not guarantee it.
- The FastAPI routing, `HTTPException` machinery and the `except Exception` paths that turn unexpected errors into status 500: nothing in the modelled dispatch raises, so these paths never fire in the model. The older route's 500 path is left out for the same reason.
- The `/api/chat/health` endpoint of backend/src/api/routes/chat.py: it returns a constant.
- Text.Lower: models ASCII lower-casing only, because Python's full Unicode `lower()` (which can change a string's length) is outside this model.
- backend/src/models/conversation.py, frontend/src/app/layout.tsx, frontend/src/app/task/page.tsx and the sign-in page: ORM declarations and framework glue, not part of this model.
- React's asynchronous state batching: each handler's updates are modelled as applied in order, with the functional `setMessages`/`setTasks` updaters applied to the current state.
