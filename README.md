# Task extractor: a verified model of its dispatch core

The application reads chat text or screenshots, asks a Gemini model to extract to-do
items, and sends them to Microsoft To Do and to Google Calendar. This project models
the parts of it that decide things:

- **Gemini client** (`gemini.dfy`, module `Gemini`):
  - parsing of the comma-separated key list and the module-level rotation cursor;
  - the bounded attempt loop of `analyzeContent`. A quota-class failure moves on to
    the first untried key, scanning cyclically. An overload is retried with the same
    key after an exponential wait. Any other failure is rethrown;
  - normalisation of the returned items into `TaskDetails`.

  The generation call is an oracle `(attempt, keyIndex) -> Response`. The loop is a
  `method` proved equal to a pure specification `Analyze`, and the policy lemmas are
  proved about that specification.
- **To Do dispatch** (`todo.dfy`, module `Todo`): the task body built field by field,
  the Graph path, and the sequential batch.
- **Calendar dispatch** (`calendar.dfy`, module `Calendar`): the all-day event built
  from a task, one event creation against the Google token slot, and the sequential
  batch.
- **Google token slot** (`google_auth.dfy`, module `GoogleAuth`): the single storage
  slot `google_auth_token`, written from the redirect hash and read with an expiry
  check against a clock. It is removed on expiry, on a failed user-info lookup and on
  logout. The hash is parsed with models of `URLSearchParams` and `parseInt`.
- **App handlers** (`app.dfy`, module `App`): `checkAuth`, `handleLogout`,
  `handleDeleteTask`, `handleAnalyze` and `handleSendToBoth`. They cover validation,
  the choice of batches, the index-to-destination mapping of the settled results,
  the counters, and the clear-or-report decision.
- **Shared pieces**: `types.dfy` (module `Types`) holds the shared records, and
  `strings.dfy` (module `Strings`) holds the JavaScript string built-ins the code
  relies on (`split`, `join`, `trim`, `includes`).

The environment is passed in as parameters, never read:

- the current time (`now`, or a clock per call);
- the ISO rendering of a date;
- the HTTP endpoints;
- the user-info lookup;
- UUID generation.

Waits are recorded as delay values instead of being taken.

## Model

| member | source | states |
|---|---|---|
| Strings.Trim | src/services/geminiService.ts:10 | `trim` leaves no whitespace at either end, removes only whitespace, and leaves a trimmed string as it is |
| Strings.Split | src/services/geminiService.ts:10 | every piece is free of the separator and there is at least one piece (an empty string splits into one empty piece) |
| Strings.SplitAppend | src/services/geminiService.ts:10 | splitting `a,b` gives the pieces of `a` followed by the pieces of `b` |
| Strings.Contains | src/services/googleAuthService.ts:70 | `includes`: the text occurs at some position |
| Strings.NatToString | src/App.tsx:348-351 | the decimal rendering of a count in a template literal; `parseInt` reads it back (see `GoogleAuth.ParseIntOfDecimal`) |
| Strings.SplitJoin | src/services/geminiService.ts:10 | splitting a comma-join of comma-free pieces gives the pieces back |
| Strings.JoinSplit | src/services/geminiService.ts:10 | joining the pieces of a split gives the original string |
| Gemini.ParseApiKeys | src/services/geminiService.ts:5-13 | every parsed key is non-empty, has no surrounding whitespace and contains no comma; which keys and in which order is stated by the lemmas below |
| Gemini.NonEmpty | src/services/geminiService.ts:10 | the filter keeps only non-empty pieces of the input, and a list without empty pieces is kept whole and in order |
| Gemini.NonEmptyOne | src/services/geminiService.ts:10 | one piece is kept exactly when it is non-empty |
| Gemini.NonEmptyAppend | src/services/geminiService.ts:10 | the filter works piecewise, so every non-empty piece is kept and the order is kept |
| Gemini.TrimAll | src/services/geminiService.ts:10 | every piece trimmed, same length and order |
| Gemini.RawKeys | src/services/geminiService.ts:6 | a missing variable reads as the empty string |
| Gemini.NoVariableNoKeys | src/services/geminiService.ts:6-13 | a missing variable gives no keys |
| Gemini.ParseApiKeysOfPiece | src/services/geminiService.ts:10 | a text without a comma gives its trimmed self as the only key, or no key when it is blank |
| Gemini.ParseApiKeysAppend | src/services/geminiService.ts:10 | the keys of `a,b` are the keys of `a` followed by the keys of `b`; with the one-piece lemma this fixes the keys of every text: its trimmed non-blank comma-separated pieces, in order (so `a,,b` and `a,b,` give `a`, `b`) |
| Gemini.TwoKeysWithSpace | src/services/geminiService.ts:10 | two keys written `k1, k2` parse as exactly `k1` and `k2` |
| Gemini.ParseApiKeysOfJoined | src/services/geminiService.ts:10 | writing valid keys out comma-separated and parsing them again gives the same keys in the same order |
| Gemini.NormalizeItem | src/services/geminiService.ts:227-234 | title and body are copied; a falsy due or reminder time becomes absent and a truthy one is kept; importance defaults to normal; categories default to the empty list |
| Gemini.NormalizeIdempotent | src/services/geminiService.ts:227-234 | normalising a normalised item changes nothing |
| Gemini.NormalizeItems | src/services/geminiService.ts:227-234 | the output has the same length and order as the items, each one normalised |
| Gemini.IsQuotaExceeded | src/services/geminiService.ts:240-243 | quota class: status or code 429, or a message containing `quota` or `RESOURCE_EXHAUSTED` |
| Gemini.IsOverloaded | src/services/geminiService.ts:281-284 | overload class: status or code 503, or a message containing `overloaded` or `UNAVAILABLE` |
| Gemini.MaxRetries | src/services/geminiService.ts:182 | the attempt budget `Math.max(n, 3)` |
| Gemini.MaxRetriesIsMax | src/services/geminiService.ts:182 | the budget is at least the number of keys and at least 3, and equals one of them |
| Gemini.BackoffMs | src/services/geminiService.ts:286-290 | the overload wait `2^attempt · 1000` ms |
| Gemini.BackoffDoubles | src/services/geminiService.ts:287-288 | the first wait is 1 s and each later one doubles the one before |
| Gemini.RetryAfterMs | src/services/geminiService.ts:270-276 | `retryAfter` is the suggested seconds in milliseconds, and 30000 when the message suggests none |
| Gemini.NextUntried | src/services/geminiService.ts:249-256 | the scan finds an untried index in range, and finds none exactly when every index has been tried |
| Gemini.NextUntriedIsFirst | src/services/geminiService.ts:249-256 | the index found is the first untried one in cyclic order after the current key |
| Gemini.FindNextUntried | src/services/geminiService.ts:249-256 | the scanning loop returns -1 exactly when the scan finds nothing, and otherwise the index the scan finds |
| Gemini.StepOf | src/services/geminiService.ts:194-295 | a retried iteration goes on with a key in range and moves the global cursor only to that key; a finished one used exactly this key and never reports the missing-key error (which branch each response takes is stated by the next two lemmas) |
| Gemini.RetryStepPolicy | src/services/geminiService.ts:240-291 | an iteration goes on EXACTLY when the policy calls for it: after a quota-class failure (checked first) when some key is untried, and after an overload while `attempt < maxRetries - 1`; it then moves to the first untried key after 500 ms, or keeps the key after 2^attempt·1000 ms, carrying this call's error |
| Gemini.FinishStepOutcome | src/services/geminiService.ts:217-295 | an answer always ends the call with its normalised items and points the cursor past its key; an ending failure leaves the cursor and is the quota rejection (only once every key is tried, with the suggested delay, 30 s by default) for a quota-class error and `Rethrown` of this call's own error otherwise |
| Gemini.AttemptOnce | src/services/geminiService.ts:196-295 | one pass of the loop body decides exactly as the step specification does |
| Gemini.Attempts | src/services/geminiService.ts:194-300 | the loop from one iteration on: it never reports the missing-key error; while iterations remain its first attempt uses the current key; once they have run out the last error is rethrown |
| Gemini.Analyze | src/services/geminiService.ts:190-192 | with no keys the call rejects with the missing-key error before any generation call is made, and only then |
| Gemini.AnalyzeKeepsCursorInRange | src/services/geminiService.ts:223-261 | the global cursor stays an index into the key list whatever the calls return |
| Gemini.AnalyzeAttemptsBounded | src/services/geminiService.ts:182-194 | at most max(n, 3) generation calls are made per analysis |
| Gemini.AnalyzeFollowsPolicy | src/services/geminiService.ts:240-291 | every key used is in range; each retry in a run follows the retry policy, so each quota switch picks a key not yet tried; and the run does not stop while the policy calls for a retry and attempts remain |
| Gemini.AnalyzeEnds | src/services/geminiService.ts:217-300 | an answer from the last call is the result, and the cursor then points past that key; a quota rejection comes only after every key was tried; a rethrow carries the last call's error, and a last call failing outside the quota class is always rethrown; the fallback "analysis failed" error is never reached |
| Gemini.OtherErrorRethrownAtOnce | src/services/geminiService.ts:280-295 | a first failure that is neither quota nor overload is rethrown as is, after one call, with no wait and the cursor kept |
| Gemini.OverloadIsRetried | src/services/geminiService.ts:281-291 | an overloaded first call is retried with the same key after 1000 ms, and the second call's answer is the result |
| Gemini.AllKeysOverQuota | src/services/geminiService.ts:245-277 | when every key is over quota, each key is tried exactly once and the call rejects with the quota error |
| Gemini.FirstAnsweringKeyWins | src/services/geminiService.ts:245-261 | keys over quota are skipped until the one that answers; its items are returned and the cursor moves past it after at most n calls |
| Gemini.GeminiService.constructor | src/services/geminiService.ts:16-17 | the keys are parsed once and the cursor starts at 0 |
| Gemini.GeminiService.GetCurrentApiKey | src/services/geminiService.ts:26-31 | fails with the missing-key error exactly when there are no keys, and otherwise returns the key at the cursor |
| Gemini.GeminiService.SwitchToNextApiKey | src/services/geminiService.ts:34-40 | with fewer than 2 keys it returns false and leaves the cursor; otherwise it advances the cursor cyclically and returns true |
| Gemini.GeminiService.AnalyzeContent | src/services/geminiService.ts:182-300 | the loop's result, the cursor it leaves, the keys it used and the waits it made are exactly those of the specification `Analyze` |
| Types.RecordOutcome | src/services/todoService.ts:85-87 | a settled request is recorded as sent with its data exactly when it succeeded, and otherwise as not sent with its error and its task |
| Todo.TaskBodyIsDetermined | src/services/todoService.ts:38-64 | the field-by-field description fixes the body: two bodies meeting it are equal |
| Todo.BuildTaskBody | src/services/todoService.ts:38-64 | the body has the title, the body as text content and the importance; the due date is present exactly when the task's is non-empty; reminder flag and time are set together exactly when the task's reminder is non-empty; both times are in Asia/Seoul; categories are present exactly when the list is non-empty |
| Todo.TasksPath | src/services/todoService.ts:67 | the path starts with `/me/todo/lists/` and is as long as prefix, list id and `/tasks` together |
| Todo.TasksPathNamesList | src/services/todoService.ts:67 | the list id is read back from between the prefix and the `/tasks` suffix |
| Todo.TasksPathInjective | src/services/todoService.ts:67 | distinct lists get distinct paths |
| Todo.CreateTask | src/services/todoService.ts:31-75 | the request goes to the list's path with the body described above, and the promise settles as the endpoint answers |
| Todo.CreateTasksInBatch | src/services/todoService.ts:77-91 | one entry per task, in order; entry i is the outcome of posting task i's body to the list's path, and a failure carries its task without stopping later tasks |
| Calendar.DatePart | src/services/calendarService.ts:29 | the date string contains no `T` |
| Calendar.DatePartOf | src/services/calendarService.ts:29 | the date of an ISO date-time is the text before its `T` |
| Calendar.ConvertTaskToEvent | src/services/calendarService.ts:25-66 | conversion succeeds exactly when the due time (or, without one, the current instant) renders; the event is then titled and described by the task, runs from that date to the same date in Asia/Seoul, and has only a 450-minute popup reminder; otherwise it throws the invalid-time error |
| Calendar.DueTaskDate | src/services/calendarService.ts:27-29 | a task with a due time is placed on the date of that time's ISO rendering |
| Calendar.UndatedTaskIsToday | src/services/calendarService.ts:27-29 | a task without a due time is placed on today's date |
| Calendar.InsertResult | src/services/calendarService.ts:88-93 | a created event resolves with the created event's data; a non-OK response fails with its error message, or with "이벤트 생성 실패" when it has none; a network failure rejects with its own reason |
| Calendar.CreateEvent | src/services/calendarService.ts:69-98 | one event creation leaves the token slot as the token read at that call's time leaves it |
| Calendar.CreateEventOutcome | src/services/calendarService.ts:69-98 | a token-read failure rejects with its message before anything is posted; with a token, a conversion failure is the result, and otherwise the result is the endpoint's answer read by `InsertResult`, so a created event resolves with its data; a success needs all three steps to succeed |
| Calendar.EventsFrom | src/services/calendarService.ts:101-114 | a batch gives one entry per task and either leaves the token slot as it was or empties it |
| Calendar.FailuresCarryTask | src/services/calendarService.ts:109-111 | every failed entry carries the task it was for |
| Calendar.BatchWithoutLogin | src/services/calendarService.ts:101-114 | with no token stored, every entry fails asking for a Google login |
| Calendar.ExpiryEndsBatch | src/services/calendarService.ts:101-114 | once a call finds the token expired, the slot is emptied and that entry and every later one fail |
| Calendar.BatchWithValidToken | src/services/calendarService.ts:101-114 | while the token stays valid, entry i is the outcome of creating task i's event alone, and the slot is unchanged |
| Calendar.EventsFromSnoc | src/services/calendarService.ts:104-113 | adding a task at the end of a batch adds exactly that task's entry, computed against the slot the earlier tasks left |
| Calendar.CreateCalendarEvent | src/services/calendarService.ts:69-98 | the outcome and the token slot afterwards are those of `CreateEvent` |
| Calendar.CreateEventsInBatch | src/services/calendarService.ts:101-114 | the loop's entries and the slot afterwards are those of `EventsFrom` |
| GoogleAuth.ParseIntOfDecimal | src/services/googleAuthService.ts:73 | `parseInt` reads back the decimal rendering of any non-negative integer |
| GoogleAuth.ParseIntDefault | src/services/googleAuthService.ts:73 | the default lifetime string "3600" parses as 3600 |
| GoogleAuth.Get | src/services/googleAuthService.ts:72-74 | `get` finds a value exactly when some parameter has the name, and the value is that of the FIRST such parameter |
| GoogleAuth.SearchParams | src/services/googleAuthService.ts:71 | `new URLSearchParams(query)`: the `&`-separated non-empty pieces, each split at its first `=` |
| GoogleAuth.ParamOr | src/services/googleAuthService.ts:73-74 | `params.get(name) || default`: the value when it is present and non-empty, the default otherwise |
| GoogleAuth.ParseInt | src/services/googleAuthService.ts:73 | `parseInt` without a radix: leading whitespace, one sign, then the longest digit prefix (hex after `0x`), NaN when there is none; it reads decimal renderings back (`GoogleAuth.ParseIntOfDecimal`) |
| GoogleAuth.PieceWithValue | src/services/googleAuthService.ts:71 | a plain `name=value` piece decodes to that name and value |
| GoogleAuth.ExpiresAt | src/services/googleAuthService.ts:80 | the expiry lies `expiresIn`·1000 ms after now, and is NaN exactly when the lifetime is |
| GoogleAuth.RedirectToken | src/services/googleAuthService.ts:70-94 | a hash not mentioning `access_token` rejects with "인증에 실패했습니다."; a hash mentioning it is decided by its parameters as `TokenFromParams` says; a stored token is never empty; the only rejections are the two messages |
| GoogleAuth.TokenFromParams | src/services/googleAuthService.ts:71-91 | accepted exactly when the `access_token` parameter is present and non-empty; the record holds that token, an expiry `expires_in` seconds after now (3600 when absent or empty) and the scope (empty when absent); otherwise it rejects with "액세스 토큰을 받지 못했습니다." |
| GoogleAuth.RedirectDefaultLifetime | src/services/googleAuthService.ts:70-83 | a hash carrying only a token stores it with an expiry one hour after now and an empty scope |
| GoogleAuth.RedirectWithLifetime | src/services/googleAuthService.ts:70-83 | a hash carrying a token and `expires_in=k` stores it with an expiry k seconds after now |
| GoogleAuth.RedirectEmptyToken | src/services/googleAuthService.ts:89-91 | a hash whose token is empty rejects with the missing-token message |
| GoogleAuth.Expired | src/services/googleAuthService.ts:173 | `Date.now() >= expiresAt`, where a missing expiry compares as 0 |
| GoogleAuth.AccessTokenAt | src/services/googleAuthService.ts:164-179 | the token is returned exactly when one is stored and not expired, and the slot is then left; an empty slot rejects asking for a login; an expired token is removed and rejects as expired |
| GoogleAuth.StoredAccount | src/services/googleAuthService.ts:104-130 | an account is found exactly when the slot survives: the token is valid and the lookup succeeded, and the account is the lookup's; an empty slot, an expired token or a failed lookup gives none and leaves the slot empty |
| GoogleAuth.AccountImpliesToken | src/services/googleAuthService.ts:104-179 | while an account is found, a token read at the same time succeeds with the stored token |
| GoogleAuth.ExpiredStaysGone | src/services/googleAuthService.ts:173-175 | once an expired token is removed, every later read asks for a login |
| GoogleAuth.StoredTokenLifetime | src/services/googleAuthService.ts:70-83 | a token stored from a redirect is served exactly until its lifetime has passed |
| GoogleAuth.DefaultTokenServedForAnHour | src/services/googleAuthService.ts:73-80 | with the default lifetime the token is served for exactly one hour after the redirect |
| GoogleAuth.GoogleTokenSlot.constructor | src/services/googleAuthService.ts:105 | the slot starts with what storage holds |
| GoogleAuth.GoogleTokenSlot.CompleteRedirect | src/services/googleAuthService.ts:70-94 | a rejected hash leaves the slot unwritten; an accepted one stores the record and then answers as the user-info lookup does, keeping the token even when the lookup fails |
| GoogleAuth.GoogleTokenSlot.LoginSilently | src/services/googleAuthService.ts:104-130 | the account and the slot afterwards are those of `StoredAccount` |
| GoogleAuth.GoogleTokenSlot.GetGoogleAccount | src/services/googleAuthService.ts:139-161 | the account and the slot afterwards are those of `StoredAccount`, as for silent login |
| GoogleAuth.GoogleTokenSlot.CheckStoredAccount | src/services/googleAuthService.ts:105-129 | the shared read, expiry check and lookup give what `StoredAccount` says |
| GoogleAuth.GoogleTokenSlot.Logout | src/services/googleAuthService.ts:133-136 | the slot is empty afterwards, whatever it held |
| GoogleAuth.GoogleTokenSlot.GetAccessToken | src/services/googleAuthService.ts:164-179 | the token and the slot afterwards are those of `AccessTokenAt` |
| GoogleAuth.LogoutScenario | src/services/googleAuthService.ts:133-136 | logging out twice leaves the slot empty, and then a token read asks for a login and silent login finds nothing |
| App.SendValidation | src/App.tsx:280-293 | sending goes ahead exactly when someone is signed in, there are tasks, and a list is chosen if Microsoft is signed in; no sign-in gives the login message, then no tasks the no-tasks message, then Microsoft without a list the select-list message |
| App.Dispatched | src/App.tsx:311-317 | the To Do batch is dispatched exactly when Microsoft is signed in and a list is chosen, the Calendar batch exactly when Google is signed in, and Microsoft's comes first |
| App.DestinationOf | src/App.tsx:332-341 | index 0 is Microsoft's when Microsoft is signed in and Google's otherwise; index 1 is Google's when Microsoft is signed in |
| App.DestinationsMatchDispatch | src/App.tsx:327-343 | after validation, the index mapping of the reduction names each dispatched batch's own destination |
| App.MappingNeedsValidation | src/App.tsx:311-343 | without the list check, the mapping would credit the Google batch to Microsoft |
| App.SuccessCount | src/App.tsx:329 | the success count is at most the number of entries, and equals it exactly when every entry was sent |
| App.SuccessCountOne | src/App.tsx:329 | one entry counts one exactly when it was sent |
| App.SuccessCountAppend | src/App.tsx:329 | counting works piecewise, so the count is the number of sent entries |
| App.Tally | src/App.tsx:322-343 | the four counters after the `forEach` over the settled batches, each written by its index's destination |
| App.TallyByDestination | src/App.tsx:322-343 | after a validated send, each signed-in destination's counters are the success and total counts of its own batch, and a destination not signed in stays at 0/0 |
| App.TallyOfTwo | src/App.tsx:327-343 | the reduction of two settled batches is the reduction of the first followed by the second |
| App.ClearedIffEverySent | src/App.tsx:354-356 | when both batches were fulfilled, all-success holds exactly when every entry of every dispatched batch was sent |
| App.RejectedCountsAsSuccess | src/App.tsx:322-356 | a rejected batch leaves its destination at 0/0, which counts as success |
| App.Messages | src/App.tsx:346-352 | one line per signed-in destination: `Microsoft: s/t` first when Microsoft is signed in, `Google: s/t` last when Google is |
| App.AllSuccess | src/App.tsx:354-356 | every signed-in destination has as many successes as entries |
| App.SummaryMessage | src/App.tsx:361 | the lines joined by ", " and followed by " 성공" |
| App.SummaryMessageShape | src/App.tsx:346-361 | for any counts the report is `Microsoft: s/t, Google: s/t 성공`, `Microsoft: s/t 성공` or `Google: s/t 성공`, by who is signed in |
| App.SummaryExample | src/App.tsx:346-361 | two of three To Do tasks and three of three events are reported as "Microsoft: 2/3, Google: 3/3 성공" |
| App.TallyResults | src/App.tsx:322-343 | the loop with four mutable counters computes the reduction `Tally` |
| App.DispatchBatches | src/App.tsx:309-319 | one fulfilled entry list per dispatched batch, each as long as the task list; the To Do one is the To Do batch for the chosen list and the Calendar one is the Calendar batch against the token slot |
| App.RemoveById | src/App.tsx:236-238 | no task with the id survives, and the list does not grow |
| App.RemoveByIdMembers | src/App.tsx:236-238 | exactly the tasks with another id survive |
| App.RemoveByIdAppend | src/App.tsx:236-238 | removal works piecewise, so the survivors keep their order |
| App.RemoveByIdIdempotent | src/App.tsx:236-238 | deleting twice is deleting once |
| App.Stamp | src/App.tsx:257-264 | each analysed item becomes a task with its own minted id and timestamp, in order |
| App.Details | src/App.tsx:299-306 | the details sent are the tasks' details, in order |
| App.PrependThenDelete | src/App.tsx:236-270 | a prepended analysis stays in front of the older tasks, and deleting an id only among the new tasks leaves the older ones untouched |
| App.AppState.constructor | src/App.tsx:40-60 | the initial state: no input, no tasks, signed out, no list selected, not sending |
| App.AppState.CheckAuth | src/App.tsx:63-103 | Microsoft's flag is its silent sign-in outcome; Google's is whether silent login found an account, with the slot updated as it says; signed in is their disjunction; nothing else changes |
| App.AppState.HandleLogout | src/App.tsx:154-173 | when the Microsoft logout throws, nothing changes; otherwise all three flags are cleared, the lists and the selection are emptied, and the Google slot is emptied if Google was signed in |
| App.AppState.HandleDeleteTask | src/App.tsx:236-238 | the task list becomes `RemoveById` of the old one and nothing else changes |
| App.AppState.HandleAnalyze | src/App.tsx:240-276 | empty input sets the error without calling the model and keeps the input; otherwise the analysis runs as `Analyze` specifies; on success the new tasks go in front of the old ones and the input is cleared; on failure the tasks and input stay and the error is set |
| App.AppState.HandleSendToBoth | src/App.tsx:278-369 | a failed validation sets its error and changes nothing else; otherwise the chosen batches are sent, each as its dispatcher specifies; the tasks are cleared exactly when every signed-in destination's counts match, and otherwise the summary message is shown; sending is off at the end |

## Left out

- Percent-decoding in `URLSearchParams` is not modelled. Only `+` becomes a space; a hash with `%` escapes is read verbatim.
- ParseInt: values are exact integers; the floating-point rounding of very long digit strings by `parseInt` is not modelled. Like `parseInt`, it reads the longest digit prefix, so "1.5" reads as 1 and "Infinity" as NaN.
- A corrupt slot value (a `JSON.parse` throw) is not modelled. The slot holds a well-formed record or nothing, and `expiresAt` is `None` where the stored JSON would hold `null`.
- `loadTodoLists` and `getTodoLists` are not modelled; the To Do lists appear only as state that logout empties.
- `authService.ts` (MSAL) is not part of this model. Microsoft's silent sign-in and a throwing logout are parameters of `CheckAuth` and `HandleLogout`.
- User interface: JSX, dark mode, file reading, paste and camera input, and `TaskCard.tsx` are left out. Attachments are kept only as a list, to decide whether input is empty.
- Popup handling in `loginGoogle` is left out. This covers opening the popup, `setInterval` polling, cross-origin exceptions, and a blocked or closed popup. Only the branch from the redirect hash to the stored record is modelled.
- `setTimeout` waits are not taken; their lengths are recorded in the `delays` trace.
- `Promise.allSettled` runs the two batches in parallel; the model runs them one after the other, which the batches' independence allows.
- The "Please retry in Ns" match and its `parseFloat` are abstracted to an optional whole number of seconds carried by the error.
- `Date`, `Date.now()` and `toISOString` are oracles: a clock and an ISO rendering that may fail for an invalid date.
- The prompt text and response schema, `crypto.randomUUID` (the `newId` parameter) and `console` logging are left out.
- The user name, e-mail and picture shown in the header are display-only and are not kept in the auth state.
- StepOf: a response whose text parses as JSON but is not an array of item objects (`null`, `{}`, `[null]`) makes the item mapping throw after the cursor was already moved past the key; the model has the oracle return only arrays of items, so this failure, which would reject while leaving the cursor moved, is not modelled.
- The catch branch of `handleSendToBoth` is not modelled. Neither batch dispatcher ever throws, so that branch cannot be reached.
- A `JSON.parse` failure on the Gemini response is not modelled separately; it is one of the failures the oracle can return.
- `getUserInfo` is the `userInfo` oracle; its HTTP call and error text are not modelled.
- The text of the quota error, which mentions the wait in whole seconds, is not modelled; only its `retryAfter` value is kept.
- The exact `Error` objects are reduced to their messages (`string`) in the batch entries.
