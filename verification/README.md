# Eqivo desktop client: call tracking, status provider, call store, start handler, Home page

This project models the core of the Eqivo desktop client in Dafny. The client is an Electron
application that places outbound telephone calls through the Eqivo provider, stores them in a
local SQLite table and polls each call until it ends. The model covers five parts:

- **Status provider** (`EqivoService`):
  - normalising the provider's status through its fixed table;
  - the status lookup's field precedence, its `unknown` answer and its 404-means-`ended` rule;
  - the simulated provider, which reads a call's age from its `mock-<ms>-<digits>` id;
  - input checks and id extraction when a call is started;
  - the mapping from HTTP errors to messages;
  - the process-wide mock/live flag (class `ServiceMode`).
- **Call store** (`CallDb`): the `calls` table as a map from id to row, in class `CallStore`.
  `saveCall` inserts or replaces, `updateCallStatus` changes one row's status, and `getCalls`
  lists every row newest first.
- **Call tracker** (`CallTracker`): class `Tracker` owns the `activeCalls` map and, per
  session, the timer callback's window and live last status. Timer ticks are serialised
  method calls. Ghost logs record store writes, `call:status` events and notifications.
  `RunTicks` is proved to report, over a run of successful queries, exactly `Emitted`:
  the queried statuses without repeats, up to and including the first `ended`.
- **IPC handlers** (`CallIpc`):
  - `call:start`, with its number check and caller-id fallback;
  - the provider call, save, notification, tracking and reply, in that order;
  - one `call:error` reply when any step throws;
  - the mock-mode and history handlers.
- **Home page** (`HomePage`): the renderer's state as class `HomeState`. It covers the list
  update on `call:status`, call-button validation, error display, the mock-mode switch and
  `getStatusColor`.

JavaScript string behaviour the code relies on is modelled in `JsText`. That covers `trim`,
`toLowerCase`, truthiness and `||` on optional strings, `split`, `parseInt` and decimal
rendering. The HTTP exchange, the clock and `Math.random` are parameters.

Some behaviours of the code are easy to misread. The model keeps each one as the code has it:

- `failed` is not terminal (apps/desktop/src/state/callTracker.ts:49-56). Only a change to
  `ended` clears the timer and forgets the session, so a failed call keeps being polled
  (`CallTracker.Tracker.Tick`).
- An unmapped provider status comes back lower-cased (apps/desktop/src/services/eqivo.service.ts:200-217,
  `EqivoService.Normalize`).
- The tracker's map entry keeps `lastStatus = "initiated"` for good (apps/desktop/src/state/callTracker.ts:23-63).
  The comparison uses the timer callback's own variable, modelled as `pollers`.
- A status body with no status field and no call id throws inside the `try`
  (apps/desktop/src/services/eqivo.service.ts:190-196). The caller therefore sees the error with
  the prefix `Failed to get call status: ` (`EqivoService.StatusOfBody`).
- A create-call answer with no id also throws inside the `try`
  (apps/desktop/src/services/eqivo.service.ts:112-118). It is reported as
  `Failed to start call: API response did not contain a call UUID. ...`.
- The simulated provider reports `ended` from 4000 ms of age on
  (apps/desktop/src/services/eqivo.service.ts:329-337), and the polling interval is 4000 ms
  (apps/desktop/src/state/callTracker.ts:61). The first tick therefore already finds a simulated
  call `ended`, and tracking it reports `ended` alone (`CallTracker.MockPollingReportsOnlyEnded`).
- The error banner's five-second timer clears whatever error is shown at that moment, even a
  newer one (apps/frontend/src/pages/Home.tsx:90, `HomePage.HomeState.ExpireError`).

## Model

| member | source | states |
|---|---|---|
| JsText.BlankIffTrimEmpty | apps/desktop/src/ipc/call.ipc.ts:22 | `!s.trim()` holds exactly when every character of `s` is white space, the test used for the number, the destination, the caller id and the call id |
| JsText.Trim | apps/desktop/src/services/eqivo.service.ts:123 | `trim` removes only white space, and only at the two ends: the result is a middle part of the input between two blank strings, and it neither starts nor ends with white space |
| JsText.TrimIdempotent | apps/desktop/src/services/eqivo.service.ts:123 | trimming already trimmed text changes nothing, so the number the handler trims once and the service trims again is trimmed once |
| JsText.FirstTruthy | apps/desktop/src/services/eqivo.service.ts:185-188 | `a \|\| b \|\| c` is the first present non-empty field, and none exactly when no field is truthy |
| JsText.ToLower | apps/desktop/src/services/eqivo.service.ts:200 | the result has the input's length, and each character is the lower-case form of the input's character at the same place |
| JsText.ToLowerIdempotent | apps/desktop/src/services/eqivo.service.ts:200 | lower-casing twice equals lower-casing once |
| JsText.Split | apps/desktop/src/services/eqivo.service.ts:321 | `split` yields the pieces between separators: at least one field, none containing the separator, and joining them with the separator gives back the input |
| JsText.SplitAtFirst | apps/desktop/src/services/eqivo.service.ts:321 | `split("-")` of text without `-` followed by `-` and more yields that text as the first field |
| JsText.ParseInt | apps/desktop/src/services/eqivo.service.ts:321 | blank text is NaN, and a negative result needs a `-` after the leading white space |
| JsText.ParseIntOfWord | apps/desktop/src/services/eqivo.service.ts:321 | text that starts with a letter parses to NaN |
| JsText.ParseIntOfNatToString | apps/desktop/src/services/eqivo.service.ts:301-303 | `parseInt` reads back the decimal rendering of any non-negative number |
| EqivoService.Normalize | apps/desktop/src/services/eqivo.service.ts:200-217 | the lower-cased status maps `in-progress` to `answered`; `completed`, `hangup`, `cancelled` and `ended` to `ended`; `busy`, `no-answer` and `failed` to `failed`; the other canonical names to themselves; any unmapped value to its lower-cased form |
| EqivoService.NormalizeIsLowerCase | apps/desktop/src/services/eqivo.service.ts:200-217 | normalisation ignores letter case and always yields a lower-case string |
| EqivoService.NormalizeIdempotent | apps/desktop/src/services/eqivo.service.ts:200-217 | normalising a normalised status leaves it unchanged |
| EqivoService.NormalizeCanonicalOrPassedThrough | apps/desktop/src/services/eqivo.service.ts:200-217 | the result is a canonical status or an unmapped value in lower case |
| EqivoService.StatusTableLookupAsWritten | apps/desktop/src/services/eqivo.service.ts:203-217 | `statusMap[key]` finds an own property exactly for the table's keys, and that value is a status of the application; it finds an inherited property exactly for `constructor` and `__proto__`; otherwise it is `undefined` |
| EqivoService.NormalizeAsWritten | apps/desktop/src/services/eqivo.service.ts:200-217 | the expression as written yields an object exactly for the two inherited names, and otherwise the same string as `Normalize` |
| EqivoService.NormalizeAsWrittenReturnsInherited | apps/desktop/src/services/eqivo.service.ts:203-217 | as written, status `Constructor` yields the inherited `Object` constructor instead of the string `constructor` |
| EqivoService.NormalizeAsWrittenAgrees | apps/desktop/src/services/eqivo.service.ts:203-217 | outside the two inherited property names, the table lookup as written agrees with `Normalize` |
| EqivoService.GetCallStatus | apps/desktop/src/services/eqivo.service.ts:171-237 | a status is returned only for a non-blank id; every error is `Call UUID is required` or carries the prefix `Failed to get call status: `; for a non-blank id and a failed request, a status is returned exactly when the failure is a 404 |
| EqivoService.StatusOfBody | apps/desktop/src/services/eqivo.service.ts:185-217 | a body fails exactly when it has neither a truthy status field nor a call id, with `Call status not found in API response`; any status other than `unknown` is the normalised status field; every status is lower case |
| EqivoService.GetCallStatusCases | apps/desktop/src/services/eqivo.service.ts:171-237 | a blank id is rejected before any request; the first truthy of `CallStatus`, `status`, `call_status` is normalised; no status field with a call id gives `unknown`, and without one an error with the prefix; a 404 gives `ended`; any other failure is an error with the prefix |
| EqivoService.GetCallStatusOutcome | apps/desktop/src/services/eqivo.service.ts:185-217 | a successful lookup yields a canonical status or an unmapped lower-case value |
| EqivoService.GetCallStatusMock | apps/desktop/src/services/eqivo.service.ts:316-338 | the simulated status is always one of `initiated`, `ringing`, `answered` and `ended` |
| EqivoService.MockStatus | apps/desktop/src/services/eqivo.service.ts:329-337 | `initiated` iff age < 1000, `ringing` iff 1000 <= age < 2000, `answered` iff 2000 <= age < 4000, `ended` iff age >= 4000 |
| EqivoService.MockStatusMonotone | apps/desktop/src/services/eqivo.service.ts:329-337 | an older call is never at an earlier simulated stage |
| EqivoService.MockId | apps/desktop/src/services/eqivo.service.ts:301-303 | a simulated id starts with `mock-`, and with base-36 digits it splits at `-` into exactly `mock`, the decimal creation time and the digits |
| EqivoService.MockCreatedAt | apps/desktop/src/services/eqivo.service.ts:321 | `parseInt(id.split("-")[1]) \|\| now` is never 0 unless `now` is |
| EqivoService.SecondField | apps/desktop/src/services/eqivo.service.ts:301-303 | the second `-` field of `mock-<w>-<rand>` is `w` when `w` has no `-`, as in an id made from a clock reading |
| EqivoService.MockIdRoundTrip | apps/desktop/src/services/eqivo.service.ts:301-337 | a simulated id reads back its creation time, so its status is that of its true age |
| EqivoService.CreatedAtOfSecondField | apps/desktop/src/services/eqivo.service.ts:321 | an id whose second field parses to a non-zero time is read as created then |
| EqivoService.MockFallbackIsInitiated | apps/desktop/src/services/eqivo.service.ts:321-330 | an id with no second field, or whose second field is NaN or 0, reads as created now, hence age 0 and `initiated` |
| EqivoService.UnparsableIdIsInitiated | apps/desktop/src/services/eqivo.service.ts:321-330 | an id `mock-<w>-<rand>` whose second field starts with a letter is `initiated` whatever the clock says |
| EqivoService.ZeroIdIsInitiated | apps/desktop/src/services/eqivo.service.ts:321-330 | an id `mock-0-<rand>` is `initiated` whatever the clock says, because `0 \|\| now` is `now` |
| EqivoService.StartedCall | apps/desktop/src/services/eqivo.service.ts:121-126 | the returned call has the given id, status `initiated`, the clock reading, and the destination trimmed, so it has no outer white space |
| EqivoService.StartErrorMessage | apps/desktop/src/services/eqivo.service.ts:137-162 | 400 gives `Invalid request: ...`; 401, 404 and 405 give their fixed messages; other codes give `API request failed (<code>): ...`; no response gives `Failed to start call: <message>`; the message is never empty |
| EqivoService.StartOutboundCall | apps/desktop/src/services/eqivo.service.ts:57-164 | a blank destination, then a blank caller id, is rejected; success holds exactly when the answer carries one of `RequestUUID`, `CallUUID`, `call_uuid`, `id`; the call has the first of them as id, status `initiated`, the trimmed destination and the clock reading; an HTTP failure gives its mapped message |
| EqivoService.StartOutboundCallMock | apps/desktop/src/services/eqivo.service.ts:293-311 | the call is `initiated` with the trimmed destination, and its id reads back the first clock reading |
| EqivoService.StartWithMode | apps/desktop/src/services/eqivo.service.ts:343-352 | with the flag set the call goes to the simulated provider with the clock reading; with it clear, to the live provider with the HTTP answer |
| EqivoService.StatusWithMode | apps/desktop/src/services/eqivo.service.ts:357-364 | with the flag set the status comes from the simulated provider; with it clear, from the live lookup |
| EqivoService.ServiceMode.constructor | apps/desktop/src/services/eqivo.service.ts:279 | mock mode starts off |
| EqivoService.ServiceMode.SetMockMode | apps/desktop/src/services/eqivo.service.ts:281-284 | the flag takes the given value |
| EqivoService.ServiceMode.GetMockMode | apps/desktop/src/services/eqivo.service.ts:286-288 | returns the flag's value, the one last set |
| EqivoService.ServiceMode.StartOutboundCallWithMode | apps/desktop/src/services/eqivo.service.ts:343-352 | starts the call through the simulated provider exactly when the flag is set |
| EqivoService.ServiceMode.GetCallStatusWithMode | apps/desktop/src/services/eqivo.service.ts:357-364 | asks the simulated provider exactly when the flag is set |
| CallDb.Listed | apps/desktop/src/db/db.ts:55-58 | a listed call keeps the row's id and holds `to_number` as `to` with status and timestamp as stored |
| CallDb.WithStatus | apps/desktop/src/db/db.ts:68-70 | the update changes only the status of the row with that id; an id with no row leaves the table unchanged |
| CallDb.WithStatusTwice | apps/desktop/src/db/db.ts:68-70 | updating a row's status twice leaves the second status |
| CallDb.InsertNewestFirst | apps/desktop/src/db/db.ts:48 | placing a call in a listing adds exactly that call: the result is a permutation of the listing plus the call |
| CallDb.InsertKeepsDistinctIds | apps/desktop/src/db/db.ts:48 | placing a call whose id is not yet listed keeps the listed ids distinct |
| CallDb.InsertKeepsNewestFirst | apps/desktop/src/db/db.ts:48 | placing a call keeps a listing ordered by timestamp descending |
| CallDb.SavedCallIsListed | apps/desktop/src/db/db.ts:36-58 | a saved call appears in the listing with the same id, destination, status and timestamp |
| CallDb.UpdatedCallIsListed | apps/desktop/src/db/db.ts:48-70 | after a status update the listing shows the new status with the row's other fields, and every other call as before |
| CallDb.ListingStep | apps/desktop/src/db/db.ts:48-58 | listing one more row keeps the partial listing complete for the rows done and ordered |
| CallDb.CallStore.constructor | apps/desktop/src/db/db.ts:18-24 | a new table is empty |
| CallDb.CallStore.SaveCall | apps/desktop/src/db/db.ts:32-42 | insert-or-replace: the id's row becomes the call's, every other row is kept |
| CallDb.CallStore.UpdateCallStatus | apps/desktop/src/db/db.ts:65-74 | the table becomes `WithStatus` of the old one, so a missing id is not an error |
| CallDb.CallStore.GetCalls | apps/desktop/src/db/db.ts:44-63 | every row appears exactly once, renamed, with timestamps descending |
| CallTracker.NoticeFor | apps/desktop/src/state/callTracker.ts:39-53 | a notification is raised exactly for `ringing`, `answered` and `ended` |
| CallTracker.Emitted | apps/desktop/src/state/callTracker.ts:23-56 | the reported statuses are no more than the queried ones, and each of them was queried |
| CallTracker.WritesFor | apps/desktop/src/state/callTracker.ts:32 | one store write per reported status, for the tracked id and in order |
| CallTracker.EventsFor | apps/desktop/src/state/callTracker.ts:34-37 | one `call:status` event per reported status, to the tracking window, for the tracked id and in order |
| CallTracker.EmittedIsCompressedThroughEnded | apps/desktop/src/state/callTracker.ts:23-56 | the reported statuses are the queried ones with repeats and a leading `initiated` dropped, cut after the first `ended` |
| CallTracker.EmittedHasNoRepeats | apps/desktop/src/state/callTracker.ts:29-30 | no reported status equals the one reported before it, and the first differs from the starting status |
| CallTracker.EmittedIsSubsequence | apps/desktop/src/state/callTracker.ts:27-37 | the reported statuses are taken in order from the queried ones |
| CallTracker.EmittedStopsAtEnded | apps/desktop/src/state/callTracker.ts:49-56 | `ended`, once reported, is the last status reported and appears once |
| CallTracker.MockPollingReportsOnlyEnded | apps/desktop/src/state/callTracker.ts:25-61 | polling a simulated call at 4000 ms or later reports `ended` and nothing else |
| CallTracker.Tracker.constructor | apps/desktop/src/state/callTracker.ts:18 | no call is tracked, no timer runs and the logs are empty |
| CallTracker.Tracker.Start | apps/desktop/src/state/callTracker.ts:20-64 | an id already tracked changes nothing; otherwise one new session with last status `initiated` and one new timer handle |
| CallTracker.Tracker.Stop | apps/desktop/src/state/callTracker.ts:66-72 | the id is untracked afterwards; a tracked id's timer is cleared; an untracked id changes nothing |
| CallTracker.Tracker.Tick | apps/desktop/src/state/callTracker.ts:25-61 | without a change, nothing changes. With a change, the last status is set, then the store is written, the event sent and the notification raised, each unless an earlier step threw. Only a delivered `ended` clears the timer and forgets the session |
| CallTracker.Tracker.Report | apps/desktop/src/state/callTracker.ts:29-56 | the live last status is set before the write, so a failed write or send leaves it updated and skips the later steps |
| CallTracker.Tracker.Announce | apps/desktop/src/state/callTracker.ts:34-56 | sends `{callId, status}` to the window, adds the status's notification, and on `ended` stops the session |
| CallTracker.Tracker.Poll | apps/desktop/src/state/callTracker.ts:25-61 | the tick queries the provider the mode flag selects at that moment. Without a change nothing changes. With a change, the writes, row, event, notification, sessions and timers are as for `Tick` with that answer. A session ends only on that provider's `ended` |
| CallTracker.Tracker.RunTicks | apps/desktop/src/state/callTracker.ts:23-61 | over successful ticks, the store writes, events and notifications are exactly those of `Emitted`, the row holds the last reported status, and the session is live iff `ended` was not reported; other sessions and the next timer handle are untouched |
| CallTracker.Tracker.SuccessfulTick | apps/desktop/src/state/callTracker.ts:27-57 | one successful tick keeps the run in step with `Emitted` |
| CallTracker.Tracker.ReportedTick | apps/desktop/src/state/callTracker.ts:29-56 | a reported change extends the reported statuses and every log by that status |
| CallTracker.LostEndedIsNotRetried | apps/desktop/src/state/callTracker.ts:30-60 | after a tick whose `ended` fails to be written, later `ended` answers write, send and notify nothing, and the session is never torn down |
| CallIpc.ReportedMessage | apps/desktop/src/ipc/call.ipc.ts:71-72 | `err.message`, else `err.response.data.message`, else `Failed to start call`; never empty |
| CallIpc.ResolveFrom | apps/desktop/src/ipc/call.ipc.ts:31-43 | `EQIVO_FROM`, else `CALLER_ID`, else `MOCK-CALLER-123` in mock mode, else the `.env` error |
| CallIpc.PrepareCall | apps/desktop/src/ipc/call.ipc.ts:22-47 | a missing or blank number fails with `Phone number is required` before the caller id is resolved; then the caller id; then the provider the flag selects, given the trimmed number |
| CallIpc.PreparedCallIsInitiated | apps/desktop/src/ipc/call.ipc.ts:22-47 | a started call was requested with a non-blank number and is `initiated` for the trimmed number |
| CallIpc.StartCall | apps/desktop/src/ipc/call.ipc.ts:22-47 | the handler's first steps, reading the flag once, compute `PrepareCall` |
| CallIpc.StartErrorsAreReportedVerbatim | apps/desktop/src/ipc/call.ipc.ts:67-77 | every error thrown before saving has a message, which `call:error` carries unchanged |
| CallIpc.HandleCallStart | apps/desktop/src/ipc/call.ipc.ts:19-78 | an error before saving gives one `call:error` and changes neither the store nor the tracker. A failed save gives one `call:error` and skips the notification, tracking and reply. Otherwise the call is saved, announced, tracked and sent back. A newly tracked call takes the next timer handle, and no status write, event or tick notification is logged. The handler and the tracker share one store |
| CallIpc.RecordCall | apps/desktop/src/ipc/call.ipc.ts:50-77 | for a started call: save, then `Call Started` notification, then tracking, then the `{status, call}` reply. An error thrown earlier, or a failed save, gives one `call:error` with the reported message and changes neither the store nor the tracker. A newly tracked call takes the next timer handle, and the tracker's logs are untouched |
| CallIpc.HandleMockModeSet | apps/desktop/src/ipc/call.ipc.ts:89-92 | sets the flag |
| CallIpc.HandleMockModeGet | apps/desktop/src/ipc/call.ipc.ts:85-87 | returns the flag |
| CallIpc.HandleCallHistory | apps/desktop/src/ipc/call.ipc.ts:80-82 | returns the store's listing: every row once, newest first |
| HomePage.Ids | apps/frontend/src/pages/Home.tsx:57 | the listed ids in order |
| HomePage.FindIndex | apps/frontend/src/pages/Home.tsx:57 | the first position listing the id, and -1 exactly when no entry has it |
| HomePage.WithCall | apps/frontend/src/pages/Home.tsx:55-64 | an unlisted call is prepended; a listed one has only its entry's status replaced, in place |
| HomePage.SetStatusWhere | apps/frontend/src/pages/Home.tsx:66-71 | every entry with the id takes the new status; all else is unchanged |
| HomePage.UpdatesKeepIds | apps/frontend/src/pages/Home.tsx:55-71 | both updates keep the listed ids, except that a new call is added first |
| HomePage.UnknownIdIsIgnored | apps/frontend/src/pages/Home.tsx:66-71 | a status for an unlisted id leaves the list as it is |
| HomePage.WithCallIdempotent | apps/frontend/src/pages/Home.tsx:55-64 | delivering a start reply twice lists the call once |
| HomePage.UpdatesAgreeOnListedCall | apps/frontend/src/pages/Home.tsx:55-71 | with distinct ids and the call listed, both updates give the same list |
| HomePage.GetStatusColor | apps/frontend/src/pages/Home.tsx:146-161 | grey exactly for statuses other than `initiated`, `ringing`, `answered` and `failed`; red exactly for `failed` |
| HomePage.HighlightedColorsDiffer | apps/frontend/src/pages/Home.tsx:146-161 | the four highlighted statuses have four different colours |
| HomePage.HomeState.constructor | apps/frontend/src/pages/Home.tsx:12-16 | empty number and list, not loading, no error, mock mode off |
| HomePage.HomeState.SetNumber | apps/frontend/src/pages/Home.tsx:12 | only the number changes |
| HomePage.HomeState.HandleCall | apps/frontend/src/pages/Home.tsx:124-140 | a blank number shows `Please enter a phone number`; a missing bridge shows its error; otherwise loading, the error cleared, the untrimmed number sent and the input cleared |
| HomePage.HomeState.HandleStatus | apps/frontend/src/pages/Home.tsx:45-73 | loading clears exactly on `initiated` or `ended`; the list becomes `WithCall` when a call is carried and `SetStatusWhere` otherwise |
| HomePage.HomeState.HandleError | apps/frontend/src/pages/Home.tsx:87-89 | shows the message and clears loading |
| HomePage.HomeState.ExpireError | apps/frontend/src/pages/Home.tsx:90 | the banner is cleared, whatever it then shows |
| HomePage.HomeState.HandleToggleMockMode | apps/frontend/src/pages/Home.tsx:35-39 | the switch is negated and that same value is sent |
| HomePage.HomeState.HandleMockModeChanged | apps/frontend/src/pages/Home.tsx:104-106 | the switch takes the tray's value |
| HomePage.HomeState.LoadCallHistory | apps/frontend/src/pages/Home.tsx:115-122 | the main process's listing replaces the list; a failed request keeps it |
| HomePage.HomeState.LoadMockMode | apps/frontend/src/pages/Home.tsx:26-33 | the main process's flag is shown; a failed request keeps the switch |

## Left out

- HTTP transport: the axios requests, headers, the API key and the environment reads are not modelled. A response is a record of optional body fields, or a failure with its HTTP status and message. Environment values are a parameter.
- `getCallDetails` (apps/desktop/src/services/eqivo.service.ts:244-276) is not modelled. No part of the tracked flow calls it.
- Building the create-call request (`params.append`, gateways, answer URL) is not modelled. It only fills the HTTP body.
- `JSON.stringify(response.data)` in the missing-id message is a given string field of the response record.
- Timers and concurrency: `setInterval`, `clearInterval`, the artificial delays, overlapping ticks when a query outlasts 4000 ms, and a tick racing `stopTracking` are not modelled. Ticks are serialised method calls. A cleared timer is a handle removed from `running`.
- Clock and randomness: `Date.now()` and `Math.random()` are parameters. `getCallStatusMock` reads the clock twice; the model uses one reading for both.
- `startOutboundCallMock` takes the base-36 digits as a string without `-`. The slice of `Math.random().toString(36)` is not modelled.
- SQLite internals, `getDb`, the lazy opening and file paths are not modelled. The table is an in-memory map. A failed save is a parameter of the start handler.
- Database errors in a tick are the `WriteFault` parameter; a failed send to the window is `SendFault`. A query failure is an `Err` answer.
- Electron plumbing is not modelled: windows, tray, menu, the preload bridge, the browser stubs and logging. `Notification.show()` and `webContents.send` are entries in ghost logs.
- The start handler's window lookup is the `win` parameter. Its notification is returned as a value.
- The start handler's steps after the save cannot fail in the model: the `Call Started` notification (apps/desktop/src/ipc/call.ipc.ts:53-56), the window lookup at line 59 and the reply sent with `event.sender.send` at lines 63-66. A throw from any of them, and the `call:error` reply it would cause after the call is saved and tracked, is not modelled.
- Rendering: JSX, `formatDate` and the scheduling of the five-second error timer are not modelled. Only the timer's effect is modelled, by `ExpireError`.
- `toLowerCase` folds only ASCII letters. Non-ASCII case mappings are not modelled.
- Numbers are unbounded integers. JavaScript's double precision for very large timestamps is not modelled.
- `parseInt` is modelled on digit strings as unbounded integers. JavaScript's float rounding of long digit strings is not modelled.

## Findings

| source | as written | input that shows it | evidently intended | confidence | as-written member | corrected member |
|---|---|---|---|---|---|---|
| apps/desktop/src/services/eqivo.service.ts:203-217 | `statusMap[normalizedStatus] \|\| normalizedStatus` indexes a plain object literal, so keys inherited from `Object.prototype` are found too | provider status `Constructor` (or `__proto__`) yields the `Object` constructor (or `Object.prototype`), not a string | a status not in the table comes back lower-cased (`constructor`) | not executed; needs a provider to send that status | EqivoService.NormalizeAsWrittenReturnsInherited | EqivoService.NormalizeCanonicalOrPassedThrough |
