# Licence, subscription and AI-proxy server: a verified model

The model covers the parts of the server that carry state over many requests, and proves what they
keep over every run.

* **Generation tasks and credits** (`Ledger`, `CreditLaw`, `Credits`, `Files`, `Query`, `Polling`, `TurnLaw`,
  `Waiting`, `StartLaw`, `Runner`, `ChatLaw`, `Chat`). Users buy credits, a task reserves its price, a poller drives it to an end, and a failure gives
  the price back; `Waiting` bounds how long that takes. Chat requests do the same at once.
* **Device slots** (`DeviceLaw`, `AccessLaw`, `BlacklistLaw`, `Devices`). Licences and subscriptions bind machines under a
  device limit, unbinding is rationed, sessions follow the devices, and machines get black-listed.
* **WebSocket hub** (`HubLaw`, `Hub`). Connections register, replace each other and leave; senders push to
  their channels.
* **Rate limiter** (`RateLaw`, `RateLimit`), **version arithmetic** (`Versions`, `TextLaw`), **hot-update logs**
  (`HotUpdateLaw`, `ReportLaw`, `HotUpdates`).
* **Versioned data**: table rows with optimistic writes and incremental pulls (`DataSyncLaw`, `WriteLaw`,
  `DataSync`), backup chains (`BackupLaw`, `Backups`), encryption of secrets in JSON (`SensitiveJson`,
  `StoredLaw`).
* **Model routing** (`RoutingLaw`, `RouteChoice`, `Routing`): what is advertised against what is routable, and
  which credential serves.

Each component comes in layers. A `...Law` module (or `Ledger`, `Polling`, `Waiting`, `Files`, `Versions`,
`SensitiveJson`) holds the tables as values, one function per transaction or handler, and the lemmas over
all runs. Beside it stand the conditions and effects of each operation in terms of the rows' own fields, with
the server's names and numbers written out (`CreditLaw`, `TurnLaw`, `StartLaw`, `ChatLaw`, `AccessLaw`,
`ReportLaw`, `WriteLaw`, `StoredLaw`, `RouteChoice`, `TextLaw`). Another module holds the code's own form: a
class with the mutable tables, loops, early returns and in-place updates, every method proved to perform
exactly the specified step. The classes carry a ghost `trace`, so whatever is proved of runs holds of the
objects. A database transaction or handler is one step;
time is a parameter; random ids arrive as parameters that must be fresh; database and network errors are
parameters that may strike at the points where the code checks for them.

Where the code falls short of what its documentation suggests, the code is modelled and the shortfall is
stated with a concrete input and, where there is one, the exact condition:

* a success, or an upstream id, written after the refund (`Ledger.LateSuccessBreaksCharge`,
  `Ledger.OvertakenTaskIsFree`, `Ledger.OvertakenAttachIsLost`);
* head-of-line blocking in the poller until the timeout clears it (`Waiting.WaitingIsBoundedIff`,
  `Waiting.TimeoutBoundsWaiting`, `Waiting.FiftyStuckTasksStarve`);
* a failing revoke whose error is dropped (`DeviceLaw.IssueKeepsSingleIff`, `DeviceLaw.FailedRevokeLeavesTwo`);
* black-list marks left without an entry (`BlacklistLaw.MarkOrphanedIff`, `BlacklistLaw.DeletedMarkIsForever`,
  `BlacklistLaw.HalfUnblacklistStrands`);
* a delete that fails half-way (`HotUpdateLaw.CountersExactIff`, `HotUpdateLaw.HalfDeleteLeavesCounter`);
* versions nobody was given (`DataSyncLaw.AheadOfServerOverwrites`), writes between a query and its
  `server_time` (`DataSyncLaw.MirrorIsCompleteIff`, `DataSyncLaw.WriteIsPickedUpIff`,
  `DataSyncLaw.GapWriteIsMissed`) and a failing query that is stamped all the same
  (`DataSyncLaw.FailedQuerySkipsRows`);
* numbers that a 64-bit float cannot hold and secrets that look encrypted already
  (`SensitiveJson.DecryptAfterEncrypt`, `SensitiveJson.LargeNumberChanges`, `SensitiveJson.UnreadableStaysPlain`);
* mixed version components (`Versions.MixedComponentsCycle`) and version codes of different lengths
  (`Versions.CodeOrdersShorterIff`, `Versions.CodeOrdersLongerIff`, `Versions.CodeMisleadsAcrossLengths`).

## Model

| member | source | states |
|---|---|---|
| `Ledger.LedgerConservation` | internal/service/credit.go:53-296 | Over every run of credit, generation and chat steps that rewrites task rows only while Running: the start-up self-check finds nothing, no balance is negative, and each balance is the administrators' adjustments less what the user's tasks cost. |
| `Ledger.NetChargeLaw` | internal/service/credit.go:368-487 | Over every such run: a task, generation or chat, is charged once, refunded at most once, and the log's net charge is its price unless it is Failed and refunded, then 0. |
| `Ledger.BooksAlwaysBalance` | internal/service/credit.go:518-542 | In every run whatsoever, however late writes overtake refunds: the self-check finds nothing, no balance is negative, and no task is charged or refunded twice. |
| `Ledger.TerminalIsAbsorbing` | internal/service/async_runner.go:366-415 | Succeeded and Failed rows never change again in any run that rewrites rows only while Running. |
| `Ledger.LateSuccessBreaksCharge` | internal/service/async_runner.go:417-475 | Neither `finalizeSucceeded` nor `Chat` looks at the status it overwrites: the charge law survives either write if and only if the task has not been refunded before. |
| `Ledger.OvertakenTaskIsFree` | internal/service/async_runner.go:340-364 | A sweep that overtakes a start, followed by the start's success, leaves a Succeeded task with its files and a net charge of 0. |
| `Ledger.OvertakenAttachIsLost` | internal/service/async_runner.go:240-248 | A sweep that overtakes a start, followed by the start's write of the upstream id, leaves a Failed, paid-back task that is never polled, although the start reports success. |
| `Ledger.RunningTaskIsReachable` | internal/service/credit.go:217-296 | A concrete top-up and reserve reach a Running task and a zero balance, so the previous two rows are not vacuous. |
| `Ledger.RefundOfRunning` | internal/service/credit.go:368-487 | On a Running task of a consistent ledger the refund transaction cannot be refused and gives back exactly the price. |
| `Ledger.RefundIsIdempotent` | internal/service/credit.go:368-487 | On any tables at all, asking for the refund twice moves money once. |
| `Ledger.ConcurrencyRespected` | internal/service/credit.go:217-296 | A run that leaves a user's limit alone never lets the user's live tasks exceed it (0 means no limit). |
| `CreditLaw.StatementsAdd` | internal/model/user_credit.go:5-8 | In every run whatsoever the log reads like a bank statement: each entry notes the sum of its user's entries up to it, and each top-up total is the sum of the user's positive adjustments. |
| `CreditLaw.AdjustIff` | internal/service/credit.go:107-154 | An adjustment goes through if and only if it is not zero and leaves the balance at zero or above; balance, top-up total and log entry are then exactly so. |
| `CreditLaw.ReserveIff` | internal/service/credit.go:217-296 | A task is reserved if and only if its price is positive, its id new, its user named, solvent and within the limit of live tasks; the price then moves from balance to consumption, with one entry, and otherwise the error names a guard that failed. |
| `CreditLaw.RefundIff` | internal/service/credit.go:368-487 | On any tables the refund goes through if and only if the task exists and, where the log still owes its price, the payer does; the row is Failed, and money moves exactly where it was owed, to the payer of the first charge. |
| `Credits.Database.ReserveAndCreateTask` | internal/service/credit.go:217-296 | Charge, log entry and task row appear together, or the error says which guard refused and no task or log entry appears. |
| `Credits.Database.FailTaskAndRefund` | internal/service/credit.go:368-487 | The branches of the refund transaction give the ledger's refund outcome on any tables; on a Running task of a valid database it succeeds. |
| `Credits.Database.Adjust` | internal/service/credit.go:107-154 | A manual adjustment is refused at zero or below zero balance; otherwise balance, top-up total and log move together. |
| `Files.FileNameInjective` | internal/service/generation_file.go:69-78 | Different suffixes give different file names, so the suffix search cannot loop. |
| `Files.TakenNames` | internal/service/generation_file.go:69-78 | The suffix search tries at most as many taken names as there are files on disk. |
| `Files.FileService.SaveResult` | internal/service/generation_file.go:53-104 | The file goes to a path no existing file uses; a failed row insert leaves no row and, if the removal works, no file. |
| `Files.AttemptsKeepPrefix` | internal/service/async_runner.go:417-488 | Over any number of download attempts failing anywhere, the stored rows are a prefix of the media, in order, and nothing stored is lost. |
| `Files.CompletedAttemptIsExact` | internal/service/async_runner.go:417-488 | The attempt that completes returns exactly one file id per media item, in order, whichever attempt stored it. |
| `Files.AttemptLaw` | internal/service/async_runner.go:427-470 | One attempt completes if and only if every item without a stored row is fetched, written and recorded; it reports one id per row, and nothing stored is lost. |
| `Files.SavedFile` | internal/service/generation_file.go:53-104 | A file lies under month and owner, named after the task, with the first free suffix; its row carries what upstream said; a failed write leaves nothing, a failed insert at most the file. |
| `Files.FileService.FetchMissing` | internal/service/async_runner.go:427-470 | The download loop resumes after the rows already stored and equals the attempt the two laws above speak of. |
| `Files.SaveFromKeepsBacked` | internal/service/generation_file.go:53-104 | Saving keeps every row's file on disk under a path of its own and leaves other tasks' rows alone. |
| `Files.DeleteForTaskExact` | internal/service/generation_file.go:200-221 | A clean-up without faults removes the task's rows and no other, and no other row's file. |
| `Files.FaultyCleanUp` | internal/service/generation_file.go:200-221 | A clean-up that fails at its k-th row has removed exactly the task's first k rows with their files, and the file of the row it could not delete. |
| `Waiting.BoundedWaiting` | internal/service/async_runner.go:311-338 | With k < 50 tasks that may be stuck, a due task with an upstream id is taken up within ceil(r/(50-k)) passes, r being the other Running tasks due by then and itself. |
| `Waiting.WaitingIsBoundedIff` | internal/worker/async_poller.go:49-58 | The exact condition on the ticking poller, each pass taking a tick of its own: with a set of tasks ahead that may be stuck, some number of passes is always enough if and only if the set is smaller than fifty, or there is a timeout and refunds leave a mark. |
| `Waiting.TimeoutBoundsWaiting` | internal/service/async_runner.go:366-371 | However many tasks are stuck: on the ticking poller, with refunds that leave a mark, a due task is taken up within the passes whose ticks make everything due by then older than the timeout, and ceil(r/50) more. |
| `Waiting.OverdueTaskIsFailed` | internal/service/async_runner.go:340-371 | A due task with an upstream id is Failed within ceil(r/50) passes once everything due by then is older than the timeout, whatever credentials, keys, adapters and upstreams do. |
| `Waiting.OwnTimeoutFails` | internal/service/async_runner.go:366-371 | A due task past its own timeout is Failed within ceil(r/(50-k)) passes, whatever the age of the others, k < 50 of which may be stuck. |
| `Waiting.TakenUpMeansMoved` | internal/service/async_runner.go:366-415 | A task taken up ends or is rescheduled strictly past the pass; past the timeout it is Failed. |
| `Waiting.AbandonedTaskIsFailed` | internal/service/async_runner.go:340-364 | A Running task without upstream id is Failed within ceil(r/20) working sweeps once it is older than the timeout. |
| `Waiting.StarvedBehindStuckTasks` | internal/service/async_runner.go:311-415 | Head-of-line blocking: behind fifty earlier-due tasks whose turns leave them as they are (undecryptable key, missing adapter, unknown answer, failing writes) no number of passes reaches a task. |
| `Waiting.FiftyStuckTasksStarve` | internal/service/async_runner.go:311-415 | A concrete reachable queue: one user starts fifty-one tasks, and while the first fifty keys do not decrypt there are runs of n passes, one with every tick, that never take up the last: any n without a timeout or with refunds that write nothing, else any n that ends before the timeout. |
| `Polling.TurnOutcome` | internal/service/async_runner.go:366-475 | With working writes a turn fails the task exactly when it gives up, completes it exactly when every file is delivered, else leaves it Running; a failure returns the price and nothing else moves a balance. |
| `Polling.AdvanceAllEffect` | internal/service/async_runner.go:311-338 | A batch touches only its own rows; every movable task is settled, every stuck one left as it is, and nothing else can become of a row. |
| `TurnLaw.RunningAnswerIsRecorded` | internal/service/async_runner.go:396-400 | A running answer records its progress and the status "running"; the next poll is 2000 ms away if the progress rose, else 5000 ms. |
| `TurnLaw.PollErrorIsRetried` | internal/service/async_runner.go:390-394 | A failing poll keeps progress and upstream status; the next poll is 5000 ms away. |
| `TurnLaw.ResultIsDeliveredOrRetried` | internal/service/async_runner.go:403-488 | A result completes the task if and only if every missing item is fetched, stored and recorded and the row written: Succeeded, progress 1.0, one file id per media item in order. Otherwise "succeeded" is noted with the old progress and the next poll is 5000 ms away. |
| `TurnLaw.GivenUpIsPaidBack` | internal/service/async_runner.go:366-408 | A task past its timeout, without its credential, failed upstream or finished without media is Failed; its owner has the price back if the refund commits, it is marked as owed if only the fallback takes, and nothing changes if neither does. |
| `TurnLaw.QuietTurn` | internal/service/async_runner.go:379-394 | An undecryptable key, a missing adapter or an unknown answer changes nothing. |
| `TurnLaw.BatchCounts` | internal/service/async_runner.go:327-337 | The count a pass reports for its batch: the tasks given up or answered, less the results that could not be delivered. |
| `TurnLaw.BatchIsEarliestDue` | internal/service/async_runner.go:317-325 | The batch is Running tasks with an upstream id that are due: at most fifty, never-polled ones first, then by next poll, then by last update; whoever is left out finds it full of tasks no later. |
| `TurnLaw.SweepIsOldest` | internal/service/async_runner.go:340-364 | The sweep takes at most twenty Running tasks without upstream id past the timeout, the oldest first. |
| `Runner.AsyncRunner.PollOnce` | internal/service/async_runner.go:311-364 | Sweep, then the due query and the batch loop, one failing task never stopping the batch; the count is the sweep and the handled turns, and 0 when a query failed, which stops the pass where the code does. |
| `Runner.AsyncRunner.Advance` | internal/service/async_runner.go:366-415 | The branches of one turn (timeout, credential, decryption, poll status, download) produce the turn of which the `TurnLaw` rows say what it records. |
| `Runner.AsyncRunner.StartTask` | internal/service/async_runner.go:126-276 | A start goes through if and only if its guards and the reserve pass, every credential before the last was passed over (undecryptable, or HTTP 401, 403, 429, 5xx or network error), and the last got an upstream id that was written or media that were all delivered. The row, the balance, the log and the files are then exact on every exit: Running under that upstream id, Succeeded with one file per item, Failed and given back as far as the database lets it, or nothing. `Create` runs at most twice on each of at most three credentials (one if fixed). |
| `Runner.AsyncRunner.CreateWithNetworkRetry` | internal/service/async_runner.go:278-299 | At most two calls, the second only after a network error and an undisturbed wait; the reply is the last call's, or the error of the wait. |
| `Runner.AsyncRunner.TryCredentials` | internal/service/async_runner.go:198-262 | The search tries exactly the credentials the world offers, up to the first that is not passed over or until none is left, and its verdict is the one the last reply gets. |
| `StartLaw.SearchIsDetermined` | internal/service/async_runner.go:185-262 | Two searches over one world try the same credentials: the outcome of a start is a function of the world. |
| `Chat.ChatProxy.Chat` | internal/service/provider_proxy.go:86-189 | A request is answered if and only if its guards and the reserve pass, every credential before the last was passed over, and the last got a 2xx. Row, balance and log are exact on every exit: charged, and Succeeded exactly if the unchecked final write took; Failed and given back as far as the database lets it; or nothing. |
| `Chat.ChatProxy.TryCredentials` | internal/service/provider_proxy.go:144-184 | The search tries exactly the credentials the world offers up to the first that is not passed over or until none is left, and writes nothing but the credential column. |
| `Chat.ChatProxy.TryOnce` | internal/service/provider_proxy.go:200-242 | Answered by a 2xx; another credential is worth trying after a network error, 401, 403, 429, 502, 503 or 504, and not after an undecryptable key, an unbuildable request or any other status. |
| `DeviceLaw.SessionsStayAnchored` | internal/handler/client_session.go:28-85 | In every reachable state, failing revokes included, an unrevoked session names a live, not black-listed device of its machine, and an owner has one row per machine. |
| `DeviceLaw.OneSessionPerDevice` | internal/handler/client_session.go:33-54 | Over every run in which no revoking update fails while a session is issued, a device has at most one unrevoked session. |
| `DeviceLaw.IssueKeepsSingleIff` | internal/handler/client_session.go:33-54 | Issuing keeps at most one unrevoked session per device if and only if the unchecked revoke took, or the session is not kept, or the device had none. |
| `DeviceLaw.FailedRevokeLeavesTwo` | internal/handler/client_session.go:33-54 | A concrete run: two logins from one machine, the second's revoke failing, leave two sessions of one device that both authenticate until they expire. |
| `DeviceLaw.RefreshGuardsUnreachable` | internal/handler/client_session.go:88-248 | In every reachable state refresh never meets a missing device, a changed machine or a black-listed row. |
| `DeviceLaw.SlotDecision` | internal/handler/client.go:238-280 | A machine gets a slot if and only if its row is not black-listed and it already holds a live row or the grant is below its device limit; it then has exactly one row, live. |
| `DeviceLaw.RevokedForever` | internal/handler/client_session_revoke.go:11-48 | No step of any run brings a revoked session back. |
| `DeviceLaw.MachinesEverBound` | internal/handler/client_unbind_limit.go:14-38 | Over any run the machines ever bound to a grant number at most MaxDevices + UnbindLimit plus what administrators gave on top; with client steps alone, at most MaxDevices + UnbindLimit. |
| `DeviceLaw.MachinesNeverForgotten` | internal/handler/client.go:97-139 | Rows are kept when unbound, so the set the previous row bounds really is every machine ever bound. |
| `DeviceLaw.RunBudget` | internal/handler/client.go:504-554 | Over any run: live rows within the device limit, unbound rows within the unbinds used plus administrators' slack, used within the limit. |
| `AccessLaw.RefreshIff` | internal/handler/client_session.go:88-248 | A refresh rotates the token if and only if the session is known, unrevoked and unexpired, the app active, the device live, of the same machine, unmarked and unlisted, and its grant of the session's kind, app and customer, Active, and unexpired or a licence in its grace time. |
| `AccessLaw.RefreshRevokesIff` | internal/handler/client_session.go:105-208 | A refused refresh revokes the session, if the write takes, if and only if the session is expired, or its app is active and its device live; it changes nothing else. |
| `AccessLaw.ActivateIff` | internal/handler/client.go:163-356 | Activation lets the machine in if and only if it is unlisted, the licence of the app is assigned, neither revoked nor suspended, and not past its grace time, and the machine has a slot. Licence, device row and sessions are then exact; otherwise nothing changes. |
| `AccessLaw.LoginIff` | internal/handler/client.go:696-886 | The same for a login on an Active subscription of this customer and app; one that has run out is marked so. |
| `AccessLaw.DeactivateIff` | internal/handler/client.go:504-554 | A client unbind goes through if and only if the device is live, unmarked, unlisted, on a serving licence of the app with an unbind left; then exactly the count, the row's mark and its sessions change. |
| `AccessLaw.SelfUnbindIff` | internal/handler/client_session.go:273-387 | The same for the session's own unbind, with its session, password and customer. |
| `AccessLaw.DeleteCustomerIs` | internal/handler/customer.go:306-370 | Deleting a customer revokes the customer's sessions and those of the customer's live devices, deletes these devices and the subscriptions, and leaves the licences without a customer. |
| `BlacklistLaw.RemovalIs` | internal/handler/device.go:279-372 | A removal does something if and only if the machine has a device in reach and an entry asked for: those entries go, and the marks of the devices in reach that no other entry covers. |
| `BlacklistLaw.MarkOrphanedIff` | internal/handler/device.go:240-358 | A step leaves a row marked with no black-list entry to cover it if and only if it takes the row's last entry and is an un-black-listing of another row of the machine, or one whose second statement fails, or a removal by machine while the row is soft-deleted. |
| `BlacklistLaw.MarksMatchEntries` | internal/handler/device.go:191-358 | Over every run without such a step, a marked row whose grant stands is covered by an entry. |
| `BlacklistLaw.DeletedMarkIsForever` | internal/handler/device.go:319-344 | No run takes the mark off a soft-deleted row, nor restores it. |
| `BlacklistLaw.UnlistedMarkIsForever` | internal/handler/device.go:240-358 | Once no entry names its machine, no run takes the mark off any row, until a device of the machine is black-listed anew. |
| `BlacklistLaw.HalfUnblacklistStrands` | internal/handler/device.go:258-272 | A concrete run: an un-black-listing whose second statement fails leaves the mark without an entry, and trying again changes nothing. |
| `Devices.Desk.Activate` | internal/handler/client.go:163-356 | Activation performs the step of `AccessLaw.ActivateIff`, and reports success exactly when it lets the machine in. |
| `Devices.Desk.ClientLogin` | internal/handler/client.go:696-886 | Login performs the step of `AccessLaw.LoginIff`, and reports success exactly when it lets the machine in. |
| `Devices.Desk.ClientRefresh` | internal/handler/client_session.go:88-248 | Refresh performs the step of `AccessLaw.RefreshIff`, and succeeds exactly when the session may be refreshed and the token is made. |
| `Devices.Desk.ClientLogout` | internal/handler/client_session.go:251-270 | Logout revokes this session and nothing else. |
| `Devices.Desk.Deactivate` | internal/handler/client.go:504-554 | The row found by machine is the first listed whose licence serves, unless a marked one stands before it; the unbind goes through exactly if its licence has one left. |
| `Devices.Desk.UnbindCurrentDevice` | internal/handler/client_session.go:273-387 | The session's own unbind does the same as `Deactivate` once its guards pass. |
| `Devices.Desk.AdminUnbind` | internal/handler/device.go:167-188 | An administrator's unbind revokes and deletes without spending an unbind. |
| `Devices.Desk.Blacklist` | internal/handler/device.go:191-237 | Black-listing marks the device and its machine and revokes its sessions. |
| `Devices.Desk.Unblacklist` | internal/handler/device.go:240-276 | Two separate statements: the entries covering the device go and its mark with them, or only the entries if the second statement fails, or nothing when there is no entry. |
| `Devices.Desk.RemoveFromBlacklist` | internal/handler/device.go:279-372 | Lifting an entry unmarks exactly the devices no other entry still covers. |
| `Devices.Desk.ResetDevices` | internal/handler/license.go:661-709 | A reset revokes and deletes exactly the licence's live devices. |
| `Devices.Desk.DeleteCustomer` | internal/handler/customer.go:306-370 | Deleting a customer revokes the customer's sessions, deletes the customer's devices, drops the subscriptions and detaches the licences. |
| `Devices.Desk.DeleteSubscription` | internal/handler/subscription.go:570-601 | Deleting a subscription revokes and deletes its live devices and removes the grant. |
| `HubLaw.HubIsSafe` | internal/handler/websocket.go:109-173 | Over every run: no channel is closed twice or written after closing, `sessions` is the inverse of `clients`, and a registered connection is closed exactly when no longer mapped. |
| `HubLaw.StaleUnregisterIsHarmless` | internal/handler/websocket.go:131-144 | The unregister of a replaced connection changes nothing. |
| `HubLaw.ClosedForever` | internal/handler/websocket.go:109-144 | A closed connection is never named by an index again and its queue only drains. |
| `HubLaw.ClientsIsOnlineMap` | internal/handler/websocket.go:109-144 | `clients` behaves as the plain online map a caller has in mind. |
| `HubLaw.SendReachesDevice` | internal/handler/websocket.go:200-215 | A send returns true exactly when a connection is online at the place with room, and then exactly that queue grows by the message. |
| `HubLaw.BroadcastCountsQueues` | internal/handler/websocket.go:218-233 | The returned count is the number of queues that grew, each once, each of an online connection of the app, and no such queue with room is missed. |
| `HubLaw.DoubleRegisterPanics` | internal/handler/websocket.go:116-127 | Why `Enabled` asks for one registration per connection, as the handler makes it (lines 382-397): a second one would close the channel of a mapped connection, and the next send would panic. |
| `Hub.WebSocketHub.RegisterClient` | internal/handler/websocket.go:112-129 | The register case, replacing an old connection at the place, is the specified step. |
| `Hub.WebSocketHub.UnregisterClient` | internal/handler/websocket.go:131-144 | The unregister case is the specified step. |
| `Hub.WebSocketHub.BroadcastToApp` | internal/handler/websocket.go:218-233 | The loop over the app's connections is the specified broadcast, never touching a closed channel. |
| `RateLaw.PruningIsUnobservable` | internal/middleware/ratelimit.go:35-81 | However clean-ups are interleaved, every decision is that of a limiter that never forgets. |
| `RateLaw.AnyWindowBound` | internal/middleware/ratelimit.go:35-57 | For every key and instant, at most `limit` requests were let through in the window ending there, by the decisions of the real limiter with its clean-ups. |
| `RateLaw.AllowedIff` | internal/middleware/ratelimit.go:35-58 | A request is let through if and only if fewer than `limit` requests of its key were let through in the window ending now, however clean-ups fell. |
| `RateLaw.StoredListsStaySmall` | internal/middleware/ratelimit.go:35-57 | No stored list ever holds more than `limit` times. |
| `RateLimit.RateLimiter.Allow` | internal/middleware/ratelimit.go:35-57 | The limiter's answers so far are those of the run of its calls. |
| `RateLimit.RateLimiter.NeverForgets` | internal/middleware/ratelimit.go:35-81 | The object's decisions so far are those of the limiter that never forgets. |
| `RateLimit.RateLimiter.KeepsTheLimit` | internal/middleware/ratelimit.go:35-57 | In every window the object let at most `limit` requests of a key through. |
| `RateLimit.RateLimiter.Cleanup` | internal/middleware/ratelimit.go:60-81 | The background tick keeps exactly the unexpired times and drops emptied keys. |
| `Versions.CompareIsAntisymmetric` | internal/handler/hotupdate.go:143-182 | On all strings, swapping the versions flips the sign. |
| `Versions.CompareIsTransitive` | internal/handler/hotupdate.go:143-182 | On versions whose components are integers the comparison is transitive, so a total preorder. |
| `Versions.CompareNumbersIsLexicographic` | internal/handler/hotupdate.go:143-182 | Numeric versions compare as zero-padded lexicographic order. |
| `Versions.MixedComponentsCycle` | internal/handler/hotupdate.go:174-181 | With letters it is no order: 9 < 10 < 1a < 9. |
| `Versions.CodeOrdersSameLength` | internal/handler/script_version_helper.go:34-61 | For dotted versions with equally many (at most four) components up to 999, the version code orders exactly as the comparison does. |
| `Versions.CodeOrdersShorterIff` | internal/handler/script_version_helper.go:34-61 | For different lengths, exactly: with the left version the shorter one, of code a, padded to p, the raw codes a and b order the two as the comparison does if and only if a > b, or p < b, or both are 0. |
| `Versions.CodeOrdersLongerIff` | internal/handler/script_version_helper.go:34-61 | The mirror image, with the left version the longer one. |
| `Versions.CodeAgreesWithCompare` | internal/handler/script_version_helper.go:34-61 | For different lengths the comparison is the sign of the code difference after padding both codes with zero components. |
| `Versions.CodeBound` | internal/handler/script_version_helper.go:34-61 | A version of k such components has a code below 1000^k. |
| `Versions.CodeMisleadsAcrossLengths` | internal/handler/script_version_helper.go:34-61 | The raw codes do not order versions of different lengths: 2 is newer than 1.5 and has the smaller code. |
| `Versions.CompareVersions` | internal/handler/hotupdate.go:143-196 | The comparison loop computes the specified comparison. |
| `TextLaw.VersionCodeIs` | internal/handler/script_version_helper.go:34-61 | The code of a version of two or more numbers is its first four components, each capped at 999, read in base 1000, whatever stands between them. |
| `TextLaw.SplitInvertsJoin` | internal/handler/hotupdate.go:183-196 | Splitting a version inverts joining its components by any of the five separators. |
| `TextLaw.AtoiReadsDecimal` | internal/handler/hotupdate.go:160-170 | Reading an integer inverts writing it, with or without a sign, within 64 bits and not beyond. |
| `TextLaw.FirstDifferenceDecides` | internal/handler/hotupdate.go:143-181 | Two versions are compared by the first components that differ, a missing one counting as 0. |
| `TextLaw.CompareTextIs` | internal/handler/hotupdate.go:172-178 | Text components are ordered by their first different character, a prefix coming first. |
| `Versions.VersionCode` | internal/handler/script_version_helper.go:34-61 | The code loop, with its shortcut for bare numbers, computes the specified code. |
| `HotUpdateLaw.CountersNeverShort` | internal/handler/hotupdate.go:1050-1154 | In every reachable state, whatever deletes failed half-way, no counter is below a count over the logs, and `completed_at` is set exactly on terminal logs. |
| `HotUpdateLaw.CountersExactIff` | internal/handler/hotupdate.go:773-783 | In every reachable state an update's counters equal a count over its logs if and only if no delete of it failed half-way while it had a successful or failed log. |
| `HotUpdateLaw.CounterIsLogsPlusLost` | internal/handler/hotupdate.go:1050-1154 | In every reachable state a counter exceeds a count over the logs by exactly the logs lost to half-failed deletes. |
| `HotUpdateLaw.HalfDeleteLeavesCounter` | internal/handler/hotupdate.go:773-783 | A concrete run: create, report "success", and a delete whose second statement fails leave a success count of 1 and no log. |
| `HotUpdateLaw.FloorNeverFires` | internal/handler/hotupdate.go:89-136 | The floor-at-zero branch of the counter update is dead code. |
| `HotUpdateLaw.LogTellsFirstFinalReport` | internal/handler/hotupdate.go:48-65 | Over every run a machine's log holds its first success or rollback report since the logs last went, or else its latest report. |
| `HotUpdateLaw.SuccessCountMeaning` | internal/handler/hotupdate.go:67-87 | The success counter is the number of machines whose first final report was a success, plus the successes whose logs a half-failed delete took. |
| `HotUpdateLaw.FinalStatusAbsorbs` | internal/handler/hotupdate.go:54-65 | After success or rollback only a delete of the update, finished or not, changes a log's status. |
| `ReportLaw.ReportIsAcceptedIff` | internal/handler/hotupdate.go:29-46 | A report is accepted if and only if its text is one of the six names, between blanks and in any case that folds to it, and the update is of the app; other reports change nothing. |
| `ReportLaw.FirstReport` | internal/handler/hotupdate.go:1090-1120 | A machine's first report opens its log in the status it names, closed if that is success, failed or rollback, and counts one success or one failure. |
| `ReportLaw.LaterReport` | internal/handler/hotupdate.go:1120-1145 | A later report moves the log and the counters to the status it names, unless the log already says success or rollback and the report something else. |
| `ReportLaw.RetryMovesCount` | internal/handler/hotupdate.go:48-87 | In every reachable state, "failed" followed by "success" moves one from the failures to the successes. |
| `HotUpdates.Desk.ReportUpdateStatus` | internal/handler/hotupdate.go:1050-1154 | The handler performs the step of the `ReportLaw` rows; a database error changes nothing and is reported only where the report would have been accepted. |
| `HotUpdates.Desk.Delete` | internal/handler/hotupdate.go:748-786 | Two separate statements: an update and its logs go, or nothing if the first fails, or only the logs if the second does. |
| `DataSyncLaw.NoLostUpdate` | internal/handler/data_sync.go:870-893 | A write with the version a client saw is accepted if and only if the record is still exactly what the client saw. |
| `DataSyncLaw.VersionCountsWrites` | internal/handler/data_sync.go:870-919 | A version rises by exactly one per accepted write or delete of its record, and by nothing else. |
| `WriteLaw.PutIff` | internal/handler/data_sync.go:870-919 | A write goes through if and only if the record is new, no positive version is sent, or the stored version is no newer; the row then holds the data with the next version, and otherwise nothing changes and the answer is what the server has. |
| `WriteLaw.RemoveIff` | internal/handler/data_sync.go:1049-1066 | A delete keeps the data, marked, with the next version; of a missing row it changes nothing. |
| `WriteLaw.UnversionedWins` | internal/handler/data_sync.go:876-884 | In every reachable state a write without a version goes through, whatever is stored. |
| `WriteLaw.PullIs` | internal/handler/data_sync.go:796-832 | A pull answers exactly the rows in scope changed later than the start of the second asked for, each with version, mark and second of change. |
| `DataSyncLaw.VersionIdentifiesContent` | internal/handler/data_sync.go:870-919 | Within a record's history equal versions mean equal content. |
| `DataSyncLaw.AheadOfServerOverwrites` | internal/handler/data_sync.go:876-884 | Over any run, a positive version passes over a different stored one, losing what was written there, if and only if no client was ever given that version. |
| `DataSyncLaw.UnseenVersionLosesUpdate` | internal/handler/data_sync.go:876-884 | A concrete run in which a version nobody was given overwrites another client's update. |
| `DataSyncLaw.IncrementalPullIsFullPull` | internal/handler/data_sync.go:780-833 | Under a strict clock, if no write falls between a pull's query and the second of its later `server_time`, a client that merges `since` pulls holds, after each query, exactly a full pull, tombstones included. |
| `DataSyncLaw.MirrorIsCompleteIff` | internal/handler/data_sync.go:780-833 | Over every run in which `server_time` never goes back: after a query the client holds a full pull if and only if each record's last accepted write was beyond the cursor carried by the first query after it, and the records for which it was are the ones it holds as they are. |
| `DataSyncLaw.WriteIsPickedUpIff` | internal/handler/data_sync.go:796-803 | After a complete query, one write is picked up by the next pull if and only if it is later than the start of the second of this pull's `server_time`, whether it comes before or after that clock is read. |
| `DataSyncLaw.SameTickWriteIsMissed` | internal/handler/data_sync.go:796-803 | A write in the tick of a `server_time` on a full second is never pulled. |
| `DataSyncLaw.GapWriteIsMissed` | internal/handler/data_sync.go:805-832 | A concrete run: a write between a query and a `server_time` read in the next second is never pulled. |
| `DataSyncLaw.FailedQuerySkipsRows` | internal/handler/data_sync.go:1113-1136 | A concrete run: a pull of all tables whose query fails moves the client's cursor past a row it never gets. |
| `DataSyncLaw.RunSplit` | internal/handler/data_sync.go:948-1012 | Records sent in one batch or in several leave the same rows. |
| `DataSync.Store.SaveTableDataBatch` | internal/handler/data_sync.go:922-1020 | The batch is the single-record write folded over the entries before the first bad one; those stay saved although the answer is an error. |
| `DataSync.Store.SaveTableData` | internal/handler/data_sync.go:836-919 | One record: rejected identifiers and faults change nothing, otherwise the specified write and answer. |
| `DataSync.Store.DeleteTableData` | internal/handler/data_sync.go:1023-1067 | A delete leaves a tombstone with the next version, or reports that there is no row. |
| `DataSync.Store.GetTableData` | internal/handler/data_sync.go:780-833 | Each row of the pull once, oldest change first; a `since` that is no number asks for everything. |
| `DataSync.Store.SyncAllTables` | internal/handler/data_sync.go:1097-1137 | The same for every table of the user, grouped; a failing query gives an empty answer that is stamped all the same. |
| `BackupLaw.EveryGroupOk` | internal/handler/client_sync.go:81-126 | Over every run of pushes, failing prunes and switches a group has unique versions up to its push count, its ten newest rows, and exactly one current row. |
| `BackupLaw.VersionIsPushCount` | internal/handler/client_sync.go:81-126 | The n-th push to a group gets version n, whatever was pruned: numbers are never reused. |
| `BackupLaw.VersionsIncrease` | internal/handler/client_sync.go:81-126 | Versions of a group strictly increase over a run. |
| `BackupLaw.AfterPush` | internal/handler/client_sync.go:292-311 | After a push the new row is current and kept; when the deletions worked the group is exactly its ten newest versions. |
| `BackupLaw.RankIsNumber` | internal/handler/client_sync.go:292-311 | Standing eleventh or later by version is the same as having a number at most n - 10. |
| `BackupLaw.SwitchKeeps` | internal/handler/client_sync.go:617-644 | Switching to any row of a group makes it the only current one and keeps the group's laws. |
| `BackupLaw.PullReturnsPush` | internal/handler/client_sync.go:135-195 | The pull after a push returns what was pushed if and only if the type holds no secrets, or the document cannot be read, or no number in it changes by printing and no secret poses as a ciphertext. |
| `StoredLaw.StoredAt` | internal/handler/client_sync.go:72-76 | What a push stores at every place of a document: in the two types that hold secrets, strings under the eleven secret names or the three suffixes marked and encrypted, numbers as they print, all else as pushed; in the other types, or unreadable, everything as pushed. |
| `StoredLaw.TenNewestKept` | internal/handler/client_sync.go:292-311 | After a push whose clean-up works exactly the last ten version numbers are left. |
| `Backups.BackupTable.Push` | internal/handler/client_sync.go:52-132 | The transaction and the clean-up outside it are the specified step; refused pushes change nothing. |
| `Backups.BackupTable.CleanupOldVersions` | internal/handler/client_sync.go:292-311 | Deleting from the eleventh row on removes exactly the rows with ten newer ones, except where a delete fails. |
| `Backups.BackupTable.Pull` | internal/handler/client_sync.go:135-195 | The current row of one type, decrypted; none before the first push, or when the query fails. |
| `Backups.BackupTable.PullAll` | internal/handler/client_sync.go:170-189 | The current row, decrypted, of exactly the types ever pushed; nothing when the query fails. |
| `SensitiveJson.DecryptAfterEncrypt` | internal/handler/client_sync.go:328-389 | Decrypting an encrypted document gives it back, at any nesting, if and only if it cannot be read at all, or no number in it changes by being read and printed and none of its secrets starts with the marker and decrypts to something else. |
| `SensitiveJson.LargeNumberChanges` | internal/handler/client_sync.go:328-369 | A concrete document without any secret comes back with a neighbouring number. |
| `SensitiveJson.UnreadableStaysPlain` | internal/handler/client_sync.go:328-332 | A concrete document with a number out of range is stored with its password in the clear. |
| `SensitiveJson.EncryptSensitiveData` | internal/handler/client_sync.go:328-347 | Read, rewrite and print, or pass the document on as it is, give the specified encryption. |
| `SensitiveJson.DecryptSensitiveData` | internal/handler/client_sync.go:350-369 | The same for decryption. |
| `SensitiveJson.EncryptIsIdempotent` | internal/handler/client_sync.go:328-347 | Encrypting again, with new nonces, changes nothing. |
| `SensitiveJson.EncryptChangesOnlySecrets` | internal/handler/client_sync.go:328-389 | Keys, other values, order and shape stay under encryption if and only if the document cannot be read or no number in it changes by printing. |
| `SensitiveJson.NothingLeftPlain` | internal/handler/client_sync.go:328-347 | While encryption works, every stored secret carries the marker if and only if the document can be read or all its secrets carried it before. |
| `SensitiveJson.TransformCompose` | internal/handler/client_sync.go:371-389 | Two traversals are one with the composed rewriting: the second meets the same secrets in the same places. |
| `SensitiveJson.TransformEqual` | internal/handler/client_sync.go:371-389 | Two rewritings give the same tree exactly if they agree on every secret in it. |
| `StoredLaw.TransformAt` | internal/handler/client_sync.go:371-407 | The traversal keeps every place of a document and rewrites exactly the strings in secret places. |
| `SensitiveJson.Rewrite` | internal/handler/client_sync.go:371-389 | The recursive loops over maps and lists compute the specified traversal. |
| `RoutingLaw.AdvertisedIffRoutable` | internal/handler/proxy.go:173-223 | Over enabled credentials a model is advertised in a scope, under its normal form, if and only if a request for it in that scope finds a route. |
| `RoutingLaw.SelectedIsLeast` | internal/handler/proxy.go:503-535 | The selected route is least under the route order among all that match. |
| `RoutingLaw.SelectionIsForced` | internal/handler/proxy.go:503-535 | Every other matching route is strictly worse, so the choice depends on no tie. |
| `RouteChoice.SelectedIsPreferred` | internal/handler/proxy.go:503-535 | The selected route carries the id and upstream model of one credential that serves the request, preferred to every other that does: a default one first, then the highest priority, then the first in the list. |
| `RouteChoice.NothingSelectedIff` | internal/handler/proxy.go:503-520 | No route is selected if and only if the model has no name or no enabled, healthy credential of the provider offers it in the scope. |
| `RouteChoice.EntryIsPreferred` | internal/handler/proxy.go:408-440 | Each advertised entry is represented by the preferred of its routes; the first entry is the default. |
| `RouteChoice.EntryServedByBest` | internal/handler/proxy.go:184-214 | The credential that stands for an advertised model comes after no other healthy credential of the provider under that model and scope: a default one first, then the highest priority, then the oldest. |
| `RouteChoice.EntryPoolsFeatures` | internal/handler/proxy.go:411-446 | Each entry supports, kind by kind, what its routes support, up to case and blanks, and nothing else. |
| `RouteChoice.EntriesArePlaced` | internal/handler/proxy.go:394-405 | Entries stand in the order of their routes' places, then by display name. |
| `RouteChoice.PricingScopeIs` | internal/handler/proxy.go:566-580 | A channel is priced by the first of its scopes that is known, and as video if none is. |
| `RouteChoice.AliasIs` | internal/handler/proxy.go:782-800 | The names under which three models are also known, and no other name is changed. |
| `RoutingLaw.CapabilityLaw` | internal/handler/proxy.go:340-446 | The entries of a provider are exactly the (model, scope) pairs of its routes, each once. |
| `RoutingLaw.ListedIff` | internal/handler/proxy.go:173-223 | A provider is listed if and only if one of its healthy credentials makes a channel with a mode or a scope. |
| `RoutingLaw.RawNamesNoModel` | internal/handler/proxy.go:386-388 | A provider listed with its bare channels names no model, so nothing is advertised beside the entries. |
| `RoutingLaw.NormalizeIsIdempotent` | internal/handler/proxy.go:782-800 | Normalising a model name twice changes nothing, so clients may send back what they were shown. |
| `RoutingLaw.KeyIdentifies` | internal/handler/proxy.go:582-584 | Equal grouping keys mean equal model and scope, although models may contain the separator. |
| `RoutingLaw.MergedLaw` | internal/handler/proxy.go:546-564 | Merged lists hold each non-blank value once up to case, and nothing else. |
| `RoutingLaw.UnionLaw` | internal/handler/proxy.go:416-420 | Each advertised mode, scope, ratio, duration or resolution is some route's of the group, and every route's are advertised. |
| `Routing.SelectClientModelRoute` | internal/handler/proxy.go:448-520 | Building, sorting and scanning the routes selects the specified route. |
| `Routing.CollapseCapabilityChannels` | internal/handler/proxy.go:340-446 | One pass of grouping, then ordering and describing the groups, gives the specified entries; without any route the channels are returned as they are. |
| `Routing.BuildProxyCapabilities` | internal/handler/proxy.go:173-223 | Exactly the providers with a channel are listed, each with its listing. |
| `Routing.MergeRouteStrings` | internal/handler/proxy.go:546-564 | The loops with a `seen` set compute the specified union. |

## Left out

- HTTP binding, response texts, permissions, audit notes, e-mail, statistics, admin lists: no state law in them.
- `CreditService.Reserve` and `CreditService.Refund` (internal/service/credit.go:167-214, 301-366): nothing calls them.
- Integers are unbounded; 64-bit overflow of balances, versions and counters is not modelled. `Atoi` does check 64 bits.
- Free-text columns of a task (error texts, raw JSON, notes) and the notifications sent after a write.
- Provider adapters: only the result of `Create` and `Poll`, the fate of a chat attempt up to its HTTP status and the classification of errors remain. Choosing a credential is a parameter that never returns an excluded one; marking credential health is left out.
- Runner.AsyncRunner.StartTask: one uninterrupted start. What a sweep that overtakes it does is stated on the ledger by `Ledger.OvertakenTaskIsFree` and `Ledger.OvertakenAttachIsLost`, not by this contract.
- Ledger.LedgerConservation: the half about task costs needs rows to be rewritten only while Running, as `Ledger.LateSuccessBreaksCharge` shows; `Ledger.BooksAlwaysBalance` is the half that does not.
- Files.CompletedAttemptIsExact: stored rows are listed in creation order; ties of `created_at` in the query are not modelled.
- Waiting.BoundedWaiting: other handlers are assumed to schedule nothing into the past and to leave the waiting task alone.
- Concurrency inside one handler (session issue after the activation transaction, pruning after the push transaction): a handler is one step.
- DeviceLaw.SlotDecision: which row of a machine the query finds is a parameter restricted to the matching rows.
- Deleting whole applications and tenants, which removes everything below them; one tenant is modelled, and backups take the tenant as a function of the application.
- Hub.WebSocketHub.RegisterClient: send channels are kept in a map from connection to queue, so aliasing of channels is not modelled; neither are the database records of connections nor the "ping" reply sent outside the hub's lock (internal/handler/websocket.go:484-489).
- HotUpdates.Desk.ReportUpdateStatus: address columns and the update's files; publishing, deprecating and rolling back an update do not touch the counters or logs and have no step.
- DataSync.Store.GetTableData: the stored JSON text is returned as is; the decoding into an object and the rounding of timestamps by a particular database are not modelled. Batch answers leave out the server's data on a conflict; the model keeps it.
- BackupLaw.EveryGroupOk: checksums, sizes and device names of a backup row are left out.
- SensitiveJson.Rewrite: containers are rewritten field by field as values, so two references to one container are not modelled.
- SensitiveJson.DecryptAfterEncrypt: documents are compared as trees. Spacing, the order of keys, repeated keys and ill-formed escapes are settled when a text becomes a tree, which is not modelled; reading and printing a float is a parameter of which only stability is used.
- `lower` (`strings.ToLower`) is an unknown function; routing uses only that it is idempotent and keeps blanks blank beyond ASCII.
- RoutingLaw.AdvertisedIffRoutable: the provider tables of modes, scopes, ratios, durations and names (internal/handler/proxy.go:644-776) are parameters, so the law holds for any tables; routes configured by hand (internal/handler/proxy.go:225-304) are left out.
- `CheckUpdate`, roll-out percentages, download tokens, scripts and remote instructions: one-branch facts.
