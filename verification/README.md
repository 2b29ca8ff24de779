# Verified models of the Crossfire adapters

These Dafny modules model the stateful cores of Crossfire's C# adapters and of its database check, and prove what
they are for over all inputs, all interleavings and all crash points.

| file | component |
|---|---|
| CodexTimeline, TimelineTheorems, WireTimeline | the receipt search over a paginated history, down to the JSON of its events |
| CodexDelivery, DeliveryRuns, DeliveryAnswers | journaled delivery and resumption, in runs cut by crashes |
| WebSocketProtocol, WebSocketLaws | the request multiplexer and its draining shutdown |
| KeyedLocks | the keyed lock table and its nesting order |
| Records, NativeHistory, DiagnosticStore | byte-chunk scanners and log retention |
| CodexHistories | single-flight contexts and the registry that binds them |
| PrivateFiles, ContextReset | atomic replacement of a file, and the resumable reset |
| FleetConnection | revision-guarded snapshots, local changes, leases and receipts |
| RoomPowers, RoomAccess | Matrix power levels, grants and their application |
| MatrixNotices | greedy splitting of notices |
| Preservation | exactness of the database preservation check |
| RegistrationTransport | the signup session machine |
| Text | UTF-16, UTF-8 and the strings of JSON, with readers |
| Prelude | options, results and sequence facts |

Code that updates fields is a class whose methods are proved against functions on a snapshot of those fields. Where
calls run together, every locked section and every step between two of them is one event, and the theorems hold
after every sequence of events. `dafny verify dfyconfig.toml` verifies all of it.

## What the proofs found

- `CodexHistories`: the budget of 2000 rooms is checked in one locked section and used in another, so concurrent
  openings can exceed it. `BudgetExact` says at which step, `ExceedableExactly` from which registries; the bound of
  2002 bindings always holds.
- `FleetConnection`: the response to a local change is taken whatever revision it names, so the revision can fall
  (`RevisionFallsExactly`) and an older poll be accepted (`OlderPollAccepted`). An answer that passed its
  cancellation check can be applied after the disconnection (`LateApplyExactly`, `LateApplyConnects`).
- `RoomPowers`: for a creator the view offers to reply even when the authorizer cannot grant it (`CreatorView`).
- `RoomAccess`: the level chosen from the first readings is not compared with the one fetched and overwritten, so a
  grant without admission can raise a member whose level fell in between (`RaisesExactly`, `RaisableExactly`, with
  the run of `RaisesBack`).
- `ContextReset`: when an attempt is cut after a rename and the runtime makes that entry again, the same reset can
  never complete (`RetryExactly`, `RecreatedConflicts`), though nothing is lost (`NothingLost`) and an identity whose
  archive is empty can.
- `KeyedLocks`: room operations do nest. The owner-conversation reconciler holds a "room:agent:" key and takes a
  room's key inside it; the order still climbs, so nothing deadlocks.

## Model

| member | source | states |
|---|---|---|
| `CodexTimeline.Page` | services/crossfire/csharp/packages/Crossfire.AdapterCodex/CodexTimeline.cs:62-86 | a reply is read as a page, or refused, by the same checks in the same order |
| `CodexTimeline.Boundary` | services/crossfire/csharp/packages/Crossfire.AdapterCodex/CodexTimeline.cs:87-94 | the newest entry is captured, and a thread without a first message counts as initializing |
| `CodexTimeline.Receipt` | services/crossfire/csharp/packages/Crossfire.AdapterCodex/CodexTimeline.cs:103-141 | the page loop ends within 100 pages and reports exactly what one newest-first reading of all entries concludes: a fault of order, cursor or boundary, or a status with the newest position |
| `CodexTimeline.InOrder` | services/crossfire/csharp/packages/Crossfire.AdapterCodex/CodexTimeline.cs:111-114 | the entries are accepted exactly when positions never rise and no key repeats over everything read |
| `CodexTimeline.OrderedMeans` | services/crossfire/csharp/packages/Crossfire.AdapterCodex/CodexTimeline.cs:111-114 | accepted order means falling positions and pairwise different keys |
| `CodexTimeline.Read` | services/crossfire/csharp/packages/Crossfire.AdapterCodex/CodexTimeline.cs:115-132 | the entry loop computes one step of the reading, from any summary so far |
| `TimelineTheorems.ReceiptSound` | services/crossfire/csharp/packages/Crossfire.AdapterCodex/CodexTimeline.cs:103-141 | against any server: "received" comes from an entry newer than the boundary with the identity, text and known turn; every other answer means the reading joined up with the boundary or the start of history, saw no such entry, and took the oldest completion of the turn |
| `TimelineTheorems.SearchWithin` | services/crossfire/csharp/packages/Crossfire.AdapterCodex/CodexTimeline.cs:107-109 | a search reads at most 100 pages of at most 100 entries |
| `TimelineTheorems.HonestPages` | services/crossfire/csharp/packages/Crossfire.AdapterCodex/CodexTimeline.cs:62-86 | pages served from one log tile it without gap or overlap |
| `TimelineTheorems.HonestReceipt` | services/crossfire/csharp/packages/Crossfire.AdapterCodex/CodexTimeline.cs:103-141 | against a server that pages one ordered log the answer is that of a single scan, and the bound is reported only with at least 100 entries newer than the boundary |
| `TimelineTheorems.AnchoredReceipt` | services/crossfire/csharp/packages/Crossfire.AdapterCodex/CodexTimeline.cs:115-137 | that scan judges exactly the entries after the boundary |
| `TimelineTheorems.IncrementalEqualsRescan` | services/crossfire/csharp/packages/Crossfire.AdapterCodex/CodexConnection.cs:106-115 | checking again and again from the moved boundary answers what one scan from the original boundary answers at the last check |
| `TimelineTheorems.NeverSkipped` | services/crossfire/csharp/packages/Crossfire.AdapterCodex/CodexConnection.cs:106-115 | an entry with the identity after the original boundary is never passed over: the checks answer received or report its conflict |
| `WireTimeline.AcceptsExactly` | services/crossfire/csharp/packages/Crossfire.AdapterCodex/CodexTimeline.cs:68-85 | a reply is read as a page exactly when it is the JSON of at most limit native events with a usable cursor |
| `WireTimeline.ReadsReply` | services/crossfire/csharp/packages/Crossfire.AdapterCodex/CodexTimeline.cs:71-85 | the oldest-first events of an honest reply are read as exactly those events, newest first |
| `WireTimeline.WireReceipt` | services/crossfire/csharp/packages/Crossfire.AdapterCodex/CodexTimeline.cs:103-141 | against a server that sends JSON stretches of one event log the answer is what the events after the boundary say: the last with the identity, else the first completion of the turn, else pending or unavailable |
| `WireTimeline.CaptureAnchors` | services/crossfire/csharp/packages/Crossfire.AdapterCodex/CodexTimeline.cs:87-91 | the boundary captured before a submission anchors the search in every later log |
| `WireTimeline.RecheckedVerdict` | services/crossfire/csharp/packages/Crossfire.AdapterCodex/CodexConnection.cs:106-115 | the last of any number of searches with a moving boundary answers what all events after the original boundary say |
| `WireTimeline.RecordedIsFound` | services/crossfire/csharp/packages/Crossfire.AdapterCodex/CodexConnection.cs:106-115 | a user message with the identity, recorded after the boundary, is answered as received or as a conflict |
| `CodexDelivery.NativeJournal.Prepare` | services/crossfire/csharp/packages/Crossfire.AdapterRuntime/NativeJournal.cs:85-96 | saves an input durably or leaves the journal as it was; refuses another message while one is pending, and one already confirmed |
| `CodexDelivery.NativeJournal.Complete` | services/crossfire/csharp/packages/Crossfire.AdapterRuntime/NativeJournal.cs:97-106 | ends only the pending message, and confirms it when it was received |
| `CodexDelivery.CodexConnection.Deliver` | services/crossfire/csharp/packages/Crossfire.AdapterRuntime/NativeDelivery.cs:94-115 | captures the boundary, saves the input before it is submitted, and submits it once |
| `CodexDelivery.CodexConnection.Submit` | services/crossfire/csharp/packages/Crossfire.AdapterCodex/CodexConnection.cs:72-75 | one turn/start and then the saved turn, also when the save fails |
| `CodexDelivery.CodexConnection.Received` | services/crossfire/csharp/packages/Crossfire.AdapterCodex/CodexConnection.cs:76-116 | the effects, the answer and the volatile fields after one check, for every answer of the remote side |
| `CodexDelivery.CodexConnection.ResumeOrSettle` | services/crossfire/csharp/packages/Crossfire.AdapterCodex/CodexConnection.cs:93-115 | a restored or interrupted input is resumed only from an idle thread, otherwise the check settles |
| `CodexDelivery.CodexConnection.SettleReceipt` | services/crossfire/csharp/packages/Crossfire.AdapterCodex/CodexConnection.cs:106-115 | the boundary moves before the answer is given, and a third unavailable answer fails |
| `CodexDelivery.CodexConnection.StartResumption` | services/crossfire/csharp/packages/Crossfire.AdapterCodex/CodexConnection.cs:98-103 | the resumption is saved, started and saved again with its turn, and nothing is started when the first save fails |
| `CodexDelivery.SettleMovesBoundary` | services/crossfire/csharp/packages/Crossfire.AdapterCodex/CodexConnection.cs:106-112 | a settling check leaves in the journal the publication from which the next check starts: only its boundary moved, to the newest position seen |
| `DeliveryRuns.ResumptionsStartedOnce` | services/crossfire/csharp/packages/Crossfire.AdapterCodex/CodexConnection.cs:93-104 | in every run with crashes between any two effects no resumption identity is given to turn/start twice |
| `DeliveryRuns.ResumptionGuarded` | services/crossfire/csharp/packages/Crossfire.AdapterCodex/CodexConnection.cs:93-101 | a resumption is started only right after it was saved, in a check that found the current publication unreceived and the thread idle |
| `DeliveryRuns.OriginalKept` | services/crossfire/csharp/packages/Crossfire.AdapterRuntime/NativeJournal.cs:85-96 | until a message is completed every journal entry keeps its original text and identity |
| `DeliveryRuns.OriginalStartedOnce` | services/crossfire/csharp/packages/Crossfire.AdapterCodex/CodexConnection.cs:72-75 | an original is saved right before it is started, and is started again only after a completion |
| `DeliveryRuns.CompletedJustly` | services/crossfire/csharp/packages/Crossfire.AdapterRuntime/NativeDelivery.cs:43-55 | a message is completed only by a check that looked for the publication then pending and found that status, the same message since |
| `DeliveryAnswers.ResumesExactly` | services/crossfire/csharp/packages/Crossfire.AdapterCodex/CodexConnection.cs:93-104 | in every run a check starts a resumption exactly when it looks in vain for a message that survived the last restart untried, or for an interrupted resumption, the thread is idle, and capture and save succeed; with its effects and its answer |
| `DeliveryAnswers.ResumptionJournaled` | services/crossfire/csharp/packages/Crossfire.AdapterCodex/CodexConnection.cs:98-103 | the journal then holds the notice with the captured boundary and, once saved, its turn, beside the original |
| `DeliveryAnswers.AnswersExactly` | services/crossfire/csharp/packages/Crossfire.AdapterCodex/CodexConnection.cs:79-115 | what every other check does and answers, for each outcome of the search, each state of the thread and each failing save |
| `DeliveryAnswers.MissesAre` | services/crossfire/csharp/packages/Crossfire.AdapterCodex/CodexConnection.cs:83-114 | the count that makes the third check without news fail is that of such answers since the start, the last delivery or the last settled answer |
| `DeliveryAnswers.DeliversExactly` | services/crossfire/csharp/packages/Crossfire.AdapterRuntime/NativeDelivery.cs:94-115 | a message is saved and submitted exactly when nothing is pending, it is not received and unacknowledged, fewer than 128 such are kept, and capture and save succeed |
| `DeliveryAnswers.DeliveryAnswered` | services/crossfire/csharp/packages/Crossfire.AdapterRuntime/NativeDelivery.cs:105-109 | and how a delivery answers |
| `DeliveryAnswers.ConfirmedMeans` | services/crossfire/csharp/packages/Crossfire.AdapterRuntime/NativeJournal.cs:97-110 | the journal confirms exactly the messages completed as received and not acknowledged since |
| `WebSocketProtocol.Protocol.Enter` | services/crossfire/csharp/packages/Crossfire.AdapterCodex/WebSocketProtocol.cs:95-98 | an operation is counted unless the connection failed |
| `WebSocketProtocol.Protocol.Leave` | services/crossfire/csharp/packages/Crossfire.AdapterCodex/WebSocketProtocol.cs:99-102 | the last operation after a failure signals the drain |
| `WebSocketProtocol.Protocol.Register` | services/crossfire/csharp/packages/Crossfire.AdapterCodex/WebSocketProtocol.cs:218-224 | issues the next id, or none without capacity |
| `WebSocketProtocol.Protocol.Cancelled` | services/crossfire/csharp/packages/Crossfire.AdapterCodex/WebSocketProtocol.cs:230-234 | an unsent request is withdrawn, a sent one stays |
| `WebSocketProtocol.Protocol.Receive` | services/crossfire/csharp/packages/Crossfire.AdapterCodex/WebSocketProtocol.cs:167-169 | a response takes its entry, and is unexpected exactly when there is none |
| `WebSocketProtocol.Protocol.Fail` | services/crossfire/csharp/packages/Crossfire.AdapterCodex/WebSocketProtocol.cs:78-92 | the first failure empties the table and hands out what it held |
| `WebSocketProtocol.Protocol.AddDecision` | services/crossfire/csharp/packages/Crossfire.AdapterCodex/WebSocketProtocol.cs:152-156 | at most 16 decisions, no key twice |
| `WebSocketProtocol.Always` | services/crossfire/csharp/packages/Crossfire.AdapterCodex/WebSocketProtocol.cs:78-265 | every interleaving of requests, cancellations, replies, decisions, failures and the shutdown keeps the invariant |
| `WebSocketProtocol.NeverUnexpected` | services/crossfire/csharp/packages/Crossfire.AdapterCodex/WebSocketProtocol.cs:128-170 | against a peer that answers each request it received once, no reply is unexpected before a failure; sent and unanswered ids stay pending, never more than 64 |
| `WebSocketProtocol.OneOutcome` | services/crossfire/csharp/packages/Crossfire.AdapterCodex/WebSocketProtocol.cs:78-92 | a request completes at most once, and one that the peer received is pending or completed, completed after any failure |
| `WebSocketProtocol.IdsIncrease` | services/crossfire/csharp/packages/Crossfire.AdapterCodex/WebSocketProtocol.cs:218-224 | the ids are 1, 2, 3 and so on, and each keeps the caller it was issued to |
| `WebSocketProtocol.FailureIsFinal` | services/crossfire/csharp/packages/Crossfire.AdapterCodex/WebSocketProtocol.cs:78-102 | after a failure nothing is pending, no id is issued, no operation enters and the count only falls |
| `WebSocketProtocol.CloseWaits` | services/crossfire/csharp/packages/Crossfire.AdapterCodex/WebSocketProtocol.cs:259-265 | once Close has disposed its resources no caller, no writer, no reader and no undecided answer is left, and none comes |
| `WebSocketProtocol.CloseEnds` | services/crossfire/csharp/packages/Crossfire.AdapterCodex/WebSocketProtocol.cs:259-265 | Close never waits for a signal that cannot come |
| `WebSocketLaws.PendingExactly` | services/crossfire/csharp/packages/Crossfire.AdapterCodex/WebSocketProtocol.cs:216-237 | until a failure exactly the requests that are unsent or sent and unanswered are pending: none is forgotten, none left behind |
| `WebSocketLaws.RegistersExactly` | services/crossfire/csharp/packages/Crossfire.AdapterCodex/WebSocketProtocol.cs:219-224 | a caller gets the next id exactly without a failure, with fewer than 64 requests pending and ids left; otherwise it leaves with nothing issued |
| `WebSocketLaws.WaitTogether` | services/crossfire/csharp/packages/Crossfire.AdapterCodex/WebSocketProtocol.cs:221 | for every n up to 64 some run has n requests pending together |
| `WebSocketLaws.ReplyCompletes` | services/crossfire/csharp/packages/Crossfire.AdapterCodex/WebSocketProtocol.cs:167-169 | a reply completes the request it answers and nothing else, and its caller can go on |
| `WebSocketLaws.AsksExactly` | services/crossfire/csharp/packages/Crossfire.AdapterCodex/WebSocketProtocol.cs:151-157 | a question is taken exactly while fewer than 16 are open and none has its key; any other fails the connection |
| `WebSocketLaws.ClosesAtOnce` | services/crossfire/csharp/packages/Crossfire.AdapterCodex/WebSocketProtocol.cs:259-265 | without users Close runs to its end |
| `KeyedLocks.Authority.Reference` | services/crossfire/csharp/packages/Crossfire.AdapterMatrix/AccountAuthority.cs:165-169 | the first caller of a key makes its semaphore, later ones share it |
| `KeyedLocks.Authority.Dereference` | services/crossfire/csharp/packages/Crossfire.AdapterMatrix/AccountAuthority.cs:179-184 | the last caller removes the key and disposes its semaphore |
| `KeyedLocks.TextsDiffer` | services/crossfire/csharp/packages/Crossfire.AdapterMatrix/AccountAuthority.cs:161-169 | different keys, those of member registration among them, never share a dictionary string, for room ids that start with "!" and user ids with "@" |
| `KeyedLocks.NestingClimbs` | services/crossfire/csharp/packages/Crossfire.AdapterMatrix/Deactivation.cs:41-49 | every nested acquisition climbs from agent or registration to room, conversation or invitations, ordinary user and service user |
| `KeyedLocks.MutualExclusion` | services/crossfire/csharp/packages/Crossfire.AdapterMatrix/AccountAuthority.cs:161-187 | in every interleaving, with cancellation anywhere, calls of one key share one semaphore and at most one of them runs |
| `KeyedLocks.StringsExclude` | services/crossfire/csharp/packages/Crossfire.AdapterMatrix/AccountAuthority.cs:161-187 | calls share a semaphore exactly when they name the same string, so for instance no account is opened while it is deactivated |
| `KeyedLocks.ReferencesExact` | services/crossfire/csharp/packages/Crossfire.AdapterMatrix/AccountAuthority.cs:161-187 | a key is listed exactly while calls use it, its count is their number, and its semaphore is disposed exactly when none does |
| `KeyedLocks.Front` | services/crossfire/csharp/packages/Crossfire.AdapterMatrix/OwnerConversations.cs:64-72 | the chain of waits from any call climbs, so it ends at a call that waits for nobody |
| `KeyedLocks.NoDeadlock` | services/crossfire/csharp/packages/Crossfire.AdapterMatrix/AccountAuthority.cs:161-187 | in every reachable state the call at the end of that chain can take its next step |
| `Records.SplitJoins` | services/crossfire/csharp/packages/Crossfire.AdapterFilesystem/NativeHistory.cs:119-126 | the records and the unfinished tail are the bytes, nothing lost or moved |
| `Records.JoinSplits` | services/crossfire/csharp/packages/Crossfire.AdapterFilesystem/DiagnosticStore.cs:93-104 | newline-free records come back from the joined file as they were |
| `NativeHistory.KeyInjective` | services/crossfire/csharp/packages/Crossfire.AdapterFilesystem/NativeHistory.cs:36-41 | two files have the same key exactly when device and inode are the same |
| `NativeHistory.ReadExactly` | services/crossfire/csharp/packages/Crossfire.AdapterFilesystem/NativeHistory.cs:42-50 | fills the buffer whatever the short reads, or fails exactly when the file is too short |
| `NativeHistory.Header` | services/crossfire/csharp/packages/Crossfire.AdapterFilesystem/NativeHistory.cs:66-81 | the first record if it ends within the bound, and a failure exactly when the bound is exceeded |
| `NativeHistory.Capture` | services/crossfire/csharp/packages/Crossfire.AdapterFilesystem/NativeHistory.cs:82-104 | the position after the last complete record, and a failure exactly when the unfinished one is too long to look through |
| `NativeHistory.Since` | services/crossfire/csharp/packages/Crossfire.AdapterFilesystem/NativeHistory.cs:105-135 | delivers the non-empty records after the boundary up to the first bad one, finishes exactly when there is none, tells an overlong one from one that does not parse, and is lost exactly when the boundary does not hold |
| `NativeHistory.ScanChunk` | services/crossfire/csharp/packages/Crossfire.AdapterFilesystem/NativeHistory.cs:116-127 | one 64 KiB chunk carries the reading on, wherever it splits the records |
| `NativeHistory.CaptureThenSince` | services/crossfire/csharp/packages/Crossfire.AdapterFilesystem/NativeHistory.cs:82-135 | when a file only grows the boundary keeps holding and the later scan yields exactly the records not complete at the capture |
| `NativeHistory.IntervalsPartition` | services/crossfire/csharp/packages/Crossfire.AdapterFilesystem/NativeHistory.cs:82-135 | successive intervals divide the records: none missed, none twice |
| `NativeHistory.BoundaryIsForItsFile` | services/crossfire/csharp/packages/Crossfire.AdapterFilesystem/NativeHistory.cs:110-111 | a boundary is never accepted for another file |
| `NativeHistory.HoldsExactly` | services/crossfire/csharp/packages/Crossfire.AdapterFilesystem/NativeHistory.cs:51-111 | a boundary holds for a later file exactly when that is the same file, not shorter, and unchanged in the first 256 bytes before it |
| `NativeHistory.GoodMeans` | services/crossfire/csharp/packages/Crossfire.AdapterFilesystem/NativeHistory.cs:119-126 | the records before the first with more than 33554432 bytes or, not empty, that does not parse |
| `DiagnosticStore.RecordFits` | services/crossfire/csharp/packages/Crossfire.AdapterFilesystem/DiagnosticStore.cs:48-57 | a record of one piece never exceeds 524288 bytes, holds no newline and carries its time |
| `DiagnosticStore.RecordReads` | services/crossfire/csharp/packages/Crossfire.AdapterFilesystem/DiagnosticStore.cs:55 | a reader of JSON gets from every record the time and the text it was written with |
| `Text.WholeOfUtf8` | services/crossfire/csharp/packages/Crossfire.AdapterFilesystem/DiagnosticStore.cs:48-53 | decoding the bytes of a message gives its text, with lone surrogates replaced |
| `DiagnosticStore.PiecesCover` | services/crossfire/csharp/packages/Crossfire.AdapterFilesystem/DiagnosticStore.cs:51-59 | the records cover the bytes of the message in order, in full pieces of 65536 bytes and one last piece |
| `DiagnosticStore.WriteReadsBack` | services/crossfire/csharp/packages/Crossfire.AdapterFilesystem/DiagnosticStore.cs:35-67 | the records a write adds to the file of its day read back as the time and, put together, the message, with lone surrogates replaced; every other file is unchanged |
| `DiagnosticStore.SoundExactly` | services/crossfire/csharp/packages/Crossfire.AdapterFilesystem/DiagnosticStore.cs:95-109 | a file is sound exactly when it ends with a record and each has at most 524288 bytes and a time |
| `DiagnosticStore.DiagnosticStore.Write` | services/crossfire/csharp/packages/Crossfire.AdapterFilesystem/DiagnosticStore.cs:35-67 | appends the records of the message to the file of its day, or nothing with a bad clock or after closing |
| `DiagnosticStore.DiagnosticStore.Trim` | services/crossfire/csharp/packages/Crossfire.AdapterFilesystem/DiagnosticStore.cs:80-109 | for every chunking, succeeds exactly on a sound file and then yields exactly the records at or after the cutoff |
| `DiagnosticStore.DiagnosticStore.Prune` | services/crossfire/csharp/packages/Crossfire.AdapterFilesystem/DiagnosticStore.cs:117-153 | every file is kept, reduced or deleted by its day, a bad one is left alone and reported |
| `DiagnosticStore.KeptPruned` | services/crossfire/csharp/packages/Crossfire.AdapterFilesystem/DiagnosticStore.cs:138-144 | skipping, deleting and trimming a file all amount to the time filter, because a record lies in the file of its day |
| `DiagnosticStore.RetentionIsFilter` | services/crossfire/csharp/packages/Crossfire.AdapterFilesystem/DiagnosticStore.cs:35-153 | after any writes and cleanups each day holds, byte for byte and in order, exactly the records no cleanup expired, and no cleanup fails |
| `CodexHistories.Owner.Open` | services/crossfire/csharp/packages/Crossfire.AdapterCodex/CodexHistories.cs:82-89 | lists a new initialization exactly when the context is neither open nor opening nor the owner closing |
| `CodexHistories.Owner.Record` | services/crossfire/csharp/packages/Crossfire.AdapterCodex/CodexHistories.cs:108-113 | appends a new binding only after it was saved, never one that repeats a session |
| `CodexHistories.Owner.Write` | services/crossfire/csharp/packages/Crossfire.AdapterCodex/ContextRegistry.cs:49-59 | nothing is written that would not decode |
| `CodexHistories.AlwaysDecodes` | services/crossfire/csharp/packages/Crossfire.AdapterCodex/ContextRegistry.cs:27-36 | in every interleaving the registry and its file keep distinct contexts, distinct sessions and at most 2002 bindings |
| `CodexHistories.SingleFlight` | services/crossfire/csharp/packages/Crossfire.AdapterCodex/CodexHistories.cs:82-90 | at most one initialization per context, and none beside an open connection |
| `CodexHistories.BindingsStay` | services/crossfire/csharp/packages/Crossfire.AdapterCodex/CodexHistories.cs:108-113 | the registry only grows |
| `CodexHistories.OpenedSessions` | services/crossfire/csharp/packages/Crossfire.AdapterCodex/CodexHistories.cs:105-119 | open contexts use different sessions, and the session bound to them from then on |
| `CodexHistories.OpensExactly` | services/crossfire/csharp/packages/Crossfire.AdapterCodex/CodexHistories.cs:93-131 | undisturbed, a context that is not open opens exactly when it is bound, or a binding is left for it, a room is within the budget and the session is new; then registry and file hold the session it uses, otherwise nothing changes |
| `CodexHistories.ClosedStays` | services/crossfire/csharp/packages/Crossfire.AdapterCodex/CodexHistories.cs:218-231 | nothing is opened after Close has collected the connections |
| `CodexHistories.CloseCollects` | services/crossfire/csharp/packages/Crossfire.AdapterCodex/CodexHistories.cs:218-226 | Close collects once no initialization is left |
| `CodexHistories.BudgetExact` | services/crossfire/csharp/packages/Crossfire.AdapterCodex/CodexHistories.cs:100-102 | one step takes rooms and pending rooms beyond 2000 exactly when it admits a new room while the pending ones fill the budget |
| `CodexHistories.BudgetKept` | services/crossfire/csharp/packages/Crossfire.AdapterCodex/CodexHistories.cs:100-113 | over every run in which no check overdraws, rooms and pending rooms stay within 2000 |
| `CodexHistories.SerialBudget` | services/crossfire/csharp/packages/Crossfire.AdapterCodex/CodexHistories.cs:100-102 | in particular rooms checked one at a time stay within the budget |
| `CodexHistories.RecordedExceed` | services/crossfire/csharp/packages/Crossfire.AdapterCodex/CodexHistories.cs:108-113 | when more rooms are pending than the budget has left, recording them with new sessions exceeds it, unless both other contexts are bound |
| `CodexHistories.OverdrawExceeds` | services/crossfire/csharp/packages/Crossfire.AdapterCodex/CodexHistories.cs:100-113 | so an overdraw is followed by an excess when its pending rooms are recorded |
| `CodexHistories.ExceedableExactly` | services/crossfire/csharp/packages/Crossfire.AdapterCodex/CodexHistories.cs:100-113 | some run exceeds the budget exactly when it is exceeded already, or fewer than 2000 rooms and at most one of the two other contexts are saved |
| `CodexHistories.BudgetExceeded` | services/crossfire/csharp/packages/Crossfire.AdapterCodex/CodexHistories.cs:100-113 | from 1999 saved rooms two concurrent openings reach 2001 |
| `PrivateFiles.Directory.WriteCore` | services/crossfire/csharp/packages/Crossfire.AdapterFilesystem/PrivateFiles.cs:194-223 | the write passes only through the listed disks and ends with the new file synced |
| `PrivateFiles.WholeOldOrNew` | services/crossfire/csharp/packages/Crossfire.AdapterFilesystem/PrivateFiles.cs:210-218 | a crash at any step leaves the whole old or the whole new file, and every other file as it was |
| `PrivateFiles.TemporaryGone` | services/crossfire/csharp/packages/Crossfire.AdapterFilesystem/PrivateFiles.cs:216-222 | a completed write leaves nothing under the temporary name |
| `PrivateFiles.FlushNeeded` | services/crossfire/csharp/packages/Crossfire.AdapterFilesystem/PrivateFiles.cs:213-216 | without the flush the same steps could leave a cut file |
| `ContextReset.Home.Move` | services/crossfire/csharp/packages/Crossfire.AdapterFilesystem/StateArchive.cs:5-17 | succeeds exactly without a name conflict, and then every selected entry is archived; in any case nothing is lost |
| `ContextReset.Home.Reset` | services/crossfire/csharp/packages/Crossfire.AdapterCodex/CodexRuntime.cs:87-106 | a repeated identity changes nothing, otherwise success means the archive is complete and the marker set |
| `ContextReset.SelectsExactly` | services/crossfire/csharp/packages/Crossfire.AdapterCodex/CodexRuntime.cs:101 | the reset takes the registry of contexts and the files named after it |
| `ContextReset.ConservedMeans` | services/crossfire/csharp/packages/Crossfire.AdapterFilesystem/StateArchive.cs:9-15 | conservation says of each entry: unchanged at home, or moved once, with its content, to one archive |
| `ContextReset.ArchivedUnique` | services/crossfire/csharp/packages/Crossfire.AdapterCodex/CodexRuntime.cs:101-102 | there is one uninterrupted result |
| `ContextReset.CrashesConserve` | services/crossfire/csharp/packages/Crossfire.AdapterFilesystem/StateArchive.cs:5-17 | at every crash point of every run the entries last written are conserved |
| `ContextReset.NothingLost` | services/crossfire/csharp/packages/Crossfire.AdapterFilesystem/StateArchive.cs:5-17 | over every run with crashes, what is held under a name at home or in an archive stays held until that name is written again |
| `ContextReset.RetriesConverge` | services/crossfire/csharp/packages/Crossfire.AdapterCodex/CodexRuntime.cs:95-102 | however often attempts are cut, and whatever is written between them, once the marker names the reset the files are the uninterrupted result for what was last written |
| `ContextReset.RepeatIsNoOp` | services/crossfire/csharp/packages/Crossfire.AdapterCodex/CodexRuntime.cs:95-100 | repeating the latest completed identity changes nothing; only what is written meanwhile does |
| `ContextReset.RetryExactly` | services/crossfire/csharp/packages/Crossfire.AdapterCodex/CodexRuntime.cs:95-102 | between attempts, some further attempts with the identity complete it exactly when no selected name at home is already in its archive |
| `ContextReset.RecreatedConflicts` | services/crossfire/csharp/packages/Crossfire.AdapterFilesystem/StateArchive.cs:9-15 | an attempt cut after a rename never completes once that entry has been made again |
| `FleetConnection.FleetConnection.Refresh` | services/crossfire/csharp/packages/Crossfire.AdapterCrossfire/FleetConnection.cs:51-65 | every listener shows what state, snapshot and receipts say |
| `FleetConnection.FleetConnection.Apply` | services/crossfire/csharp/packages/Crossfire.AdapterCrossfire/FleetConnection.cs:84-92 | an older snapshot is ignored, a current one replaces state and drops receipts of unlisted messages |
| `FleetConnection.FleetConnection.Disconnect` | services/crossfire/csharp/packages/Crossfire.AdapterCrossfire/FleetConnection.cs:66-69 | the first disconnection of a connection clears the flag and cancels its requests |
| `FleetConnection.FleetConnection.Delivery` | services/crossfire/csharp/packages/Crossfire.AdapterCrossfire/FleetConnection.cs:143-147 | a local change is taken with the revision of its response |
| `FleetConnection.BindsExactly` | services/crossfire/csharp/packages/Crossfire.AdapterCrossfire/FleetConnection.cs:39-49 | a listener is bound exactly when it is new and fewer than 100 are, and is shown the state at once |
| `FleetConnection.ActiveAgrees` | services/crossfire/csharp/packages/Crossfire.AdapterCrossfire/FleetConnection.cs:61-62 | an active listener is enrolled in the last accepted snapshot and acts on the flag of exactly that revision |
| `FleetConnection.AgreeingActive` | services/crossfire/csharp/packages/Crossfire.AdapterCrossfire/FleetConnection.cs:61-62 | an enrolled listener of a connected controller is active when that flag is on and current |
| `FleetConnection.ConnectedExactly` | services/crossfire/csharp/packages/Crossfire.AdapterCrossfire/FleetConnection.cs:51-62 | a listener is told it is connected exactly while the controller is and the last accepted snapshot enrols it |
| `FleetConnection.OlderPollIgnored` | services/crossfire/csharp/packages/Crossfire.AdapterCrossfire/FleetConnection.cs:84-92 | an older poll changes nothing at all |
| `FleetConnection.RevisionFallsExactly` | services/crossfire/csharp/packages/Crossfire.AdapterCrossfire/FleetConnection.cs:143-147 | the revision falls in one step exactly when the response to a local change names a lower one |
| `FleetConnection.OlderPollAccepted` | services/crossfire/csharp/packages/Crossfire.AdapterCrossfire/FleetConnection.cs:143-147 | with honest answers a late response can lower the revision, and a poll older than the snapshot then replaces it |
| `FleetConnection.AcknowledgedChangeStays` | services/crossfire/csharp/packages/Crossfire.AdapterCrossfire/FleetConnection.cs:84-92 | an acknowledged change is not undone by polls while later responses name no older revision |
| `FleetConnection.LeasesInOrder` | services/crossfire/csharp/packages/Crossfire.AdapterCrossfire/FleetConnection.cs:106-124 | a connection is reported only when every other one ever reported was released or met a conflict |
| `FleetConnection.Reconnects` | services/crossfire/csharp/packages/Crossfire.AdapterCrossfire/FleetConnection.cs:112-126 | a disconnected controller connects again, under a new connection, with the next current answer after its release |
| `FleetConnection.PollTakesEffect` | services/crossfire/csharp/packages/Crossfire.AdapterCrossfire/FleetConnection.cs:84-92 | after an answer that is not older, exactly its agents are active, on the server's flag for its revision |
| `FleetConnection.InputIsFirst` | services/crossfire/csharp/packages/Crossfire.AdapterCrossfire/FleetConnection.cs:56-60 | a listener is given the first listed message for it that it has not acknowledged |
| `FleetConnection.NotGivenTwice` | services/crossfire/csharp/packages/Crossfire.AdapterCrossfire/FleetConnection.cs:138-142 | an acknowledged message is not given to the agent again while the server still lists it |
| `FleetConnection.ReceiptEndsInput` | services/crossfire/csharp/packages/Crossfire.AdapterCrossfire/FleetConnection.cs:138-142 | once a receipt is recorded the message is not given again while the server lists it |
| `FleetConnection.ReceiptsKept` | services/crossfire/csharp/packages/Crossfire.AdapterCrossfire/FleetConnection.cs:88-89 | an accepted snapshot keeps exactly the receipts of messages it lists |
| `FleetConnection.LateApplyExactly` | services/crossfire/csharp/packages/Crossfire.AdapterCrossfire/FleetConnection.cs:126-127 | a step connects a disconnected controller exactly when it applies a current answer whose check came before the cancellation |
| `FleetConnection.LateApplyConnects` | services/crossfire/csharp/packages/Crossfire.AdapterCrossfire/FleetConnection.cs:66-69 | such a run exists, and a second disconnection does not undo it |
| `FleetConnection.CancelledMeansDisconnected` | services/crossfire/csharp/packages/Crossfire.AdapterCrossfire/FleetConnection.cs:66-69 | without such an answer a cancelled controller is never connected |
| `RoomPowers.ReadPowers` | services/crossfire/csharp/packages/Crossfire.AdapterMatrix/RoomState.cs:58-79 | succeeds exactly on valid content, and the ceiling is one below the lowest threshold |
| `RoomPowers.SpecifiedDefaults` | services/crossfire/csharp/packages/Crossfire.AdapterMatrix/RoomState.cs:64-72 | the levels where the content names none |
| `RoomPowers.LowestEvent` | services/crossfire/csharp/packages/Crossfire.AdapterMatrix/RoomState.cs:73-76 | the lowest threshold of the listed events, whatever their order |
| `RoomPowers.CeilingOf` | services/crossfire/csharp/packages/Crossfire.AdapterMatrix/RoomState.cs:70-77 | every content has exactly one ceiling, one below its lowest threshold |
| `RoomPowers.Creators` | services/crossfire/csharp/packages/Crossfire.AdapterMatrix/RoomState.cs:32-48 | fails exactly on an invalid creation event, and otherwise lists the creators |
| `RoomPowers.CreatorsOf` | services/crossfire/csharp/packages/Crossfire.AdapterMatrix/RoomState.cs:32-48 | the sender and the additional creators of a version 12 room, each once |
| `RoomPowers.NativeRoom` | services/crossfire/csharp/packages/Crossfire.AdapterMatrix/Rooms.cs:32-67 | facts are reported exactly for a joined member of a valid room, they describe it, and the room determines them |
| `RoomPowers.MembershipState` | services/crossfire/csharp/packages/Crossfire.AdapterMatrix/Rooms.cs:74-91 | the same for any target of a valid room |
| `RoomPowers.ReadGrantSafe` | services/crossfire/csharp/packages/Crossfire.AdapterMatrix/Rooms.cs:45-47 | a read level is below every level needed to send, invite, kick, ban, redact or change state, and at most the authorizer's |
| `RoomPowers.ReadGrantGreatest` | services/crossfire/csharp/packages/Crossfire.AdapterMatrix/Rooms.cs:45-46 | the read level is the greatest that allows nothing and is not above the authorizer |
| `RoomPowers.ReplyGrantExact` | services/crossfire/csharp/packages/Crossfire.AdapterMatrix/Rooms.cs:66 | the reply level is the lowest that allows both kinds of message |
| `RoomPowers.RequestedExactly` | services/crossfire/csharp/packages/Crossfire.AdapterMatrix/AuthorityValues.cs:16-36 | a level is chosen exactly when the mode grants it: the read level, the reply level within the authorizer's, or the number asked for, cut to the authorizer's when reconciling |
| `RoomPowers.ViewAgrees` | services/crossfire/csharp/packages/Crossfire.AdapterMatrix/AuthorityValues.cs:38-54 | for a target that is no creator a mode is offered exactly when it can be granted |
| `RoomPowers.CreatorView` | services/crossfire/csharp/packages/Crossfire.AdapterMatrix/AuthorityValues.cs:49 | for a creator reply is always offered, and can be granted exactly when the authorizer may reply itself |
| `RoomAccess.SetRoomPower` | services/crossfire/csharp/packages/Crossfire.AdapterMatrix/RoomAccess.cs:44-107 | which level, invitation and join are sent, and what is answered, for every combination of reads and call results, both ways |
| `RoomAccess.SetRoomAccess` | services/crossfire/csharp/packages/Crossfire.AdapterMatrix/RoomAccess.cs:21-28 | the same for a grant, whose level comes from the first two reads; nothing is sent when they refuse it |
| `RoomAccess.GrantExactly` | services/crossfire/csharp/packages/Crossfire.AdapterMatrix/RoomAccess.cs:23-26 | the level of a grant is what the mode grants in the room as first read and, without admission, at most what the member has |
| `RoomAccess.SentWithin` | services/crossfire/csharp/packages/Crossfire.AdapterMatrix/RoomAccess.cs:44-56 | a level is sent first and at most once, never above a non-creator authorizer at either reading nor, without admission, above the member as first read, and never for a creator |
| `RoomAccess.OnlyThisLevel` | services/crossfire/csharp/packages/Crossfire.AdapterMatrix/RoomAccess.cs:78-84 | the content sent changes no other user's level and no required level |
| `RoomAccess.JoinVerified` | services/crossfire/csharp/packages/Crossfire.AdapterMatrix/RoomAccess.cs:62-98 | the target joins last, and by invitation only when it came from the authorizer and was verified before the level was sent and again after |
| `RoomAccess.SuccessMeans` | services/crossfire/csharp/packages/Crossfire.AdapterMatrix/RoomAccess.cs:58-106 | success means nothing was sent for a member outside the room, or a last read confirmed a joined one: a reader below everything guarded, or one who may reply |
| `RoomAccess.RaisesExactly` | services/crossfire/csharp/packages/Crossfire.AdapterMatrix/RoomAccess.cs:25-26 | a grant without admission sends a level above the fetched one exactly when the call reaches its write and the fetched level is below the level it chose |
| `RoomAccess.RaisableExactly` | services/crossfire/csharp/packages/Crossfire.AdapterMatrix/RoomAccess.cs:25-26 | some such grant raises the member exactly when the least of the member's first reading and the two of the authorizer is above the fetched level, and the current reading does not equal the only level between |
| `RoomAccess.RaisesBack` | services/crossfire/csharp/packages/Crossfire.AdapterMatrix/RoomAccess.cs:72-86 | a concrete call: a level demoted to 0 after the last reading is set back to 40, and confirmed |
| `RoomAccess.OnlyLowers` | services/crossfire/csharp/packages/Crossfire.AdapterMatrix/RoomAccess.cs:25-26 | a fetched level that is not below the first reading is never raised |
| `MatrixNotices.Encoded` | services/crossfire/csharp/packages/Crossfire.Kernel/ProtocolJson.cs:50-78 | every character becomes between one and six bytes, as the next two lemmas pin down |
| `MatrixNotices.EncodedReads` | services/crossfire/csharp/packages/Crossfire.Kernel/ProtocolJson.cs:50-78 | a decoder of JSON escapes and UTF-8 gives every character back from its bytes |
| `MatrixNotices.EncodedShortest` | services/crossfire/csharp/packages/Crossfire.Kernel/ProtocolJson.cs:50-78 | no shorter JSON reads as the character |
| `MatrixNotices.NoticeReads` | services/crossfire/csharp/packages/Crossfire.AdapterMatrix/MatrixNotices.cs:12-15 | the body read from an encoded notice is its text |
| `MatrixNotices.GroupFits` | services/crossfire/csharp/packages/Crossfire.AdapterMatrix/MatrixNotices.cs:18-23 | what is counted as fitting has an encoded notice of at most 50000 bytes, and conversely |
| `MatrixNotices.CharactersProper` | services/crossfire/csharp/packages/Crossfire.AdapterMatrix/MatrixNotices.cs:19-21 | the characters are the text, and no two of them form a pair |
| `MatrixNotices.ReadsBack` | services/crossfire/csharp/packages/Crossfire.AdapterMatrix/MatrixNotices.cs:21 | joined characters read as the same characters: no pair is split or made |
| `MatrixNotices.Chunks` | services/crossfire/csharp/packages/Crossfire.AdapterMatrix/MatrixNotices.cs:16-26 | the messages join to the text, each is non-empty with an encoded notice of at most 50000 bytes, none splits a pair, and no division into fitting messages has fewer |
| `Preservation.KeptExactly` | services/crossfire/tools/database.ts:142 | exactly the rows absent by primary key and eligible to expire are left out |
| `Preservation.PresentExactly` | services/crossfire/tools/database-retention.ts:36-42 | a row is present when some current row has the same cells in all key columns |
| `Preservation.VerifyRelation` | services/crossfire/tools/database.ts:137-147 | succeeds exactly when the rows that may not be missing form a sub-multiset of the current rows |
| `Preservation.VerifyPreservation` | services/crossfire/tools/database.ts:115-157 | succeeds exactly when every relation is within bounds and preserved, and then preserved and expired rows add up |
| `Preservation.EligibleExactly` | services/crossfire/tools/database-retention.ts:13-33 | for each kind of row when it may be missing, from the original rows and the claimed days |
| `Preservation.ItemsEligible` | services/crossfire/tools/database-retention.ts:27 | the items of a request may be missing exactly when it may |
| `Preservation.ResumedNativeStops` | services/crossfire/tools/database.ts:159-179 | each stop becomes its allowed form, and the changed ones are counted |
| `Preservation.StopsChangeOnlySo` | services/crossfire/tools/database.ts:166-177 | a stop may differ only by its first invalidation, explained by a later run of the same agent and fleet |
| `Preservation.StopsChangeExactly` | services/crossfire/tools/database.ts:165-177 | a stop is expected in its changed form exactly when that is the original with a first invalidation that a run explains |
| `Preservation.NothingExpires` | services/crossfire/tools/database-retention.ts:9-34 | without a claimed retention nothing may be missing |
| `Preservation.LastStopStays` | services/crossfire/tools/database-retention.ts:28-29 | the last stop of an agent never expires |
| `RegistrationTransport.RegistrationTransport.Expire` | services/crossfire/csharp/packages/Crossfire.AdapterMatrix/RegistrationTransport.cs:28-32 | exactly the sessions past their expiry go |
| `RegistrationTransport.RegistrationTransport.Prepare` | services/crossfire/csharp/packages/Crossfire.AdapterMatrix/RegistrationTransport.cs:34-60 | finds or makes a session and fills in details once, with the same refusals and the same leftovers of a refusal |
| `RegistrationTransport.RegistrationTransport.Issue` | services/crossfire/csharp/packages/Crossfire.AdapterMatrix/RegistrationTransport.cs:127-132 | a live session gets the new nonce and invitation as its only confirmation |
| `RegistrationTransport.RegistrationTransport.Confirm` | services/crossfire/csharp/packages/Crossfire.AdapterMatrix/RegistrationTransport.cs:141-146 | authorizes exactly on the pending nonce with the same invitation before expiry, and takes the nonce |
| `RegistrationTransport.AuthorizedByNonce` | services/crossfire/csharp/packages/Crossfire.AdapterMatrix/RegistrationTransport.cs:125-147 | in every interleaving a session becomes authorized only by the latest nonce issued for it, not consumed, with the invitation seen at issue |
| `RegistrationTransport.NonceOnce` | services/crossfire/csharp/packages/Crossfire.AdapterMatrix/RegistrationTransport.cs:141-146 | no nonce is consumed twice, and every authorized session consumed one issued for it |
| `RegistrationTransport.SessionsStable` | services/crossfire/csharp/packages/Crossfire.AdapterMatrix/RegistrationTransport.cs:28-60 | over every run expiry is never extended, details never change once set, and a session that is gone stays gone |
| `RegistrationTransport.SessionsBounded` | services/crossfire/csharp/packages/Crossfire.AdapterMatrix/RegistrationTransport.cs:45-46 | at most 1000 sessions |
| `RegistrationTransport.BoundsHold` | services/crossfire/csharp/packages/Crossfire.AdapterMatrix/RegistrationTransport.cs:88-107 | no two registrations of one username are in flight, and each is of an authorized session |
| `RegistrationTransport.PreparesExactly` | services/crossfire/csharp/packages/Crossfire.AdapterMatrix/RegistrationTransport.cs:34-60 | in every run a request goes on exactly when its session may begin, its account fields are complete, valid and unchanged, and no other stage is asked; with the fields it gave, and every other live session as it was |
| `RegistrationTransport.PageAuthorizes` | services/crossfire/csharp/packages/Crossfire.AdapterMatrix/RegistrationTransport.cs:127-146 | a page shown and posted in time with its nonce and invitation authorizes exactly that session |
| `RegistrationTransport.AdmitsExactly` | services/crossfire/csharp/packages/Crossfire.AdapterMatrix/RegistrationTransport.cs:80-90 | a request is admitted exactly with an authorized session, its details, and no other registration of the username in flight |

## Left out

- HTTP, sockets, SQLite and, except for notices and diagnostic records, the JSON text: decoded values, sizes and success flags are inputs of the model.
- Process launching, packaging, the web UI and operator tools: no state worth a model.
- POSIX ownership, mode and link checks: only open, write, flush, rename, sync and unlink matter here.
- Hashes, random identities and nonces: taken to be injective and new. A repeated nonce or session identity is not modelled.
- CodexDelivery.NativeJournal.Prepare: the write of the journal is one atomic durable step, as PrivateFiles.WholeOldOrNew shows for the file; the size bounds that can refuse it are folded into the flag `written`.
- CodexDelivery.CodexConnection.Received: the text and the retained file of a resumption are opaque values; waiting, interrupting and cancelling are not part of this model.
- CodexTimeline: TurnStatus and Latest, easier searches over turns.
- WebSocketProtocol.Always: notifications, which enter, send and leave like a request without an id, and the deadline timers themselves; any failure they cause is the event Break, and one racing the end of Close is not counted as a user of the socket.
- KeyedLocks.NoDeadlock: takes user keys to be user identifiers, as every caller passes them, and says nothing about fairness.
- NativeHistory.Since: the file may grow but not change while it is scanned, so the checks after the scan are not modelled.
- DiagnosticStore.DiagnosticStore.Write: the escaping of the JSON writer is a parameter of which only that its escapes read back is used, and so is the reader of timestamps; stale pending files and a partly failed write to disk are not modelled.
- CodexHistories: Activity, Settle and the start-up checks of a changed history mode.
- ContextReset.Home.Reset: the state lock and the decoding of the marker. Creating the archive directory is part of the first rename, and a file the runtime writes between attempts is synced with the home in one step, as PrivateFiles.Directory.WriteCore shows for the file.
- AccountAuthority: the cached sessions of OpenAsUser, the registration challenges and the polling of a deactivation; what an owner conversation or an invitation does while it holds its key.
- FleetConnection.FleetConnection.Refresh: reading the state and updating the listeners is one step. Runtime operations, the watchdog timer (a Disconnect) and the final shutdown are not modelled.
- RoomPowers.NativeRoom: names, topics, the permission list and the kick and change levels it also reports.
- RoomAccess.SetRoomPower: a level is written by one request that succeeds or not; the homeserver's own checks are not modelled.
- MatrixNotices.Chunks: lone surrogates are counted as the encoder writes them; whether the JSON writer accepts them is not modelled.
- Preservation.VerifyPreservation: reading the relations, the schema inspection, the validity of the retention input and its own row bounds.
- RegistrationTransport.BoundsHold: verifying the invitation and the signup policy, which only prevent steps; the claim of an invitation inside services.Register.
