# Verified model of the Matrix client's encryption and sync state machines

This Dafny project models the bookkeeping that a Matrix client library has to get right for end-to-end
encryption and for sliding sync, and proves what that bookkeeping promises over every input and every run.
`dafny verify dfyconfig.toml` checks all of it.

## How it is organised

Each file is one component. An object that the library updates in place is a class here, with the same fields;
every method is proved equal to a function on values (`View()` before, `View()` after), and the promises are then
proved about those functions, step by step and over whole runs.

| file | component |
|---|---|
| `KeyQueryQueue.dfy` | which users still need a device-list query, with queries interleaved at their awaits |
| `KeyQueryDiff.dfy` | what a key query does to the device store: identities, deletions, trust, the reported difference |
| `KeyRequests.dfy` | room-key requests: received, waiting for a session, waiting for the user's trust |
| `Unwedging.dfy` | broken Olm sessions, the dummy message that repairs them, the requests parked meanwhile |
| `GroupSharing.dfy` | the two ways to share a group session, and their agreement |
| `OutboundSessions.dfy` | which group session may encrypt a message after members change |
| `ReplayGuard.dfy` | the bounded least-recently-used guard against replayed group messages |
| `RoomIndex.dfy` | the member tables of a room and the indexes beside them |
| `SlidingDedup.dfy` | bounded de-duplication of timeline events |
| `HeldAccountData.dfy` | account data that waits for its room |
| `PinnedSender.dfy` | the single-slot retry protocol of encrypted to-device messages |
| `Http2Body.dfy` | request bodies under HTTP/2 flow control |
| `DurableCodec.dfy` | the validating codec of durable sync records |
| `NestingGuard.dfy` | the depth check on decrypted payloads |
| `Json.dfy`, `Sequences.dfy`, `Devices.dfy`, `Wrappers.dfy` | JSON trees, lists without duplicates, device names, Option and Result |

Cryptography enters as data: whether a signature verifies, whether a session exists, which number a ciphertext has.
Clocks (session age, the hourly unwedging interval) are booleans of the step. The order in which Python visits a dict
is a parameter where the result can depend on it, and arbitrary where it cannot.

## Where the code and the obvious reading differ

* A query for device lists may be answered after a later query about the same user. The queue still asks about
  every change that came after the send of *all* answered queries (`NothingLost`), but the list *stored* last can
  predate a change nobody asks about again: `LateAnswerLosesChange` gives that run. `StepLosesIff` and `NeverLosesIff`
  say exactly which answers lose a change, and `LosableIff` that a state can still come to lose one if and only if a query
  sent before the change is unanswered. So a change is safe exactly when no query that may answer for its user is under
  way as it arrives (`ChangeLosableIff`).
* The synchronous client leaves the users of a query queued and sends no user set with it, so that the answer discards
  even a change that arrived after the query was sent (`UnscopedAnswerLosesChange`); `StepForgetsIff` says exactly when.
* A connection-wide HTTP/2 window update iterates over the dict that it pops from. The model keeps that: the iteration
  raises exactly when a body other than the last one fits as a whole into the windows before the call
  (`FlushRaisesIff`, `WindowUpdateRaisesIff`, and a run that does so in `UpdateCanRaise`). No byte is lost, but the
  streams it did not reach may wait behind an open window, as may a stream whose window a settings change enlarges:
  `StepStallsIff` states that these are the only two ways.
* A device that was marked deleted and reappears with the same keys stays deleted; only a rotated identity
  revives it (`RevivedIff`). When the Curve25519 key and the name change together, the name waits for another query
  (`UpToDateIff`). `SameKeysStayDeleted` and `KeyBeforeName` show both.
* Hero insertion, a joined-members refresh, a room that goes away and a snapshot of an unencrypted room change the
  members but leave a shared session in place; `SurvivesIffUnreported` states that these are exactly the exceptions,
  and `HeroKeepsSession` gives a run.
* A depth limit below zero behaves like a limit of zero, because scalars are never measured (`NestingExceeds`).

## Model

| member | source | states |
|---|---|---|
| KeyQueryQueue.KeyQueryUsers.Begin | src/nio/client/async_client.py:2055-2074 | who is asked about, what leaves the shared set before the await, and that nothing changes when there is nobody to ask |
| KeyQueryQueue.KeyQueryUsers.HandleResponse | src/nio/crypto/olm_machine.py:765-769 | every answered user becomes tracked; only a response without its user set takes users out of the queue |
| KeyQueryQueue.KeyQueryUsers.Finish | src/nio/client/async_client.py:2075-2085 | an answer puts back whoever it did not cover; an error, exception or cancellation puts back everybody |
| KeyQueryQueue.KeyQueryUsers.UpdateTrackedUsers | src/nio/crypto/olm_machine.py:302-309 | exactly the members that are not tracked yet join the queue |
| KeyQueryQueue.KeyQueryUsers.AddChangedUsers | src/nio/crypto/olm_machine.py:311-313 | changed users join the queue, tracked or not |
| KeyQueryQueue.EntersQueueIff | src/nio/client/async_client.py:2055-2085 | over every step, a user enters the queue if and only if a change names the user, a room has the user as an untracked member, or a query about the user ends without an answer for the user |
| KeyQueryQueue.LeavesQueueIff | src/nio/client/async_client.py:2055-2073 | a user leaves the queue if and only if a query about the user is sent or an answer without user set names the user |
| KeyQueryQueue.BecomesTrackedIff | src/nio/crypto/olm_machine.py:765-769 | a user becomes tracked if and only if an answer holds the user, and stays tracked |
| KeyQueryQueue.InFlightIff | src/nio/client/async_client.py:2055-2085 | a query is under way from its send, which is refused for nobody or for a malformed user, until it finishes or fails |
| KeyQueryQueue.QueryAsksAndAnswers | src/nio/responses.py:1740-1751 | a query asks about the given or else the queued users, and its one answer holds those of them that are returned and whose server did not fail |
| KeyQueryQueue.StepKeepsChange | src/nio/client/async_client.py:2055-2085 | no step of any interleaving drops a change that is newer than every answered query about the user |
| KeyQueryQueue.StepKeepsMember | src/nio/crypto/olm_machine.py:302-309 | no step loses a room member that is neither tracked, queued nor asked about |
| KeyQueryQueue.NothingLost | src/nio/client/async_client.py:2055-2085 | over every run with concurrent queries, partial answers, failures and cancellations, a change after the send of every answered query is queued or in a query sent after it, and every encrypted-room member is tracked, queued or in flight |
| KeyQueryQueue.QuietMeansUpToDate | src/nio/client/async_client.py:2055-2085 | once nothing is queued or in flight, every change was followed by an answered query and every member is tracked |
| KeyQueryQueue.InOrderStoresFreshest | src/nio/crypto/olm_machine.py:762-769 | when answers are handled in the order of their queries, the stored list is the freshest one |
| KeyQueryQueue.InOrderLosesNothing | src/nio/client/async_client.py:2055-2085 | then no change is lost to the answer stored last either; the exact conditions are the next rows |
| KeyQueryQueue.StepLosesIff | src/nio/client/async_client.py:2055-2085 | a step loses a change if and only if it handles an answer to a query sent before the change while the user is neither queued (or is discarded) nor in a query sent after it |
| KeyQueryQueue.NeverLosesIff | src/nio/client/async_client.py:2055-2085 | a run never loses a user's change, at any time, if and only if none of its answers is such a one when it is handled |
| KeyQueryQueue.LosableIff | src/nio/client/async_client.py:2055-2085 | from a reachable state some continuation without a new change loses the last one if and only if it is lost already or a query sent before it is unanswered |
| KeyQueryQueue.ChangeLosableIff | src/nio/crypto/olm_machine.py:311-313 | a change that arrives now can come to be lost if and only if an unanswered query about the user, or any query without user set, is under way |
| KeyQueryQueue.LateAnswerLosesChange | src/nio/client/async_client.py:2055-2085 | a concrete run: with an answer handled late, the stored list predates a change that is neither queued nor in flight |
| KeyQueryQueue.KeyQueryUsers.BeginUnscoped | src/nio/client/http_client.py:717-723 | the synchronous client asks about the queued users, leaves them queued, and refuses an empty query |
| KeyQueryQueue.StepForgetsIff | src/nio/crypto/olm_machine.py:765-769 | over all steps, a change newer than every answered query leaves the queue unasked if and only if an answer without user set, to a query sent before the change, names the user and no newer scoped query is under way |
| KeyQueryQueue.UnscopedAnswerLosesChange | src/nio/client/http_client.py:717-723 | a concrete run: change, query, change, answer, and the second change is neither queued nor in flight |
| KeyQueryDiff.DeviceMachine.HandleKeyQuery | src/nio/crypto/olm_machine.py:762-903 | the nested loops, in any order of users and devices, leave exactly the specified store and report exactly the specified difference |
| KeyQueryDiff.DeviceMachine.HandlePayload | src/nio/crypto/olm_machine.py:771-886 | one listed device with all its early exits: the new record, and a note in the difference only if it changed |
| KeyQueryDiff.DeviceMachine.MarkDeleted | src/nio/crypto/olm_machine.py:888-900 | stored active devices missing from the response are marked deleted and noted, and no others |
| KeyQueryDiff.QueriedDevice | src/nio/crypto/olm_machine.py:771-900 | the new record of any one device, read off the response without reference to the loops |
| KeyQueryDiff.FirstSeenDevice | src/nio/crypto/olm_machine.py:771-826 | an unknown device is stored if and only if it is listed in its own place, complete, self-signed and not ours, with the listed ids, signing key, curve key and name, active and without trust |
| KeyQueryDiff.NotWellListed | src/nio/crypto/olm_machine.py:771-803 | any other payload leaves every field of a stored device alone, except that one missing from its user's answer is marked deleted |
| KeyQueryDiff.WellListedDevice | src/nio/crypto/olm_machine.py:827-886 | all seven fields of a stored device after an accepted payload: rotation refused or taken, another curve key, another name |
| KeyQueryDiff.TrustChangeExact | src/nio/store/database.py:972-1082 | a trust operation sets its state, or clears exactly the state it undoes, on its own device only |
| KeyQueryDiff.ChangedExact | src/nio/crypto/olm_machine.py:763-903 | the reported difference holds a device if and only if its stored record differs from before, and then with the new record |
| KeyQueryDiff.QueryKeepsKeys | src/nio/crypto/device.py:190-204 | every stored device sits under its own user and device id |
| KeyQueryDiff.OwnDeviceNeverAdded | src/nio/crypto/olm_machine.py:771-773 | our own device is never added, and no device is ever removed |
| KeyQueryDiff.ActiveDevicesAreListed | src/nio/crypto/olm_machine.py:888-900 | the active devices of an answered user are among those the response lists |
| KeyQueryDiff.RevivedIff | src/nio/crypto/olm_machine.py:820-866 | a deleted device becomes active if and only if an acceptable payload rotates its identity and rotation is allowed |
| KeyQueryDiff.UpToDateIff | src/nio/crypto/olm_machine.py:820-886 | exactly when an accepted payload leaves the stored device fully up to date |
| KeyQueryDiff.SameKeysStayDeleted | src/nio/crypto/olm_machine.py:868-872 | the failing side of revival: any deleted device listed again with its own keys stays deleted |
| KeyQueryDiff.KeyBeforeName | src/nio/crypto/olm_machine.py:874-886 | the failing side of being up to date: key and name change together, the name comes with the second query |
| KeyQueryDiff.VerifiedUnderCurrentKey | src/nio/crypto/olm_machine.py:820-862 | over every run of queries and trust changes, a verified device has the Ed25519 key it was verified under |
| KeyQueryDiff.IdentityIsPinned | src/nio/crypto/olm_machine.py:820-827 | without key replacement, the Ed25519 key of a stored device never changes over any run |
| KeyQueryDiff.BlacklistSurvives | src/nio/crypto/olm_machine.py:856-862 | no sequence of key queries clears a blacklist, whatever keys it rotates |
| KeyRequests.KeyRequestQueues.HandleRequest | src/nio/crypto/olm_machine.py:470-483 | only a request for the group algorithm is queued, under its id |
| KeyRequests.KeyRequestQueues.HandleCancellation | src/nio/crypto/olm_machine.py:484-518 | what a cancellation takes out of all three queues, when the session claim is given up, and when the user is told |
| KeyRequests.CancelExact | src/nio/crypto/olm_machine.py:484-518 | queue by queue and id by id: what a cancellation removes, and that a request shown to the user leaves a notice |
| KeyRequests.CancelGivesUpWait | src/nio/crypto/olm_machine.py:498-505 | the wait for a session is given up if and only if the cancelling device is known and nothing else of it waits |
| KeyRequests.KeyRequestQueues.ShareWithOurselves | src/nio/crypto/olm_machine.py:548-614 | the whole new state for each way a request can end: refused, unverified, parked, forwarded |
| KeyRequests.ShareOutcome | src/nio/crypto/olm_machine.py:566-614 | each outcome with its exact condition on session held, device known, verified, and Olm session |
| KeyRequests.ShareChanges | src/nio/crypto/olm_machine.py:587-614 | a forward is appended, or the request and its device wait, exactly for those outcomes, and nothing else changes |
| KeyRequests.KeyRequestQueues.CollectKeyRequests | src/nio/crypto/olm_machine.py:677-707 | the queue of a sync is settled entry by entry and emptied, and the user is told about exactly the untrusted ones and their cancellations |
| KeyRequests.TellsExactly | src/nio/crypto/olm_machine.py:684-707 | the answer lists exactly the cancellations and the requests of our own user, for a session we hold, from a known unverified device, each once and in the order of the queue |
| KeyRequests.ToldIff | src/nio/crypto/olm_machine.py:684-707 | an entry is in the answer if and only if it is queued and of that kind, and the queue is empty afterwards |
| KeyRequests.KeyRequestQueues.ContinueKeyShare | src/nio/crypto/olm_machine.py:633-648 | a request leaves the untrusted queue only when it was settled, and an unknown one is refused |
| KeyRequests.ContinueExact | src/nio/crypto/olm_machine.py:633-648 | the three answers with their exact conditions, and what each leaves in the queues |
| KeyRequests.KeyRequestQueues.CancelKeyShare | src/nio/crypto/olm_machine.py:650-656 | declining removes exactly that request and says whether it was pending |
| KeyRequests.KeyRequestQueues.HandleClaim | src/nio/crypto/olm_machine.py:709-752 | a well-signed one-time key makes a session and moves the waiting requests back to the sync queue |
| KeyRequests.ClaimExact | src/nio/crypto/olm_machine.py:709-752 | a session appears if and only if the device is known and the signature good, and then exactly its waiting requests go back to the sync queue |
| KeyRequests.CancelPlaces | src/nio/crypto/olm_machine.py:484-518 | a cancellation removes a request from every queue if and only if it names its id, sender and device, and never touches another |
| KeyRequests.StepKeepsLedger | src/nio/crypto/olm_machine.py:470-752 | every operation keeps the ledger: consistent queues, at most one place per request, cancelled ones gone, the session list exact |
| KeyRequests.StepPlaces | src/nio/crypto/olm_machine.py:470-752 | a step takes a request out of its place if and only if it is its own cancellation while queued, a decline of it, or a collecting or continuing of it that its user, session or device does not warrant; no step duplicates it |
| KeyRequests.StepForwardsTrusted | src/nio/crypto/olm_machine.py:566-614 | whatever a step forwards is a session we hold, for a device of our own user that is verified and has an Olm session at that moment, and the log is only appended to |
| KeyRequests.CollectSettles | src/nio/crypto/olm_machine.py:677-707 | collecting puts every queued request exactly where its device's verification and session say: forwarded, parked, shown to the user, or gone |
| KeyRequests.ReachableLedger | src/nio/crypto/olm_machine.py:470-752 | in every reachable state, with sessions coming and going, each request is in at most one queue or was forwarded once, and the devices that need a session are, without duplicates, exactly those with waiting requests |
| KeyRequests.ExactlyOnePlace | src/nio/crypto/olm_machine.py:470-752 | over every run an accepted request is in exactly one place, queue or forwarding log, unless some step of the run dismissed it, and then it is in none |
| KeyRequests.CancelledNeverForwarded | src/nio/crypto/olm_machine.py:484-518 | after its own device cancelled it, a request is in no queue and is never forwarded again in any continuation of the run |
| Unwedging.UnwedgingMachine.MarkDeviceForUnwedging | src/nio/crypto/olm_machine.py:1099-1130 | a known device joins the wedged list once, unless its session is recent |
| Unwedging.UnwedgingMachine.CheckIfWedged | src/nio/crypto/olm_machine.py:1408-1459 | when an undecryptable event asks for its key at once and when it is parked |
| Unwedging.UnwedgingMachine.HandleClaimedKey | src/nio/crypto/olm_machine.py:742-744 | a new session turns a wedged device into one outgoing dummy message |
| Unwedging.UnwedgingMachine.MarkToDeviceMessageAsSent | src/nio/crypto/olm_machine.py:905-946 | an acknowledged dummy empties the parking list and queues its requests; an unknown message changes nothing |
| Unwedging.WedgedIff | src/nio/crypto/olm_machine.py:1099-1130 | a device is wedged if and only if it was marked without a recent session and no key was claimed for it since |
| Unwedging.ParkedExact | src/nio/crypto/olm_machine.py:1452-1459 | exactly when an event is parked, and when the list is emptied |
| Unwedging.OutgoingGrows | src/nio/crypto/olm_machine.py:1430-1450 | exactly when an event asks for its key at once and when a dummy is queued |
| Unwedging.AcknowledgedLeaves | src/nio/crypto/olm_machine.py:911-939 | an acknowledged message leaves the list, the others keep their order, and a dummy is followed by the requests for what was parked |
| Unwedging.RequestedIff | src/nio/crypto/olm_machine.py:941-946 | a session counts as asked for if and only if a request for it was acknowledged |
| Unwedging.WedgedThenAsked | src/nio/crypto/olm_machine.py:905-946 | a concrete run: a device breaks, an event is lost and parked, the dummy is acknowledged, and the session is asked for |
| Unwedging.RequestsAreDistinctInOrder | src/nio/crypto/olm_machine.py:911-939 | exactly one request per distinct session of the parking list, in the order the sessions first occur |
| Unwedging.StepKeepsParked | src/nio/crypto/olm_machine.py:905-946 | no step leaves parked events with neither a wedged device nor an outstanding dummy |
| Unwedging.ReachableHasNoOrphans | src/nio/crypto/olm_machine.py:905-946 | in every reachable state a device with parked events is wedged or has an unacknowledged dummy |
| Unwedging.ParkedOrAsked | src/nio/crypto/olm_machine.py:911-939 | over every run, an event that was ever parked is still parked or its session has been requested from its device |
| Unwedging.QuietMeansAllAsked | src/nio/crypto/olm_machine.py:911-939 | once no device is wedged and every dummy is acknowledged, every session ever parked has been requested |
| GroupSharing.OutboundSessionMachine.ShareParallel | src/nio/crypto/olm_machine.py:1766-1849 | a missing or already shared session is replaced first; then exactly the specified requests, or the error of the first untrusted device, and the ignored set |
| GroupSharing.OutboundGroupSession.RequestAll | src/nio/crypto/olm_machine.py:1787-1849 | the one-shot loops over users and devices, against the scan |
| GroupSharing.OutboundSessionMachine.ShareBatch | src/nio/crypto/olm_machine.py:1851-1943 | a missing session is created, a shared one is refused; then the batch, or the first error, with the ignored set as left by then |
| GroupSharing.OutboundGroupSession.RequestBatch | src/nio/crypto/olm_machine.py:1876-1943 | the batch loops with their two breaks, against the specified batch |
| GroupSharing.ChunkUp | src/nio/crypto/olm_machine.py:93-96 | slicing by index yields the specified chunks |
| GroupSharing.ScanPicksRecipients | src/nio/crypto/olm_machine.py:1787-1826 | the one-shot scan fails if and only if an eligible device is untrusted, and otherwise picks exactly the eligible devices, each once |
| GroupSharing.ScanStops | src/nio/crypto/olm_machine.py:1787-1826 | the one-shot scan stops at the first untrusted device in play with a session, which its error names, having picked exactly the reachable devices before it |
| GroupSharing.BatchStops | src/nio/crypto/olm_machine.py:1876-1925 | for every policy: a batch picks the reachable devices in order up to the twentieth, or up to the first device without a session while sessions are insisted on or without trust, and its ignored set is exact |
| GroupSharing.BatchFailsIff | src/nio/crypto/olm_machine.py:1900-1925 | for every policy a batch fails if and only if there is such a device before the twentieth pick, and its error names that device and its kind |
| GroupSharing.OnlyTrustedDevices | src/nio/crypto/olm_machine.py:1787-1943 | no request of either sharer is for our own, a blacklisted or an untrusted device, or one that has the key |
| GroupSharing.VisitedInOrder | src/nio/crypto/olm_machine.py:1793-1794 | both sharers visit user by user in the order given |
| GroupSharing.VisitedDistinct | src/nio/crypto/device.py:190-204 | a store that keeps each device once makes the sharers visit each device once |
| GroupSharing.ChunksCover | src/nio/crypto/olm_machine.py:93-96 | chunks in order make up the list; none is empty or too long and only the last may be short |
| GroupSharing.ExactlyOneChunk | src/nio/crypto/olm_machine.py:93-96 | an element of a list without duplicates sits in exactly one chunk |
| GroupSharing.OneShotCoversRecipients | src/nio/crypto/olm_machine.py:1787-1849 | every eligible device, and no other, is addressed by exactly one request of at most 20 |
| GroupSharing.SuccessfulRound | src/nio/crypto/olm_machine.py:1876-1943 | one batch and its acknowledgement reach only eligible devices and leave exactly the others eligible |
| GroupSharing.RoundProgress | src/nio/client/base_client.py:1285-1306 | each successful round marks the session shared or settles at least 20 more devices |
| GroupSharing.Rounds | src/nio/client/base_client.py:1285-1306 | repeated rounds end, shared or failed, after at most (open devices / 20) + 1 rounds |
| GroupSharing.RoundsReachRecipients | src/nio/crypto/olm_machine.py:1851-1943 | repeated rounds fail if and only if some eligible device is untrusted, and otherwise reach exactly the eligible devices |
| GroupSharing.SharersAgree | src/nio/crypto/olm_machine.py:1766-1943 | the two sharers fail on the same inputs and otherwise share with the same devices |
| OutboundSessions.OutboundSessionTable.InvalidateSession | src/nio/client/base_client.py:602-616 | a shared session is dropped, one that is not shared yet is kept |
| OutboundSessions.InvalidateExact | src/nio/client/base_client.py:602-616 | exactly a shared session of exactly that room is dropped |
| OutboundSessions.CreateExact | src/nio/crypto/olm_machine.py:1047-1059 | a new session has a fresh id and is shared with nobody, and other rooms keep theirs |
| OutboundSessions.OutboundSessionTable.Encrypt | src/nio/crypto/olm_machine.py:1734-1764 | sessions are created or rotated as needed and only a shared one encrypts |
| OutboundSessions.EncryptLeaves | src/nio/crypto/olm_machine.py:1741-1751 | an unexpired session stays, and a missing or expired one is replaced by one shared with nobody |
| OutboundSessions.OutboundSessionTable.HandleShareResponse | src/nio/client/base_client.py:1285-1306 | the recipients are recorded, and the session is shared once every active device is covered |
| OutboundSessions.AcknowledgedIff | src/nio/client/base_client.py:1285-1306 | a response is recorded in full, and the session is shared afterwards if and only if it was before or each active device of each member had the key, gets it, or is ignored |
| OutboundSessions.BecomesSharedCovered | src/nio/client/base_client.py:1293-1306 | a step that is no self-made mark shares a session only by a response that covers everyone |
| OutboundSessions.SharedWasCovered | src/nio/client/base_client.py:1285-1306 | over every run in which only responses share, a shared session was once covered for everyone then in the room, and has kept that cover |
| OutboundSessions.RoundIsAcknowledged | src/nio/client/base_client.py:1285-1306 | a round of batch and acknowledgement, as the sharers' agreement uses it, is what the client does |
| OutboundSessions.EncryptsIff | src/nio/crypto/olm_machine.py:1741-1754 | a message is encrypted if and only if the room's present session is unexpired and shared, and with that one |
| OutboundSessions.MemberChangeExact | src/nio/client/base_client.py:888-930 | the member tables stay exact, and a member event or stub reports a change if and only if the member set changed |
| OutboundSessions.ReportDropsShared | src/nio/client/base_client.py:595-616 | no shared session survives a reported change of members or a snapshot of an encrypted room |
| OutboundSessions.SurvivesIffUnreported | src/nio/client/sliding_sync.py:52-73 | a shared session survives a change of the member set if and only if the change is one that nothing reports |
| OutboundSessions.SyncStepExact | src/nio/client/sliding_sync.py:52-73 | of everything a sync brings, exactly a reported change of members and a snapshot of an encrypted room drop a session, and only a shared one |
| OutboundSessions.SharingStepExact | src/nio/crypto/olm_machine.py:1771-1779 | starting to share keeps an unshared session and replaces any other; finishing and ignoring touch only their own part |
| OutboundSessions.HeroKeepsSession | src/nio/client/sliding_sync.py:99-113 | a concrete run: a hero joins the member table and the shared session stays |
| OutboundSessions.StepKeepsFresh | src/nio/client/base_client.py:595-616 | every step keeps every shared session newer than the last reported change of its room's members |
| OutboundSessions.RunUsesFreshSessions | src/nio/crypto/olm_machine.py:1734-1764 | over every run, each message is encrypted with a session that became shared with no reported member change since |
| ReplayGuard.Guard.MessageIndexOk | src/nio/crypto/olm_machine.py:1378-1406 | one call on the bounded cache: its answer, the refreshed order, and the eviction |
| ReplayGuard.CacheIsRecentSuffix | src/nio/crypto/olm_machine.py:278-280 | the cache is exactly the most recently used end of the full usage order |
| ReplayGuard.RetainedIff | src/nio/crypto/olm_machine.py:1392-1406 | a key is remembered if and only if it was used and fewer than the limit of other keys were used since |
| ReplayGuard.StoredIsRecorded | src/nio/crypto/olm_machine.py:1392-1406 | what the cache stores agrees with a definition that mentions no cache |
| ReplayGuard.AcceptedIff | src/nio/crypto/olm_machine.py:1392-1406 | a message is accepted if and only if no remembered record contradicts it |
| ReplayGuard.AcceptedTwiceIsSameEvent | src/nio/crypto/olm_machine.py:1378-1406 | two accepted messages with one key, session and index are the same event, unless in between the key came back after a full cache of other keys |
| ReplayGuard.ReplaysAreRefused | src/nio/crypto/olm_machine.py:167 | the same at the machine's size: a different event under one key is accepted only after 100000 distinct other keys |
| RoomIndex.MatrixRoom.Add | src/nio/rooms.py:267-291 | the new tables and the answer, with the user object shared by both tables |
| RoomIndex.MatrixRoom.Remove | src/nio/rooms.py:293-307 | the new tables and the answer, including the second, forgiving removal for invited users |
| RoomIndex.MatrixRoom.HandleEvent | src/nio/rooms.py:309-366 | on exact tables a membership event never raises and has the specified effect on the shared objects |
| RoomIndex.MatrixRoom.RefreshMembers | src/nio/client/base_client.py:1316-1331 | the two loops over a response have the specified effect and never raise |
| RoomIndex.MatrixRoom.NameFor | src/nio/rooms.py:181-194 | the lookup through shared objects is the specified one |
| RoomIndex.AddMemberExact | src/nio/rooms.py:267-291 | adding keeps the indexes exact, and says whether it added |
| RoomIndex.RemoveMemberExact | src/nio/rooms.py:293-307 | removing never fails, keeps the indexes exact and removes exactly that user |
| RoomIndex.UpdateMemberExact | src/nio/rooms.py:335-366 | a rename or a change of the invited flag keeps the indexes exact and touches no other member |
| RoomIndex.HandleMembershipExact | src/nio/rooms.py:309-366 | a membership event never fails, keeps the indexes exact, and answers true if and only if the member set changed |
| RoomIndex.OthersKept | src/nio/rooms.py:309-366 | a membership event touches no record but its target's |
| RoomIndex.UserNameDisambiguates | src/nio/rooms.py:181-194 | a name is disambiguated if and only if another member bears it |
| RoomIndex.ShownName | src/nio/rooms.py:181-194 | the very text: the id for a missing or empty name, else the name, followed by the id in parentheses if and only if another member is shown so too |
| RoomIndex.RefreshExact | src/nio/client/base_client.py:1316-1331 | after a joined-members refresh the members are those listed and those invited, with kept records unchanged and new ones as first listed |
| RoomIndex.RunExact | src/nio/rooms.py:267-366 | no sequence of events, heroes, stubs, refreshes and resets ever raises or makes an index disagree with the members |
| SlidingDedup.SlidingClient.HandleResponse | src/nio/client/base_client.py:1186-1214 | one response over all its rooms, with the suppression map that the consumer extends between two events |
| SlidingDedup.SlidingClient.Consume | src/nio/client/base_client.py:1198-1211 | one yielded event: recorded, evicted from, dropped or handed over |
| SlidingDedup.RetainedIff | src/nio/client/base_client.py:1200-1206 | an id is remembered if and only if it is among the last ones recorded, up to the limit |
| SlidingDedup.BoundedMemory | src/nio/client/base_client.py:1205-1206 | the memory of a room never exceeds its limit |
| SlidingDedup.NoDowngrade | src/nio/client/base_client.py:1191-1204 | a remembered id never goes from clear back to encrypted |
| SlidingDedup.RunDeliveries | src/nio/client/base_client.py:1186-1214 | while an id was recorded once its deliveries are nothing, ciphertext, clear, or ciphertext then clear; it is recorded again only after a full memory of others |
| SlidingDedup.AtMostOnce | src/nio/client/base_client.py:1186-1214 | the same for every run in which no more ids than the limit were recorded after it |
| SlidingDedup.DeliveredIff | src/nio/client/base_client.py:1186-1214 | at the start of a response an event is delivered if and only if its id is not among the last ones recorded, or is remembered as ciphertext and now comes in clear |
| SlidingDedup.ArrivalExact | src/nio/client/base_client.py:1191-1211 | for any event of any response: when it is delivered, when its id is recorded, and what is remembered, in terms of the response so far |
| SlidingDedup.SuppressedIff | src/nio/client/sliding_sync.py:240-244 | an event is suppressed if and only if its id was clear when the response began or has come in clear since |
| SlidingDedup.BoundedRefinesUnbounded | src/nio/client/base_client.py:1186-1214 | unless a forgotten id returns, the bounded memory delivers exactly what an unbounded one would |
| SlidingDedup.EveryRoomRan | src/nio/client/base_client.py:1186-1214 | interleaved rooms do not disturb each other: each goes through exactly the run of responses and events that are its own |
| SlidingDedup.HandedOverInOrder | src/nio/client/base_client.py:1198-1212 | the application is handed a selection of what the responses bring, each item once and in their order, over all rooms |
| SlidingDedup.ApplicationSeesAtMostOnce | src/nio/client/base_client.py:1186-1214 | what the application is handed for one id of one room over any sequence of responses, with the window of 4096 |
| HeldAccountData.AccountDataHolder.Handle | src/nio/client/sliding_sync.py:295-319 | what one response leaves held, in which order, and the whole list of items it hands over |
| HeldAccountData.AccountDataHolder.HoldAll | src/nio/client/sliding_sync.py:295-309 | the collecting loop, in the order of the response, and the order of the dict it leaves |
| HeldAccountData.AccountDataHolder.Release | src/nio/client/sliding_sync.py:311-319 | the releasing loop pops exactly the known rooms and yields their entries in the order of the dicts |
| HeldAccountData.AddRoomsExact | src/nio/client/sliding_sync.py:296-297 | rooms held before keep their place and new ones follow in the order of the response |
| HeldAccountData.HandOverInOrder | src/nio/client/sliding_sync.py:311-319 | items are handed over room by room in the order the rooms are held, and for known rooms only |
| HeldAccountData.HandOverDelivers | src/nio/client/sliding_sync.py:311-319 | of what a response yields, whatever the order of the rooms, a room's part is exactly what is delivered to it |
| HeldAccountData.AbsorbIsLatest | src/nio/client/sliding_sync.py:297-309 | a held list is exactly the last event of each wire type, in the order the types first came |
| HeldAccountData.PendingIsOutstanding | src/nio/client/sliding_sync.py:295-319 | after every response no known room has held data, and an unknown room holds exactly what arrived since it was last known |
| HeldAccountData.DeliveryIsLatest | src/nio/client/sliding_sync.py:311-319 | a response delivers to a room if and only if the room is known at its end, and then exactly the latest outstanding event of each type |
| HeldAccountData.DeliveredFrom | src/nio/client/sliding_sync.py:295-319 | a response delivers an entry if and only if it ends with the room known and the entry is an item since which the room was unknown and no item of its type came |
| HeldAccountData.DeliveredByIff | src/nio/client/sliding_sync.py:295-319 | the item at a position is delivered by a response if and only if that is the first from its own on to end with the room known, and no later item of its type has come by then |
| HeldAccountData.DeliveredOnce | src/nio/client/sliding_sync.py:295-319 | over every run no item is delivered by two responses, and no response delivers an event twice |
| PinnedSender.PinnedClient.Send | src/nio/client/async_client.py:1756-1811 | one call with every way its checks and awaits can end, stage by stage: the slot, the requests sent, the disposal and the reply |
| PinnedSender.RefusalIff | src/nio/client/async_client.py:1756-1802 | each refusal with its exact condition on the call and the slot |
| PinnedSender.AnswerIff | src/nio/client/async_client.py:1778-1811 | any other answer tells how the call's own request ended, or else how the retry did |
| PinnedSender.CallExact | src/nio/client/async_client.py:1770-1811 | what a call sends, with which id and content, what it leaves in the slot, and that exactly a failed encryption disposes |
| PinnedSender.RunKeepsSlot | src/nio/client/async_client.py:1770-1811 | over every run the slot holds the last request exactly while it is unacknowledged, and each request repeats or properly follows the one before |
| PinnedSender.SendsFormBlocks | src/nio/client/async_client.py:1770-1811 | over every run the log is a sequence of blocks of identical requests, each acknowledged before the next ciphertext is first sent |
| PinnedSender.ForeignContentSendsNothing | src/nio/client/async_client.py:1774-1777 | reusing the pending id with other content, and nothing else, is refused so, and sends nothing |
| PinnedSender.NewCiphertextIff | src/nio/client/async_client.py:1770-1811 | a new ciphertext is sent if and only if the call is fit and meets no obstacle and the slot is empty or emptied for another operation |
| PinnedSender.DisposedSendsNothing | src/nio/client/base_client.py:502-506 | once disposed, nothing changes in any continuation of the run |
| PinnedSender.DisposedIff | src/nio/client/async_client.py:1798-1802 | over every run the client is disposed if and only if the encryption of one of its calls failed |
| PinnedSender.FailedEncryptionIsFinal | src/nio/client/async_client.py:1798-1802 | after the call whose encryption failed, every later call is answered as disposed and nothing more is sent |
| PinnedSender.AcknowledgedOwnContent | src/nio/client/async_client.py:1778-1811 | a caller that gets an acknowledgement gets it for its own content and id, sent last |
| Http2Body.Http2Connection.SendDataNow | src/nio/http.py:429-455 | the chunking loop puts exactly the allowed prefix on the wire, then ends the stream or keeps the rest |
| Http2Body.Http2Connection.Send | src/nio/http.py:457-479 | a new stream starts with its whole body to send |
| Http2Body.Http2Connection.HandleWindowUpdate | src/nio/http.py:411-427 | both kinds of update, including the exception of the connection-wide one |
| Http2Body.FramesCarry | src/nio/http.py:440-449 | the frames of a payload carry exactly its bytes in order; all but the last have the maximum size, and none is empty |
| Http2Body.SendDataEffect | src/nio/http.py:429-455 | one call sends a prefix within the window (sections 6.1 and 6.9.1 of RFC 7540), stops short only when the window is used up, and ends the stream if and only if nothing is left |
| Http2Body.SendOthers | src/nio/http.py:429-455 | sending on one stream leaves the bodies, frames and ends of all others alone |
| Http2Body.StreamUpdateExact | src/nio/http.py:417-421 | an update for one stream sends what both windows allow of its waiting body, and nothing when none waits |
| Http2Body.WaitingOrder | src/nio/http.py:451-455 | the waiting streams stay in order, a new one comes last and a drained one is taken out |
| Http2Body.StepConserves | src/nio/http.py:411-479 | requests, window updates, settings changes and negative windows (section 6.9.2 of RFC 7540) all keep sent plus waiting bytes equal to the body |
| Http2Body.Run | src/nio/http.py:411-479 | in every reachable state each body is conserved and its stream ended exactly when nothing waits |
| Http2Body.FlushRaisesIff | src/nio/http.py:423-427 | the connection-wide loop raises if and only if, walking the windows and bodies before the call, a body other than the last one fits as a whole |
| Http2Body.WindowUpdateRaisesIff | src/nio/http.py:411-427 | the handler raises if and only if the update is connection-wide and that walk leaves a stream unreached |
| Http2Body.UpdateCanRaise | src/nio/http.py:423-427 | a concrete run of two requests after which a connection-wide update sends one body, raises, and leaves the other behind an open window |
| Http2Body.FlushStallsIff | src/nio/http.py:423-427 | after a connection-wide update the waiting streams with an open window are exactly those unreached ones for which window is left |
| Http2Body.StepStallsIff | src/nio/http.py:411-479 | a step leaves a body waiting behind an open window if and only if settings enlarge the window of a waiting stream or a connection-wide update breaks off with window left |
| DurableCodec.ReadRecords | src/nio/durable/model.py:89-152 | the decoder's loop stops at the first bad item, with its error |
| DurableCodec.IdentityIff | src/nio/events/to_device.py:541-560 | an authenticated identity is accepted if and only if it is the encoding of one with four nonempty strings |
| DurableCodec.CryptoIff | src/nio/durable/model.py:108-134 | crypto evidence is accepted if and only if, with defaults filled in, it is the encoding of well-formed evidence |
| DurableCodec.MembershipIff | src/nio/durable/model.py:137-150 | the same for a membership change, including its states, epochs and the default source |
| DurableCodec.RecordIff | src/nio/durable/model.py:94-151 | a record is accepted if and only if, with defaults filled in, it is the encoding of a well-formed record, which is what comes out |
| DurableCodec.GatherError | src/nio/durable/model.py:93-151 | the error of the first bad record is the one that leaves the decoder |
| DurableCodec.DecodedIff | src/nio/durable/model.py:89-157 | exactly which arrays are accepted and as which records |
| DurableCodec.RoundTrip | src/nio/durable/model.py:68-152 | decoding an encoding returns the records unchanged if and only if all of them are well formed |
| DurableCodec.DecodeEncodeDecode | src/nio/durable/model.py:68-157 | whatever the decoder accepts is well formed, and writing it again and reading it back changes nothing |
| DurableCodec.WellFormedIff | src/nio/durable/model.py:108-157 | what makes a record well formed, field by field |
| DurableCodec.RecordFormat | src/nio/durable/model.py:68-86 | under which names and as what each field of a record is stored |
| DurableCodec.PartsFormat | src/nio/durable/model.py:24-40 | the same for crypto evidence, authenticated identity and membership change |
| DurableCodec.MissingFields | src/nio/durable/model.py:24-53 | what a missing field stands for, in a record and in its parts |
| DurableCodec.ErrorIff | src/nio/durable/model.py:94-151 | exactly when a KeyError and when a TypeError leaves the decoder; any other bad record is a ValueError |
| NestingGuard.NestingExceeds | src/nio/crypto/olm_machine.py:103-117 | the explicit-stack check answers true if and only if the recursive container depth exceeds the limit, and always ends |
| NestingGuard.NestedTooDeeply | src/nio/crypto/olm_machine.py:134-135 | a decrypted payload is rejected if and only if its depth exceeds 128 |
| NestingGuard.OverStep | src/nio/crypto/olm_machine.py:109-116 | replacing a container by its children keeps whether anything is too deep |
| NestingGuard.PushFields | src/nio/crypto/olm_machine.py:111-113 | pushing the values of an object in any order uses up one node of work |
| JsonTrees.MaxDepthIsMaximum | src/nio/crypto/olm_machine.py:103-117 | the reference depth is a true maximum over the children |

## Left out

- Cryptography itself, base64 and JSON text (including the rejection of NaN): signatures, sessions and ciphertexts
  are inputs, and the codec works on parsed values.
- The durable client, its outbound queue and its recovery: the durable session is absent throughout.
- Request builders, HTTP wrappers, event classes, schemas, the SQLite and file stores: plumbing around the state
  modelled here. Trust is the device's trust state; the trust files beside the database are not modelled.
- Room summaries, group display names, power levels, presence and other room state: easy members next to the index.
- Provenance labels of timeline events and the live-event count: small pure functions.
- KeyQueryQueue.KeyQueryUsers.AddChangedUsers: the filter that keeps only changed users of encrypted rooms is applied by the caller and is not modelled.
- KeyQueryQueue.NothingLost: assumes that every handled response carries the users it was asked for, as the asynchronous client's do; `StepForgetsIff` is the exact statement without that.
- KeyQueryDiff.DeviceMachine.HandleKeyQuery: device records are values in the store, so a device object held elsewhere does not change with it.
- KeyRequests.ReachableLedger: each request id arrives once, and known devices stay known; devices are named by user and device id, because store entries are never replaced.
- KeyRequests.KeyRequestQueues.HandleClaim: handles one device of a response; a response is a sequence of them.
- GroupSharing.SharersAgree: devices and trust stay fixed between rounds and missing sessions are ignored, since a batch that insists on sessions raises instead. The mark "ignored" that the ignoring policy writes on a device is left out, as its trust check passes either way.
- OutboundSessions.RunUsesFreshSessions: a client that marks a session shared although requests failed does so in a step of its own, so "shared" does not mean that everyone has the key.
- Http2Body.Run: resets, disconnects and the early return among received events are not modelled; stream ids are only increasing, not odd.
- HeldAccountData.DeliveredByIff: takes every parsed item to be an event object of its own, which is how positions are told apart; `DeliveredFrom` needs no such assumption.
- PinnedSender.PinnedClient.Send: a call that waits for the lock while another one disposes the client counts as one made after it; both send nothing.
- SlidingDedup.SlidingClient.HandleResponse: covers the timeline events of a response, the only items that are de-duplicated.
