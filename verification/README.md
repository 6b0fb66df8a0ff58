# Verification of the api service

A model, in Dafny, of the four stateful cores of `tools/api` and proofs of what they promise. All of them
share one Postgres database; a SQL statement or transaction is one atomic step, and the tables are maps
whose constraints (`tools/api/migrations/00001_init.sql:40-72`) are proved as invariants, not assumed.

* **Mail** (`Parse`, `MailTables`, `MailStore`, `Ingest`, `Conversations`, `HandledMail`, `Placement`, `AmidOthers`,
  `Attribution`, `AttributionOrder`, `ConformingMail`, `ThreadDates`, `MailboxCursor`): one worker a folder looks up
  a thread, creates one, recovers from a lost race, resolves the grantee, inserts, promotes and touches, while
  addresses are authorized and revoked. `Ingest` has the statements as a machine and the indexer as a class proved
  to run that machine; `Conversations` interleaves any number of workers; `Attribution` and `AttributionOrder` run
  whole operations one after the other; `Placement` says what a handling does in terms of headers and rows alone;
  `AmidOthers` has one handling with anything going on between its statements, and `MailboxCursor` follows one
  folder's cursor through crashes and resets.
* **Approvals** (`Json`, `JsonUnique`, `Signing`, `ApprovalTables`, `ApprovalStore`, `Actions`, `Executor`,
  `Approvals`, `ApprovalHistory`, `ApprovalRaces`, `ApprovalServer`, `ActionEffects`): the signed payload; the
  executors and their effects; and the load / key lookup / verify / dispatch / mark protocol, interleaved with
  everything else.
* **Docs mirror** (`DocTables`, `DriveWalk`, `DriveSync`, `DriveCycles`): the paged folder walk, change detection,
  the sweep, and runs of cycles. Every statement may fail.
* **Notes and listings** (`Queries`, `Search`, `Paging`, `MessageStore`, `Notes`, `NoteStore`): supersession, cursor
  paging, and the query builder down to the placeholders.

`Wrappers`, `Text` and `Sources` hold what the others share. Where the program changes state step by step the model
is a class, and its methods are proved to do what functions on table values say; the theorems are about
these functions, and about runs of them.

Where code and comment disagree the model follows the code:

* `ThreadCandidates` is meant to contain the root of the thread to create. It does so exactly under the condition of
  `Parse.CandidatesHoldRoot`; `Parse.BracketedIdIsNotLookedUp` is an input of the function where it does not.
  (`handleMessage` itself never passes that input: the mail library takes the brackets off a Message-ID, and
  `tools/api/internal/parse/message.go:116-118` makes one up where it is missing.)
* `processDoc` calls an unchanged modification time a no-op. Times are stored in seconds, so that holds exactly for
  times that are a whole number of seconds (`DriveCycles.SecondVisit`; `DriveCycles.OddTimeIsWrittenAgain` is a time
  for which it does not).
* Message listings page by id but sort by date. `Paging.PagingByDateIsExactIff` has the exact condition.
* Dispatch comes before the mark, so it is not at most once. In `ApprovalRaces.RacingRequestsBothDispatch` two
  requests perform one row; in `ApprovalRaces.RetryAfterCrash` a request is cut off before its mark and the next
  one, received only then, performs the row again. `ApprovalRaces.DispatchedAgainIff` has the exact condition, and
  `Actions.DispatchTwice` says that doing it twice in a row is harmless.
* A message that fails is passed by the cursor if the same sync indexes a larger UID or the cursor was that far
  before, and only then (`MailboxCursor.PassedIffLaterIndexed`). `MailboxCursor.PassedIsQueuedIffLast` says exactly
  when a passed message is fetched again, and `MailboxCursor.FailedMessageIsPassed` is a run in which one is lost.

Libraries are parameters: signature verification, key fingerprints, JSON decoding and compaction, the JSONB
conversion, ILIKE, the Drive API and the IMAP server. No property is assumed of them except where a lemma
says so (`Signing.IsCompact`, `DriveWalk.Bounded`, `DriveCycles.Steady`, `MailboxCursor.Answers`).

## Model

| member | source | states |
|---|---|---|
| Parse.ExtractIDs | tools/api/internal/parse/threading.go:16-36 | The loop over bracketed groups, and the fallback on bare words, compute exactly the id list that the lemmas below are about. |
| Parse.ExtractInvertsHeader | tools/api/internal/parse/threading.go:16-36 | Round trip: ids written as `<id> <id> …` are extracted unchanged and in order. |
| Parse.ExtractBareWords | tools/api/internal/parse/threading.go:26-36 | Of a header of bare words exactly those with an at sign are ids; if all have one, they come back in order. |
| Parse.IdsHaveNoEmpty | tools/api/internal/parse/threading.go:16-36 | No extracted id is empty, whatever the header holds. |
| Parse.Dedup | tools/api/internal/parse/threading.go:70-80 | The in-place filter over the candidate array never overwrites an element it has not read: its prefix ends as the first occurrences of the original contents. |
| Parse.FirstOccurrencesCorrect | tools/api/internal/parse/threading.go:70-80 | The filter keeps each non-empty element exactly once, ordered by first occurrence, and nothing else. |
| Parse.ThreadCandidates | tools/api/internal/parse/threading.go:56-81 | The whole of ThreadCandidates, by loops and in-place filter, equals the specified candidate list. |
| Parse.CandidateMembers | tools/api/internal/parse/threading.go:56-81 | An id is a candidate if and only if it is non-empty and is a reference, an id replied to, or the trimmed Message-ID. |
| Parse.PreferredRootFirst | tools/api/internal/parse/threading.go:56-81 | Of a message with references or replies, the first candidate is the root handleMessage would create. |
| Parse.CandidatesHoldRoot | tools/api/internal/mailbox/indexer.go:229-240 | The candidates contain the root that would be created if and only if the message has references or replies, or its Message-ID is non-empty and in trimmed form: the exact condition, where the comment on the function promises it always. |
| Parse.BracketedIdIsNotLookedUp | tools/api/internal/parse/threading.go:66-68 | A failing input for that comment: a lone message with Message-ID `<a@b>` is not looked up by the root it would found. |
| MailTables.InsertMessageKeepsSchema | tools/api/internal/store/store.go:460-499 | The insert keeps every key, both unique constraints and all references, whichever of its three outcomes it has. |
| MailTables.CreateThreadKeepsSchema | tools/api/internal/store/store.go:398-409 | Creating a thread, or losing the race for its root, keeps all constraints. |
| MailTables.AddGranteeEmailKeepsSchema | tools/api/internal/store/store.go:182-221 | The three-statement transaction keeps all constraints and stores addresses in lower case only. |
| MailTables.AddGranteeEmailGrows | tools/api/internal/store/store.go:182-221 | Authorizing an address removes no row, changes no content, and overwrites no grantee. |
| MailTables.RevokeUndoesAuthorize | tools/api/internal/store/store.go:182-237 | Revoking under any spelling undoes authorizing: the address is unknown, other addresses and all attributions stay; another grantee cannot revoke it. |
| MailTables.EnsureGranteeKeeps | tools/api/internal/store/store.go:77-97 | An existing grantee keeps name and status; none but the named one is created. |
| MailStore.Store.FindByRoot | tools/api/internal/store/store.go:376-387 | Returns some thread whose root is among the ids if there is one; which one is left open, as LIMIT 1 without ORDER BY leaves it. |
| MailStore.Store.FindByMember | tools/api/internal/store/store.go:388-396 | Returns the thread of some message whose id is among the ids if there is one. |
| Ingest.Indexer.HandleMessage | tools/api/internal/mailbox/indexer.go:210-292 | From every state, on every delivery, the method is an uninterrupted run of the statement machine that the interleaving theorems quantify over, with the same outcome; what such runs do to the tables is said without the machine by the Placement theorems. |
| Ingest.Indexer.Resolve | tools/api/internal/grantee/resolver.go:26-45 | Sender first, then thread: a mapped sender decides, else the thread's grantee, and a missing thread is an error. |
| Ingest.Indexer.PlaceInThread | tools/api/internal/mailbox/indexer.go:229-252 | Lookup by root and by member, creation and recovery from a lost race run the machine's steps and end with a thread or the race failure; which thread that is, Placement.HandlingStores says. |
| Ingest.Indexer.Sync | tools/api/internal/mailbox/indexer.go:135-208 | Exactly what arrives before the first item that fails is handled, in the server's order; success means that nothing failed to arrive, and stores exactly the cursor computed from the handled ones; an error leaves the cursor as it was. |
| Ingest.DeliveriesJoin | tools/api/internal/mailbox/indexer.go:155-188 | Deliveries are handled in the order of the FETCH items. |
| Ingest.StepLowersRank | tools/api/internal/mailbox/indexer.go:210-292 | Every statement brings a handling nearer its end, so none loops. |
| Conversations.RunKeepsInv | tools/api/internal/mailbox/indexer.go:229-287 | Every statement of every worker, interleaved with authorizations, revocations and crashes, keeps threads rooted, messages placed and each worker's expectations true. |
| Conversations.OneThreadPerConversation | tools/api/internal/mailbox/indexer.go:229-252 | If references stay within conversations and begin with the root, then in every reachable state of any arrival order and interleaving each conversation has at most one thread, rooted at its root id, holding all its stored messages, and exactly one once a message is handled. |
| AmidOthers.CreateRaceAlwaysRecovers | tools/api/internal/mailbox/indexer.go:241-252 | Whatever the mail, from any tables that keep their constraints and whatever others do in between: no handling gives up on a creation race, since after a unique violation the second lookup always finds the winner's thread; and none finds its thread gone. |
| Conversations.GroupingIsOrderIndependent | tools/api/internal/mailbox/indexer.go:229-252 | Two runs over the same messages group them alike, however deliveries were ordered and interleaved. |
| AmidOthers.RerunNeverDoublesThread | tools/api/internal/mailbox/indexer.go:210-292 | After a crash behind thread creation, the tables having grown in any way: at every point of a whole rerun from the start, amid anything others do, that thread is the only one for its root, and no statement of the rerun adds a thread. |
| Conversations.RerunFindsThread | tools/api/internal/mailbox/indexer.go:229-240 | Under the exact condition of CandidatesHoldRoot the rerun's first lookup already finds the thread. |
| HandledMail.HandlingEnds | tools/api/internal/mailbox/indexer.go:210-292 | Closed form of a whole undisturbed handling: what the tables are afterwards, in each way it can end. |
| Placement.HandlingStores | tools/api/internal/mailbox/indexer.go:229-287 | In terms of headers and rows: a message that is indexed goes to a thread whose root it names, else to the thread of a stored message it names, else to the one of its own root, and a thread is opened only if there is none of these. Its row is stored as delivered, under the sender's grantee or else the thread's, unless its Message-ID has a row; the thread is promoted and last seen at the later date; no other thread, row or table changes. |
| Placement.HandlingOutcome | tools/api/internal/mailbox/indexer.go:210-287 | An uninterrupted handling fails exactly for an empty body, an unreadable message, or a new Message-ID under a UID that is taken. |
| Placement.FailureStoresNothing | tools/api/internal/mailbox/indexer.go:210-287 | A handling that fails leaves all rows as they were; at most its own thread is opened, and only where no thread fitted. |
| Placement.EveryRowWasDelivered | tools/api/internal/mailbox/indexer.go:257-287 | In every serial run each stored row holds what some operation delivered: Message-ID, sender, date, folder, UID and validity. |
| AmidOthers.HandlingAmidIsOk | tools/api/internal/mailbox/indexer.go:210-292 | Whatever other workers and operators do between its statements, and wherever a failing statement ends it, handling a message keeps all constraints, takes nothing back, leaves the folder's cursor alone, and on success leaves the message recorded. |
| Attribution.RunAttributed | tools/api/internal/store/store.go:182-237 | After every operation of every serial run of indexing, authorizing, remapping and revoking: a message is assigned if and only if its thread is, and every thread with a message from a mapped sender is assigned. |
| Attribution.UnassignedHasNoMappedSender | tools/api/internal/grantee/resolver.go:26-51 | The unassigned list never contains mail of a currently mapped sender, nor of a thread that holds any. |
| Attribution.GranteeProvenance | tools/api/internal/mailbox/indexer.go:254-287 | A message's grantee is its thread's, or the one its sender was mapped to at the operation that stored it. |
| Attribution.GranteeNeverChanges | tools/api/internal/store/store.go:428-447 | Between any two points of a serial run no written grantee of a thread or message is rewritten, although the back-fill writes the caller's grantee without comparing it to the thread's. |
| Attribution.CutOffBeforePromotion | tools/api/internal/mailbox/indexer.go:216-287 | Where attribution fails: a handling cut off between insert and promotion leaves an assigned message in an unassigned thread, and a rerun whose envelope names the message finds it stored and repairs nothing. |
| ThreadDates.LastSeenCovers | tools/api/internal/store/store.go:449-455 | After every operation of a serial run each thread was last seen no earlier than any of its messages is dated. |
| ThreadDates.LastSeenIsADate | tools/api/internal/store/store.go:449-455 | And no later than that: in every serial run a thread was last seen at the date of a message that some operation delivered. |
| AttributionOrder.AssignedIffHoldsMapped | tools/api/internal/store/store.go:182-221 | Without removals, over messages with a Message-ID: a thread is assigned if and only if it holds a message from a mapped sender. |
| AttributionOrder.AssignmentIsOrderIndependent | tools/api/internal/store/store.go:182-221 | Two runs of the same operations in different orders, with readable mail indexed and the same placement, leave the same threads assigned: the sets of roots of assigned threads are equal. Mail that does not parse may be among it. |
| ConformingMail.AttributionIsOrderIndependent | tools/api/internal/mailbox/indexer.go:229-287 | End to end, for mail that conforms to section 3.6.4 of RFC 5322: placement follows, so after any two orders the sets of roots of assigned threads are equal. |
| AttributionOrder.SharedGranteeCarried | tools/api/internal/mailbox/indexer.go:254-287 | If the authorizations that went through name one grantee for all mapped senders of a thread, the thread and all its messages carry it, in whatever order things happened. |
| MailboxCursor.CursorSkipsOnlyFailures | tools/api/internal/mailbox/indexer.go:135-208 | Over any run with crashes, UIDVALIDITY resets and other work between any two statements: below the stored cursor every message of the folder has a row, except those whose handling failed; and no Message-ID has two rows. |
| MailboxCursor.CursorNeverFalls | tools/api/internal/mailbox/indexer.go:191-207 | last_uid never falls while uid_validity is unchanged. |
| MailboxCursor.PassedIffLaterIndexed | tools/api/internal/mailbox/indexer.go:182-199 | Exactly when a UID is passed, in every run and whatever became of its own message: the cursor a sync stores is at or beyond it if and only if the cursor already was, or the sync indexed a message with this UID or a larger one. |
| MailboxCursor.RangeCovers | tools/api/internal/mailbox/indexer.go:141-150 | The requested range covers every UID above the cursor, also where `lastUID+1` wraps around 32 bits. |
| MailboxCursor.PassedIsNotFetched | tools/api/internal/mailbox/indexer.go:141-150 | The range asked for is what lies above the cursor and, in the `n:*` case, the folder's last message. |
| MailboxCursor.PassedIsQueuedIffLast | tools/api/internal/mailbox/indexer.go:141-188 | In every run, a message at or below the stored cursor, indexed or failed, is queued by a later sync if and only if it is the folder's last by then. |
| MailboxCursor.RedeliveryAddsNoRow | tools/api/internal/store/store.go:460-499 | Delivering a stored Message-ID again, from any folder and under any UID, adds no row. |
| MailboxCursor.SyncIsRun | tools/api/internal/mailbox/indexer.go:135-208 | The log that Indexer.Sync returns is a run of the cursor machine, step for step, ending with the cursor it stores. |
| MailboxCursor.FailedMessageIsPassed | tools/api/internal/mailbox/indexer.go:182-188 | A run in which a message is lost: UID 1 fails, UID 2 of the same sync is indexed, the cursor is stored at 2, UID 1 has no row and is not the folder's last. |
| Signing.PayloadBinds | tools/api/internal/approval/signing.go:28-40 | Over JSON arguments two payloads are equal if and only if id, action and argument values are, even if action names contain line breaks. |
| Signing.PayloadReadsBack | tools/api/internal/approval/signing.go:28-40 | Line by line a payload reads as the version, the id in decimal, the action, and the canonical text of the arguments. |
| Signing.PayloadIgnoresWhiteSpace | tools/api/internal/approval/signing.go:28-40 | Any insignificant white space gives the payload of the compact form: the database's spaced JSON and the CLI's compact JSON sign alike. |
| Signing.EmptyArgsSignAsEmptyObject | tools/api/internal/approval/signing.go:28-31 | Absent arguments sign as `{}`, however that is spaced. |
| Json.CompactIsCanonical | tools/api/internal/approval/signing.go:32-39 | Compacting any rendering of a JSON value yields its one canonical text, which holds no line break. |
| JsonUnique.CanonicalInjective | tools/api/internal/approval/signing.go:32-39 | Different JSON values have different canonical texts (unique readability of sections 2 to 7 of RFC 8259). |
| Actions.DispatchTwice | tools/api/internal/actions/handlers.go:17-117 | Each executor is idempotent on the rows of all tables, email back-fill included, from any state and with any arguments, and reports the same the second time. |
| Actions.BackfillTwice | tools/api/internal/store/store.go:182-221 | Once an address's threads and messages are filled in, filling them in again changes nothing. |
| Actions.DispatchTouches | tools/api/internal/actions/handlers.go:34-52 | No executor touches the queue, and only add_approval_user changes an operator: exactly the one its arguments name, to the key they name. |
| ApprovalTables.OperatorRoundTrip | tools/api/internal/store/approvals.go:168-233 | An operator is found under any spelling with the key last entered, removal undoes entry, and other operators are unaffected. |
| ApprovalTables.SourceKeepsId | tools/api/internal/store/store.go:256-281 | Whitelisting again keeps the source's id and updates its type; ids stay unique and other sources unchanged. |
| ApprovalTables.EnqueueRecords | tools/api/internal/store/approvals.go:46-66 | Queueing is refused exactly for a missing name or text that is not JSON; else one pending row is added as asked for: action, requester and both documents. |
| Executor.Registry.RegisterAll | tools/api/internal/actions/handlers.go:17-117 | Registers exactly the four actions under their names, on top of what was there. |
| Executor.Registry.Has | tools/api/internal/approval/executor.go:43-46 | Has is true of exactly the actions that Dispatch does not turn away as unknown, for all arguments and tables. |
| Executor.Registry.Dispatch | tools/api/internal/approval/executor.go:34-40 | Runs the bound executor on the tables as specified; an error leaves every table as it was. What the four executors do is said without them by ActionEffects. |
| ActionEffects.DispatchHasEffect | tools/api/internal/actions/handlers.go:17-117 | An action that goes through has its effect and no other: the slug is a grantee; the operator has the key under every spelling; the source has the given type and its old id; or the address is looked up as the grantee under every spelling, all unassigned threads with its mail and all unassigned messages of the grantee's threads are the grantee's. Every other row of every table is unchanged. |
| ActionEffects.DispatchRefuses | tools/api/internal/actions/handlers.go:17-117 | Exactly when an action goes through, and exactly when it is refused with which error, in terms of the decoded arguments and the grantees. |
| ActionEffects.ApprovalHasEffect | tools/api/internal/approvalserver/handlers.go:115-151 | An authorized request: if the action is admissible it has its effect, the row ends executed and the request succeeds; if not, the row ends failed and nothing else changes. |
| ActionEffects.DecidedIsCarried | tools/api/internal/approvalserver/handlers.go:137-151 | In every interleaved run, behind every executed row stands a move that had its action's effect; behind every failed row one that found it inadmissible and changed nothing. |
| Approvals.StepRows | tools/api/internal/store/approvals.go:140-165 | Of all statements of a request only the mark touches a queued row, only while it is pending, and it records the approver and the result. |
| Approvals.OutcomeIsFinal | tools/api/internal/store/approvals.go:140-165 | In every interleaving a row leaves pending at most once, keeps id, action and arguments for ever, and never changes once decided. |
| ApprovalHistory.DecidedMeansApproved | tools/api/internal/approvalserver/handlers.go:115-151 | A decided row has behind it a dispatch of exactly its action and arguments, successful if executed and failed if failed, in a request by its approver that had verified under the approver's key of that moment. |
| ApprovalHistory.DecidedWasSigned | tools/api/internal/approvalserver/handlers.go:115-135 | At some move of the run the approver's key of that moment verified a signature over the payload of exactly the row's id, action and arguments. |
| ApprovalHistory.EveryRowWasAskedFor | tools/api/internal/store/approvals.go:46-66 | In every run each row of the queue is, but for its outcome, as some enqueueing asked for it. |
| ApprovalHistory.OneSuccessReply | tools/api/internal/approvalserver/handlers.go:146-151 | However many approvers race, at most one request for a row gets the success reply. |
| ApprovalHistory.LateRequestNeverDispatches | tools/api/internal/approvalserver/handlers.go:104-146 | A request that has not read a row by the time it is decided never dispatches it. |
| ApprovalRaces.RacingRequestsBothDispatch | tools/api/internal/approvalserver/handlers.go:137-149 | Dispatch is not at most once: a run from fresh tables in which two requests both perform the same add_grantee row with success; one is told so, the other that it failed. |
| ApprovalRaces.AnyActionCanRace | tools/api/internal/approvalserver/handlers.go:90-149 | The same for every action that can succeed and every operator, from any tables with an empty queue; the second performance changes no row. |
| ApprovalRaces.RetryAfterCrash | tools/api/internal/approvalserver/handlers.go:137-149 | The second failing family: a run from fresh tables in which a request dispatches a row and is cut off before its mark, and a request received only then dispatches the row again. |
| ApprovalRaces.CutOffIsRetried | tools/api/internal/approvalserver/handlers.go:103-149 | The same from every run with a request about to dispatch a pending row, whatever the action: eight more moves cut it off and have a new request dispatch the row again. |
| ApprovalRaces.DispatchedAgainIff | tools/api/internal/approvalserver/handlers.go:104-149 | Exactly when at most once fails: a row already dispatched in a run is dispatched again by some request in some continuation if and only if it is still pending, or some present request had read it in time, has not dispatched it, and has verified or is signed under a key that can be entered. |
| ApprovalRaces.DecidedRowDispatchedIff | tools/api/internal/approvalserver/handlers.go:104-146 | Exactly when a given request can still dispatch a decided row: in some continuation of the run it does if and only if it had read the row before the decision, has not dispatched it, and has verified or is signed under a key that can be entered. |
| ApprovalHistory.KeyWasEntered | tools/api/internal/store/approvals.go:168-180 | Every authorized key was entered by an earlier seeding or dispatched add_approval_user, for that operator. |
| ApprovalHistory.EveryKeyHasChain | tools/api/internal/actions/handlers.go:34-52 | Every key ever entered is reached by a finite chain of dispatched add_approval_user actions, each verified under a key entered earlier, from a seeded key. |
| ApprovalHistory.AuthorizedKeyHasChain | tools/api/cmd/api/main.go:97-119 | The same for every operator authorized at any moment; chains begin with the bootstrap operator or the admin command. |
| ApprovalServer.AloneOutcome | tools/api/internal/approvalserver/handlers.go:90-152 | An uninterrupted request changes anything only if it is well formed, its row is pending and its signature verifies under the operator's key; then the action is performed and the row ends executed or failed accordingly. |
| ApprovalServer.RefusalsAre | tools/api/internal/approvalserver/handlers.go:90-135 | Exactly which refusal an uninterrupted request gets, in terms of the request and the rows. |
| ApprovalServer.RestHandlers.ApproveAction | tools/api/internal/approvalserver/handlers.go:90-152 | The handler method is the uninterrupted run of the same machine that the interleaving theorems are about, for every request and state. |
| DriveWalk.WalkIsExact | tools/api/internal/sync/sync.go:123-151 | On any acyclic folder graph with finite paged listings, the walk terminates and comes to a doc along a path if and only if the path leads to it over listed pages and folders, and along each path exactly once. |
| DriveSync.Syncer.WalkFolder | tools/api/internal/sync/sync.go:123-151 | The recursive paged loops leave table and counters as handling the walk's docs in order does; termination by folder height, then pages left. |
| DriveSync.Syncer.ProcessDoc | tools/api/internal/sync/sync.go:157-236 | Every branch, with any statement or export failing, changes table and counters as specified: one counter up by one. What the branches mean is said by OutcomeMeaning and OutcomeIff. |
| DocTables.OutcomeMeaning | tools/api/internal/sync/sync.go:157-236 | What each counter means for the row. Synced: every column is the file's, its source's or the export's, active and seen. Unchanged: active, seen, without error, else as before. Marked stale, or failed in the export: that status and that message, else as before, unless writing it failed too. Otherwise nothing changes. |
| DocTables.OutcomeIff | tools/api/internal/sync/sync.go:157-236 | Where no statement fails, exactly which file goes to which counter. |
| DocTables.CountersTally | tools/api/internal/sync/sync.go:33-42 | Each of the five counters goes up by the number of its outcomes. |
| DriveSync.Syncer.Run | tools/api/internal/sync/sync.go:46-89 | A cycle handles exactly the cycle's visits and sweeps only afterwards; the five counters sum to the processDoc calls plus the rows swept; the cycle counter goes up by one. |
| DriveSync.Syncer.MarkUnseenStale | tools/api/internal/store/store.go:675-687 | Marks exactly the unseen rows of active grantees and registered sources and returns how many they are. |
| DocTables.SweepCounts | tools/api/internal/store/store.go:675-687 | The number the sweep reports is that of the rows it changed. |
| DriveCycles.OthersUntouched | tools/api/internal/sync/sync.go:157-236 | Handling a file leaves the rows of all other docs exactly as they were, whatever happens. |
| DriveCycles.CycleVisitsExactly | tools/api/internal/sync/sync.go:58-118 | A cycle handles exactly the files that a registered source of an active grantee leads to (a source listing that fails loses that grantee only). |
| DriveCycles.ActiveMeansSeen | tools/api/internal/store/store.go:673-687 | In every run of cycles, whatever fails: once a cycle's sweep has run every active row of an active grantee and registered source was touched or written in that cycle. |
| DriveCycles.FaultFreeCycle | tools/api/internal/sync/sync.go:46-89 | In every run, after a cycle in which nothing failed, such a row is active if and only if the walk visited it. |
| DriveCycles.ActiveIffMirrored | tools/api/internal/sync/sync.go:46-151 | End to end, in every run: after a cycle without failures such a row is active if and only if some registered source of an active grantee leads, along some path, to its doc. |
| DriveCycles.UngovernedUnchanged | tools/api/internal/store/store.go:673-687 | In every run, unvisited rows of paused grantees or revoked sources are exactly as before, whatever fails. |
| DriveCycles.UnvisitedGoesStale | tools/api/internal/store/store.go:673-687 | In every run, an active row of an active grantee and registered source that the cycle did not visit goes stale with the sweep's message, and keeps everything else. |
| DriveCycles.FailedExportShows | tools/api/internal/sync/sync.go:193-213 | In every run, where no statement fails: a changed doc whose export fails at its last visit ends the cycle stale if it is gone and in error otherwise, with the export's message and its old text, whatever the sweep does. |
| DriveCycles.NeverExportedHasNoRow | tools/api/internal/sync/sync.go:193-213 | A doc without a row whose export fails gets none, whatever else fails. |
| DriveCycles.SeenInRun | tools/api/internal/store/store.go:729-760 | In every run of cycles, also cut short, no row carries a later cycle number than those that have run. |
| DriveCycles.ShortcutIsSound | tools/api/internal/sync/sync.go:168-191 | Across all cycles, whatever fails or is cut short: if Drive times never decrease and determine content, the unchanged-doc shortcut is taken only when the stored text is current, although times are stored in seconds and compared in full. |
| DriveCycles.MirrorIsCurrent | tools/api/internal/sync/sync.go:157-236 | After a cycle without failures every visited doc's row holds its current text. |
| DriveCycles.SecondVisit | tools/api/internal/sync/sync.go:182-191 | Criterion 4 of the code, that an unchanged modifiedTime is a no-op, holds if and only if the time is a whole number of seconds; else the doc is exported and written again. |
| DriveCycles.OddTimeIsWrittenAgain | tools/api/internal/sync/sync.go:182-191 | A failing input for the criterion: a doc modified one nanosecond into a second is exported and written at both of two visits. |
| DriveCycles.RunCycle | tools/api/internal/sync/sync.go:46-89 | Syncer.Run is one step of the runs of cycles that the theorems are about: it leaves the docs table as DocsAfter does for the cycle with its visits, statements and number. |
| Notes.RunKeepsForest | tools/api/internal/mcpserver/server.go:653-668 | In every run of create_note, even with checks made on earlier states, a note supersedes only an older note of its own grantee. |
| Notes.RunKeepsNotes | tools/api/internal/store/notes.go:16-47 | Between any two points of a run no note changes or goes away. |
| Notes.CreateMoveAdds | tools/api/internal/mcpserver/server.go:629-673 | In every run a call adds exactly one note, under a new id, if its input was acceptable when checked, and otherwise nothing: known grantee, text that remains, known kind, own note to supersede. |
| Notes.EveryNoteWasCreated | tools/api/internal/store/notes.go:16-47 | In every run each note holds exactly what one call of create_note said: trimmed grantee, kind or `note`, cleaned trimmed content, trimmed signal number, the time, and the superseded id. |
| Notes.RunOnlyAdds | tools/api/internal/store/notes.go:16-47 | Between two points of a run with no superseding call, exactly notes with larger ids that supersede nothing are added. |
| Notes.RunAddsNew | tools/api/internal/store/notes.go:16-47 | Between any two points of a run, superseding calls or not, only notes with larger ids are added. |
| Notes.ChainsDescend | tools/api/internal/mcpserver/server.go:653-668 | Along supersession ids strictly fall and the grantee stays, so it has no cycles. |
| Notes.EveryNoteIsKept | tools/api/internal/store/notes.go:98-100 | Every note is in its grantee's unfiltered default list, or a note there leads to it by a chain of supersessions. |
| Notes.NotePagingIsExact | tools/api/internal/store/notes.go:71-135 | In every run of create_note, wherever the requests fall: following next_cursor terminates and returns every note matching at the first request exactly once in descending id, for every limit and filter. Only a listing that leaves superseded notes out needs that no note is superseded in between. |
| NoteStore.Store.CreateNoteTool | tools/api/internal/mcpserver/server.go:629-673 | Returns an id exactly if the input is acceptable; then that id is new and its row holds what the input says, column by column, and otherwise nothing changes. The change is the run model's step. |
| NoteStore.Store.ListNotes | tools/api/internal/store/notes.go:71-135 | The page holds as many of the matching notes below the cursor as the limit allows, the first in order, and the next cursor is its last id exactly if some are left out; errors exactly for a blank grantee or unknown kind. |
| Paging.PagingIsExact | tools/api/internal/store/queries.go:161-189 | Where dates agree with ids, following the cursor gives every row once, in order, even if rows with larger ids appear between pages. |
| Paging.PagingByDateIsExactIff | tools/api/internal/store/queries.go:114-189 | Paging a listing by date is exact for every limit if and only if no smaller id has a later date. |
| Paging.PageIsPage | tools/api/internal/store/queries.go:174-189 | Cutting the extra row off gives a page of the limit's size or all there is, the first rows in order, with next the last row's id if any is left out and 0 if none is. |
| Paging.NoNextIff | tools/api/internal/store/queries.go:183-188 | Over positive ids, next is 0 if and only if no match below the cursor is left out. |
| Paging.OvertakenIsLost | tools/api/internal/store/queries.go:114-189 | With pages of one row, a row that a smaller id precedes by date is never returned. |
| Paging.NextIsBelow | tools/api/internal/store/queries.go:183-188 | A next cursor is the id of a row and strictly below the present cursor: message paging always terminates. |
| Paging.ClampLimit | tools/api/internal/store/queries.go:23-31 | 50 unless a positive limit is asked for, which is taken as it is up to 200. |
| Paging.OrderAndLimit | tools/api/internal/store/queries.go:145-151 | Taking the first remaining row until the limit gives the prefix of the one listing in query order. |
| Queries.Rebind | tools/api/internal/store/store.go:38-51 | The scan over the text computes the specified numbering of question marks. |
| Queries.RebindQuery | tools/api/internal/store/store.go:35-51 | On the text of a query, rebind is numbering its placeholders: the result is the text of the numbered query, and the marks of the text are those of the query. |
| Queries.NumbersInOrder | tools/api/internal/store/store.go:35-51 | The placeholders of a rebound query are $1 to $k in order. |
| Queries.NumberingBinds | tools/api/internal/store/queries.go:433-451 | Numbering binds each clause to the argument collected with it, whatever is put before and after. |
| Search.SearchMessages | tools/api/internal/store/queries.go:400-451 | For every filter combination: as many placeholders as arguments, the rebound query selects exactly the conjunction of the supplied filters, snippet length first, limit and one last; and no query exactly if no filter is given. |
| Search.ListMessages | tools/api/internal/store/queries.go:114-151 | The same for the messages of a grantee or the unassigned ones; refuses exactly the empty grantee. |
| Search.SelectedIsBelowCursor | tools/api/internal/store/queries.go:400-459 | What a page's query selects is what matches without the cursor, restricted to ids below it: the rows the paging theorems cut pages from. |
| MessageStore.MessagePagingIsExactIff | tools/api/internal/store/queries.go:161-189 | Following next_cursor through a search that is not refused returns every match exactly once for every limit if and only if among the matches no smaller id has a later date. |
| MessageStore.Store.SearchMessages | tools/api/internal/store/queries.go:400-459 | The same for the matches of a search, by date and then id: size, order, what is left out and the next cursor; refused exactly without filters. |
| MessageStore.Store.ListMessagesByGrantee | tools/api/internal/store/queries.go:114-159 | The same for the messages of a grantee or the unassigned ones; refused exactly for the empty grantee. |
| Search.PrepareNotes | tools/api/internal/store/notes.go:80-113 | The same for notes: the rebound query selects exactly the notes the filter and cursor want. |
| Search.PreparedIsSound | tools/api/internal/store/queries.go:433-451 | Collected clauses stay in step with their arguments when the snippet length is prepended and the limit appended. |

## Left out

- IMAP, Drive and HTTP clients, IDLE, the MCP SDK, authentication, command lines, configuration, migrations: I/O and wiring.
- SSH keys, signatures, SHA-256, base64, MIME parsing: other libraries; their results are inputs.
- Unicode case mapping: Text.Lower maps ASCII letters; white space is the full set of unicode.IsSpace.
- NormalizeSubject and the rules of cleanText: stored text that no other step reads; cleanText is a parameter of the notes model.
- Recipients, references and attachments of a message, and the attachment files: rows and files that hang on the inserted message and that none of the modelled steps reads.
- synced_at, created_at and the like where nothing modelled reads them, and the wording of errors.
- Database errors other than constraint violations: in the mail and approval models a request or handling ends there (the Abandon and Drop moves); the docs model lets any statement fail.
- Deadlocks and isolation below statement level: each statement or transaction is atomic.
- Atomic dispatch: one step of the approval protocol. Its reads are of grantees, which are never deleted, so its single write is all another request can see of it.
- Statement-level attribution: false of the code while a handling is half done, and after a crash between insert and promotion (Attribution.CutOffBeforePromotion), so those theorems run whole operations; threading is proved for interleaved statements.
- JSONB normalisation: an uninterpreted function that is applied when a row is queued. The HTTP encoder's escaping of `<`, `>` and `&` is not part of the payload theorems.
- The nesting limit of encoding/json: the model has no depth limit.
- Context cancellation: a cancelled cycle is one with fewer visits and no sweep, which DriveCycles.Cycles includes.
- Changes to grantees and sources while a docs cycle runs: the registry is fixed for a cycle; the sweep's own theorem (ActiveMeansSeen) needs only its state at the sweep.
- Two sync processes at once: NextCycleID reads and then writes, and the model runs one cycle at a time.
- Paging of threads and of docs: not exact in the code, for the reason given for messages; the docs list pages by a time that is not unique.
- ListActions, ListApprovalUsers, GetThreadMessages, ListGrantees and other plain reads: single statements with nothing to preserve.
- Query texts: the column lists are those of the source up to white space. What ILIKE means is a parameter.
