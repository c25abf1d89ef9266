# OmniWA infrastructure protocols, modelled and proved in Dafny

OmniWA is a messaging gateway. Its infrastructure layer holds the stateful protocols that this project models:
an event log with cursors and an outbox, leases that decide which supervisor drives a provider session,
fixed-window rate limits, worker jobs that are reserved and recovered, cursor-paged collections, API keys and
their rotation, crash-safe JSON repositories, scheduled work, and outbound message intents.

`dafny verify dfyconfig.toml` checks everything.

| file | what it models |
|---|---|
| `Collections.dfy`, `Text.dfy`, `Windows.dfy` | array operations, numerals and token joining of the JavaScript runtime, aligned windows |
| `EventLog.dfy` | the in-memory event log, its retention, its cursors, and a reader that follows them |
| `Outbox.dfy`, `OutboxRuns.dfy` | one drain of the outbox as a loop; many drains interleaved with appends, failures and crashes |
| `SqlEventLog.dfy` | the PostgreSQL event log over serial histories, compared with the in-memory replay |
| `OwnershipGuards.dfy`, `LeaseProtocol.dfy` | both lease guards and their agreement; the SQL guard interleaved statement by statement |
| `SessionKeys.dfy` | the two keys of a provider session, and which sessions share them |
| `Supervisor.dfy` | any number of supervisors over one lease file |
| `SessionStates.dfy` | what a tick does to a session in each state, and where each signal leads |
| `SessionLeases.dfy` | which ticks and steps give or take a lease, and when an active session has none |
| `RateLimiter.dfy` | the local limiter and the shared limiter over memory and over the Redis script |
| `WorkerJobs.dfy` | reserve and recover transactions with row locks and SKIP LOCKED |
| `QueryCursor.dfy`, `QueryFields.dfy`, `QueryRequests.dfy` | reading a collection query, its cursor context and cursors; what a request is refused for |
| `Pages.dfy`, `PageContents.dfy` | filter, sort and page; which items the pages hold, and in which order |
| `ApiKeys.dfy` | the API key service over its two stores, and the verifier |
| `KeyOutcomes.dfy` | what each call of the service answers, stores and lets verify |
| `KeyLineages.dfy` | the links between rotated keys as a graph: circles, and active keys of one lineage |
| `DurableRepositories.dfy` | the durable message repository with crashes at any step, against its in-memory twin |
| `Scheduler.dfy` | scheduler ticks |
| `Intents.dfy` | outbound text intents and their bindings |

How the models are built: what the source updates in place is a class whose methods are proved against functions
on values; a run is a sequence of actions, and the main results are lemmas over every run. Concurrency is modelled
as steps of many processes in any order. Clocks, generated identifiers, publisher and queue answers, provider
signals and picked rows are parameters, so a result holds for all of them. Automatic induction is switched off, so
every inductive proof is written out; `hide` keeps definitions that a proof does not need out of its way.

Assumptions: `localeCompare` is a total preorder (`Pages.IsCollation`); the hash of a Redis key is collision-free
(`RateLimiter.CollisionFree`); a digest is 16 hexadecimal digits (`QueryCursor.IsHexDigest`), and results about
cursors of other queries say what a collision would do; JSON and base64 codecs are faithful; a rename replaces a
file atomically; one SQL statement is atomic, and SELECT .. FOR UPDATE SKIP LOCKED sees committed rows and passes
over locked ones; ids have a total order in the database (`WorkerJobs.IsTotalOrder`).

Where the code does not keep what one would expect, the model follows the code, a lemma shows it on a concrete
input, and another says exactly when it holds:

| what can happen | shown by | exactly when |
|---|---|---|
| a session is CONNECTED without a lease | `SessionLeases.ConnectedButTakenOver`, `SessionLeases.LostButConnected`, `SessionLeases.SurrenderedByAnother` (another session's turn), `SessionLeases.LeaseRunsOut` (only time passes), `SessionLeases.FreedByFailedStart` | in every state of every run: `SessionLeases.UnleasedIff`; after a step: `SessionLeases.LeaseAfterStepIff`; after a whole tick: `SessionLeases.ActiveWithoutLeaseIff` |
| a stop keeps the lease | `Supervisor.DestroyedButLeased` | `Supervisor.StopFreesLeaseIff` |
| a DESTROYED record comes back as DISCONNECTED | `Supervisor.DestroyedComesBack` | `Supervisor.DestroyedIsLeftIff` |
| two sessions share a key because of colons | `SessionKeys.KeysCanCollide` | one reference: `SessionKeys.SharesGuardKeyIff`, `SessionKeys.SharesSupervisorKeyIff`; a pair: `SessionKeys.GuardKeysCollideIff`, `SessionKeys.SupervisorKeysCollideIff` |
| an SQL release reports an expired lease | `OwnershipGuards.ExpiredReleaseDiffers` | `OwnershipGuards.ReleaseAgrees`, `OwnershipGuards.GuardsAgree` |
| two key ids share a rate-limit budget | `RateLimiter.ColonSharesABudget` | `RateLimiter.KeysShareIff` |
| an issued cursor is not found, or repeats | `EventLog.FirstCursorIsForgotten` | `EventLog.ReplayFromIssuedCursor`, `EventLog.CursorsDistinctIff` |
| the SQL log and the other answer a cursor differently | `SqlEventLog.HugeCursorIsRejected`, `SqlEventLog.NonCanonicalCursorDiffers` | `SqlEventLog.SqlReplayAgreesIff`, `SqlEventLog.AgreeWithinLimitsIff` |
| an accepted sort value sorts by no field | `QueryCursor.PaddedSortIsAccepted` | `QueryCursor.SortNamesAllowedFieldIff` |
| a previous page does not lead back | `Pages.PreviousCanMiss` | `Pages.PreviousThenNextIff` |
| rotation links branch | `ApiKeys.LinksCanBranch` | `ApiKeys.LinksBranchIff`, `ApiKeys.RotationBranchesIff` |
| rotation links lead in a circle | `KeyLineages.LinksCanCircle` | `KeyLineages.LinksCircleIff` |
| a lineage has two active keys | `KeyLineages.TwoActiveInLineage` | `KeyLineages.CallLeavesTwoActiveIff` |

With no match at all, a collection still has one, empty, page (`Pages.WalkDeliversSelection`).

## Model

| member | source | states |
|---|---|---|
| EventLog.CursorRoundTrip | packages/infrastructure-persistence/src/event-log-store.ts:467-479 | parsing a printed cursor gives the sequence number back for every safe positive integer, and nothing otherwise |
| EventLog.AppendRefinesAccept | packages/infrastructure-persistence/src/event-log-store.ts:60-104 | an append on the retained log is an append to the full list of accepted events: known and unacceptable ids add nothing, a new event gets the next cursor and one outbox record, whatever is evicted |
| EventLog.ResubmissionChangesNothing | packages/infrastructure-persistence/src/event-log-store.ts:60-84 | submitting a known id again returns the original event while it is retained, is a conflict once it is evicted, and changes nothing |
| EventLog.RetainKeepsSuffix | packages/infrastructure-persistence/src/event-log-store.ts:440-445 | after retention the log is a suffix of everything accepted, with as many events as the limit allows and never fewer |
| EventLog.SubmissionOutcome | packages/infrastructure-persistence/src/event-log-store.ts:60-104 | a new id is accepted exactly when id, type, source and payload keys are tokens, the timestamp is a date and the payload holds scalars; the event carries the input and the next cursor, the log keeps it with as many events before it as the limit allows, the outbox gets its pending record; a refused input changes nothing |
| EventLog.RunKeepsNewest | packages/infrastructure-persistence/src/event-log-store.ts:440-445 | in every run with one limit the log is exactly the newest accepted events, as many as the limit allows |
| EventLog.ReopenedWithLimit | packages/infrastructure-persistence/src/event-log-store.ts:209-222 | after a reopening with a positive limit that limit counts, from the next accepted event on; the log itself is reopened as it was |
| EventLog.ReplayByNumber | packages/infrastructure-persistence/src/event-log-store.ts:106-148 | in every run with one limit, for the cursor of every number whatever: expired exactly if the limit has dropped it, not found exactly if it was never issued, and else the accepted events that come next; with the first and last kept cursor as bounds |
| EventLog.MarkOutcome | packages/infrastructure-persistence/src/event-log-store.ts:159-197 | marking turns the record of that event, and no other, to published at that time and keeps its other fields; an unknown event is an error |
| EventLog.PendingInOrder | packages/infrastructure-persistence/src/event-log-store.ts:150-157 | the pending records are listed in the order of the outbox, none left out and none added |
| EventLog.CursorsDistinctIff | packages/infrastructure-persistence/src/event-log-store.ts:60-104 | the cursors of all accepted events differ exactly while their number stays within 2^53 |
| EventLog.EvictedCursorExpires | packages/infrastructure-persistence/src/event-log-store.ts:481-488 | an evicted cursor reads as expired exactly while the oldest retained cursor is a safe integer |
| EventLog.ReplayFromIssuedCursor | packages/infrastructure-persistence/src/event-log-store.ts:106-148 | for every cursor ever issued: not found only past the safe integers; otherwise expired when evicted, and else the stretch of accepted events after it, as long as limit and log allow |
| EventLog.FirstCursorIsForgotten | packages/infrastructure-persistence/src/event-log-store.ts:106-148 | a run with one event retained and more than 2^53 - 1 submissions, whose first cursor is then not found; one more submission repeats a cursor |
| EventLog.EveryEventHasOneOutboxRecord | packages/infrastructure-persistence/src/event-log-store.ts:60-104 | over every run of submissions, publications and reopenings, the outbox describes all accepted events one for one, in order, with cursors 1, 2, 3 and so on, and the log is a suffix of them |
| EventLog.ReaderSeesNoGap | packages/infrastructure-persistence/src/event-log-store.ts:106-148 | over every run with evictions and pages of any limits, a reader that follows the cursor of its last event has received a stretch of the accepted events without gap or repeat until it is told expired, and is never told not found |
| EventLog.ShortPageMeansCaughtUp | packages/infrastructure-persistence/src/event-log-store.ts:106-148 | a page shorter than its limit means that the reader has everything there is |
| EventLog.InMemoryEventLogStore.AppendEvent | packages/infrastructure-persistence/src/event-log-store.ts:60-104 | the method computes the specified append, extends the history by the accepted event, keeps it with as many of those before it as the limit allows, and an accepted answer is in the history |
| EventLog.InMemoryEventLogStore.ReplayEvents | packages/infrastructure-persistence/src/event-log-store.ts:106-148 | the method computes the specified replay and only ever returns accepted events |
| EventLog.InMemoryEventLogStore.MarkOutboxPublished | packages/infrastructure-persistence/src/event-log-store.ts:159-197 | succeeds exactly for accepted events, and keeps the outbox one for one with the history |
| Outbox.EventOutboxConsumer.DrainPending | packages/infrastructure-persistence/src/event-outbox-consumer.ts:68-113 | one drain publishes exactly the received records of its batch, at the publisher's time or else the clock's, leaves every other record as it was, and reports the deliveries and failures of the batch |
| Outbox.DrainedExactly | packages/infrastructure-persistence/src/event-outbox-consumer.ts:68-113 | a drain publishes the received ones among its first batch of pending records, at the publisher's time or else the clock's; a refused record, one whose publication threw and every other record is what it was |
| Outbox.ReportedExactly | packages/infrastructure-persistence/src/event-outbox-consumer.ts:84-112 | a record of the batch is reported as published, with its time, exactly if it was received, and else as failed, with its code |
| Outbox.AttemptedIsPublishedPlusFailed | packages/infrastructure-persistence/src/event-outbox-consumer.ts:68-113 | attempted equals published plus failed |
| Outbox.OneDrainTakesABatch | packages/infrastructure-persistence/src/event-outbox-consumer.ts:68-113 | with an always-accepting publisher a drain removes a batch, or all that is left, from the pending records |
| Outbox.EmptyAfterCeilingDrains | packages/infrastructure-persistence/src/event-outbox-consumer.ts:68-113 | with an always-accepting publisher, n pending records are gone after k drains exactly if k is at least ceil(n/batch) |
| OutboxRuns.PublishedOnlyIfReceived | packages/infrastructure-persistence/src/event-outbox-consumer.ts:68-141 | in every interleaving of consumers, refusals, exceptions and crashes, a published record was received by the publisher, the outbox stays one for one with the accepted events, and a drain has attempted what it published plus what failed |
| OutboxRuns.PublishedStaysPublished | packages/infrastructure-persistence/src/event-log-store.ts:159-197 | a published record never becomes pending again, whatever follows |
| OutboxRuns.SingleConsumerDeliversOncePerCrash | packages/infrastructure-persistence/src/event-outbox-consumer.ts:68-141 | with one consumer an event reaches the publisher at most once, plus once per crash |
| OutboxRuns.DrainIsARun | packages/infrastructure-persistence/src/event-outbox-consumer.ts:68-113 | a drain that nothing disturbs is a run of the interleaved steps, and leaves the outbox that the drain loop leaves |
| SqlEventLog.SqlCursorRoundTrip | packages/infrastructure-persistence/src/postgresql-event-log-store.ts:405-421 | parsing a printed SQL cursor gives every positive sequence number back |
| SqlEventLog.BigIntReads | packages/infrastructure-persistence/src/postgresql-event-log-store.ts:409-421 | decimal digits, with a sign or none, between any white space are read as their number |
| SqlEventLog.PrefixedReads | packages/infrastructure-persistence/src/postgresql-event-log-store.ts:409-421 | digits behind a hexadecimal, octal or binary prefix are read in that radix |
| Text.ParseIntReads | packages/infrastructure-persistence/src/event-log-store.ts:471-479 | white space and one sign are read over, then a run of digits is the number, whatever follows it |
| SqlEventLog.SqlReplayAgreesIff | packages/infrastructure-persistence/src/postgresql-event-log-store.ts:152-189 | over any increasing sequence numbers, any cursor text whatever and any limit, the SQL replay answers as the index-and-slice replay exactly if: the number SQL reads is not above the bigints; where a row has that number, the text is its own cursor and the page does not exceed 1000; and elsewhere both or neither find the cursor expired |
| SqlEventLog.AgreeWithinLimitsIff | packages/infrastructure-persistence/src/postgresql-event-log-store.ts:280-347 | with limits up to 1000 and safe sequence numbers the two replays agree on a canonical cursor, issued or not, exactly up to the largest bigint |
| SqlEventLog.HugeCursorIsRejected | packages/infrastructure-persistence/src/postgresql-event-log-store.ts:325-332 | the cursor of 2^63 makes the SQL replay an error where the other answers not found |
| SqlEventLog.NonCanonicalCursorDiffers | packages/infrastructure-persistence/src/postgresql-event-log-store.ts:409-421 | a concrete text, the first cursor with a leading zero, is found by the SQL replay and not found by the other |
| SqlEventLog.SqlRunKeepsInv | packages/infrastructure-persistence/src/postgresql-event-log-store.ts:68-150 | over every serial run with conflicts and rollbacks that burn sequence numbers, the table grows in sequence order with unique ids and one outbox record per event |
| SqlEventLog.SqlSubmissionOutcome | packages/infrastructure-persistence/src/postgresql-event-log-store.ts:68-150 | after every serial run: unusable input or no bigint left changes nothing, a stored id is answered with its event, and a new one becomes the last row and the last, pending, outbox record |
| SqlEventLog.RollbackUsesNumber | packages/infrastructure-persistence/src/postgresql-event-log-store.ts:68-150 | an append that fails after its insert uses up its sequence number and leaves both tables as they are |
| SqlEventLog.SqlMarkOutcome | packages/infrastructure-persistence/src/postgresql-event-log-store.ts:218-250 | after every serial run marking turns the record of that event, and no other, to published at that time |
| SqlEventLog.SqlRunReplaysLikeLogIff | packages/infrastructure-persistence/src/postgresql-event-log-store.ts:152-189 | after every serial run the SQL replay answers a canonical cursor as the index-and-slice replay over the same events, exactly up to the largest bigint |
| SqlEventLog.SqlResubmissionIsIdempotent | packages/infrastructure-persistence/src/postgresql-event-log-store.ts:68-150 | submitting a stored id again changes no row and returns the stored event, as long as sequence numbers are left |
| SqlEventLog.PostgresqlEventLogStore.AppendEvent | packages/infrastructure-persistence/src/postgresql-event-log-store.ts:68-150 | one undisturbed append transaction computes the specified append and keeps the tables in order |
| SqlEventLog.PostgresqlEventLogStore.MarkOutboxPublished | packages/infrastructure-persistence/src/postgresql-event-log-store.ts:218-250 | marking changes the one record of the event and nothing else |
| OwnershipGuards.AcquireAgrees | apps/provider-runtime/src/provider-runtime-ownership-guard.ts:59-80 | from the same live leases, both guards decide an acquire alike and keep the same live leases |
| OwnershipGuards.ReleaseAgrees | apps/provider-runtime/src/provider-runtime-ownership-guard.ts:82-96 | both releases leave the same live leases; the answers differ exactly when this owner still has the row and its lease has run out, and then it is the SQL guard that answers true |
| OwnershipGuards.ExpiredReleaseDiffers | apps/provider-runtime/src/provider-runtime-ownership-guard.ts:194-203 | a lease released at its expiry: the JSON guard answers false and the SQL guard true |
| OwnershipGuards.GuardsAgree | apps/provider-runtime/src/provider-runtime-ownership-guard.ts:163-217 | over every run of calls, one at a time with a clock that never goes back and any lease times, both guards hold the same live leases, no key has two, and answers differ exactly as above |
| OwnershipGuards.DurableJsonOwnershipGuard.ReadWithoutExpiredLeases | apps/provider-runtime/src/provider-runtime-ownership-guard.ts:130-145 | the file is left with exactly its live leases |
| OwnershipGuards.DurableJsonOwnershipGuard.Acquire | apps/provider-runtime/src/provider-runtime-ownership-guard.ts:59-80 | computes the specified acquire, keeps one lease per key, and grants exactly when the new lease is in the file |
| OwnershipGuards.DurableJsonOwnershipGuard.Release | apps/provider-runtime/src/provider-runtime-ownership-guard.ts:82-96 | computes the specified release; after a true answer the key has no owner |
| OwnershipGuards.PostgresqlOwnershipGuard.TryAcquireLease | apps/provider-runtime/src/provider-runtime-ownership-guard.ts:234-271 | the conditional upsert writes the row unless another owner has it unexpired |
| OwnershipGuards.PostgresqlOwnershipGuard.CurrentOwner | apps/provider-runtime/src/provider-runtime-ownership-guard.ts:205-217 | deletes expired rows and answers as the specified lookup |
| OwnershipGuards.PostgresqlOwnershipGuard.Acquire | apps/provider-runtime/src/provider-runtime-ownership-guard.ts:163-192 | undisturbed, delete, upsert and select amount to the specified acquire |
| OwnershipGuards.PostgresqlOwnershipGuard.Release | apps/provider-runtime/src/provider-runtime-ownership-guard.ts:194-203 | deletes the row exactly when this owner has it |
| LeaseProtocol.EveryRunKeepsInv | apps/provider-runtime/src/provider-runtime-ownership-guard.ts:163-278 | in every interleaving of single statements with readings that may be old, each row carries what its owner wrote last and every grant that has not run out is in the table |
| LeaseProtocol.AtMostOneHolder | apps/provider-runtime/src/provider-runtime-ownership-guard.ts:163-278 | in no interleaving do two owners hold one key |
| LeaseProtocol.OwnerChangesOnlyWhenEntitled | apps/provider-runtime/src/provider-runtime-ownership-guard.ts:163-278 | between any two moments of any interleaving, an owner that lost a key released it in between or the expiry of its own latest upsert had passed |
| LeaseProtocol.GrantedMeansOwner | apps/provider-runtime/src/provider-runtime-ownership-guard.ts:163-192 | in every interleaving, an acquire that answered granted wrote the row by its upsert when nobody else had it live by its reading; its owner is then the key's owner, and its holder exactly if the upsert was not slower than the lease time |
| LeaseProtocol.RefusedMeansOwned | apps/provider-runtime/src/provider-runtime-ownership-guard.ts:176-192 | in every interleaving, an acquire that answered refused names the owner that the key had at its SELECT, whose lease was live at a reading of this call |
| LeaseProtocol.AcquireAlone | apps/provider-runtime/src/provider-runtime-ownership-guard.ts:163-192 | without interference an acquire is granted exactly unless another owner has the key unexpired, and writes the row until the lease time is over; else it is refused naming that owner; only expired rows are gone |
| LeaseProtocol.ReleaseAlone | apps/provider-runtime/src/provider-runtime-ownership-guard.ts:194-203 | without interference a release takes the key's row away exactly if it is this owner's, and says so |
| LeaseProtocol.LookupAlone | apps/provider-runtime/src/provider-runtime-ownership-guard.ts:205-217 | without interference a lookup answers the owner of the key's row unless it has expired |
| SessionKeys.GuardKeysAgreeIff | apps/provider-runtime/src/provider-runtime-supervisor.ts:532-534 | two references to one session share the supervisor's key, and share the guard's key exactly when they name the same provider |
| SessionKeys.GuardKeysCollideIff | apps/provider-runtime/src/provider-runtime-ownership-guard.ts:379-385 | two references share the guard's key exactly when the colon-separated tokens of their three ids, end to end, are the same |
| SessionKeys.SupervisorKeysCollideIff | apps/provider-runtime/src/provider-runtime-supervisor.ts:532-534 | two references share the supervisor's key exactly when the tokens of their two ids around an empty one are the same |
| SessionKeys.KeysCanCollide | apps/provider-runtime/src/provider-runtime-supervisor.ts:532-534 | two pairs of different sessions whose ids have colons and whose keys are the same |
| SessionKeys.SharesGuardKeyIff | apps/provider-runtime/src/provider-runtime-ownership-guard.ts:379-385 | for ids as the source creates them: some other reference shares a reference's guard key exactly when its instance id has a colon after the first character, its session id has one before the last, or its provider id has one and is not a lone colon |
| SessionKeys.SharesSupervisorKeyIff | apps/provider-runtime/src/provider-runtime-supervisor.ts:532-534 | for ids as the source creates them: some other session shares a session's key in the supervisor's table exactly when the key can be divided at another double colon without leaving an id empty |
| SessionKeys.PlainIdsHaveTheirOwnKeys | apps/provider-runtime/src/provider-runtime-supervisor.ts:532-534 | whatever the other ids are, a reference whose ids have no colon shares its keys with no other |
| Supervisor.GrantedIff | apps/provider-runtime/src/provider-runtime-ownership-guard.ts:59-80 | a key is granted exactly when no other owner has it live, and the grant makes its owner the holder |
| Supervisor.GrantLasts | apps/provider-runtime/src/provider-runtime-ownership-guard.ts:59-80 | a granted key is held for the lease time and no longer, if nothing else happens |
| Supervisor.EveryTickDrainsOnlyAsHolder | apps/provider-runtime/src/provider-runtime-supervisor.ts:262-290 | in every run, a tick drains a session that it finds STARTING, QR_REQUIRED, PAIRING, CONNECTED or RECONNECTING only if no other owner has the key live, holding the one lease of that key that it has just renewed; a refused renewal adds nothing and leaves DISCONNECTED |
| Supervisor.ActiveSessionDrainsOnlyAsHolder | apps/provider-runtime/src/provider-runtime-supervisor.ts:267-295 | the same for one session from any leases, with the other owner's lease and the waiting signals left alone by a refusal |
| SessionStates.InactiveSessionTakesNoLease | apps/provider-runtime/src/provider-runtime-supervisor.ts:267-295 | a CREATED, DISCONNECTED or LOGGED_OUT session is drained without asking for the lease, whoever has it, and a DESTROYED one is left alone |
| SessionStates.DeliveryOutcome | apps/provider-runtime/src/provider-runtime-supervisor.ts:297-337 | for each kind of signal and each code, behind any segments: the state, the failure, the transition log and the remembered signal that it leaves, ingested or not |
| SessionStates.BatchKeepsLeaseIff | apps/provider-runtime/src/provider-runtime-supervisor.ts:297-337 | a batch leaves the key with its holder exactly if it has no ingested failure signal whose code, behind any segments, is that of a replaced connection |
| Supervisor.DrainReportsEverySignal | apps/provider-runtime/src/provider-runtime-supervisor.ts:297-337 | every waiting signal reaches the session as those before it left it, and is reported once, in order, with the state it led to and its event, or with the ingress failure that leaves DISCONNECTED |
| Supervisor.DrainKeepsLeaseIff | apps/provider-runtime/src/provider-runtime-supervisor.ts:327-329 | after a batch the lease is held exactly if it was before and no ingested signal says that the connection was replaced |
| Supervisor.KeyChangesHandsOnlyWhenFree | apps/provider-runtime/src/provider-runtime-supervisor.ts:177-347 | in every run of starts, stops, ticks, waits and crashes of any supervisors with any lease times, when a key is granted to two owners in turn, the first owner's latest event on the key before that freed it, or took it for a time that had run out |
| Supervisor.EveryRecordHasAnOrderlyLog | apps/provider-runtime/src/provider-runtime-supervisor.ts:397-432 | in every run each transition log starts CREATED, STARTING, never repeats a neighbour and ends in the current state |
| Supervisor.StartOutcome | apps/provider-runtime/src/provider-runtime-supervisor.ts:177-220 | a start succeeds exactly when the session is not active here, no other owner has its key live and the socket starts; the new record takes a destroyed one's place or comes last and all others stay; success holds the lease and shows STARTING, a failed socket frees the key and shows DISCONNECTED, a refusal changes no record and no owner |
| Supervisor.StopOutcome | apps/provider-runtime/src/provider-runtime-supervisor.ts:222-260 | a stop of a known session marks its record DESTROYED, or DISCONNECTED after a failed close, and no other; an unknown one is an error and changes nothing |
| Supervisor.StopFreesLeaseIff | apps/provider-runtime/src/provider-runtime-supervisor.ts:222-260 | whether closing succeeds or fails, a stop frees the lease of the session it finds exactly when the guard keys agree; for the ids of that session, exactly when it names the session's provider |
| Supervisor.DestroyedButLeased | apps/provider-runtime/src/provider-runtime-supervisor.ts:222-260 | a session started with one provider and stopped with another is DESTROYED and keeps its lease |
| Supervisor.DestroyedIsLeftIff | apps/provider-runtime/src/provider-runtime-supervisor.ts:222-270 | a DESTROYED record that is not started again stays so, except that a stop whose close fails makes it DISCONNECTED |
| Supervisor.DestroyedComesBack | apps/provider-runtime/src/provider-runtime-supervisor.ts:222-260 | a start, a stop, and a second stop whose close fails leave DISCONNECTED |
| Supervisor.ProviderRuntimeSupervisor.Start | apps/provider-runtime/src/provider-runtime-supervisor.ts:177-220 | computes the specified start on the session table and the shared leases |
| Supervisor.ProviderRuntimeSupervisor.Stop | apps/provider-runtime/src/provider-runtime-supervisor.ts:222-260 | computes the specified stop; the release happens in either case |
| Supervisor.ProviderRuntimeSupervisor.Drain | apps/provider-runtime/src/provider-runtime-supervisor.ts:297-337 | the signal loop computes the specified drain and leaves the guard's file in that state |
| Supervisor.ProviderRuntimeSupervisor.Tick | apps/provider-runtime/src/provider-runtime-supervisor.ts:262-347 | the loop over sessions computes the specified tick: sessions, leases, results and what is left waiting |
| SessionLeases.UnleasedIff | apps/provider-runtime/src/provider-runtime-supervisor.ts:177-347 | in every state of every run, a session in a supervisor's table was once granted to it, and is without its lease exactly when the supervisor's latest event on the session's key gave it up or took it for a time that has run out |
| SessionLeases.HoldsLeaseIff | apps/provider-runtime/src/provider-runtime-ownership-guard.ts:59-96 | in every run an owner holds the lease of any key exactly when its latest event on that key took it for a time that has not run out |
| SessionLeases.LeaseAfterStepIff | apps/provider-runtime/src/provider-runtime-supervisor.ts:177-347 | for every step of every run, exactly who holds a key afterwards, told from what the step finds: time takes a lease only when the granted time is over, crashes and other owners never do, an owner's granted start decides by its socket, its stop gives the key of a found session up, its tick decides as below |
| SessionLeases.TurnDecidesOwner | apps/provider-runtime/src/provider-runtime-supervisor.ts:267-347 | one session's turn in a tick: whether it drains, the state it ends in, and the owner afterwards of its own key, under any reference that shares it, and of every other key |
| SessionLeases.TickKeepsLeaseIff | apps/provider-runtime/src/provider-runtime-supervisor.ts:262-347 | a whole tick leaves the supervisor holding a key exactly when no other owner had it, the supervisor had it or renewed it in the turn of some session that shares it, and no turn of such a session surrendered it since |
| SessionLeases.ActiveWithoutLeaseIff | apps/provider-runtime/src/provider-runtime-supervisor.ts:262-347 | a whole tick leaves a session active without a lease exactly when the session's own signals, as far as earlier turns left them, lead it to an active state and the condition above fails |
| SessionLeases.ConnectedButTakenOver | apps/provider-runtime/src/provider-runtime-supervisor.ts:316-329 | a batch with a replaced connection followed by a connected one leaves CONNECTED while any other owner is granted the key |
| SessionLeases.LostButConnected | apps/provider-runtime/src/provider-runtime-supervisor.ts:272-325 | a session that lost its key and is DISCONNECTED becomes CONNECTED on one connected signal while the other owner keeps the lease |
| SessionLeases.SurrenderedByAnother | apps/provider-runtime/src/provider-runtime-supervisor.ts:262-347 | two sessions whose ids divide one guard key differently: both are renewed, the second surrenders, and the first stays CONNECTED without a lease |
| SessionLeases.LeaseRunsOut | apps/provider-runtime/src/provider-runtime-supervisor.ts:177-347 | started, connected by a tick and then not ticked for the lease time, a session is CONNECTED without a lease |
| SessionLeases.FreedByFailedStart | apps/provider-runtime/src/provider-runtime-supervisor.ts:177-220 | a failed start of a session with the same guard key frees the key of a CONNECTED session |
| RateLimiter.BucketsAreSeparate | apps/api/src/api-rate-limiter.ts:470-504 | descriptors whose key ids have no colon share a bucket key exactly when they are equal |
| RateLimiter.RequestsShareIff | apps/api/src/api-rate-limiter.ts:470-504 | requests whose key ids have no colon share a budget exactly for the same key id, class and instance, or, without an instance, the same target |
| RateLimiter.ColonSharesABudget | apps/api/src/api-rate-limiter.ts:470-504 | for every client there is another key id, with colons, whose requests share its budget |
| RateLimiter.KeysShareIff | apps/api/src/api-rate-limiter.ts:470-504 | two different key ids have requests that share a bucket exactly when one id is the other followed by a class name and the instance or resource scope, and possibly a colon and more |
| RateLimiter.MemoryAgrees | apps/api/src/api-rate-limiter.ts:126-161 | over every run the shared limiter over the in-memory store decides as the local one and keeps the same counts |
| RateLimiter.RedisStepAgrees | apps/api/src/api-rate-limiter.ts:540-561 | from matching counts one check over the Redis script decides as the local limiter, and the counts match at all later times: expiry never drops a count of an open window |
| RateLimiter.LimitersAgree | apps/api/src/api-rate-limiter.ts:267-412 | over every run with a clock that never goes back the three limiters give the same decisions |
| RateLimiter.SharedWindowBudget | apps/api/src/api-rate-limiter.ts:267-348 | in each aligned window any bucket, also one shared by classes with different limits, accepts a request exactly if it has accepted fewer than that request's own limit |
| RateLimiter.DecisionOutcome | apps/api/src/api-rate-limiter.ts:267-348 | after every run a request is allowed exactly if fewer than its limit were accepted from its bucket in the open window, and is told the limit, what is left or how long to wait, and when the window ends |
| RateLimiter.WindowBudgetWithin | apps/api/src/api-rate-limiter.ts:267-348 | a bucket accepts at least the smaller of its requests and the smallest of their limits, and at most the smaller of its requests and the largest |
| RateLimiter.WindowBudget | apps/api/src/api-rate-limiter.ts:267-348 | a bucket whose requests have one limit accepts exactly the smaller of its requests and that limit in each aligned window: the limit of its class where there is one, and the general limit otherwise |
| RateLimiter.SlidingBudget | apps/api/src/api-rate-limiter.ts:514-524 | in any half-open interval of one window length a bucket accepts at most twice the largest limit of its requests |
| RateLimiter.ColonFreeKeysHaveOneLimit | apps/api/src/api-rate-limiter.ts:470-504 | when no key id has a colon, all requests of one bucket have one limit |
| RateLimiter.InMemoryFixedWindowRateLimiter.Check | apps/api/src/api-rate-limiter.ts:267-348 | computes the specified decision and buckets |
| RateLimiter.InMemoryRateLimitCounterStore.Consume | apps/api/src/api-rate-limiter.ts:126-161 | computes the specified consumption |
| RateLimiter.RedisRateLimitCounterStore.Consume | apps/api/src/api-rate-limiter.ts:220-241 | computes what the script does to the hash of the bucket |
| RateLimiter.SharedFixedWindowRateLimiter.Check | apps/api/src/api-rate-limiter.ts:378-412 | over either store, computes the specified decision |
| WorkerJobs.EveryRunKeepsInv | packages/infrastructure-persistence/src/postgresql-repositories.ts:1448-1580 | in every interleaving of reserve and recover transactions, commits and rollbacks, rows and history agree, locks are held by open transactions, and what a transaction read is still committed |
| WorkerJobs.NoDoubleHandout | packages/infrastructure-persistence/src/postgresql-repositories.ts:1448-1515 | between two handouts of one job there is a recovery of it, no earlier than the deadline stored by the first |
| WorkerJobs.RecoveryIsDue | packages/infrastructure-persistence/src/postgresql-repositories.ts:1517-1580 | every recovery revokes the job's latest handout, at or after its stored visibility deadline |
| WorkerJobs.HandoutsWithinBudget | packages/infrastructure-queue/src/durable-worker-job-queue-provider.ts:365-400 | the n-th handout of a job is attempt n, and there are never more than its maximum of attempts |
| WorkerJobs.HandedOutIsNotReservable | packages/infrastructure-persistence/src/postgresql-repositories.ts:1462-1481 | a job that is handed out and not recovered is reserved or running until its stored deadline, and no reserve query selects it |
| WorkerJobs.ReserveAlone | packages/infrastructure-persistence/src/postgresql-repositories.ts:1459-1508 | without interference a queued job, or a retrying one for its next attempt, that is due and within its budget is reserved until the deadline and handed out, and no other row changes |
| WorkerJobs.RecoverAlone | packages/infrastructure-persistence/src/postgresql-repositories.ts:1506-1580 | without interference each selected job that has used its attempts is dead, each other one is retrying and visible at once, each has its event, and no other row changes |
| WorkerJobs.ReserveSelects | packages/infrastructure-persistence/src/postgresql-repositories.ts:1464-1484 | a reserve query selects a row exactly if it is unlocked, of the asked work type, and queued, or retrying with a stored visibility, or else zero, that is not in the future |
| WorkerJobs.RecoverSelects | packages/infrastructure-persistence/src/postgresql-repositories.ts:1520-1537 | a recovery query selects rows exactly if they are unlocked, of the asked work types, reserved or running, and past their deadline |
| WorkerJobs.HandedOutAsAsked | packages/infrastructure-persistence/src/postgresql-repositories.ts:1442-1510 | in every interleaving every job was handed out to a caller that asked for its work type |
| WorkerJobs.HandoutRow | packages/infrastructure-queue/src/durable-worker-job-queue-provider.ts:395-399 | in every interleaving reserving a queued or retrying job writes the attempt after those handed out so far and the deadline, and fails only for a job that allows no attempt |
| WorkerJobs.RecoveredRow | packages/infrastructure-queue/src/durable-worker-job-queue-provider.ts:365-383 | in every interleaving recovering a job makes it visible for its next attempt while attempts are left, and dead when it has been handed out as often as it may be |
| WorkerJobs.FirstOf | packages/infrastructure-persistence/src/postgresql-repositories.ts:1472-1474 | the row that ORDER BY id with LIMIT 1 returns, in whatever order the database has |
| WorkerJobs.PostgresqlWorkerJobRepository.ReserveNextVisibleWorkerJob | packages/infrastructure-persistence/src/postgresql-repositories.ts:1448-1515 | none is answered exactly if no row of the work type is queued, or retrying and visible; else the first such row by id is reserved and no other row changes, or its error rolls back |
| WorkerJobs.PostgresqlWorkerJobRepository.RecoverExpiredWorkerJobLeases | packages/infrastructure-persistence/src/postgresql-repositories.ts:1517-1580 | exactly the rows of the asked work types that are reserved or running and past their deadline are recovered, once each in the order of ids, each becomes retrying or dead, and no other row changes |
| QueryCursor.DecodeOfEncode | apps/api/src/http-server.ts:2285-2312 | a cursor decodes to its offset exactly for safe offsets and agreeing digests |
| QueryCursor.DecodesOnlyOwnCursors | apps/api/src/http-server.ts:2291-2312 | whatever decodes is the prefix, a run of digits and the digest of that context |
| QueryCursor.EncodedCursorPassesValidation | apps/api/src/http-server.ts:2402-2418 | every encoded cursor passes the validation of the cursor parameter |
| QueryCursor.ContextIdentifiesQuery | apps/api/src/http-server.ts:2257-2281 | two validated queries with the same context agree in name, limit, sort, search and filters |
| QueryCursor.NormalizeCollectionQueryOptions | apps/api/src/http-server.ts:2115-2221 | the loop gives the failure of the first bad parameter, or the query made of the last value of each parameter with its decoded cursor |
| QueryCursor.AcceptedIsValidated | apps/api/src/http-server.ts:2115-2221 | accepted parameters make a validated query with a limit from 1 to 200 |
| QueryRequests.ParameterOutcome | apps/api/src/http-server.ts:2115-2190 | what a request is refused for on account of one parameter, for every name and value |
| QueryRequests.FailureIsFirst | apps/api/src/http-server.ts:2115-2221 | a request is refused for its first wrong parameter |
| QueryRequests.AcceptedRequest | apps/api/src/http-server.ts:2115-2221 | of an accepted request the last value of each parameter counts: sort, search, the limit, which is 50 without one and 200 at most, and all other parameters as filters |
| QueryRequests.LimitReads | apps/api/src/http-server.ts:2427-2450 | a numeral between any white space is read as its number if that is from 1 to the largest safe integer |
| QueryFields.SortFieldsIff | apps/api/src/http-server.ts:2336-2353 | for each field, the queries that can be sorted by it |
| QueryFields.FilterFieldsIff | apps/api/src/http-server.ts:2355-2372 | for each field, the queries that can be filtered by it |
| QueryCursor.RepeatedRequestTakesCursor | apps/api/src/http-server.ts:2190-2221 | a request repeated with a cursor made for it is accepted and starts at that offset |
| QueryCursor.OtherRequestRefusesCursor | apps/api/src/http-server.ts:2190-2208 | a request that differs in name, limit, sort, search or filters has another context and refuses the cursor exactly if the digests differ |
| QueryCursor.SortNamesAllowedFieldIff | apps/api/src/http-server.ts:2382-2400 | an accepted sort value names an allowed field exactly when it had no surrounding white space |
| QueryCursor.PaddedSortIsAccepted | apps/api/src/http-server.ts:2382-2400 | a sort value with a leading space is accepted and names no allowed field |
| Pages.SelectionKeepsMatches | apps/api/src/public-resource-dto.ts:116-126 | the sorted list is a permutation of the filtered list |
| Pages.SelectionIsSortedAndStable | apps/api/src/public-resource-dto.ts:162-185 | the sorted list is ordered by the field, either way, and by position where the field ties |
| Pages.OnlyOneSorting | apps/api/src/public-resource-dto.ts:162-185 | no other arrangement of the same entries is sorted, so the sorting algorithm does not matter |
| Pages.UnknownFieldKeepsOrder | apps/api/src/public-resource-dto.ts:162-199 | sorting by a field that no item can be compared by keeps the filtered order |
| Pages.FetchAtOffset | apps/api/src/public-resource-dto.ts:30-54 | a request with the cursor of an offset gets the page at that offset, and one without gets the first page |
| Pages.WalkDeliversSelection | apps/api/src/public-resource-dto.ts:30-54 | following next cursors from the first page delivers every matching item once, in order, in ceil(n/limit) pages, or in one empty page when nothing matches |
| PageContents.WalkDeliversMatches | apps/api/src/public-resource-dto.ts:128-160 | following the next cursors delivers each item as often as it occurs in the data if every filter is the text of its field and the search text is found in it, and never otherwise |
| PageContents.FilterKeepsAskedFor | apps/api/src/public-resource-dto.ts:114-160 | filtering keeps exactly the items asked for, as often as they occur and in their order |
| PageContents.ComesFirstIff | apps/api/src/public-resource-dto.ts:162-200 | which of two items comes first: by the texts of the field upwards, or downwards after a minus sign, those without a text last, or first after a minus sign, and else by their order |
| PageContents.PageOutcome | apps/api/src/public-resource-dto.ts:29-54 | a page holds the items from its offset as the limit allows; its next cursor leads to the first item left, its previous one a limit back or to the start, and they are there exactly if there are such items |
| Pages.WalkExists | apps/api/src/public-resource-dto.ts:30-54 | the next cursors always come to an end |
| Pages.PreviousThenNextIff | apps/api/src/public-resource-dto.ts:44-53 | the previous page leads on to the page again exactly when limit <= offset < n |
| Pages.PreviousCanMiss | apps/api/src/public-resource-dto.ts:44-53 | of three items, the page at offset 1 has a previous page without a next one |
| ApiKeys.EveryRunKeepsInv | apps/api/src/api-key-lifecycle.ts:160-277 | over every run with trimmed key ids, with stops between the saves of a rotation, ids and hashes are unique and every link leads to an older revoked key that is replaced once |
| ApiKeys.OneActiveKeyPerLineage | apps/api/src/api-key-lifecycle.ts:232-277 | each lineage has at most one active key, and it is the newest |
| ApiKeys.LineageFollowsLinks | apps/api/src/api-key-lifecycle.ts:232-277 | a key that replaced another is of its lineage, and a key without a link begins one |
| ApiKeys.LinkNamesParentIff | apps/api/src/api-key-lifecycle.ts:423-435 | a replacement names the key it replaced exactly when that key's id was trimmed |
| ApiKeys.LinksCanBranch | apps/api/src/api-key-lifecycle.ts:312-335 | a run with an untrimmed id leaves two keys that name the same replaced key |
| ApiKeys.LinksBranchIff | apps/api/src/api-key-lifecycle.ts:232-277 | over every run, whatever the key ids, and over either store, two keys name the same replaced key exactly when two replaced keys have ids that differ only by surrounding white space |
| ApiKeys.RotationBranchesIff | apps/api/src/api-key-lifecycle.ts:232-277 | a completed rotation makes the links branch exactly when they did before or some key already names the trimmed id |
| KeyLineages.LinksCircleIff | apps/api/src/api-key-lifecycle.ts:232-277 | over every run, whatever the key ids, and over either store, the links lead in a circle exactly when some call completed a rotation to an id that the links already led to from the trimmed id it replaced |
| KeyLineages.LinksCanCircle | apps/api/src/api-key-lifecycle.ts:312-335 | a run of two calls with an untrimmed id leaves an active key that names itself as the key it replaced |
| KeyLineages.TrimmedRunsHaveNoCircle | apps/api/src/api-key-lifecycle.ts:232-277 | with trimmed key ids the links never lead in a circle |
| KeyLineages.CallLeavesTwoActiveIff | apps/api/src/api-key-lifecycle.ts:160-277 | while no lineage has two active keys: a provision gives one two exactly when an active key's lineage already contains the new id, a completed rotation exactly when another active key's contains the new id or the trimmed old one, and no other call does |
| KeyLineages.TwoActiveInLineage | apps/api/src/api-key-lifecycle.ts:232-277 | a run with an untrimmed id leaves an active key that names another active key as the one it replaced |
| ApiKeys.EveryRunIsSound | apps/api/src/api-key-lifecycle.ts:160-277 | over every run and either store, whatever the key ids, ids and hashes are unique and links are trimmed |
| ApiKeys.NothingIsUndone | apps/api/src/api-key-lifecycle.ts:206-277 | over either store and for any key ids, whatever follows, no record vanishes or changes its hash, credential or link, and no revocation is undone |
| ApiKeys.StoresAgree | apps/api/src/api-key-lifecycle.ts:98-158 | for any key ids, every operation answers alike over the two stores, and they hold the same records |
| ApiKeys.StoresVerifyAlike | apps/api/src/api-key-auth.ts:82-104 | after any run every presented key verifies alike over the two stores |
| ApiKeys.VerifiesIff | apps/api/src/api-key-auth.ts:89-104 | a key verifies exactly when an active record has its hash, and as that record |
| KeyOutcomes.ProvisionOutcome | apps/api/src/api-key-lifecycle.ts:171-190 | after every run over either store: a provision is refused for a taken id, a blank key or a registered hash, and changes nothing; else the key is stored as active and verifies as its credential, and every other hash verifies as before |
| KeyOutcomes.RevokeOutcome | apps/api/src/api-key-lifecycle.ts:206-230 | after every run over either store: a revoked key is answered and nothing changes; else the record is stored as revoked at that time, its hash stops verifying, and every other hash and record stays |
| KeyOutcomes.RotateOutcome | apps/api/src/api-key-lifecycle.ts:232-277 | after every run over either store: the first reason for a failure, and nothing changes; else the old key is revoked and stops verifying, and unless the process stops in between the new key is stored with its link and verifies as its credential; every other hash and record stays |
| KeyOutcomes.PresentedKey | apps/api/src/api-key-auth.ts:89-104 | a presented key is trimmed and hashed before it is looked up; none, and white space, never verifies |
| ApiKeys.StaticHashedApiKeyVerifier.Verify | apps/api/src/api-key-auth.ts:89-104 | the loop returns the last active match |
| ApiKeys.InMemoryApiKeyLifecycleStore.SaveApiKeyRecord | apps/api/src/api-key-lifecycle.ts:115-119 | a known id keeps its place, a new one comes last, and the record can be loaded again |
| ApiKeys.DurableJsonApiKeyLifecycleStore.SaveApiKeyRecord | apps/api/src/api-key-lifecycle.ts:145-157 | the saved record comes last, replacing its older version, and can be loaded again |
| ApiKeys.ApiKeyLifecycleService.Provision | apps/api/src/api-key-lifecycle.ts:171-190 | over either store, computes the specified answer and records |
| ApiKeys.ApiKeyLifecycleService.Revoke | apps/api/src/api-key-lifecycle.ts:206-230 | over either store, computes the specified answer and records |
| ApiKeys.ApiKeyLifecycleService.Rotate | apps/api/src/api-key-lifecycle.ts:232-277 | over either store, also when stopped between its saves, computes the specified answer and records |
| DurableRepositories.EveryRunKeepsInv | packages/infrastructure-persistence/src/durable-json-state-store.ts:23-48 | at every step of every run with crashes, the file is whole and holds the effective calls, with the one being written either in it or not, and after a rename no temporary file is left |
| DurableRepositories.DurableAnswersAsTwin | packages/infrastructure-persistence/src/durable-json-repositories.ts:91-264 | after any run with crashes at any step, a reopened repository answers every question as the in-memory one given the completed calls and each interrupted one whole or not at all; opening never fails |
| DurableRepositories.AnswerOutcome | packages/infrastructure-persistence/src/durable-json-repositories.ts:235-262 | after any calls a message is found by its id in its latest version, by the status of that version, by the key last recorded for it, and as recoverable work of messaging only while queued, processing or failed, in the order of first saving |
| DurableRepositories.CompletedCallsCount | packages/infrastructure-persistence/src/durable-json-repositories.ts:117-122 | a call that returned is never lost |
| DurableRepositories.EveryCallIsAccounted | packages/infrastructure-persistence/src/durable-json-state-store.ts:39-48 | the calls begun in a run are, in order, those that completed, were lost or survived a crash, and the one under way |
| DurableRepositories.LoadRecordsIsIdentity | packages/infrastructure-persistence/src/durable-json-repositories.ts:165-176 | reading the records back gives the same list |
| DurableRepositories.SameAnswers | packages/infrastructure-persistence/src/in-memory-repositories.ts:173-201 | a repository that represents its twin answers every question alike |
| DurableRepositories.DurableJsonStateStore.Write | packages/infrastructure-persistence/src/durable-json-state-store.ts:39-48 | an undisturbed write leaves the new content and no temporary file |
| DurableRepositories.DurableJsonMessageRepository.constructor | packages/infrastructure-persistence/src/durable-json-repositories.ts:99-111 | opening a file that holds a twin's state gives a repository that represents it |
| DurableRepositories.DurableJsonMessageRepository.Save | packages/infrastructure-persistence/src/durable-json-repositories.ts:117-122 | memory and file represent the twin after the same save |
| DurableRepositories.DurableJsonMessageRepository.RecordIdempotencyKey | packages/infrastructure-persistence/src/durable-json-repositories.ts:154-159 | memory and file represent the twin after the same recording |
| DurableRepositories.DurableJsonMessageRepository.FindByIdempotencyKey | packages/infrastructure-persistence/src/durable-json-repositories.ts:243-249 | answers as the twin |
| DurableRepositories.InMemoryMessageRepository.Save | packages/infrastructure-persistence/src/in-memory-repositories.ts:96-99 | the specified save |
| Scheduler.OncePerWindow | apps/scheduler/src/scheduler-runtime.ts:129-199 | over every run with a clock that never goes back and distinct ids, a definition is enqueued successfully once in each aligned window in which the queue accepts it at some tick, and never otherwise |
| Scheduler.TickOutcome | apps/scheduler/src/scheduler-runtime.ts:129-216 | a tick enqueues one piece of work for each definition whose checkpoint is not the start of the window that the tick is in, with its owner, work type and key, and for no other |
| Scheduler.DueInOrder | apps/scheduler/src/scheduler-runtime.ts:184-199 | the due definitions keep their order |
| Scheduler.KeysIdentifyDispatches | apps/scheduler/src/scheduler-runtime.ts:201-216 | different definitions or windows have different idempotency keys, colons in ids included |
| Scheduler.SchedulerRuntime.Tick | apps/scheduler/src/scheduler-runtime.ts:129-182 | the loop computes the specified dispatches and checkpoints |
| Windows.WindowsAreAligned | apps/scheduler/src/scheduler-runtime.ts:218-226 | window starts never go back with time, and two times share a window exactly until it ends |
| Windows.WindowsStartAtMultiples | apps/scheduler/src/scheduler-runtime.ts:218-226 | windows start at the multiples of their length |
| Intents.EveryRunKeepsHistory | packages/infrastructure-persistence/src/outbound-message-intent-store.ts:69-140 | over every run of storing, re-storing and binding there is one record per reference, in the order of first storing, with its first time, its latest content and all its bindings |
| Intents.BoundIff | packages/infrastructure-persistence/src/outbound-message-intent-store.ts:400-413 | a message is bound to a reference exactly when some call bound it after the reference was stored |
| Intents.BoundStaysBound | packages/infrastructure-persistence/src/outbound-message-intent-store.ts:322-340 | bindings are only ever appended, re-stores included |
| Intents.LookupByMessage | packages/infrastructure-persistence/src/outbound-message-intent-store.ts:236-251 | looking a message up answers for the first-stored reference among all it was ever bound to, and is an error when there is none or that one has expired |
| Intents.LookupByRef | packages/infrastructure-persistence/src/outbound-message-intent-store.ts:220-234 | looking a reference up answers for its one record until it expires |
| Intents.StoreOutcome | packages/infrastructure-persistence/src/outbound-message-intent-store.ts:69-109 | a store that is not accepted changes nothing; after one that is, its reference, or the generated one, is found with what was just stored and the time of the first store, until it expires |
| Intents.AcceptedIff | packages/infrastructure-persistence/src/outbound-message-intent-store.ts:69-109 | an intent is accepted exactly if recipient and text are not blank and its expiry, if any, is a safe integer |
| Intents.ReceiptIff | packages/infrastructure-persistence/src/outbound-message-intent-store.ts:313-320 | a receipt names the trimmed reference and is refused exactly if that is not a token |
| Intents.InMemoryOutboundMessageIntentStore.StoreTextIntent | packages/infrastructure-persistence/src/outbound-message-intent-store.ts:69-109 | extends the history, answers a receipt exactly for acceptable input under a safe reference, and the receipt has the time of the first store |
| Intents.InMemoryOutboundMessageIntentStore.FindTextIntentByMessage | packages/infrastructure-persistence/src/outbound-message-intent-store.ts:157-170 | answers the receipt of the first record bound to the message, or why there is none |
| Intents.InMemoryOutboundMessageIntentStore.BindMessageIntent | packages/infrastructure-persistence/src/outbound-message-intent-store.ts:111-140 | succeeds exactly for stored references, and the message is then bound |

## Left out

- Overlapping asynchronous calls of one object (two starts, two provisions at once): calls are atomic, as the code does not guard them.
- Acknowledging, releasing or dead-lettering a worker job: these are separate statements that read and save without the row lock, so a stale save can overwrite a recovery; the worker-job results are about reserve and recover transactions.
- Enqueueing and starting a worker job are single steps; a running job is not started by a statement of its own in the source, which completes it in one save.
- Concurrent SQL appends: sequence numbers can then commit out of order, so the SQL log is modelled over serial histories; its listing order by creation time and the database's rewriting of timestamps are not modelled.
- File errors other than a stopped process (a full disk, a refused rename), and a disk that loses completed writes.
- Initial aggregates, `clear()` and the repositories other than the message repository.
- Supervisor shutdown and the drain loop's timer; a supervisor that disappears is the crash step.
- The in-memory ownership guard without expiry, the guard snapshots, and the migration of its schema.
- Rate-limiter snapshots and the classification of a path into an endpoint class; a malformed answer of the Redis client.
- The mapping of a stored item to its public fields: the pages start from public items.
- Audit events, safe listings and provisioning from a secret provider; validation of timestamps.
- A publisher or queue that throws during a scheduler tick: the queue answers with a result.
- Intent payload encoding, and the durable intent store, which adds the file of the repositories modelled here.
- HTTP plumbing, response mapping, environment parsing, read projections, metrics, health, group and webhook stores.
- The event log's bus adapter, and resource reference, correlation id and classification of an event, which are copied unread.
