# A verified model of ReplayDB's event-sourcing engine

ReplayDB keeps an append-only log per aggregate and derives everything else from it: states are
folds of the log under declarative rules, snapshots and two Redis cache layers make the folds
cheap, a queue takes snapshots in the background, and replay jobs take them in bulk. This
project models that engine and proves what the derived data is worth: over every run, in every
interleaving, and exactly when.

## Reading order

Three models share one vocabulary.

1. **The fold.** `Reducer` holds the fold of a log and the loop that computes it.
   `ReducerProperties`, `EventReducers` and `SnapshotChains` hold its algebra: locality,
   lossless accumulation, rule order, upserts, and resuming through chains of snapshots.
   `DeclaredRules` leads from the text of a declaration to the field of a state.
2. **The concurrent systems.** `AppendProtocol` runs append transactions one SQL statement at a
   time under READ COMMITTED with row locks (PostgreSQL 16, sections 13.2.1 and 13.3.2).
   `Interleaving` adds state queries, snapshot creation, rule changes, cache expiry and failing
   Redis commands, again one statement at a time; `PrefixConsistency` proves what holds in every
   run and `SnapshotRaces` who wins which row. `StaleReads` builds runs in which a stale entry
   stays behind, and `Straddling` says exactly which schedules leave one.
   `RuleChanges` says exactly which histories of rules let snapshots change an answer.
3. **The sequential engine.** `Database`, `RedisCache`, `SnapshotQueue` and the services are
   classes whose methods follow the source's; `Freshness` holds their invariants, `Engine` runs
   whole request sequences, `SnapshotWorkers` drains the queue, and `ReplayJobs` accounts for
   bulk jobs. Each service method is proved against a function of the rows and the cache before
   it (`QueryOutcome`, `SnapshotOutcome`, `Appended`, `ReplayOf`), and the lemmas are about those.

The last two meet in `SoloRuns`, `SoloEnds` and `SoloAppends`: for all Redis answers and database
errors a call whose statements run with nothing in between can end as the service's function says,
and every run of a call alone does end so, for the answers and the error it met; likewise an append.

`Consistency` says, for all three, what it means for a derived value to agree with the log.
`Good(v, id, k, state)` holds when the state is a fold of the first k events of an aggregate, from
empty, each event under some version of the rule table, versions never going back. That is the
plain fold while `RulesHeld`: no version has differed in effect from the current one for the
aggregate's own rules, whatever else has been declared. `Values`, `Tables` and `CacheKeys` are the rows, the SQL queries
and the text keys, `Numerals` says what the decimal texts are worth, and `PointInTime` what a question about
the past is answered with.

Cached states carry `seen`, a history variable: how long the aggregate's log was when the events
behind the entry were read. No operation reads it. `Database.versions` is one too.

The environment enters as parameters: which Redis commands are answered (`Answers`), which
database statement fails (`Fault`, `ReplayFaults`), which entries expire, the ids the database
generates. A command that Redis fails to answer is a miss or does nothing.

## Where the documentation promises more than the code keeps

- `src/cache/README.md:20` says an answer as of sequence number 15 is the same today and
  forever, and `src/cache/README.md:23` and `src/events/README.md:10` say that no read after an
  append returns stale state. Neither holds in every run: from every state with no append under
  way a query can read the log, an append commit and delete the latest entries, and the query then
  fill the cache. No command fails, and the entry is wrong (`StaleReads.EveryAnswerCanGoStale`). From
  the empty system, for the latest state and for sequence number 2, nothing at all is left to
  run (`StaleReads.CachedAnswerCanBeStale`). The exact conditions: an answer is right exactly while no event
  the question covers has been committed since its events were read (`Consistency.AnswerIsRightIff`);
  an entry for N stays right for ever exactly if the log held N events then
  (`PrefixConsistency.HistoryIsPermanentIff`); and once every append has issued its delete, a latest
  entry is wrong exactly when the call that filled it read before some commit and filled after
  the delete of that commit (`Straddling.LatestEntryIsRightIff`). With calls that do not overlap every
  latest answer is exact up to the first delete that is not answered: `Engines.Engine.Serve`.
- `src/snapshots/README.md:3` says deleting every snapshot changes nothing but speed. Declaring a rule
  invalidates no snapshot, and a snapshot mixes the rules of its past. The exact condition: for a
  history of declarations, every reachable state through it answers the same with and without
  its snapshots, for every aggregate of a project and type, if and only if no declaration in the
  history had an effect on that project and type (`RuleChanges.SnapshotsOnlySaveTimeIff`). Otherwise a
  run through just that history shows the difference: `RuleChanges.DeletingSnapshotsCanChangeAnswers`.
  What always holds is `PrefixConsistency.DerivedDataIsPrefixConsistent`.
- `src/replay-jobs/README.md:3` says a job recomputes state for every aggregate in scope. It stores
  one for an aggregate exactly when the aggregate had no snapshot at its last event and its call
  does not fail, whatever rules have changed: `ReplayJobs.ReplayTakesExactlyWhatIsDue`, and for a whole
  second job `ReplayJobs.ReplayTwice`.

## Model

| member | source | states |
|---|---|---|
| `PrefixConsistency.DerivedDataIsPrefixConsistent` | src/aggregates/aggregates.service.ts:38-157 | in every reachable state of the interleaved system, rules changing at any time, every snapshot row, every entry of either cache layer and every returned result sits at a position within the log and folds exactly the events up to there, each under a rule version that never goes back |
| `PrefixConsistency.DerivedDataIsThePlainFold` | src/aggregates/aggregates.service.ts:38-157 | for every aggregate whose own rules no declaration has changed in effect, each of those labelled k, null meaning 0, is the plain fold of the first k events and k is at most the log length, in every interleaving |
| `PrefixConsistency.HistoryIsPermanent` | src/aggregates/aggregates.service.ts:58-111 | an entry for sequence number N filled from a log of at least N events is labelled N and is the fold of the first N events in every later state of every run in which no declaration has changed the rules of its aggregate in effect, with nothing invalidating it |
| `PrefixConsistency.HistoryIsPermanentIff` | src/cache/README.md:20 | an entry for N stays the right answer under every growth of the log, and every declaration without effect on its aggregate, if and only if the log held N events when the entry was computed |
| `Consistency.AnswerIsRightIff` | src/aggregates/aggregates.service.ts:72-111 | while the rules of its aggregate have held, an answer is still what a full replay gives if and only if no event the question covers was committed after its events were read |
| `StaleReads.CachedAnswerCanBeStale` | src/events/README.md:10 | from any initial state a run in which no command fails and which ends with every append and its delete done and the query answered, and yet a wrong entry in the cache, for the latest state or for sequence number 2 |
| `StaleReads.EveryAnswerCanGoStale` | src/cache/README.md:23 | such a run from every state with no append under way, for every aggregate whose rules have held and every missing entry that covers the next event; if no call was in flight nothing is left to run that would remove the entry |
| `Straddling.LatestEntryIsStaleIff` | src/aggregates/aggregates.service.ts:72-111 | in a run with answered deletes, once every committed append has issued its delete, a latest entry is out of date if and only if the call that last filled it read its events before a commit and filled the cache after the delete of that commit |
| `Straddling.LatestEntryIsRightIff` | src/events/events.service.ts:70-73 | while the rules of its aggregate have held, the latest entry is what a full replay gives if and only if that did not happen |
| `Straddling.StaleRunStraddles` | src/aggregates/aggregates.service.ts:72-111 | the run from the empty system that leaves a stale latest entry, with everything finished and every delete answered, is one in which that happened |
| `Straddling.AppendsAreAProtocolRun` | src/events/events.service.ts:40-68 | the append statements of any run of the whole system are a run of the append protocol, so its results hold of them |
| `PrefixConsistency.CallsAlwaysAdvance` | src/aggregates/aggregates.service.ts:43-56 | a cached value always has the shape its reader expects, so no unfinished call is ever stuck |
| `PrefixConsistency.SnapshotsLieWithinTheLog` | database/migrations/V003__create_api_keys_snapshots_replay_jobs.sql:23 | under racing createSnapshot calls rows stay unique per aggregate and sequence number, and each number lies in 1 to the log length |
| `SnapshotRaces.EveryRowHasOneCreator` | src/snapshots/snapshots.service.ts:74-90 | in every reachable state every snapshot row was inserted by exactly one call, and no two calls report the same row |
| `SnapshotRaces.RacingCallsCreateOneRow` | src/snapshots/snapshots.service.ts:91-100 | whatever else runs, of two calls about to insert the same row at most one reports it; one that ends with null has lost to a call whose row is in the table |
| `PrefixConsistency.ReportedSnapshotsExist` | src/snapshots/snapshots.service.ts:75-90 | a snapshot a call reports is in the table in every later state |
| `PrefixConsistency.LatestSnapshotNeverMovesBack` | src/snapshots/snapshots.service.ts:69-80 | in every run the highest snapshot position of an aggregate never decreases |
| `PrefixConsistency.ReachableInv` | src/aggregates/aggregates.service.ts:38-157 | every state some run reaches satisfies the invariant of tables, cache, snapshots and calls in flight |
| `PrefixConsistency.StepsGrow` | src/events/events.service.ts:40-68 | in every run committed rows, rule versions and snapshot rows are only ever added |
| `Interleaving.StepKeepsInv` | src/aggregates/aggregates.service.ts:38-157 | every statement of every call, commit, rule change, expiry and failure keeps the invariant, whatever the other calls have read so far |
| `Interleaving.CheckCacheKeepsInv` | src/aggregates/aggregates.service.ts:43-48 | the state-cache read keeps the invariant: a hit gives the call a result that is good for the log as it is now |
| `Interleaving.FindSnapshotKeepsInv` | src/aggregates/aggregates.service.ts:138-149 | the snapshot read keeps the invariant: the row it gives the call is good and lies at or before the position asked for |
| `Interleaving.ReadEventsKeepsInv` | src/aggregates/aggregates.service.ts:72-76 | the event read keeps the invariant: the call holds exactly the events the question covers after its base, however old the base is |
| `Interleaving.ReadRulesKeepsInv` | src/aggregates/aggregates.service.ts:78-109 | the rule read keeps the invariant: events read earlier, folded with rules read last onto a base read before both, give a good result |
| `Interleaving.FillStateKeepsInv` | src/aggregates/aggregates.service.ts:111 | filling the state cache, however late, keeps the invariant: every entry of both layers stays good |
| `Interleaving.InsertKeepsInv` | src/snapshots/snapshots.service.ts:68-80 | the insert keeps the invariant: the row made from a result of any age is good and unique, whatever was inserted meanwhile |
| `Interleaving.AppendKeepsInv` | src/events/events.service.ts:40-68 | a statement of an append transaction keeps everything derived good and only adds rows |
| `Consistency.ResumeIsGood` | src/aggregates/aggregates.service.ts:96-97 | resuming from any prefix-consistent state under the newest rules gives a prefix-consistent state at every later position |
| `Consistency.AnswerIsGood` | src/aggregates/aggregates.service.ts:96-109 | whatever the base, the assembled result carries the label of the position it reaches and is prefix-consistent there |
| `Consistency.GoodIsPlainWhenRulesHeld` | src/aggregates/reduce-events.ts:25-41 | while no version of the rule table differs in effect from the current one for the rules of an aggregate, prefix-consistent means equal to the plain fold of the prefix |
| `Consistency.QueryReadsTail` | src/aggregates/aggregates.repository.ts:14-29 | with a good base the range query returns exactly the log between the base and the position the question reaches |
| `Consistency.StateFilled` | src/aggregates/aggregates.service.ts:111 | a state entry good for its key leaves the whole cache good: no other key is its key |
| `Consistency.LookupFilled` | src/aggregates/aggregates.service.ts:150-154 | the same for the snapshot-lookup layer |
| `Consistency.SnapshotRowIsGoodLookup` | src/aggregates/aggregates.service.ts:138-149 | the latest row at or before a position is a good base for a question about that position |
| `AppendProtocol.SequencesAreGapless` | src/events/events.repository.ts:22-58 | for any number of transactions, any interleaving and any aborts, the committed events of each aggregate carry exactly 1 to n in commit order; two aggregate rows agree on project, type and key all three only if they are one row, and ids are unique |
| `AppendProtocol.NoStatementFails` | src/events/events.repository.ts:34-58 | the locking select always finds its row, no insert meets the unique sequence constraint, committed or pending, and a transaction aborts only by an abort from outside |
| `AppendProtocol.AcknowledgedAppendsAreKept` | src/events/events.service.ts:40-68 | in every state from its commit on, a committed append has its event in the table exactly once, with the requested content, under the one aggregate whose project, type and key are the requested ones, and shares it with no other |
| `AppendProtocol.EveryEventWasAppendedOnce` | src/events/events.service.ts:40-68 | every event in the table is the event of exactly one committed append |
| `AppendProtocol.EveryAppendFinishes` | src/events/events.service.ts:40-68 | once no new transaction arrives every run is bounded by the work left, and where it cannot go on every transaction has committed or aborted |
| `AppendProtocol.SomeTransactionCanMove` | src/events/events.repository.ts:28-42 | no deadlock: while a transaction is unfinished some transaction can run its next statement |
| `AppendProtocol.RunsAreBounded` | src/events/events.service.ts:40-68 | with no new transactions a run has at most as many steps as statements were left |
| `AppendProtocol.StepKeepsInv` | src/events/events.repository.ts:22-74 | every statement keeps the protocol invariant: unique rows, gapless logs, one lock holder per aggregate, numbers current under the lock |
| `AppendProtocol.EnsureKeepsInv` | src/events/events.repository.ts:28-32 | insert on conflict do nothing keeps the invariant: at most one row, committed or pending, per natural key |
| `AppendProtocol.LockKeepsInv` | src/events/events.repository.ts:34-42 | the locking select never fails and keeps the invariant: no two transactions hold one aggregate |
| `AppendProtocol.NextNumberIsFree` | src/events/events.repository.ts:47-58 | the highest number plus one is taken by no committed event |
| `AppendProtocol.CommitKeepsInv` | src/events/events.service.ts:40-68 | a commit keeps the invariant: logs gapless, keys unique, and what every other transaction read under its lock still current |
| `AppendProtocol.StepAppendsAtMostOne` | src/events/events.service.ts:40-68 | seen from outside, a statement changes nothing or is a commit that adds one event with the next number of its aggregate |
| `SoloRuns.QueryAlone` | src/aggregates/aggregates.service.ts:38-114 | for all Redis answers and database errors there is a run of a query alone, nothing in between, that ends with the answer, the error and the cache of the service method |
| `SoloRuns.SnapshotAlone` | src/snapshots/snapshots.service.ts:55-103 | the same for createSnapshot, with its row and table |
| `SoloEnds.EveryRunAloneEnds` | src/aggregates/aggregates.service.ts:38-114 | every run of a query or createSnapshot alone, from its start until it is done, ends with the result, the error, the rows and the cache of the service method, for some Redis answers and some database error |
| `SoloAppends.TransactionAlone` | src/events/events.service.ts:40-68 | from any state in which no transaction is under way there is a run of an append transaction alone that ends with the tables of the service method |
| `SoloAppends.AppendAlone` | src/events/events.service.ts:39-73 | the same with its delete, answered or not, and the cache |
| `SoloAppends.EveryAppendAloneEnds` | src/events/events.service.ts:39-73 | every run of an append alone, until it is over, leaves everything as it was, if it aborts, or ends with the tables and the cache of the service method |
| `Engines.Engine.Serve` | src/aggregates/aggregates.service.ts:38-114 | refinement: any sequence of requests, jobs, replays, rule declarations and expiries, whatever fails in it, is a run of an engine that is only its tables, from the tables before to the tables after; every successful answer, latest or historical, is right for the whole log some request up to it met that asked the same question, or was cached from the start; while deletes are answered every latest answer is right for the tables it met itself; while jobs and queue work too every due aggregate has a job waiting |
| `Engines.Engine.Handle` | src/aggregates/aggregates.service.ts:38-114 | one request is one step of that engine; a query that misses the state cache answers for the whole log it meets, a hit gives its entry; afterwards every state entry is gone, as it was, or filled from the tables met, by a request for its question; freshness and coverage are kept under the same conditions; its response, the snapshot table, the cache, the queue and the replay jobs are exactly those of the reference, an append queueing one job when 20 or more events then lie past the latest snapshot, a job taking its snapshot and a replay its scope |
| `Engines.HistoricalAnswersStayRight` | src/cache/README.md:20 | in such a run an answer as of N that was right for tables with N events in the log is what a full replay gives for all later tables, while the rules of its aggregate have held |
| `Engines.GoodAnswerIsPlain` | src/aggregates/aggregates.service.ts:96-109 | a good result names its aggregate, type and key, and is the plain fold of the events it covers, under their label, while the rules of the aggregate have held |
| `Aggregates.QueryOutcomeIsGood` | src/aggregates/aggregates.service.ts:38-114 | every answer, cached or computed, is prefix-consistent, and every query, failed or not, leaves the cache so |
| `Aggregates.MissOutcomeIsGood` | src/aggregates/aggregates.service.ts:58-111 | a miss that succeeds answers for the whole log, whichever of lookup cache, snapshot and full replay served it |
| `Aggregates.QueryOutcomeIsFresh` | src/aggregates/aggregates.service.ts:43-111 | while latest entries are fresh a latest answer covers the whole log, and the fills keep them fresh |
| `Aggregates.QueryFillsOnlyItsEntry` | src/aggregates/aggregates.service.ts:43-111 | a query fills no state entry but that of its own question, and that from the log of the moment |
| `Aggregates.AggregatesService.GetState` | src/aggregates/aggregates.service.ts:38-114 | answer, error and cache are those of the reference query; a cached answer is given whatever the project, otherwise it fails only with its own database error, in any of its four queries, or for a foreign aggregate; a lookup read before a later failure stays cached; every answer is prefix-consistent, and up to date while entries are fresh |
| `Aggregates.AggregatesService.GetSnapshotLookup` | src/aggregates/aggregates.service.ts:124-157 | returns the cached lookup or the nearest row and keeps only a row it read; the query for the row can fail only when it is made |
| `Aggregates.AggregatesService.FoldOnto` | src/aggregates/aggregates.service.ts:78-109 | for any order of the rule rows, the result is the base state folded with the replayed events under the current rules, labelled with the last event, else the base, else null |
| `Aggregates.AggregatesService.Reconstruct` | src/aggregates/aggregates.service.ts:58-113 | answer, error and cache of a miss are those of the reference query, for an error in any of its statements |
| `Aggregates.ReconstructionIsGood` | src/aggregates/aggregates.service.ts:58-111 | the reference reconstruction answers for the whole log whichever of lookup cache, snapshot and full replay serves it, and leaves the cache consistent |
| `Aggregates.ReconstructionKeepsFresh` | src/aggregates/aggregates.service.ts:111 | the fills of a query leave every latest entry the newest there is |
| `Aggregates.FreshQueryReplaysTheBacklog` | src/aggregates/aggregates.service.ts:66-76 | with fresh entries a latest miss replays exactly the events past the latest snapshot |
| `PointInTime.AnswerAsOfFoldsFirstN` | src/aggregates/aggregates.service.ts:58-111 | with its rules held, a query as of N that misses the state cache answers with the plain fold of exactly the first N events, or of all if there are fewer, labelled with how many those are, through whatever snapshot or cached lookup |
| `PointInTime.AnswerAsOfTenFoldsTen` | src/aggregates/aggregates.service.ts:58-111 | so as of "10" it folds ten events of ten or more and is labelled "10", and as of "0" it is empty and labelled null |
| `PointInTime.AskAsOfTen` | src/aggregates/aggregates.service.ts:38-114 | the same of the service method, whatever else the cache and the snapshot table hold |
| `Events.EventsService.Append` | src/events/events.service.ts:39-78 | stores one event with the next number under the one aggregate of its key, drops exactly the two latest entries, queues one job exactly when 20 or more events then lie past the latest snapshot and check and queue work, and keeps consistency, freshness and coverage |
| `Events.EventsService.StoreEvent` | src/events/events.service.ts:40-68 | the tables become those of the reference append |
| `Events.AppendedIsOneMore` | src/events/events.repository.ts:22-74 | the reference append adds one event with the requested content and the next number to the row that has the requested project, type and key, or to a new row exactly when none has all three; tables stay unique and gapless and no other log changes |
| `Events.AppendsShareAggregateIff` | database/migrations/V001__create_core_tables.sql:18-31 | two appends in a row go to one aggregate if and only if they agree on project, type and key; otherwise both rows stand side by side |
| `Events.EventsService.MaybeEnqueueSnapshot` | src/events/events.service.ts:88-107 | one job is queued exactly when 20 or more events lie past the latest snapshot and check and queue work; otherwise the queue is unchanged |
| `Events.EventsService.AppendAll` | src/events/events.service.ts:88-107 | from a snapshot at the last event on, the first 19 appends queue nothing, the 20th queues one job, and so does each further one until a snapshot is taken |
| `Snapshots.SnapshotsService.ShouldSnapshot` | src/snapshots/snapshots.service.ts:31-40 | a snapshot is due exactly when 20 or more events lie past the latest one |
| `Snapshots.SnapshotsService.CreateSnapshot` | src/snapshots/snapshots.service.ts:55-103 | result, table and cache are those of the reference createSnapshot, and everything derived stays good, and fresh if its delete is answered |
| `Snapshots.SnapshotOutcomeIsExact` | src/snapshots/snapshots.service.ts:55-103 | a row added is good, new, of this aggregate and past its latest; for the owner only its own database error makes the call fail; with fresh entries it otherwise ends with a snapshot at the last event, created only if missing |
| `Snapshots.StoreOutcomeIsExact` | src/snapshots/snapshots.service.ts:68-102 | for the owner, storing a state at position k adds a row exactly when the table does not reach k yet, and then k is the latest position |
| `Snapshots.SnapshotKeepsConsistent` | src/snapshots/snapshots.service.ts:55-103 | whatever a createSnapshot does leaves everything derived good, and fresh if its delete is answered |
| `Snapshots.SnapshotsService.StoreResult` | src/snapshots/snapshots.service.ts:68-102 | result, table and cache are those of the reference store, for a good state at any position |
| `Snapshots.SnapshotsService.InsertRow` | src/snapshots/snapshots.service.ts:74-102 | losing the unique constraint gives null, whoever owns the aggregate; otherwise a foreign aggregate fails; success adds the row and drops both latest entries |
| `Freshness.InvalidationRestoresFresh` | src/events/events.service.ts:70-73 | rows of one aggregate change and both its latest entries go: every latest entry is the newest again |
| `Freshness.StateFillKeepsFresh` | src/aggregates/aggregates.service.ts:111 | a state computed from the whole log may be kept without making any latest entry old |
| `Freshness.LatestLiesWithinLog` | src/snapshots/snapshots.repository.ts:21-26 | the latest snapshot lies within the log of its aggregate |
| `Freshness.AppendKeepsCovered` | src/events/events.service.ts:88-100 | after an append with its threshold check every due aggregate still has a job waiting |
| `Freshness.FinishedJobMayGo` | src/snapshots/snapshot-creation.processor.ts:20-32 | a job whose aggregate has no backlog left may leave the queue without uncovering another |
| `SnapshotWorkers.SnapshotWorker.Drain` | src/snapshots/snapshot-creation.processor.ts:20-32 | draining the queue ends with it empty and fewer than 20 events past the latest snapshot of every aggregate |
| `SnapshotWorkers.SnapshotWorker.ProcessNext` | src/snapshots/snapshot-creation.processor.ts:20-32 | the oldest job leaves, failed or not, and outcome, table and cache are those of its createSnapshot; while no job fails every due aggregate keeps a job |
| `SnapshotWorkers.SnapshotCreationProcessor.Process` | src/snapshots/snapshot-creation.processor.ts:20-32 | the error of a failed call, and only that, is passed on; table and rows are those of createSnapshot |
| `SnapshotWorkers.FinishedJobKeepsCovered` | src/snapshots/snapshot-creation.processor.ts:20-32 | a job that meets no database error succeeds and leaves its aggregate without a backlog, so it may leave the queue |
| `SnapshotWorkers.DrainedQueriesAreShort` | src/snapshots/snapshots.service.ts:31-40 | with no job waiting a latest miss replays at most 19 events, whichever Redis commands are answered |
| `ReplayJobs.ReplayJobProcessor.Process` | src/replay-jobs/replay-job.processor.ts:30-78 | an unknown job fails and changes nothing; else the job row, the table and the cache are those of the reference run: completed with its result, or failed with the error of its own statement cut to 255 characters and passed on; everything derived stays good, and fresh if deletes are answered; rows are added only for aggregates of the project of the job, and of its type if it names one |
| `ReplayJobs.ReplayJobProcessor.RunJob` | src/replay-jobs/replay-job.processor.ts:40-77 | the same from the running row on |
| `ReplayJobs.ReplayJobProcessor.ReplayAll` | src/replay-jobs/replay-job.processor.ts:47-61 | result, table and cache of the loop are those of createSnapshot for one aggregate of the scope after another, whichever fail |
| `ReplayJobs.ReplayJobProcessor.TakeAndTally` | src/replay-jobs/replay-job.processor.ts:48-60 | one aggregate: the outcome of its createSnapshot is entered in the result |
| `ReplayJobs.ReplayIsBalanced` | src/replay-jobs/replay-job.processor.ts:34-61 | the books of any replay balance: every aggregate of the scope is counted, every new row is counted and is for the scope, and the failures are, in scope order, exactly the calls that failed, each with its own database error |
| `ReplayJobs.ReplayTakesExactlyWhatIsDue` | src/replay-jobs/replay-job.processor.ts:47-61 | with fresh entries the rows added are, in scope order, exactly one at the last event of each aggregate that was not up to date and whose call did not fail; those that did not fail end up to date, and no aggregate outside the scope changes |
| `ReplayJobs.SettledReplayChangesNothing` | src/snapshots/snapshots.service.ts:55-72 | a replay of an up-to-date scope without database errors changes no row and reports its size, no row and no failure, whatever rules are in force |
| `ReplayJobs.ReplaySettled` | src/replay-jobs/replay-job.processor.ts:30-78 | the same for a job: it completes with that result and leaves the table as it was |
| `ReplayJobs.ReplayTwice` | src/replay-jobs/README.md:3 | idempotence: after a first job, any rules declared, and a second job over the same scope, the table is exactly what the first job left and the second reports nothing |
| `ReplayJobs.FaultlessReplaySettles` | src/replay-jobs/replay-job.processor.ts:40-61 | without database errors a replay reports no failure and leaves every aggregate in scope up to date |
| `ReplayJobs.ScopeIsExact` | src/replay-jobs/replay-jobs.repository.ts:46-51 | for a missing or empty type the scope is exactly the ids of the rows of the project, for any other type exactly those of its rows with that type, each once |
| `ReplayJobs.RuleChangeKeepsInvariants` | src/event-reducers/event-reducers.repository.ts:8-26 | declaring a rule invalidates nothing, and all derived data stays prefix-consistent and fresh |
| `Reducer.ReduceEvents` | src/aggregates/reduce-events.ts:25-41 | the loop computes the plain fold from the given start, unmapped events skipped |
| `Reducer.FoldResumes` | src/aggregates/reduce-events.ts:21-41 | a fold cut anywhere and resumed from the state at the cut gives the state of one pass |
| `SnapshotChains.ChainsAgreeWithOnePass` | src/aggregates/aggregates.service.ts:66-97 | through any increasing chain of cuts, each segment read by the half-open range query, the state is that of one pass from empty |
| `SnapshotChains.AppendIsLosslessAcrossSnapshots` | src/aggregates/reduce-events.ts:61-68 | through any chain of snapshots an append-only field holds exactly the payloads appended to it, in log order |
| `ReducerProperties.FieldDependsOnlyOnItsSlice` | src/aggregates/reduce-events.ts:43-73 | presence and value of a field after a log equal those after only the events that can write it, for every rule set and start |
| `ReducerProperties.EventIsLocal` | src/aggregates/reduce-events.ts:43-73 | what an event does to a field depends on that field alone, and an event that cannot write it leaves it alone |
| `ReducerProperties.AppendIsLossless` | src/aggregates/reduce-events.ts:61-68 | an append-only field is its starting list followed by exactly the appended payloads, in log order |
| `ReducerProperties.MergeKeepsLastValue` | src/aggregates/reduce-events.ts:54-59 | a merge-only field holds under each key the value of the last payload with that key, else the value it started with |
| `ReducerProperties.SetKeepsLastValue` | src/aggregates/reduce-events.ts:49-52 | a field only set rules write holds the value of the last payload that has it, else what it started with |
| `ReducerProperties.LastRuleApplies` | src/aggregates/reduce-events.ts:30-39 | of rules for one event type the last one listed applies, and an event type without a rule has none |
| `ReducerProperties.ApplyRuleCases` | src/aggregates/reduce-events.ts:43-73 | a rule, case by case: what counts as an object, as a list and as a field, and what becomes of the state in each case |
| `EventReducers.RowOrderIsIrrelevant` | src/aggregates/reduce-events.ts:30 | rows with distinct event types give the same rules in any order |
| `EventReducers.FindAllIsDistinct` | database/migrations/V004__create_event_reducers.sql:15-16 | under the unique constraint the rows of one aggregate type have distinct event types |
| `EventReducers.UpsertMeansReplace` | src/event-reducers/event-reducers.repository.ts:15-25 | after any history of valid upserts the stored rows fold every log as the last declaration per event type does, though an update without a field keeps the old one |
| `EventReducers.StoredRowIsLastDeclared` | src/event-reducers/event-reducers.repository.ts:15-25 | the stored row is the last declaration, up to the field of a set |
| `EventReducers.UpsertKeepsKeysUnique` | src/event-reducers/event-reducers.repository.ts:15-25 | an upsert never makes a second row for a key |
| `EventReducers.UpsertIsExact` | src/event-reducers/event-reducers.repository.ts:15-25 | on the columns: the row with the declared project, aggregate type and event type gets the declared operation, and the declared field if there is one; no other row changes; without such a row the declared one is added |
| `EventReducers.FindAllIsExact` | src/event-reducers/event-reducers.repository.ts:32-36 | exactly the rows of the project and aggregate type are found, each as often as it is stored |
| `DeclaredRules.ValidIff` | src/event-reducers/dto/create-event-reducer.dto.ts:10-48 | as far as operation and field go, a declaration is let through if and only if it says "set", or "merge" or "append" with a non-empty field |
| `DeclaredRules.TableIsAsDeclared` | src/aggregates/aggregates.service.ts:83-94 | after any history of valid upserts there is a rule for exactly the event types declared for the project and aggregate type, and it is the last declared: "set" stands for Set, "merge" for Merge and "append" for Append with the declared field |
| `DeclaredRules.DeclaredEffect` | src/aggregates/reduce-events.ts:43-73 | what one event does to any state, from the text declared last for its type: a set spreads an object payload over the state, a merge over the object at its field, an append puts the payload at the end of the list at its field, and an undeclared event does nothing |
| `DeclaredRules.DeclaredTextGivesField` | src/aggregates/reduce-events.ts:25-73 | from declared text to state: a field that only events declared "append" write is the list of exactly their payloads in log order; with "merge" it is an object holding under each key the last payload value for it; with "set" the value of the last payload that has it; a field nothing writes is absent |
| `RuleChanges.SnapshotsSurviveIff` | src/aggregates/reduce-events.ts:21-41 | between two rule tables, resuming under the second from states folded under the first agrees with a full replay under the second, for every log and position, if and only if the change has no effect on any event type |
| `RuleChanges.SnapshotsOnlySaveTimeIff` | src/snapshots/README.md:3 | for a history of valid declarations, in every reachable state through it every query that misses the state cache answers the same with and without snapshots, for all aggregates of a project and type, if and only if no declaration in it had an effect on that project and type |
| `RuleChanges.DeletingSnapshotsCanChangeAnswers` | src/snapshots/README.md:3 | for every history of valid declarations in which one has an effect on a project and type, a run through just that history reaches a state with empty caches in which deleting the only snapshot changes the answer |
| `CacheKeys.KeyRoundTrip` | src/cache/cache-keys.ts:1-25 | every key a validated request builds decodes to its layer, aggregate id and sequence number or latest, whatever characters the id holds |
| `CacheKeys.KeysAreInjective` | src/cache/cache-keys.ts:1-25 | two such keys are equal only if they stand for the same entry |
| `CacheKeys.UncheckedKeysCollide` | src/aggregates/aggregates.controller.ts:42 | without the digits-only check two different addresses share a key |
| `CacheKeys.KeyTexts` | src/cache/cache-keys.ts:1-25 | the exact text of all four kinds of key |
| `Numerals.DecimalIff` | src/aggregates/aggregates.controller.ts:42 | a request may ask for exactly the strings of one or more of the ten digits |
| `Numerals.NumeralsJoin` | src/aggregates/aggregates.service.ts:58-59 | reading is positional: digits to the left count ten times as much for each place to their right |
| `Numerals.DigitsAreTheirPlace` | src/aggregates/aggregates.service.ts:58-59 | a single digit is worth its place in 0123456789 |
| `Numerals.LengthIsMagnitude` | src/aggregates/aggregates.service.ts:100-102 | a number is written with at most d digits if and only if it is less than ten to the power d |
| `Numerals.NoLeadingZero` | src/aggregates/aggregates.service.ts:100-102 | no positive number is written with a leading zero, and 0 is "0" |
| `Numerals.NumeralsReadBack` | src/aggregates/aggregates.service.ts:58-102 | writing undoes reading for every numeral without a leading zero |
| `CacheKeys.ToString` | src/aggregates/aggregates.service.ts:100 | a number is written as digits that read back as that number |
| `Tables.RangeIsSlice` | src/aggregates/aggregates.repository.ts:14-29 | on a gapless log the range query returns the slice after the lower and up to the upper bound, in ascending order |
| `Tables.RangeQueryIsExact` | src/aggregates/aggregates.repository.ts:14-29 | on any table the range query returns, in ascending order, exactly the rows of the aggregate above the lower bound and up to the upper one, each as often as it is stored |
| `Tables.SelectIsSlice` | src/snapshots/snapshots.repository.ts:37-46 | the events a bound selects are a slice of the log, so counting them counts the slice |
| `Tables.LastSequenceIsLength` | src/events/events.repository.ts:47-58 | the highest number of a gapless log is its length |
| `Tables.FindLatestUpTo` | src/snapshots/snapshots.repository.ts:9-19 | the row found is eligible and no eligible row has a higher number; none is found only if none is eligible |
| `Tables.LatestUpToIsHighest` | src/snapshots/snapshots.repository.ts:9-19 | on the columns: a row of the aggregate at or before the bound, no such row having a higher number; none if and only if there is no such row |
| `Tables.FindForProject` | src/aggregates/aggregates.repository.ts:8-12 | the aggregate found has this id and project; none is found only if no row has both |
| `Databases.Database.CreateSnapshotRow` | src/snapshots/snapshots.repository.ts:28-35 | a row that is there already is refused by the unique constraint, else a foreign aggregate by the foreign key, and nothing changes; any other row is added |
| `Databases.Database.UpsertRule` | src/event-reducers/event-reducers.repository.ts:8-26 | the table becomes the upserted table and the version history grows by it |
| `Databases.Database.FindAllForAggregateType` | src/event-reducers/event-reducers.repository.ts:32-36 | returns the matching rows in some order |
| `RedisCaching.RedisCache.Get` | src/cache/redis-cache.service.ts:19-30 | an unanswered command is a miss |
| `RedisCaching.RedisCache.Set` | src/cache/redis-cache.service.ts:32-46 | an unanswered command does nothing |
| `RedisCaching.RedisCache.Del` | src/cache/redis-cache.service.ts:48-58 | deletes exactly the given keys, or nothing when unanswered |
| `ReplayJobs.ReplayJobsRepository.MarkRunning` | src/replay-jobs/replay-jobs.repository.ts:21-26 | an unknown job changes nothing, a known one is running |
| `ReplayJobs.ReplayJobsRepository.MarkCompleted` | src/replay-jobs/replay-jobs.repository.ts:28-33 | the job is completed with its result and no other job changes |
| `ReplayJobs.ReplayJobsRepository.MarkFailed` | src/replay-jobs/replay-jobs.repository.ts:35-44 | the job is failed with its error cut to 255 characters and no other job changes |

## Left out

- Nest modules, controllers, guards, DTO decorators and exception filters: wiring. Their input facts are kept: digits-only `asOfSequence`, object payloads, a field for merge and append.
- Organizations, projects, API keys and tokens: one-branch checks and library hashing. Only ownership of an aggregate by a project is modelled.
- Prisma, ioredis and BullMQ internals: tables, a map and a list of jobs with the constraints of the migrations.
- JSON text and JSONB: identity on abstract JSON values, numbers as reals.
- The 300-second TTL: expiry is a step that may drop any entries at any time.
- Redelivered and stalled jobs: the sequential worker runs each job once, and a job that fails leaves the queue; in the interleaved system a job may start any number of times.
- The snapshot queue in the interleaved system: a createSnapshot may start at any time there, which covers every schedule of the queue. The threshold check and the enqueueing are in the sequential engine.
- Statements that take effect and still report an error, such as a lost connection after an insert: a failing statement changes nothing.
- AppendProtocol.EveryAppendFinishes: assumes the database runs some statement that can run; which one, and how long it waits, is not modelled.
- Engines.Engine.Serve: once a declaration has changed the rules of an aggregate in effect, its answers are claimed to be folds under versions that never go back, not under one.
- ReplayJobs.ReplayJobProcessor.Process: an error thrown while marking the job failed is not modelled.
- ReplayJobs.ReplayTakesExactlyWhatIsDue: needs fresh latest entries and answered deletes; without them only the books balance.
- Timestamps, event versions, metadata, metrics, logs, traces and health checks: no behaviour modelled depends on them.
- The 64-bit width of sequence numbers: numbers are unbounded.
- Object prototypes: a state's fields are its own fields.
