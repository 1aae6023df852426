/** Bulk replay: one job takes a snapshot of every aggregate in its scope and accounts for it. */
module ReplayJobs {
  import opened Values
  import opened EventReducers
  import opened Tables
  import opened Consistency
  import opened Freshness
  import opened RedisCaching
  import opened Databases
  import opened Aggregates
  import opened Snapshots

  datatype Status = Pending | Running | Completed | Failed

  datatype ItemFailure = ItemFailure(aggregateId: string, error: Error)

  datatype ReplayResult = ReplayResult(aggregatesProcessed: nat, snapshotsCreated: nat, failures: seq<ItemFailure>)

  datatype ReplayJob = ReplayJob(projectId: string, aggregateType: Option<string>, status: Status,
                                 result: Option<ReplayResult>, error: Option<string>)

  const MAX_ERROR_LENGTH: nat := 255

  // ---- Scope ----

  /** No aggregate type, or an empty one, means the whole project. */
  predicate InScope(a: Aggregate, projectId: string, aggregateType: Option<string>) {
    a.projectId == projectId && (aggregateType.None? || aggregateType.value == ""
                                 || a.aggregateType == aggregateType.value)
  }

  /** The aggregates of the scope, in table order; the query names none. */
  function Scope(aggregates: seq<Aggregate>, projectId: string, aggregateType: Option<string>): seq<string> {
    if aggregates == [] then []
    else
      var n := |aggregates| - 1;
      Scope(aggregates[..n], projectId, aggregateType) +
      (if InScope(aggregates[n], projectId, aggregateType) then [aggregates[n].id] else [])
  }

  predicate IsInScope(aggregates: seq<Aggregate>, id: string, projectId: string, aggregateType: Option<string>) {
    exists i :: 0 <= i < |aggregates| && aggregates[i].id == id && InScope(aggregates[i], projectId, aggregateType)
  }

  /** The scope of a job without an aggregate type, or with an empty one, is every aggregate of
      its project; of any other job those of its type only; each once. */
  lemma ScopeIsExact(aggregates: seq<Aggregate>, projectId: string, aggregateType: Option<string>)
    requires UniqueAggregates(aggregates)
    ensures var scope := Scope(aggregates, projectId, aggregateType);
            && (aggregateType == None || aggregateType == Some("") ==>
                forall id :: id in scope <==>
                  exists i :: 0 <= i < |aggregates| && aggregates[i].id == id && aggregates[i].projectId == projectId)
            && (aggregateType.Some? && aggregateType.value != "" ==>
                forall id :: id in scope <==>
                  exists i :: 0 <= i < |aggregates| && aggregates[i].id == id && aggregates[i].projectId == projectId
                              && aggregates[i].aggregateType == aggregateType.value)
            && (forall i, j :: 0 <= i < j < |scope| ==> scope[i] != scope[j])
  {
    ScopeIsInScope(aggregates, projectId, aggregateType);
    var scope := Scope(aggregates, projectId, aggregateType);
    forall id ensures id in scope <==> IsInScope(aggregates, id, projectId, aggregateType) {}
  }

  lemma {:induction false} ScopeIsInScope(aggregates: seq<Aggregate>, projectId: string, aggregateType: Option<string>)
    requires UniqueAggregates(aggregates)
    ensures var scope := Scope(aggregates, projectId, aggregateType);
            && (forall id :: id in scope <==> IsInScope(aggregates, id, projectId, aggregateType))
            && (forall i, j :: 0 <= i < j < |scope| ==> scope[i] != scope[j])
  {
    if aggregates != [] {
      var n := |aggregates| - 1;
      var rest, scope := aggregates[..n], Scope(aggregates, projectId, aggregateType);
      ScopeIsInScope(rest, projectId, aggregateType);
      forall id ensures id in scope <==> IsInScope(aggregates, id, projectId, aggregateType) {
        if IsInScope(rest, id, projectId, aggregateType) {
          var i :| 0 <= i < |rest| && rest[i].id == id && InScope(rest[i], projectId, aggregateType);
          assert aggregates[i] == rest[i];
        }
        if i :| 0 <= i < n && aggregates[i].id == id && InScope(aggregates[i], projectId, aggregateType) {
          assert rest[i] == aggregates[i];
        }
      }
      assert !IsInScope(rest, aggregates[n].id, projectId, aggregateType);
    }
  }

  lemma ScopedAggregatesAreFound(aggregates: seq<Aggregate>, projectId: string, aggregateType: Option<string>)
    requires UniqueAggregates(aggregates)
    ensures forall id :: id in Scope(aggregates, projectId, aggregateType) ==>
            FindForProject(aggregates, id, projectId).Some?
  {
    ScopeIsInScope(aggregates, projectId, aggregateType);
    forall id | id in Scope(aggregates, projectId, aggregateType)
      ensures FindForProject(aggregates, id, projectId).Some? {
      assert IsInScope(aggregates, id, projectId, aggregateType);
      var i :| 0 <= i < |aggregates| && aggregates[i].id == id && InScope(aggregates[i], projectId, aggregateType);
      assert aggregates[i] in aggregates;
    }
  }

  // ---- The replay as a whole ----

  /** The database errors a replay job meets: per aggregate, and in its own statements. */
  datatype ReplayFaults = ReplayFaults(items: map<string, Fault>, scopeQuery: Option<string>,
                                       markCompleted: Option<string>)
  {
    function Of(id: string): Fault {
      if id in items then items[id] else NoFault
    }

    /** The error of the job's own statements, if any. */
    function Thrown(): Option<Error> {
      if scopeQuery.Some? then Some(DatabaseError(scopeQuery.value))
      else if markCompleted.Some? then Some(DatabaseError(markCompleted.value))
      else None
    }
  }

  const NO_FAULTS := ReplayFaults(map[], None, None)

  /** The result once one outcome is entered. */
  function Tally(result: ReplayResult, id: string, r: Result<Option<Snapshot>, Error>): ReplayResult {
    ReplayResult(result.aggregatesProcessed + 1,
                 result.snapshotsCreated + (if r.Success? && r.value.Some? then 1 else 0),
                 if r.Failure? then result.failures + [ItemFailure(id, r.error)] else result.failures)
  }

  /** What a replay leaves: the snapshot rows, the cache, its result, and which calls failed. */
  datatype Replay = Replay(rows: seq<Snapshot>, cache: map<string, CacheValue>, result: ReplayResult, failed: seq<bool>)

  /** createSnapshot for one aggregate after another. */
  ghost function ReplayOf(v: View, rows: seq<Snapshot>, cache: map<string, CacheValue>, projectId: string,
                          scope: seq<string>, answers: string -> Answers, faults: ReplayFaults): (p: Replay)
    requires Consistent(v, rows, cache)
    ensures Consistent(v, p.rows, p.cache)
  {
    if scope == [] then Replay(rows, cache, ReplayResult(0, 0, []), [])
    else
      var n := |scope| - 1;
      NextItem(v, ReplayOf(v, rows, cache, projectId, scope[..n], answers, faults), projectId, scope[n],
               answers(scope[n]), faults.Of(scope[n]))
  }

  ghost function NextItem(v: View, p: Replay, projectId: string, id: string, answers: Answers,
                          fault: Fault): (next: Replay)
    requires Consistent(v, p.rows, p.cache)
    ensures Consistent(v, next.rows, next.cache)
  {
    SnapshotKeepsConsistent(v, p.rows, p.cache, projectId, id, answers, fault);
    var r := SnapshotOutcome(v, p.rows, p.cache, projectId, id, answers, fault);
    var looked := QueryOutcome(v, p.rows, p.cache, projectId, id, None, answers, fault).cache;
    Replay(RowsAfter(p.rows, r), CacheAfter(looked, id, r, answers.del), Tally(p.result, id, r),
           p.failed + [r.Failure?])
  }

  /** A run of a job: a failing scope query leaves everything alone, otherwise the whole scope
      of the job is replayed. */
  ghost function RunOf(v: View, rows: seq<Snapshot>, cache: map<string, CacheValue>, job: ReplayJob,
                       answers: string -> Answers, faults: ReplayFaults): (p: Replay)
    requires Consistent(v, rows, cache)
    ensures Consistent(v, p.rows, p.cache)
  {
    if faults.scopeQuery.Some? then Replay(rows, cache, ReplayResult(0, 0, []), [])
    else ReplayOf(v, rows, cache, job.projectId, Scope(v.aggregates, job.projectId, job.aggregateType), answers, faults)
  }

  // ---- Accounting ----

  predicate Distinct(ids: seq<string>) {
    forall i, j :: 0 <= i < j < |ids| ==> ids[i] != ids[j]
  }

  ghost predicate AllOwned(v: View, projectId: string, ids: seq<string>) {
    forall id :: id in ids ==> FindForProject(v.aggregates, id, projectId).Some?
  }

  ghost predicate AllDelete(answers: string -> Answers) {
    forall id :: answers(id).del
  }

  /** The failures of the marked calls, each with the error of its own call. */
  function FailuresOf(scope: seq<string>, failed: seq<bool>, faults: ReplayFaults): seq<ItemFailure>
    requires |failed| == |scope|
    requires forall i :: 0 <= i < |scope| && failed[i] ==> !faults.Of(scope[i]).NoFault?
  {
    if scope == [] then []
    else
      var n := |scope| - 1;
      FailuresOf(scope[..n], failed[..n], faults) +
      (if failed[n] then [ItemFailure(scope[n], DatabaseError(faults.Of(scope[n]).message))] else [])
  }

  /** The books: every aggregate of the scope is counted, every new row is counted and is for an
      aggregate of the scope, and the failures are, in scope order, exactly the calls that
      failed, each because of its own database error. */
  ghost predicate Balanced(rows: seq<Snapshot>, scope: seq<string>, faults: ReplayFaults, p: Replay) {
    && p.result.aggregatesProcessed == |scope| == |p.failed|
    && rows <= p.rows
    && p.result.snapshotsCreated == |p.rows| - |rows|
    && (forall i :: |rows| <= i < |p.rows| ==> p.rows[i].aggregateId in scope)
    && (forall i :: 0 <= i < |scope| && p.failed[i] ==> !faults.Of(scope[i]).NoFault?)
    && p.result.failures == FailuresOf(scope, p.failed, faults)
  }

  lemma NextItemKeepsFailures(scope: seq<string>, failed: seq<bool>, id: string, now: bool, faults: ReplayFaults)
    requires |failed| == |scope|
    requires forall i :: 0 <= i < |scope| && failed[i] ==> !faults.Of(scope[i]).NoFault?
    requires now ==> !faults.Of(id).NoFault?
    ensures FailuresOf(scope + [id], failed + [now], faults) ==
            FailuresOf(scope, failed, faults) + (if now then [ItemFailure(id, DatabaseError(faults.Of(id).message))]
                                                 else [])
  {
    assert (scope + [id])[..|scope|] == scope && (failed + [now])[..|scope|] == failed;
  }

  lemma NextItemKeepsBalance(v: View, rows: seq<Snapshot>, projectId: string, scope: seq<string>, id: string,
                             answers: Answers, faults: ReplayFaults, p: Replay)
    requires Consistent(v, p.rows, p.cache) && Balanced(rows, scope, faults, p)
    requires FindForProject(v.aggregates, id, projectId).Some?
    ensures Balanced(rows, scope + [id], faults, NextItem(v, p, projectId, id, answers, faults.Of(id)))
  {
    SnapshotOutcomeIsExact(v, p.rows, p.cache, projectId, id, answers, faults.Of(id));
    var next := NextItem(v, p, projectId, id, answers, faults.Of(id));
    NextItemKeepsFailures(scope, p.failed, id, next.failed[|scope|], faults);
    forall i | |rows| <= i < |next.rows| ensures next.rows[i].aggregateId in scope + [id] {
      if i < |p.rows| { assert p.rows[i].aggregateId in scope; }
    }
  }

  lemma {:induction false} ReplayIsBalanced(v: View, rows: seq<Snapshot>, cache: map<string, CacheValue>,
                                            projectId: string,
                                            scope: seq<string>, answers: string -> Answers, faults: ReplayFaults)
    requires Consistent(v, rows, cache) && AllOwned(v, projectId, scope)
    ensures Balanced(rows, scope, faults, ReplayOf(v, rows, cache, projectId, scope, answers, faults))
  {
    if scope != [] {
      var n := |scope| - 1;
      assert scope == scope[..n] + [scope[n]];
      ReplayIsBalanced(v, rows, cache, projectId, scope[..n], answers, faults);
      NextItemKeepsBalance(v, rows, projectId, scope[..n], scope[n], answers(scope[n]), faults,
                           ReplayOf(v, rows, cache, projectId, scope[..n], answers, faults));
    }
  }

  // ---- Which aggregates get a row ----

  /** The aggregate has a snapshot at its last event, or no events. */
  predicate UpToDate(v: View, rows: seq<Snapshot>, id: string) {
    LatestSequence(rows, id) == |Log(v.events, id)|
  }

  /** A snapshot row, but for its state. */
  datatype Slot = Slot(aggregateId: string, projectId: string, sequenceNumber: nat)

  function Slots(rows: seq<Snapshot>): seq<Slot> {
    if rows == [] then []
    else
      var row := rows[|rows| - 1];
      Slots(rows[..|rows| - 1]) + [Slot(row.aggregateId, row.projectId, row.sequenceNumber)]
  }

  /** One row at its last event for every aggregate of the scope that was not up to date and
      whose call did not fail, in scope order. */
  function Due(v: View, rows: seq<Snapshot>, projectId: string, scope: seq<string>, failed: seq<bool>): seq<Slot>
    requires |failed| == |scope|
  {
    if scope == [] then []
    else
      var n := |scope| - 1;
      Due(v, rows, projectId, scope[..n], failed[..n]) +
      (if failed[n] || UpToDate(v, rows, scope[n]) then [] else [Slot(scope[n], projectId, |Log(v.events, scope[n])|)])
  }

  /** Exactly the rows that were due have been added, and whatever did not fail is up to date. */
  ghost predicate TookWhatWasDue(v: View, rows: seq<Snapshot>, projectId: string, scope: seq<string>, p: Replay) {
    && rows <= p.rows && |p.failed| == |scope|
    && Slots(p.rows[|rows|..]) == Due(v, rows, projectId, scope, p.failed)
    && (forall i :: 0 <= i < |scope| && !p.failed[i] ==> UpToDate(v, p.rows, scope[i]))
    && (forall id :: id !in scope ==> LatestSequence(p.rows, id) == LatestSequence(rows, id))
  }

  lemma SlotsGrow(rows: seq<Snapshot>, more: seq<Snapshot>, row: Snapshot)
    requires rows <= more
    ensures Slots((more + [row])[|rows|..]) ==
            Slots(more[|rows|..]) + [Slot(row.aggregateId, row.projectId, row.sequenceNumber)]
  {
    assert (more + [row])[|rows|..] == more[|rows|..] + [row];
    assert (more[|rows|..] + [row])[..|more| - |rows|] == more[|rows|..];
  }

  lemma DueGrows(v: View, rows: seq<Snapshot>, projectId: string, scope: seq<string>, failed: seq<bool>, id: string,
                 now: bool)
    requires |failed| == |scope|
    ensures Due(v, rows, projectId, scope + [id], failed + [now]) ==
            Due(v, rows, projectId, scope, failed) +
            (if now || UpToDate(v, rows, id) then [] else [Slot(id, projectId, |Log(v.events, id)|)])
  {
    assert (scope + [id])[..|scope|] == scope && (failed + [now])[..|scope|] == failed;
  }

  lemma NextItemTakesWhatIsDue(v: View, rows: seq<Snapshot>, projectId: string, scope: seq<string>, id: string,
                               answers: Answers, fault: Fault, p: Replay)
    requires Consistent(v, p.rows, p.cache) && Fresh(v, p.rows, p.cache) && answers.del
    requires TookWhatWasDue(v, rows, projectId, scope, p)
    requires id !in scope && FindForProject(v.aggregates, id, projectId).Some?
    ensures var next := NextItem(v, p, projectId, id, answers, fault);
            Fresh(v, next.rows, next.cache) && TookWhatWasDue(v, rows, projectId, scope + [id], next)
  {
    SnapshotOutcomeIsExact(v, p.rows, p.cache, projectId, id, answers, fault);
    SnapshotKeepsConsistent(v, p.rows, p.cache, projectId, id, answers, fault);
    var next := NextItem(v, p, projectId, id, answers, fault);
    DueGrows(v, rows, projectId, scope, p.failed, id, next.failed[|scope|]);
    if next.rows != p.rows {
      var row := next.rows[|p.rows|];
      assert next.rows == p.rows + [row];
      SlotsGrow(rows, p.rows, row);
      forall i | i != id ensures LatestSequence(next.rows, i) == LatestSequence(p.rows, i) {
        LatestAfterInsert(p.rows, row, i);
      }
    }
    forall i | 0 <= i < |scope| && !p.failed[i] ensures UpToDate(v, next.rows, scope[i]) {
      assert UpToDate(v, p.rows, scope[i]);
    }
  }

  /** A replay adds a row for an aggregate exactly when its call does not fail and the aggregate
      was not up to date; the row is at its last event; and nothing else is added. */
  lemma {:induction false} ReplayTakesExactlyWhatIsDue(v: View, rows: seq<Snapshot>, cache: map<string, CacheValue>,
                                                       projectId: string, scope: seq<string>,
                                                       answers: string -> Answers, faults: ReplayFaults)
    requires Consistent(v, rows, cache) && Fresh(v, rows, cache) && AllDelete(answers)
    requires AllOwned(v, projectId, scope) && Distinct(scope)
    ensures var p := ReplayOf(v, rows, cache, projectId, scope, answers, faults);
            Fresh(v, p.rows, p.cache) && TookWhatWasDue(v, rows, projectId, scope, p)
  {
    if scope == [] {
      assert rows[|rows|..] == [];
    } else {
      var n := |scope| - 1;
      assert scope == scope[..n] + [scope[n]];
      ReplayTakesExactlyWhatIsDue(v, rows, cache, projectId, scope[..n], answers, faults);
      NextItemTakesWhatIsDue(v, rows, projectId, scope[..n], scope[n], answers(scope[n]), faults.Of(scope[n]),
                             ReplayOf(v, rows, cache, projectId, scope[..n], answers, faults));
    }
  }

  lemma {:induction false} ReplayKeepsFresh(v: View, rows: seq<Snapshot>, cache: map<string, CacheValue>,
                                            projectId: string,
                                            scope: seq<string>, answers: string -> Answers, faults: ReplayFaults)
    requires Consistent(v, rows, cache) && Fresh(v, rows, cache) && AllDelete(answers)
    ensures var p := ReplayOf(v, rows, cache, projectId, scope, answers, faults);
            rows <= p.rows && Fresh(v, p.rows, p.cache)
  {
    if scope != [] {
      var n := |scope| - 1;
      ReplayKeepsFresh(v, rows, cache, projectId, scope[..n], answers, faults);
      var p := ReplayOf(v, rows, cache, projectId, scope[..n], answers, faults);
      SnapshotKeepsConsistent(v, p.rows, p.cache, projectId, scope[n], answers(scope[n]), faults.Of(scope[n]));
    }
  }

  lemma {:induction false} ReplayFillsOnlyLatest(v: View, rows: seq<Snapshot>, cache: map<string, CacheValue>,
                                                 projectId: string, scope: seq<string>,
                                                 answers: string -> Answers, faults: ReplayFaults)
    requires Consistent(v, rows, cache)
    ensures FillsOnlyLatest(v, cache, ReplayOf(v, rows, cache, projectId, scope, answers, faults).cache)
  {
    if scope != [] {
      var n := |scope| - 1;
      ReplayFillsOnlyLatest(v, rows, cache, projectId, scope[..n], answers, faults);
      var p := ReplayOf(v, rows, cache, projectId, scope[..n], answers, faults);
      SnapshotFillsOnlyLatest(v, p.rows, p.cache, projectId, scope[n], answers(scope[n]), faults.Of(scope[n]));
      FillsChain(v, cache, p.cache, ReplayOf(v, rows, cache, projectId, scope, answers, faults).cache);
    }
  }

  lemma {:induction false} ReplayOnlyAddsRows(v: View, rows: seq<Snapshot>, cache: map<string, CacheValue>,
                                              projectId: string,
                                              scope: seq<string>, answers: string -> Answers, faults: ReplayFaults)
    requires Consistent(v, rows, cache)
    ensures rows <= ReplayOf(v, rows, cache, projectId, scope, answers, faults).rows
  {
    if scope != [] { ReplayOnlyAddsRows(v, rows, cache, projectId, scope[..|scope| - 1], answers, faults); }
  }

  // ---- Idempotence ----

  /** Every aggregate of the scope is up to date. */
  predicate Settled(v: View, rows: seq<Snapshot>, scope: seq<string>) {
    forall id :: id in scope ==> UpToDate(v, rows, id)
  }

  lemma {:induction false} NothingFailed(scope: seq<string>, failed: seq<bool>, faults: ReplayFaults)
    requires |failed| == |scope| && forall i :: 0 <= i < |scope| ==> !failed[i]
    ensures FailuresOf(scope, failed, faults) == []
  {
    if scope != [] { NothingFailed(scope[..|scope| - 1], failed[..|scope| - 1], faults); }
  }

  lemma {:induction false} NothingIsDue(v: View, rows: seq<Snapshot>, projectId: string, scope: seq<string>,
                                        failed: seq<bool>)
    requires |failed| == |scope| && Settled(v, rows, scope)
    ensures Due(v, rows, projectId, scope, failed) == []
  {
    if scope != [] {
      assert scope == scope[..|scope| - 1] + [scope[|scope| - 1]];
      NothingIsDue(v, rows, projectId, scope[..|scope| - 1], failed[..|scope| - 1]);
    }
  }

  /** With no database error a replay reports no failure and leaves its scope settled. */
  lemma FaultlessReplaySettles(v: View, rows: seq<Snapshot>, cache: map<string, CacheValue>, projectId: string,
                               scope: seq<string>, answers: string -> Answers)
    requires Consistent(v, rows, cache) && Fresh(v, rows, cache) && AllDelete(answers)
    requires AllOwned(v, projectId, scope) && Distinct(scope)
    ensures var p := ReplayOf(v, rows, cache, projectId, scope, answers, NO_FAULTS);
            Settled(v, p.rows, scope) && p.result.failures == [] && Fresh(v, p.rows, p.cache)
  {
    var p := ReplayOf(v, rows, cache, projectId, scope, answers, NO_FAULTS);
    ReplayIsBalanced(v, rows, cache, projectId, scope, answers, NO_FAULTS);
    ReplayTakesExactlyWhatIsDue(v, rows, cache, projectId, scope, answers, NO_FAULTS);
    NothingFailed(scope, p.failed, NO_FAULTS);
    forall id | id in scope ensures UpToDate(v, p.rows, id) {
      var i :| 0 <= i < |scope| && scope[i] == id;
      assert !p.failed[i];
    }
  }

  /** A replay of a settled scope that meets no database error changes no row and reports
      nothing but its size, whatever rules are in force. */
  lemma SettledReplayChangesNothing(v: View, rows: seq<Snapshot>, cache: map<string, CacheValue>, projectId: string,
                                    scope: seq<string>, answers: string -> Answers)
    requires Consistent(v, rows, cache) && Fresh(v, rows, cache) && AllDelete(answers)
    requires AllOwned(v, projectId, scope) && Distinct(scope)
    requires Settled(v, rows, scope)
    ensures var p := ReplayOf(v, rows, cache, projectId, scope, answers, NO_FAULTS);
            p.rows == rows && p.result == ReplayResult(|scope|, 0, [])
  {
    var p := ReplayOf(v, rows, cache, projectId, scope, answers, NO_FAULTS);
    FaultlessReplaySettles(v, rows, cache, projectId, scope, answers);
    ReplayIsBalanced(v, rows, cache, projectId, scope, answers, NO_FAULTS);
    ReplayTakesExactlyWhatIsDue(v, rows, cache, projectId, scope, answers, NO_FAULTS);
    NothingIsDue(v, rows, projectId, scope, p.failed);
    assert p.rows[|rows|..] == [];
  }

  lemma ScopeIsReplayable(v: View, projectId: string, aggregateType: Option<string>)
    requires UniqueAggregates(v.aggregates)
    ensures AllOwned(v, projectId, Scope(v.aggregates, projectId, aggregateType))
    ensures Distinct(Scope(v.aggregates, projectId, aggregateType))
  {
    ScopedAggregatesAreFound(v.aggregates, projectId, aggregateType);
    ScopeIsExact(v.aggregates, projectId, aggregateType);
  }

  /** A job row once the job is over. */
  function Finished(job: ReplayJob, faults: ReplayFaults, result: ReplayResult): ReplayJob {
    match faults.Thrown()
    case Some(DatabaseError(message)) => job.(status := Failed, error := Some(Truncated(message)))
    case _ => job.(status := Completed, result := Some(result))
  }

  lemma NextPrefix(scope: seq<string>, i: nat)
    requires i < |scope|
    ensures scope[..i + 1] == scope[..i] + [scope[i]]
  {}

  class ReplayJobsRepository {
    var jobs: map<string, ReplayJob>

    constructor ()
      ensures jobs == map[]
    {
      jobs := map[];
    }

    method Create(jobId: string, projectId: string, aggregateType: Option<string>)
      requires jobId !in jobs
      modifies this
      ensures jobs == old(jobs)[jobId := ReplayJob(projectId, aggregateType, Pending, None, None)]
    {
      jobs := jobs[jobId := ReplayJob(projectId, aggregateType, Pending, None, None)];
    }

    method MarkRunning(jobId: string) returns (job: Option<ReplayJob>)
      modifies this
      ensures if jobId in old(jobs) then
                job == Some(old(jobs)[jobId].(status := Running)) && jobs == old(jobs)[jobId := job.value]
              else job == None && jobs == old(jobs)
    {
      if jobId !in jobs {
        return None;
      }
      job := Some(jobs[jobId].(status := Running));
      jobs := jobs[jobId := job.value];
    }

    method MarkCompleted(jobId: string, result: ReplayResult)
      requires jobId in jobs
      modifies this
      ensures jobs == old(jobs)[jobId := old(jobs)[jobId].(status := Completed, result := Some(result))]
    {
      jobs := jobs[jobId := jobs[jobId].(status := Completed, result := Some(result))];
    }

    method MarkFailed(jobId: string, error: string)
      requires jobId in jobs
      modifies this
      ensures jobs == old(jobs)[jobId := old(jobs)[jobId].(
                status := Failed, error := Some(if |error| <= 255 then error else error[..255]))]
    {
      jobs := jobs[jobId := jobs[jobId].(status := Failed, error := Some(Truncated(error)))];
    }
  }

  /** error.slice(0, 255) */
  function Truncated(error: string): (cut: string)
    ensures cut <= error && |cut| == (if |error| <= 255 then |error| else 255)
  {
    if |error| <= MAX_ERROR_LENGTH then error else error[..MAX_ERROR_LENGTH]
  }

  class ReplayJobProcessor {
    const repository: ReplayJobsRepository
    const snapshots: SnapshotsService
    const db: Database
    const cache: RedisCache

    constructor (repository: ReplayJobsRepository, snapshots: SnapshotsService)
      ensures this.repository == repository && this.snapshots == snapshots
      ensures db == snapshots.db && cache == snapshots.cache
    {
      this.repository := repository;
      this.snapshots := snapshots;
      this.db := snapshots.db;
      this.cache := snapshots.cache;
    }

    ghost predicate Inv()
      reads db, cache
    {
      && snapshots.Wired() && snapshots.db == db && snapshots.cache == cache
      && snapshots.aggregates.Inv()
    }

    ghost predicate IsFresh()
      reads db, cache
    {
      Fresh(db.Now(), db.snapshots, cache.entries)
    }

    /** Run a replay job. An unknown job fails and changes nothing. Otherwise the error of the
        job's own statements, if any, is recorded and passed on, and the scope is replayed
        unless the query for it failed. */
    method Process(jobId: string, answers: string -> Answers, faults: ReplayFaults) returns (thrown: Option<Error>)
      requires Inv()
      modifies repository, db`snapshots, cache
      ensures Inv()
      ensures jobId !in old(repository.jobs) ==>
        && thrown == Some(NotFound) && repository.jobs == old(repository.jobs)
        && db.snapshots == old(db.snapshots) && cache.entries == old(cache.entries)
      ensures jobId in old(repository.jobs) ==>
        var job, p := old(repository.jobs)[jobId],
                      old(RunOf(db.Now(), db.snapshots, cache.entries, repository.jobs[jobId], answers, faults));
        && thrown == faults.Thrown()
        && repository.jobs == old(repository.jobs)[jobId := Finished(job, faults, p.result)]
        && db.snapshots == p.rows && cache.entries == p.cache
      ensures jobId in old(repository.jobs) ==>
                RowsAreFor(db.aggregates, db.snapshots, |old(db.snapshots)|, old(repository.jobs)[jobId])
      ensures old(IsFresh()) && AllDelete(answers) ==> IsFresh()
    {
      ghost var v, rows, entries, jobs := db.Now(), db.snapshots, cache.entries, repository.jobs;
      var replayJob := repository.MarkRunning(jobId);
      if replayJob.None? {
        thrown := Some(NotFound);
      } else {
        RunKeepsFresh(v, rows, entries, jobs[jobId], answers, faults);
        RunAddsRowsFor(v, rows, entries, jobs[jobId], answers, faults);
        thrown := RunJob(jobId, answers, faults);
        assert repository.jobs[jobId] == Finished(jobs[jobId], faults,
                                                  RunOf(v, rows, entries, jobs[jobId], answers, faults).result);
      }
      assert db.Now() == v;
    }

    /** The part of the job whose errors mark it failed. */
    method RunJob(jobId: string, answers: string -> Answers, faults: ReplayFaults) returns (thrown: Option<Error>)
      requires Inv() && jobId in repository.jobs
      modifies repository, db`snapshots, cache
      ensures Inv()
      ensures var job, p := old(repository.jobs)[jobId],
                            old(RunOf(db.Now(), db.snapshots, cache.entries, repository.jobs[jobId], answers, faults));
              && thrown == faults.Thrown()
              && repository.jobs == old(repository.jobs)[jobId := Finished(job, faults, p.result)]
              && db.snapshots == p.rows && cache.entries == p.cache
    {
      if faults.scopeQuery.Some? {
        repository.MarkFailed(jobId, faults.scopeQuery.value);
        return Some(DatabaseError(faults.scopeQuery.value));
      }
      var replayJob := repository.jobs[jobId];
      var scope := Scope(db.aggregates, replayJob.projectId, replayJob.aggregateType);
      var result := ReplayAll(replayJob.projectId, scope, answers, faults);
      if faults.markCompleted.Some? {
        repository.MarkFailed(jobId, faults.markCompleted.value);
        return Some(DatabaseError(faults.markCompleted.value));
      }
      repository.MarkCompleted(jobId, result);
      return None;
    }

    /** The loop over the scope: a failing aggregate is recorded and the next one tried. */
    method ReplayAll(projectId: string, scope: seq<string>, answers: string -> Answers, faults: ReplayFaults)
      returns (result: ReplayResult)
      requires Inv()
      modifies db`snapshots, cache
      ensures Inv()
      ensures var p := old(ReplayOf(db.Now(), db.snapshots, cache.entries, projectId, scope, answers, faults));
              result == p.result && db.snapshots == p.rows && cache.entries == p.cache
    {
      result := ReplayResult(0, 0, []);
      ghost var v, rows, entries := db.Now(), db.snapshots, cache.entries;
      for i := 0 to |scope|
        invariant Inv() && db.Now() == v
        invariant var p := ReplayOf(v, rows, entries, projectId, scope[..i], answers, faults);
                  result == p.result && db.snapshots == p.rows && cache.entries == p.cache
      {
        NextPrefix(scope, i);
        ghost var p := ReplayOf(v, rows, entries, projectId, scope[..i], answers, faults);
        assert ReplayOf(v, rows, entries, projectId, scope[..i + 1], answers, faults)
            == NextItem(v, p, projectId, scope[i], answers(scope[i]), faults.Of(scope[i]));
        result := TakeAndTally(projectId, scope[i], answers(scope[i]), faults.Of(scope[i]), result, p);
      }
      assert scope[..|scope|] == scope;
    }

    /** One item of the job: try the snapshot, enter the outcome. */
    method TakeAndTally(projectId: string, id: string, answers: Answers, fault: Fault, tally: ReplayResult,
                        ghost p: Replay)
      returns (result: ReplayResult)
      requires Inv() && tally == p.result && db.snapshots == p.rows && cache.entries == p.cache
      modifies db`snapshots, cache
      ensures Inv() && db.Now() == old(db.Now())
      ensures var next := NextItem(old(db.Now()), p, projectId, id, answers, fault);
              result == next.result && db.snapshots == next.rows && cache.entries == next.cache
    {
      var snapshot := snapshots.CreateSnapshot(projectId, id, answers, fault);
      result := Enter(tally, id, snapshot);
    }

    /** Enter one outcome in the result. */
    method Enter(tally: ReplayResult, id: string, snapshot: Result<Option<Snapshot>, Error>)
        returns (result: ReplayResult)
      ensures result == Tally(tally, id, snapshot)
    {
      result := tally.(aggregatesProcessed := tally.aggregatesProcessed + 1);
      if snapshot.Failure? {
        result := result.(failures := result.failures + [ItemFailure(id, snapshot.error)]);
      } else if snapshot.value.Some? {
        result := result.(snapshotsCreated := result.snapshotsCreated + 1);
      }
    }
  }

  lemma RunKeepsFresh(v: View, rows: seq<Snapshot>, cache: map<string, CacheValue>, job: ReplayJob,
                      answers: string -> Answers, faults: ReplayFaults)
    requires Consistent(v, rows, cache)
    ensures var p := RunOf(v, rows, cache, job, answers, faults);
            && rows <= p.rows && FillsOnlyLatest(v, cache, p.cache)
            && (Fresh(v, rows, cache) && AllDelete(answers) ==> Fresh(v, p.rows, p.cache))
  {
    var scope := Scope(v.aggregates, job.projectId, job.aggregateType);
    ReplayFillsOnlyLatest(v, rows, cache, job.projectId, scope, answers, faults);
    ReplayOnlyAddsRows(v, rows, cache, job.projectId, scope, answers, faults);
    if Fresh(v, rows, cache) && AllDelete(answers) {
      ReplayKeepsFresh(v, rows, cache, job.projectId, scope, answers, faults);
    }
  }

  lemma ScopedIdHasRow(aggregates: seq<Aggregate>, projectId: string, aggregateType: Option<string>, id: string)
    requires UniqueAggregates(aggregates) && id in Scope(aggregates, projectId, aggregateType)
    ensures exists a :: a in aggregates && a.id == id && a.projectId == projectId
                        && (aggregateType.Some? && aggregateType.value != "" ==> a.aggregateType == aggregateType.value)
  {
    ScopeIsExact(aggregates, projectId, aggregateType);
    if aggregateType.Some? && aggregateType.value != "" {
      var i :| 0 <= i < |aggregates| && aggregates[i].id == id && aggregates[i].projectId == projectId
               && aggregates[i].aggregateType == aggregateType.value;
      assert aggregates[i] in aggregates;
    } else {
      var i :| 0 <= i < |aggregates| && aggregates[i].id == id && aggregates[i].projectId == projectId;
      assert aggregates[i] in aggregates;
    }
  }

  lemma RunRowIsScoped(v: View, rows: seq<Snapshot>, cache: map<string, CacheValue>, job: ReplayJob,
                       answers: string -> Answers, faults: ReplayFaults, i: nat)
    requires Consistent(v, rows, cache)
    requires |rows| <= i < |RunOf(v, rows, cache, job, answers, faults).rows|
    ensures RunOf(v, rows, cache, job, answers, faults).rows[i].aggregateId in
            Scope(v.aggregates, job.projectId, job.aggregateType)
  {
    ScopeIsReplayable(v, job.projectId, job.aggregateType);
    ReplayIsBalanced(v, rows, cache, job.projectId, Scope(v.aggregates, job.projectId, job.aggregateType), answers,
                     faults);
  }

  /** From `start` on every row is for an aggregate of the job's project, and of the job's
      aggregate type if it names one. */
  ghost predicate RowsAreFor(aggregates: seq<Aggregate>, rows: seq<Snapshot>, start: nat, job: ReplayJob) {
    forall i :: start <= i < |rows| ==>
      exists a :: a in aggregates && a.id == rows[i].aggregateId && a.projectId == job.projectId
                  && (job.aggregateType.Some? && job.aggregateType.value != "" ==>
                      a.aggregateType == job.aggregateType.value)
  }

  lemma RunAddsRowsFor(v: View, rows: seq<Snapshot>, cache: map<string, CacheValue>, job: ReplayJob,
                       answers: string -> Answers, faults: ReplayFaults)
    requires Consistent(v, rows, cache)
    ensures RowsAreFor(v.aggregates, RunOf(v, rows, cache, job, answers, faults).rows, |rows|, job)
  {
    var left := RunOf(v, rows, cache, job, answers, faults).rows;
    forall i | |rows| <= i < |left|
      ensures exists a :: a in v.aggregates && a.id == left[i].aggregateId && a.projectId == job.projectId
                          && (job.aggregateType.Some? && job.aggregateType.value != "" ==>
                              a.aggregateType == job.aggregateType.value)
    {
      RunRowIsScoped(v, rows, cache, job, answers, faults, i);
      ScopedIdHasRow(v.aggregates, job.projectId, job.aggregateType, left[i].aggregateId);
    }
  }

  // ---- A second job ----

  /** Declaring a rule invalidates nothing, and nothing derived has to be: it stays good and fresh. */
  lemma RuleChangeKeepsInvariants(v: View, rows: seq<Snapshot>, cache: map<string, CacheValue>, declared: RuleRow)
    requires Consistent(v, rows, cache)
    ensures var v' := Declared(v, declared);
            Consistent(v', rows, cache) && (Fresh(v, rows, cache) ==> Fresh(v', rows, cache))
  {
    var v' := Declared(v, declared);
    UpsertKeepsKeysUnique(v.versions[|v.versions| - 1], declared);
    SnapshotsGrow(v, v', rows);
    CacheGrows(v, v', cache);
    if Fresh(v, rows, cache) {
      forall id ensures FreshEntries(v', rows, cache, id) { assert FreshEntries(v, rows, cache, id); }
    }
  }

  /** The tables after a rule was declared. */
  function Declared(v: View, declared: RuleRow): View
    requires v.versions != []
  {
    v.(versions := v.versions + [Upsert(v.versions[|v.versions| - 1], declared)])
  }

  function UpsertAll(rows: seq<RuleRow>, declared: seq<RuleRow>): seq<RuleRow> {
    if declared == [] then rows
    else Upsert(UpsertAll(rows, declared[..|declared| - 1]), declared[|declared| - 1])
  }

  method DeclareRules(processor: ReplayJobProcessor, declared: seq<RuleRow>)
    requires processor.Inv() && forall i :: 0 <= i < |declared| ==> IsValid(declared[i])
    modifies processor.db`rules, processor.db`versions
    ensures processor.Inv() && (old(processor.IsFresh()) ==> processor.IsFresh())
    ensures processor.db.rules == UpsertAll(old(processor.db.rules), declared)
  {
    var db := processor.db;
    for i := 0 to |declared|
      invariant processor.Inv() && (old(processor.IsFresh()) ==> processor.IsFresh())
      invariant db.rules == UpsertAll(old(db.rules), declared[..i])
    {
      assert declared[..i + 1][..i] == declared[..i];
      RuleChangeKeepsInvariants(db.Now(), db.snapshots, processor.cache.entries, declared[i]);
      ghost var v := db.Now();
      db.UpsertRule(declared[i]);
      assert db.Now() == Declared(v, declared[i]);
    }
    assert declared[..|declared|] == declared;
  }

  /** A job over a settled scope that meets no database error completes, reports the size of
      the scope, no row and no failure, and leaves the table as it was. */
  method ReplaySettled(processor: ReplayJobProcessor, jobId: string, answers: string -> Answers)
    requires processor.Inv() && processor.IsFresh() && AllDelete(answers)
    requires jobId in processor.repository.jobs
    requires var job := processor.repository.jobs[jobId];
             Settled(processor.db.Now(), processor.db.snapshots,
                     Scope(processor.db.aggregates, job.projectId, job.aggregateType))
    modifies processor.repository, processor.db`snapshots, processor.cache
    ensures processor.Inv() && processor.IsFresh()
    ensures processor.db.snapshots == old(processor.db.snapshots)
    ensures var job := old(processor.repository.jobs)[jobId];
            processor.repository.jobs == old(processor.repository.jobs)[jobId :=
              job.(status := Completed,
                   result := Some(ReplayResult(|Scope(processor.db.aggregates, job.projectId, job.aggregateType)|, 0,
                                               [])))]
  {
    ghost var v, job := processor.db.Now(), processor.repository.jobs[jobId];
    ScopeIsReplayable(v, job.projectId, job.aggregateType);
    SettledReplayChangesNothing(v, processor.db.snapshots, processor.cache.entries, job.projectId,
                                Scope(v.aggregates, job.projectId, job.aggregateType), answers);
    var _ := processor.Process(jobId, answers, NO_FAULTS);
    assert processor.db.Now() == v;
  }

  /** Idempotence: after a job without database errors, any rules declared, and a second job over
      the same scope, the table is what the first job left, and the second job reports nothing. */
  method ReplayTwice(processor: ReplayJobProcessor, first: string, second: string, declared: seq<RuleRow>,
                     answers: string -> Answers)
    requires processor.Inv() && processor.IsFresh() && AllDelete(answers)
    requires forall i :: 0 <= i < |declared| ==> IsValid(declared[i])
    requires first in processor.repository.jobs && second in processor.repository.jobs && first != second
    requires processor.repository.jobs[first].projectId == processor.repository.jobs[second].projectId
    requires processor.repository.jobs[first].aggregateType == processor.repository.jobs[second].aggregateType
    modifies processor.repository, processor.db, processor.cache
    ensures processor.db.snapshots ==
            old(RunOf(processor.db.Now(), processor.db.snapshots, processor.cache.entries,
                      processor.repository.jobs[first], answers, NO_FAULTS)).rows
    ensures second in processor.repository.jobs
    ensures var job := processor.repository.jobs[second];
            && job.status == Completed
            && job.result == Some(ReplayResult(|Scope(processor.db.aggregates, job.projectId, job.aggregateType)|, 0,
                                               []))
  {
    var db := processor.db;
    ghost var v, job := db.Now(), processor.repository.jobs[first];
    ghost var scope := Scope(v.aggregates, job.projectId, job.aggregateType);
    ScopeIsReplayable(v, job.projectId, job.aggregateType);
    FaultlessReplaySettles(v, db.snapshots, processor.cache.entries, job.projectId, scope, answers);
    var _ := processor.Process(first, answers, NO_FAULTS);
    assert db.Now() == v;
    DeclareRules(processor, declared);
    SettledIgnoresRules(v, db.Now(), db.snapshots, scope);
    ReplaySettled(processor, second, answers);
  }

  lemma SettledIgnoresRules(v: View, v': View, rows: seq<Snapshot>, scope: seq<string>)
    requires Settled(v, rows, scope) && v'.events == v.events
    ensures Settled(v', rows, scope)
  {
    forall id | id in scope ensures UpToDate(v', rows, id) { assert UpToDate(v, rows, id); }
  }
}
