/** The consumer of the snapshot-creation queue. */
module SnapshotWorkers {
  import opened Values
  import opened Consistency
  import opened Freshness
  import opened RedisCaching
  import opened Databases
  import opened Aggregates
  import opened Snapshots
  import opened Events

  /** The payoff of keeping up with the queue: with no job waiting, a latest query that misses
      the state cache replays at most 19 events, whichever of its Redis commands are answered. */
  lemma DrainedQueriesAreShort(v: View, rows: seq<Snapshot>, cache: map<string, CacheValue>, a: Aggregate,
                               answers: Answers)
    requires Consistent(v, rows, cache) && Fresh(v, rows, cache)
    requires Covered(v, rows, []) && a in v.aggregates
    ensures BaseGood(v, a.id, None, Nearest(rows, cache, a.id, None, answers))
    ensures |TailQuery(v.events, a.id, None, Nearest(rows, cache, a.id, None, answers))| <= 19
  {
    FreshQueryReplaysTheBacklog(v, rows, cache, a.id, answers);
    assert Job(a.projectId, a.id) !in [];
  }

  class SnapshotCreationProcessor {
    const snapshots: SnapshotsService

    constructor (snapshots: SnapshotsService)
      ensures this.snapshots == snapshots
    {
      this.snapshots := snapshots;
    }

    /** Take the snapshot a job asks for; the error of a failed call, and only that, is passed
        on to the queue. */
    method Process(job: Job, answers: Answers, fault: Fault) returns (thrown: Option<Error>)
      requires snapshots.Wired() && snapshots.aggregates.Inv()
      modifies snapshots.db`snapshots, snapshots.cache
      ensures var r := old(SnapshotOutcome(snapshots.db.Now(), snapshots.db.snapshots, snapshots.cache.entries,
                                           job.projectId, job.aggregateId, answers, fault));
              && thrown == (if r.Failure? then Some(r.error) else None)
              && snapshots.db.snapshots == RowsAfter(old(snapshots.db.snapshots), r)
              && snapshots.cache.entries ==
                 CacheAfter(old(QueryOutcome(snapshots.db.Now(), snapshots.db.snapshots, snapshots.cache.entries,
                                             job.projectId, job.aggregateId, None, answers, fault)).cache,
                            job.aggregateId, r, answers.del)
      ensures snapshots.aggregates.Inv()
      ensures old(snapshots.aggregates.IsFresh()) && answers.del ==> snapshots.aggregates.IsFresh()
    {
      var r := snapshots.CreateSnapshot(job.projectId, job.aggregateId, answers, fault);
      thrown := if r.Failure? then Some(r.error) else None;
    }
  }

  /** A job that meets no database error leaves its aggregate without a backlog, so its place in
      the queue covers nothing any more. */
  lemma FinishedJobKeepsCovered(v: View, rows: seq<Snapshot>, cache: map<string, CacheValue>, jobs: seq<Job>,
                                answers: Answers)
    requires Consistent(v, rows, cache) && Fresh(v, rows, cache)
    requires jobs != [] && Covered(v, rows, jobs)
    ensures var r := SnapshotOutcome(v, rows, cache, jobs[0].projectId, jobs[0].aggregateId, answers, NoFault);
            r.Success? && Covered(v, RowsAfter(rows, r), jobs[1..])
  {
    var job := jobs[0];
    assert job in jobs;
    var r := SnapshotOutcome(v, rows, cache, job.projectId, job.aggregateId, answers, NoFault);
    SnapshotOutcomeIsExact(v, rows, cache, job.projectId, job.aggregateId, answers, NoFault);
    InsertKeepsCovered(v, rows, RowsAfter(rows, r), jobs);
    FinishedJobMayGo(v, RowsAfter(rows, r), jobs);
  }

  class SnapshotWorker {
    const processor: SnapshotCreationProcessor
    const db: Database
    const cache: RedisCache
    const queue: SnapshotQueue

    constructor (processor: SnapshotCreationProcessor, queue: SnapshotQueue)
      ensures this.processor == processor && this.queue == queue
      ensures db == processor.snapshots.db && cache == processor.snapshots.cache
    {
      this.processor := processor;
      this.db := processor.snapshots.db;
      this.cache := processor.snapshots.cache;
      this.queue := queue;
    }

    ghost predicate Inv()
      reads db, cache
    {
      && processor.snapshots.Wired() && processor.snapshots.db == db && processor.snapshots.cache == cache
      && processor.snapshots.aggregates.Inv()
    }

    ghost predicate IsFresh()
      reads db, cache
    {
      Fresh(db.Now(), db.snapshots, cache.entries)
    }

    ghost predicate IsCovered()
      reads db, queue
    {
      Covered(db.Now(), db.snapshots, queue.jobs)
    }

    /** Run the oldest job. It leaves the queue whether it succeeds or fails; while no job fails
        no aggregate loses cover. */
    method ProcessNext(answers: Answers, fault: Fault) returns (thrown: Option<Error>)
      requires Inv() && queue.jobs != []
      modifies db`snapshots, cache, queue
      ensures Inv()
      ensures queue.jobs == old(queue.jobs)[1..]
      ensures var r := old(SnapshotOutcome(db.Now(), db.snapshots, cache.entries, queue.jobs[0].projectId,
                                           queue.jobs[0].aggregateId, answers, fault));
              && thrown == (if r.Failure? then Some(r.error) else None)
              && db.snapshots == RowsAfter(old(db.snapshots), r)
              && cache.entries ==
                 CacheAfter(old(QueryOutcome(db.Now(), db.snapshots, cache.entries, queue.jobs[0].projectId,
                                             queue.jobs[0].aggregateId, None, answers, fault)).cache,
                            old(queue.jobs)[0].aggregateId, r, answers.del)
      ensures FillsOnlyLatest(db.Now(), old(cache.entries), cache.entries)
      ensures old(IsFresh()) && answers.del ==> IsFresh()
      ensures old(IsFresh()) && old(IsCovered()) && fault.NoFault? ==> thrown.None? && IsCovered()
    {
      ghost var v, jobs := db.Now(), queue.jobs;
      if Fresh(v, db.snapshots, cache.entries) && Covered(v, db.snapshots, jobs) && fault.NoFault? {
        FinishedJobKeepsCovered(v, db.snapshots, cache.entries, jobs, answers);
      }
      SnapshotFillsOnlyLatest(v, db.snapshots, cache.entries, jobs[0].projectId, jobs[0].aggregateId, answers, fault);
      thrown := processor.Process(queue.jobs[0], answers, fault);
      queue.jobs := queue.jobs[1..];
      assert db.Now() == v;
    }

    /** Draining the queue leaves no aggregate with 20 or more events past its latest snapshot. */
    method Drain(answers: nat -> Answers)
      requires Inv() && IsFresh() && IsCovered()
      requires forall i :: answers(i).del
      modifies db`snapshots, cache, queue
      ensures Inv() && IsFresh() && queue.jobs == []
      ensures forall a :: a in db.aggregates ==> Backlog(db.Now(), db.snapshots, a.id) <= 19
      ensures old(db.snapshots) <= db.snapshots
    {
      var i: nat := 0;
      while queue.jobs != []
        invariant Inv() && IsFresh() && IsCovered()
        invariant old(db.snapshots) <= db.snapshots
        decreases |queue.jobs|
      {
        var _ := ProcessNext(answers(i), NoFault);
        i := i + 1;
      }
      forall a | a in db.aggregates ensures Backlog(db.Now(), db.snapshots, a.id) <= 19 {
        assert Job(a.projectId, a.id) !in queue.jobs;
      }
    }
  }
}
