/** Appending an event: store it, drop the latest entries, queue a snapshot when one is due. */
module Events {
  import opened Values
  import opened CacheKeys
  import opened Tables
  import opened Consistency
  import opened Freshness
  import opened RedisCaching
  import opened Databases
  import opened Snapshots

  /** The queue of snapshot-creation jobs. */
  class SnapshotQueue {
    var jobs: seq<Job>

    constructor ()
      ensures jobs == []
    {
      jobs := [];
    }

    method Add(job: Job)
      modifies this
      ensures jobs == old(jobs) + [job]
    {
      jobs := jobs + [job];
    }
  }

  datatype AppendInput = AppendInput(aggregateType: string, aggregateKey: string, eventType: string,
                                     payload: JsonObject)

  /** The aggregate an append is for: the row with its key, or a new one. */
  function AggregateFor(aggregates: seq<Aggregate>, projectId: string, input: AppendInput, newId: string): Aggregate {
    var found := FindByKey(aggregates, projectId, input.aggregateType, input.aggregateKey);
    if found.Some? then found.value else Aggregate(newId, projectId, input.aggregateType, input.aggregateKey)
  }

  /** A new row needs an id no row has. */
  predicate CanStore(aggregates: seq<Aggregate>, projectId: string, input: AppendInput, newId: string) {
    FindByKey(aggregates, projectId, input.aggregateType, input.aggregateKey).None? ==>
      forall i :: 0 <= i < |aggregates| ==> aggregates[i].id != newId
  }

  function EventFor(v: View, projectId: string, input: AppendInput, newId: string): Event {
    var id := AggregateFor(v.aggregates, projectId, input, newId).id;
    Event(id, NextSequenceNumber(v.events, id), input.eventType, Obj(input.payload))
  }

  /** The tables after an append. */
  function Appended(v: View, projectId: string, input: AppendInput, newId: string): View {
    var a := AggregateFor(v.aggregates, projectId, input, newId);
    View(if FindByKey(v.aggregates, projectId, input.aggregateType, input.aggregateKey).Some? then v.aggregates
         else v.aggregates + [a], v.events + [EventFor(v, projectId, input, newId)], v.versions)
  }

  /** One more event of `a`, whose row may be new, with the next number of its log. */
  predicate Appends(v: View, v': View, a: Aggregate, e: Event) {
    && v'.versions == v.versions
    && v'.events == v.events + [e] && e.aggregateId == a.id && e.sequenceNumber == |Log(v.events, a.id)| + 1
    && a in v'.aggregates
    && (v'.aggregates == v.aggregates || v'.aggregates == v.aggregates + [a])
  }

  /** An append adds one event, with the requested content and the next number, to the one
      aggregate with its project, type and key, a new one if no row has all three; no other log
      changes, and the tables stay unique and gapless. */
  lemma AppendedIsOneMore(v: View, projectId: string, input: AppendInput, newId: string)
    requires ViewInv(v) && CanStore(v.aggregates, projectId, input, newId)
    ensures var v', a, e := Appended(v, projectId, input, newId), AggregateFor(v.aggregates, projectId, input, newId),
                            EventFor(v, projectId, input, newId);
            && Appends(v, v', a, e)
            && a.projectId == projectId && a.aggregateType == input.aggregateType
            && a.aggregateKey == input.aggregateKey
            && (if exists b :: b in v.aggregates && b.projectId == projectId
                               && b.aggregateType == input.aggregateType && b.aggregateKey == input.aggregateKey
                then a in v.aggregates else a.id == newId && v'.aggregates == v.aggregates + [a])
            && e.eventType == input.eventType && e.payload == Obj(input.payload)
            && ViewInv(v') && Grows(v, v')
            && (forall b :: b in v'.aggregates ==> b in v.aggregates || b == a)
            && (forall i :: i != a.id ==> Log(v'.events, i) == Log(v.events, i))
  {
    var v', a := Appended(v, projectId, input, newId), AggregateFor(v.aggregates, projectId, input, newId);
    var e := EventFor(v, projectId, input, newId);
    LastSequenceIsLength(v.events, a.id);
    forall i ensures GaplessLog(Log(v'.events, i)) && (i != a.id ==> Log(v'.events, i) == Log(v.events, i)) {
      LogOfExtended(v.events, e, i);
      assert GaplessLog(Log(v.events, i));
    }
    AppendedKeepsKeysUnique(v, projectId, input, newId);
    if v'.aggregates != v.aggregates { assert v'.aggregates[|v.aggregates|] == a; }
  }

  lemma AppendedKeepsKeysUnique(v: View, projectId: string, input: AppendInput, newId: string)
    requires UniqueAggregates(v.aggregates) && CanStore(v.aggregates, projectId, input, newId)
    ensures UniqueAggregates(Appended(v, projectId, input, newId).aggregates)
  {
    if FindByKey(v.aggregates, projectId, input.aggregateType, input.aggregateKey).None? {
      forall i | 0 <= i < |v.aggregates|
        ensures v.aggregates[i].projectId != projectId || v.aggregates[i].aggregateType != input.aggregateType
                || v.aggregates[i].aggregateKey != input.aggregateKey
      {
        assert v.aggregates[i] in v.aggregates;
      }
    }
  }

  /** Two appends in a row go to one aggregate exactly when they agree on project, type and key:
      rows that differ in any one of the three stand side by side. */
  lemma AppendsShareAggregateIff(v: View, p: string, input: AppendInput, id: string, p': string, input': AppendInput,
                                 id': string)
    requires ViewInv(v) && CanStore(v.aggregates, p, input, id)
    requires CanStore(Appended(v, p, input, id).aggregates, p', input', id')
    ensures var v' := Appended(v, p, input, id);
            && (AggregateFor(v.aggregates, p, input, id).id == AggregateFor(v'.aggregates, p', input', id').id <==>
                p == p' && input.aggregateType == input'.aggregateType && input.aggregateKey == input'.aggregateKey)
            && AggregateFor(v.aggregates, p, input, id) in Appended(v', p', input', id').aggregates
            && AggregateFor(v'.aggregates, p', input', id') in Appended(v', p', input', id').aggregates
  {
    var v' := Appended(v, p, input, id);
    AppendedIsOneMore(v, p, input, id);
    AppendedIsOneMore(v', p', input', id');
    var v'' := Appended(v', p', input', id');
    var a, b := AggregateFor(v.aggregates, p, input, id), AggregateFor(v'.aggregates, p', input', id');
    var i :| 0 <= i < |v''.aggregates| && v''.aggregates[i] == a;
    var j :| 0 <= j < |v''.aggregates| && v''.aggregates[j] == b;
  }

  /** The cache after an append, whether or not its deletes were answered. */
  lemma AppendKeepsConsistent(v: View, v': View, rows: seq<Snapshot>, cache: map<string, CacheValue>, keys: set<string>)
    requires Consistent(v, rows, cache) && ViewInv(v') && Grows(v, v') && v'.versions == v.versions
    ensures Consistent(v', rows, cache) && Consistent(v', rows, cache - keys)
  {
    SnapshotsGrow(v, v', rows);
    CacheGrows(v, v', cache);
    CacheShrinks(v', cache, keys);
  }

  class EventsService {
    const db: Database
    const snapshots: SnapshotsService
    const cache: RedisCache
    const queue: SnapshotQueue

    constructor (db: Database, snapshots: SnapshotsService, cache: RedisCache, queue: SnapshotQueue)
      ensures this.db == db && this.snapshots == snapshots && this.cache == cache && this.queue == queue
    {
      this.db := db;
      this.snapshots := snapshots;
      this.cache := cache;
      this.queue := queue;
    }

    ghost predicate Wired() {
      snapshots.Wired() && snapshots.db == db && snapshots.cache == cache
    }

    ghost predicate Inv()
      reads db, cache
    {
      Wired() && snapshots.aggregates.Inv()
    }

    ghost predicate IsFresh()
      reads db, cache
    {
      Fresh(db.Now(), db.snapshots, cache.entries)
    }

    ghost predicate IsCovered()
      reads db, queue
    {
      Covered(db.Now(), db.snapshots, queue.jobs)
    }

    /** The transaction: find or create the aggregate, number the event, store it. `newId` is the
        id the database would give a new row. */
    method StoreEvent(projectId: string, input: AppendInput, newId: string) returns (aggregate: Aggregate, event: Event)
      requires db.Valid()
      modifies db`aggregates, db`events
      ensures db.Valid()
      ensures aggregate == AggregateFor(old(db.aggregates), projectId, input, newId)
      ensures event == old(EventFor(db.Now(), projectId, input, newId))
      ensures db.Now() == old(Appended(db.Now(), projectId, input, newId))
    {
      var found := FindByKey(db.aggregates, projectId, input.aggregateType, input.aggregateKey);
      if found.None? {
        aggregate := Aggregate(newId, projectId, input.aggregateType, input.aggregateKey);
        db.aggregates := db.aggregates + [aggregate];
      } else {
        aggregate := found.value;
      }
      var sequenceNumber := NextSequenceNumber(db.events, aggregate.id);
      event := Event(aggregate.id, sequenceNumber, input.eventType, Obj(input.payload));
      db.events := db.events + [event];
    }

    /** Append one event. A snapshot job is queued exactly when 20 or more events then lie past
        the latest snapshot; `queueUp` says whether the check and the queue work, and their failure is swallowed. */
    method Append(projectId: string, input: AppendInput, newId: string, del: bool, queueUp: bool)
      returns (aggregate: Aggregate, event: Event)
      requires Inv()
      requires CanStore(db.aggregates, projectId, input, newId)
      modifies db`aggregates, db`events, cache, queue
      ensures Inv()
      ensures aggregate == AggregateFor(old(db.aggregates), projectId, input, newId)
      ensures event == old(EventFor(db.Now(), projectId, input, newId))
      ensures db.Now() == old(Appended(db.Now(), projectId, input, newId))
      ensures cache.entries == if del then old(cache.entries) - {LatestStateKey(aggregate.id),
                                                                 LatestLookupKey(aggregate.id)}
                               else old(cache.entries)
      ensures queue.jobs == old(queue.jobs) +
                if queueUp && Backlog(db.Now(), db.snapshots, aggregate.id) >= 20
                then [Job(aggregate.projectId, aggregate.id)] else []
      ensures old(IsFresh()) && del ==> IsFresh()
      ensures old(IsCovered()) && queueUp ==> IsCovered()
    {
      ghost var v, rows, entries, jobs := db.Now(), db.snapshots, cache.entries, queue.jobs;
      AppendedIsOneMore(v, projectId, input, newId);
      aggregate, event := StoreEvent(projectId, input, newId);
      ghost var v' := db.Now();
      AppendKeepsConsistent(v, v', rows, entries, {LatestStateKey(aggregate.id), LatestLookupKey(aggregate.id)});
      cache.Del({LatestStateKey(aggregate.id), LatestLookupKey(aggregate.id)}, del);
      assert db.Now() == v';
      if Fresh(v, rows, entries) { InvalidationRestoresFresh(v, rows, entries, v', rows, aggregate.id); }
      MaybeEnqueueSnapshot(projectId, aggregate.id, queueUp);
      if Covered(v, rows, jobs) && queueUp { AppendKeepsCovered(v, rows, jobs, v', aggregate, queue.jobs); }
    }

    method MaybeEnqueueSnapshot(projectId: string, id: string, queueUp: bool)
      requires Inv()
      modifies queue
      ensures queue.jobs == old(queue.jobs) +
                if queueUp && Backlog(db.Now(), db.snapshots, id) >= 20
                  then [Job(projectId, id)] else []
    {
      var shouldSnapshot := snapshots.ShouldSnapshot(id);
      if queueUp && shouldSnapshot {
        queue.Add(Job(projectId, id));
      }
    }

    /** One more event under the key of `a`, with a check and a queue that work. */
    method AppendTo(a: Aggregate, input: AppendInput, newId: string, del: bool)
      requires Inv() && a in db.aggregates
      requires input.aggregateType == a.aggregateType && input.aggregateKey == a.aggregateKey
      modifies db`aggregates, db`events, cache, queue
      ensures Inv() && a in db.aggregates
      ensures Backlog(db.Now(), db.snapshots, a.id) == old(Backlog(db.Now(), db.snapshots, a.id)) + 1
      ensures queue.jobs == old(queue.jobs) +
                if Backlog(db.Now(), db.snapshots, a.id) >= 20 then [Job(a.projectId, a.id)] else []
    {
      ghost var v, rows := db.Now(), db.snapshots;
      KeyFinds(v.aggregates, a, newId, input);
      AppendedAddsToBacklog(v, rows, a, input, newId);
      var _, _ := Append(a.projectId, input, newId, del, true);
      assert db.Now() == Appended(v, a.projectId, input, newId);
    }

    /** From a snapshot at the last event on, the first 19 appends queue nothing, the 20th queues
        one job, and so does every further one. */
    method AppendAll(a: Aggregate, inputs: seq<AppendInput>, newId: string, del: nat -> bool)
      requires Inv() && a in db.aggregates && Backlog(db.Now(), db.snapshots, a.id) == 0
      requires forall i :: 0 <= i < |inputs| ==>
        inputs[i].aggregateType == a.aggregateType && inputs[i].aggregateKey == a.aggregateKey
      modifies db`aggregates, db`events, cache, queue
      ensures Inv() && Backlog(db.Now(), db.snapshots, a.id) == |inputs|
      ensures queue.jobs == old(queue.jobs) +
                seq(if |inputs| <= 19 then 0 else |inputs| - 19, _ => Job(a.projectId, a.id))
    {
      ghost var jobs, job := queue.jobs, Job(a.projectId, a.id);
      for i := 0 to |inputs|
        invariant Inv() && a in db.aggregates
        invariant Backlog(db.Now(), db.snapshots, a.id) == i
        invariant queue.jobs == jobs + Copies(job, if i <= 19 then 0 else i - 19)
      {
        AppendTo(a, inputs[i], newId, del(i));
      }
    }
  }

  function Copies(job: Job, count: nat): seq<Job> {
    seq(count, _ => job)
  }

  lemma AppendedAddsToBacklog(v: View, rows: seq<Snapshot>, a: Aggregate, input: AppendInput, newId: string)
    requires ViewInv(v) && CanStore(v.aggregates, a.projectId, input, newId)
    requires AggregateFor(v.aggregates, a.projectId, input, newId) == a
    requires a in v.aggregates
    ensures var v' := Appended(v, a.projectId, input, newId);
            a in v'.aggregates && Backlog(v', rows, a.id) == Backlog(v, rows, a.id) + 1
  {
    AppendedIsOneMore(v, a.projectId, input, newId);
    LogOfExtended(v.events, EventFor(v, a.projectId, input, newId), a.id);
  }

  lemma KeyFinds(aggregates: seq<Aggregate>, a: Aggregate, newId: string, input: AppendInput)
    requires UniqueAggregates(aggregates) && a in aggregates
    requires input.aggregateType == a.aggregateType && input.aggregateKey == a.aggregateKey
    ensures AggregateFor(aggregates, a.projectId, input, newId) == a
    ensures CanStore(aggregates, a.projectId, input, newId)
  {
    var found := FindByKey(aggregates, a.projectId, a.aggregateType, a.aggregateKey).value;
    var i :| 0 <= i < |aggregates| && aggregates[i] == a;
    var j :| 0 <= j < |aggregates| && aggregates[j] == found;
    assert i == j;
  }
}
