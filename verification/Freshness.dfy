/** Invariants of the engine when its calls do not overlap: what every cache entry is worth,
    and which aggregates have a snapshot job waiting. */
module Freshness {
  import opened Values
  import opened EventReducers
  import opened CacheKeys
  import opened Tables
  import opened Consistency

  const SNAPSHOT_EVENT_THRESHOLD: nat := 20

  /** A job of the snapshot-creation queue. */
  datatype Job = Job(projectId: string, aggregateId: string)

  /** Everything derived agrees with the log. */
  ghost predicate Consistent(v: View, rows: seq<Snapshot>, cache: map<string, CacheValue>) {
    && ViewInv(v)
    && UniqueKeys(v.versions[|v.versions| - 1])
    && SnapshotsGood(v, rows)
    && CacheGood(v, cache)
  }

  ghost predicate FreshEntries(v: View, rows: seq<Snapshot>, cache: map<string, CacheValue>, id: string) {
    && (LatestStateKey(id) in cache ==>
        cache[LatestStateKey(id)].StateValue? && cache[LatestStateKey(id)].seen == |Log(v.events, id)|)
    && (LatestLookupKey(id) in cache ==>
        && cache[LatestLookupKey(id)].LookupValue?
        && IsDecimal(cache[LatestLookupKey(id)].lookup.sequenceNumber)
        && ToNat(cache[LatestLookupKey(id)].lookup.sequenceNumber) == LatestSequence(rows, id))
  }

  /** Every latest entry is the newest there is: a cached state has seen the whole log, a cached
      lookup is the latest snapshot. */
  ghost predicate Fresh(v: View, rows: seq<Snapshot>, cache: map<string, CacheValue>) {
    forall id :: FreshEntries(v, rows, cache, id)
  }

  // ---- What a call does to the state entries ----

  predicate EntrySame(cache: map<string, CacheValue>, cache': map<string, CacheValue>, id: string,
                      asOf: Option<string>) {
    var key := StateKey(id, asOf);
    key in cache' ==> key in cache && cache'[key] == cache[key]
  }

  /** Gone, as it was, or filled from the log of the moment. */
  predicate EntryKept(v: View, cache: map<string, CacheValue>, cache': map<string, CacheValue>, id: string,
                      asOf: Option<string>) {
    var key := StateKey(id, asOf);
    || EntrySame(cache, cache', id, asOf)
    || (key in cache' && cache'[key].StateValue? && cache'[key].seen == |Log(v.events, id)|)
  }

  /** Only the entry of this question is filled. */
  ghost predicate FillsOnly(v: View, cache: map<string, CacheValue>, cache': map<string, CacheValue>, id: string,
                            asOf: Option<string>) {
    forall i, o | ValidAsOf(o) ::
      EntryKept(v, cache, cache', i, o) && (i != id || o != asOf ==> EntrySame(cache, cache', i, o))
  }

  /** Only latest entries are filled. */
  ghost predicate FillsOnlyLatest(v: View, cache: map<string, CacheValue>, cache': map<string, CacheValue>) {
    forall i, o | ValidAsOf(o) :: EntryKept(v, cache, cache', i, o) && (o.Some? ==> EntrySame(cache, cache', i, o))
  }

  lemma FillsChain(v: View, first: map<string, CacheValue>, second: map<string, CacheValue>,
                   third: map<string, CacheValue>)
    requires FillsOnlyLatest(v, first, second) && FillsOnlyLatest(v, second, third)
    ensures FillsOnlyLatest(v, first, third)
  {
    forall i, o | ValidAsOf(o)
      ensures EntryKept(v, first, third, i, o) && (o.Some? ==> EntrySame(first, third, i, o))
    {
      assert EntryKept(v, first, second, i, o) && EntryKept(v, second, third, i, o);
    }
  }

  // ---- Fills ----

  lemma StateFillKeepsFresh(v: View, rows: seq<Snapshot>, cache: map<string, CacheValue>, id: string,
                            asOf: Option<string>, r: StateResult)
    requires Fresh(v, rows, cache) && ValidAsOf(asOf)
    ensures Fresh(v, rows, cache[StateKey(id, asOf) := StateValue(r, |Log(v.events, id)|)])
  {
    var cache' := cache[StateKey(id, asOf) := StateValue(r, |Log(v.events, id)|)];
    forall i ensures FreshEntries(v, rows, cache', i) {
      assert FreshEntries(v, rows, cache, i);
      StateKeysDiffer(id, asOf, i, None);
    }
  }

  lemma LookupFillKeepsFresh(v: View, rows: seq<Snapshot>, cache: map<string, CacheValue>, id: string,
                             asOf: Option<string>, row: Snapshot)
    requires Fresh(v, rows, cache) && ValidAsOf(asOf)
    requires FindLatestUpTo(rows, id, Bound(asOf)) == Some(row)
    ensures Fresh(v, rows, cache[LookupKey(id, asOf) := LookupValue(Lookup(ToString(row.sequenceNumber), row.state))])
  {
    var cache' := cache[LookupKey(id, asOf) := LookupValue(Lookup(ToString(row.sequenceNumber), row.state))];
    forall i ensures FreshEntries(v, rows, cache', i) {
      assert FreshEntries(v, rows, cache, i);
      LookupKeysDiffer(id, asOf, i, None);
    }
  }

  lemma ExpiryKeepsFresh(v: View, rows: seq<Snapshot>, cache: map<string, CacheValue>, keys: set<string>)
    requires Fresh(v, rows, cache)
    ensures Fresh(v, rows, cache - keys)
  {
    forall id ensures FreshEntries(v, rows, cache - keys, id) {
      assert FreshEntries(v, rows, cache, id);
    }
  }

  // ---- Invalidation ----

  /** Rows of one aggregate change and both its latest entries go: everything is fresh again. */
  lemma InvalidationRestoresFresh(v: View, rows: seq<Snapshot>, cache: map<string, CacheValue>,
                                  v': View, rows': seq<Snapshot>, id: string)
    requires Fresh(v, rows, cache)
    requires forall i :: i != id ==> Log(v'.events, i) == Log(v.events, i)
    requires forall i :: i != id ==> LatestSequence(rows', i) == LatestSequence(rows, i)
    ensures Fresh(v', rows', cache - {LatestStateKey(id), LatestLookupKey(id)})
  {
    forall i ensures FreshEntries(v', rows', cache - {LatestStateKey(id), LatestLookupKey(id)}, i) {
      assert FreshEntries(v, rows, cache, i);
    }
  }

  lemma LatestAfterInsert(rows: seq<Snapshot>, row: Snapshot, id: string)
    ensures row.aggregateId != id ==> LatestSequence(rows + [row], id) == LatestSequence(rows, id)
    ensures row.aggregateId == id && row.sequenceNumber > LatestSequence(rows, id) ==>
              LatestSequence(rows + [row], id) == row.sequenceNumber
  {
    assert (rows + [row])[..|rows|] == rows;
  }

  lemma SnapshotAtReachesLatest(rows: seq<Snapshot>, id: string, k: nat)
    ensures HasSnapshotAt(rows, id, k) ==> LatestSequence(rows, id) >= k
  {
    if i :| 0 <= i < |rows| && rows[i].aggregateId == id && rows[i].sequenceNumber == k {
      assert rows[i] in rows && Eligible(rows[i], id, None);
    }
  }

  /** No snapshot lies beyond the log. */
  lemma LatestLiesWithinLog(v: View, rows: seq<Snapshot>, id: string)
    requires SnapshotsGood(v, rows)
    ensures LatestSequence(rows, id) <= |Log(v.events, id)|
    ensures FindLatest(rows, id).Some? ==> HasSnapshotAt(rows, id, LatestSequence(rows, id))
  {
    var latest := FindLatest(rows, id);
    if latest.Some? {
      var i :| 0 <= i < |rows| && rows[i] == latest.value;
      assert SnapshotGood(v, rows[i]);
    }
  }

  // ---- The snapshot backlog ----

  /** Events past the latest snapshot. */
  function Backlog(v: View, rows: seq<Snapshot>, id: string): int {
    |Log(v.events, id)| - LatestSequence(rows, id)
  }

  /** Every aggregate that is due for a snapshot has a job waiting, and every job names an
      aggregate of its project. */
  predicate Covered(v: View, rows: seq<Snapshot>, queue: seq<Job>) {
    && (forall a :: a in v.aggregates && Backlog(v, rows, a.id) >= SNAPSHOT_EVENT_THRESHOLD ==>
          Job(a.projectId, a.id) in queue)
    && (forall j :: j in queue ==> FindForProject(v.aggregates, j.aggregateId, j.projectId).Some?)
  }

  lemma {:induction false} FindForProjectGrows(aggregates: seq<Aggregate>, more: seq<Aggregate>, id: string,
                                               projectId: string)
    requires aggregates <= more && FindForProject(aggregates, id, projectId).Some?
    ensures FindForProject(more, id, projectId).Some?
  {
    var a := FindForProject(aggregates, id, projectId).value;
    assert a in more;
  }

  lemma AppendKeepsCovered(v: View, rows: seq<Snapshot>, queue: seq<Job>, v': View, a: Aggregate, queue': seq<Job>)
    requires Covered(v, rows, queue) && Grows(v, v') && UniqueAggregates(v'.aggregates)
    requires a in v'.aggregates && forall b :: b in v'.aggregates ==> b in v.aggregates || b == a
    requires forall i :: i != a.id ==> Log(v'.events, i) == Log(v.events, i)
    requires queue' == queue + (if Backlog(v', rows, a.id) >= SNAPSHOT_EVENT_THRESHOLD then [Job(a.projectId, a.id)]
                                else [])
    ensures Covered(v', rows, queue')
  {
    forall j | j in queue' ensures FindForProject(v'.aggregates, j.aggregateId, j.projectId).Some? {
      if j in queue { FindForProjectGrows(v.aggregates, v'.aggregates, j.aggregateId, j.projectId); }
    }
    forall b | b in v'.aggregates && Backlog(v', rows, b.id) >= SNAPSHOT_EVENT_THRESHOLD
      ensures Job(b.projectId, b.id) in queue'
    {
      if b.id != a.id {
        assert Backlog(v, rows, b.id) == Backlog(v', rows, b.id);
        assert Job(b.projectId, b.id) in queue;
      }
    }
  }

  /** More snapshots never uncover an aggregate. */
  lemma InsertKeepsCovered(v: View, rows: seq<Snapshot>, rows': seq<Snapshot>, queue: seq<Job>)
    requires Covered(v, rows, queue) && rows <= rows'
    ensures Covered(v, rows', queue)
  {
    forall a | a in v.aggregates && Backlog(v, rows', a.id) >= SNAPSHOT_EVENT_THRESHOLD
      ensures Job(a.projectId, a.id) in queue {
      LatestNeverDecreases(rows, rows', a.id);
    }
  }

  /** A finished job may leave the queue: its aggregate has no backlog any more. */
  lemma FinishedJobMayGo(v: View, rows: seq<Snapshot>, queue: seq<Job>)
    requires UniqueAggregates(v.aggregates)
    requires queue != [] && Covered(v, rows, queue)
    requires Backlog(v, rows, queue[0].aggregateId) <= 0
    ensures Covered(v, rows, queue[1..])
  {
    forall a | a in v.aggregates && Backlog(v, rows, a.id) >= SNAPSHOT_EVENT_THRESHOLD
      ensures Job(a.projectId, a.id) in queue[1..] {
      assert Job(a.projectId, a.id) in queue;
      assert queue == [queue[0]] + queue[1..];
    }
  }
}
