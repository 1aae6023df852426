/** Deciding when a snapshot is due, and taking it. */
module Snapshots {
  import opened Values
  import opened CacheKeys
  import opened Tables
  import opened Consistency
  import opened Freshness
  import opened RedisCaching
  import opened Databases
  import opened Aggregates

  lemma CountIsBacklog(v: View, rows: seq<Snapshot>, id: string)
    requires ViewInv(v) && SnapshotsGood(v, rows)
    ensures var latest := FindLatest(rows, id);
            CountEventsSince(v.events, id, if latest.Some? then Some(latest.value.sequenceNumber) else None)
            == Backlog(v, rows, id)
  {
    var latest := FindLatest(rows, id);
    SelectIsSlice(v.events, id, if latest.Some? then Some(latest.value.sequenceNumber) else None, None);
    LatestLiesWithinLog(v, rows, id);
  }

  // ---- createSnapshot as a whole ----

  /** The rows and the cache left after a row was tried, from those before. */
  function RowsAfter(rows: seq<Snapshot>, r: Result<Option<Snapshot>, Error>): seq<Snapshot> {
    if r.Success? && r.value.Some? then rows + [r.value.value] else rows
  }

  function CacheAfter(cache: map<string, CacheValue>, id: string, r: Result<Option<Snapshot>, Error>,
                      del: bool): map<string, CacheValue> {
    if r.Success? && r.value.Some? && del then cache - {LatestStateKey(id), LatestLookupKey(id)} else cache
  }

  /** Inserting a row under both constraints; a row that is there already is not a failure. */
  function InsertOutcome(aggregates: seq<Aggregate>, rows: seq<Snapshot>,
                         row: Snapshot): Result<Option<Snapshot>, Error> {
    if HasSnapshotAt(rows, row.aggregateId, row.sequenceNumber) then Success(None)
    else if FindForProject(aggregates, row.aggregateId, row.projectId).None? then Failure(DatabaseError("foreign key"))
    else Success(Some(row))
  }

  /** A good row leaves everything derived good, whether or not the delete is answered. */
  lemma InsertKeepsConsistent(v: View, rows: seq<Snapshot>, cache: map<string, CacheValue>, row: Snapshot, del: bool)
    requires Consistent(v, rows, cache)
    requires row.sequenceNumber >= 1 && Good(v, row.aggregateId, row.sequenceNumber, row.state)
    ensures var r := InsertOutcome(v.aggregates, rows, row);
            Consistent(v, RowsAfter(rows, r), CacheAfter(cache, row.aggregateId, r, del))
  {
    var r := InsertOutcome(v.aggregates, rows, row);
    if r == Success(Some(row)) {
      ForeignKeyHolds(v, row.aggregateId, row.projectId);
      InsertedIsGood(v, rows, row);
      CacheShrinks(v, cache, {LatestStateKey(row.aggregateId), LatestLookupKey(row.aggregateId)});
    }
  }

  /** With the delete answered the latest entries stay fresh. */
  lemma InsertKeepsFresh(v: View, rows: seq<Snapshot>, cache: map<string, CacheValue>, row: Snapshot)
    requires Fresh(v, rows, cache)
    ensures var r := InsertOutcome(v.aggregates, rows, row);
            Fresh(v, RowsAfter(rows, r), CacheAfter(cache, row.aggregateId, r, true))
  {
    forall i | i != row.aggregateId ensures LatestSequence(rows + [row], i) == LatestSequence(rows, i) {
      LatestAfterInsert(rows, row, i);
    }
    InvalidationRestoresFresh(v, rows, cache, v, rows + [row], row.aggregateId);
  }

  /** Storing a latest state at position k, as one step. */
  function StoreOutcome(aggregates: seq<Aggregate>, rows: seq<Snapshot>, projectId: string, id: string, k: nat,
                        state: JsonObject, fault: Fault): Result<Option<Snapshot>, Error>
  {
    if fault.CompareFails? then Failure(DatabaseError(fault.message))
    else if FindLatest(rows, id).Some? && FindLatest(rows, id).value.sequenceNumber >= k then Success(None)
    else if fault.InsertFails? then Failure(DatabaseError(fault.message))
    else InsertOutcome(aggregates, rows, Snapshot(id, projectId, k, state))
  }

  /** What a createSnapshot returns, from what its query returned. */
  ghost function OutcomeOfQuery(v: View, rows: seq<Snapshot>, projectId: string, id: string,
                                q: Result<StateResult, Error>, fault: Fault): Result<Option<Snapshot>, Error>
    requires q.Success? ==> exists seen :: ResultGood(v, id, None, q.value, seen)
  {
    if q.Failure? then Failure(q.error)
    else
      LatestLabelIsDecimal(v, id, q.value);
      if q.value.asOfSequence.None? then Success(None)
      else StoreOutcome(v.aggregates, rows, projectId, id, ToNat(q.value.asOfSequence.value), q.value.state, fault)
  }

  /** A createSnapshot as one step. */
  ghost function SnapshotOutcome(v: View, rows: seq<Snapshot>, cache: map<string, CacheValue>, projectId: string,
                                 id: string, answers: Answers, fault: Fault): Result<Option<Snapshot>, Error>
    requires Consistent(v, rows, cache)
  {
    QueryOutcomeIsGood(v, rows, cache, projectId, id, None, answers, fault);
    OutcomeOfQuery(v, rows, projectId, id, QueryOutcome(v, rows, cache, projectId, id, None, answers, fault).r, fault)
  }

  /** The position a latest result is labelled with. */
  lemma LatestPosition(v: View, id: string, r: StateResult) returns (k: nat)
    requires exists seen :: ResultGood(v, id, None, r, seen)
    ensures k <= |Log(v.events, id)| && Good(v, id, k, r.state)
    ensures if k == 0 then r.asOfSequence == None
            else r.asOfSequence.Some? && IsDecimal(r.asOfSequence.value) && ToNat(r.asOfSequence.value) == k
    ensures ResultGood(v, id, None, r, |Log(v.events, id)|) ==> k == |Log(v.events, id)|
  {
    var seen :| ResultGood(v, id, None, r, seen);
    k := seen;
    LabelReadsBack(k);
    LabelReadsBack(|Log(v.events, id)|);
  }

  lemma LatestLabelIsDecimal(v: View, id: string, r: StateResult)
    requires exists seen :: ResultGood(v, id, None, r, seen)
    ensures r.asOfSequence.Some? ==> IsDecimal(r.asOfSequence.value) && ToNat(r.asOfSequence.value) >= 1
  {
    var _ := LatestPosition(v, id, r);
  }

  /** A row that is stored lies past the latest one and becomes the latest. With the aggregate
      the project's own, storing fails only for a database error, and otherwise adds a row
      exactly when the table does not reach position k yet. */
  lemma StoreOutcomeIsExact(v: View, rows: seq<Snapshot>, projectId: string, id: string, k: nat, state: JsonObject,
                            fault: Fault)
    requires k >= 1
    ensures var r := StoreOutcome(v.aggregates, rows, projectId, id, k, state, fault);
            && (r.Success? && r.value.Some? ==>
                && r.value.value == Snapshot(id, projectId, k, state)
                && LatestSequence(rows, id) < k == LatestSequence(RowsAfter(rows, r), id)
                && !HasSnapshotAt(rows, id, k) && FindForProject(v.aggregates, id, projectId).Some?)
            && (FindForProject(v.aggregates, id, projectId).Some? ==>
                && (r.Failure? ==> !fault.NoFault? && r.error == DatabaseError(fault.message))
                && (r.Success? ==> (r.value.None? <==> LatestSequence(rows, id) >= k)))
  {
    SnapshotAtReachesLatest(rows, id, k);
    LatestAfterInsert(rows, Snapshot(id, projectId, k, state), id);
  }

  lemma OutcomeOfQueryIsExact(v: View, rows: seq<Snapshot>, projectId: string, id: string,
                              q: Result<StateResult, Error>, fault: Fault)
    requires SnapshotsGood(v, rows)
    requires q.Success? ==> exists seen :: ResultGood(v, id, None, q.value, seen)
    requires q.Failure? ==> RightError(v.aggregates, projectId, id, fault, q.error)
    ensures var r := OutcomeOfQuery(v, rows, projectId, id, q, fault);
            && (r.Success? && r.value.Some? ==>
                && r == InsertOutcome(v.aggregates, rows, r.value.value)
                && r.value.value.aggregateId == id && r.value.value.projectId == projectId
                && LatestSequence(rows, id) < r.value.value.sequenceNumber <= |Log(v.events, id)|
                && Good(v, id, r.value.value.sequenceNumber, r.value.value.state))
            && (FindForProject(v.aggregates, id, projectId).Some? ==>
                && (r.Failure? ==> !fault.NoFault? && r.error == DatabaseError(fault.message))
                && (r.Success? && q.Success? && ResultGood(v, id, None, q.value, |Log(v.events, id)|) ==>
                    && LatestSequence(RowsAfter(rows, r), id) == |Log(v.events, id)|
                    && (r.value.None? <==> LatestSequence(rows, id) == |Log(v.events, id)|)
                    && (r.value.Some? ==> r.value.value.sequenceNumber == |Log(v.events, id)|)))
  {
    LatestLiesWithinLog(v, rows, id);
    if q.Success? {
      var k := LatestPosition(v, id, q.value);
      if k > 0 { StoreOutcomeIsExact(v, rows, projectId, id, k, q.value.state, fault); }
    }
  }

  lemma QueryErrorIsRight(v: View, rows: seq<Snapshot>, cache: map<string, CacheValue>, projectId: string, id: string,
                          answers: Answers, fault: Fault)
    requires Consistent(v, rows, cache)
    ensures var q := QueryOutcome(v, rows, cache, projectId, id, None, answers, fault).r;
            q.Failure? ==> RightError(v.aggregates, projectId, id, fault, q.error)
  {
    assert StateEntryGood(v, cache, id, None);
  }

  /** A row createSnapshot adds is good, new, of this aggregate and past its latest; with fresh
      entries and the aggregate the project's own, only a database error makes it fail, and
      otherwise the aggregate ends with a snapshot at its last event, created only if missing. */
  lemma SnapshotOutcomeIsExact(v: View, rows: seq<Snapshot>, cache: map<string, CacheValue>, projectId: string,
                               id: string, answers: Answers, fault: Fault)
    requires Consistent(v, rows, cache)
    ensures var r := SnapshotOutcome(v, rows, cache, projectId, id, answers, fault);
            && (r.Success? && r.value.Some? ==>
                && r == InsertOutcome(v.aggregates, rows, r.value.value)
                && r.value.value.aggregateId == id && r.value.value.projectId == projectId
                && LatestSequence(rows, id) < r.value.value.sequenceNumber <= |Log(v.events, id)|
                && Good(v, id, r.value.value.sequenceNumber, r.value.value.state))
            && (FindForProject(v.aggregates, id, projectId).Some? ==>
                && (r.Failure? ==> !fault.NoFault? && r.error == DatabaseError(fault.message))
                && (r.Success? && Fresh(v, rows, cache) ==>
                    && LatestSequence(RowsAfter(rows, r), id) == |Log(v.events, id)|
                    && (r.value.None? <==> LatestSequence(rows, id) == |Log(v.events, id)|)
                    && (r.value.Some? ==> r.value.value.sequenceNumber == |Log(v.events, id)|)))
  {
    var q := QueryOutcome(v, rows, cache, projectId, id, None, answers, fault).r;
    QueryOutcomeIsGood(v, rows, cache, projectId, id, None, answers, fault);
    QueryErrorIsRight(v, rows, cache, projectId, id, answers, fault);
    if Fresh(v, rows, cache) { QueryOutcomeIsFresh(v, rows, cache, projectId, id, None, answers, fault); }
    OutcomeOfQueryIsExact(v, rows, projectId, id, q, fault);
  }

  /** Whatever a createSnapshot does, everything derived stays good, and fresh if its delete is
      answered. */
  lemma SnapshotKeepsConsistent(v: View, rows: seq<Snapshot>, cache: map<string, CacheValue>, projectId: string,
                                id: string, answers: Answers, fault: Fault)
    requires Consistent(v, rows, cache)
    ensures var r := SnapshotOutcome(v, rows, cache, projectId, id, answers, fault);
            var looked := QueryOutcome(v, rows, cache, projectId, id, None, answers, fault).cache;
            && Consistent(v, RowsAfter(rows, r), CacheAfter(looked, id, r, answers.del))
            && (Fresh(v, rows, cache) && answers.del ==> Fresh(v, RowsAfter(rows, r),
                                                               CacheAfter(looked, id, r, answers.del)))
  {
    var looked := QueryOutcome(v, rows, cache, projectId, id, None, answers, fault).cache;
    var r := SnapshotOutcome(v, rows, cache, projectId, id, answers, fault);
    QueryOutcomeIsGood(v, rows, cache, projectId, id, None, answers, fault);
    if Fresh(v, rows, cache) { QueryOutcomeIsFresh(v, rows, cache, projectId, id, None, answers, fault); }
    SnapshotOutcomeIsExact(v, rows, cache, projectId, id, answers, fault);
    if r.Success? && r.value.Some? {
      InsertKeepsConsistent(v, rows, looked, r.value.value, answers.del);
      if Fresh(v, rows, cache) && answers.del { InsertKeepsFresh(v, rows, looked, r.value.value); }
    } else {
      assert RowsAfter(rows, r) == rows && CacheAfter(looked, id, r, answers.del) == looked;
    }
  }

  /** A createSnapshot fills at most the latest state entry. */
  lemma SnapshotFillsOnlyLatest(v: View, rows: seq<Snapshot>, cache: map<string, CacheValue>, projectId: string,
                                id: string, answers: Answers, fault: Fault)
    requires Consistent(v, rows, cache)
    ensures var r := SnapshotOutcome(v, rows, cache, projectId, id, answers, fault);
            var looked := QueryOutcome(v, rows, cache, projectId, id, None, answers, fault).cache;
            FillsOnlyLatest(v, cache, CacheAfter(looked, id, r, answers.del))
  {
    var r := SnapshotOutcome(v, rows, cache, projectId, id, answers, fault);
    var looked := QueryOutcome(v, rows, cache, projectId, id, None, answers, fault).cache;
    QueryFillsOnlyItsEntry(v, rows, cache, projectId, id, None, answers, fault);
    forall i, o | ValidAsOf(o)
      ensures EntryKept(v, cache, CacheAfter(looked, id, r, answers.del), i, o)
              && (o.Some? ==> EntrySame(cache, CacheAfter(looked, id, r, answers.del), i, o))
    {
      assert EntryKept(v, cache, looked, i, o) && (o.Some? ==> EntrySame(cache, looked, i, o));
    }
  }

  class SnapshotsService {
    const db: Database
    const aggregates: AggregatesService
    const cache: RedisCache

    constructor (db: Database, aggregates: AggregatesService, cache: RedisCache)
      ensures this.db == db && this.aggregates == aggregates && this.cache == cache
    {
      this.db := db;
      this.aggregates := aggregates;
      this.cache := cache;
    }

    /** The services share one database and one cache. */
    ghost predicate Wired() {
      aggregates.db == db && aggregates.cache == cache
    }

    /** Is a snapshot due? Exactly when the backlog has reached the threshold. */
    method ShouldSnapshot(id: string) returns (due: bool)
      requires Wired() && aggregates.Inv()
      ensures due <==> Backlog(db.Now(), db.snapshots, id) >= 20
    {
      var latest := FindLatest(db.snapshots, id);
      CountIsBacklog(db.Now(), db.snapshots, id);
      var eventsSinceLastSnapshot :=
        CountEventsSince(db.events, id, if latest.Some? then Some(latest.value.sequenceNumber) else None);
      return eventsSinceLastSnapshot >= SNAPSHOT_EVENT_THRESHOLD;
    }

    /** Insert the row, and drop the latest entries once it is in. Losing the unique constraint
        to another trigger is not a failure. */
    method InsertRow(row: Snapshot, del: bool) returns (r: Result<Option<Snapshot>, Error>)
      requires Wired() && aggregates.Inv()
      requires row.sequenceNumber >= 1 && Good(db.Now(), row.aggregateId, row.sequenceNumber, row.state)
      modifies db`snapshots, cache
      ensures r == InsertOutcome(db.aggregates, old(db.snapshots), row)
      ensures db.snapshots == RowsAfter(old(db.snapshots), r)
      ensures cache.entries == CacheAfter(old(cache.entries), row.aggregateId, r, del)
      ensures aggregates.Inv()
      ensures old(aggregates.IsFresh()) && del ==> aggregates.IsFresh()
    {
      ghost var v, rows, entries := db.Now(), db.snapshots, cache.entries;
      InsertKeepsConsistent(v, rows, entries, row, del);
      if Fresh(v, rows, entries) { InsertKeepsFresh(v, rows, entries, row); }
      r := InsertAndInvalidate(row, del);
      assert db.Now() == v;
    }

    method InsertAndInvalidate(row: Snapshot, del: bool) returns (r: Result<Option<Snapshot>, Error>)
      modifies db`snapshots, cache
      ensures r == InsertOutcome(db.aggregates, old(db.snapshots), row)
      ensures db.snapshots == RowsAfter(old(db.snapshots), r)
      ensures cache.entries == CacheAfter(old(cache.entries), row.aggregateId, r, del)
    {
      var created := db.CreateSnapshotRow(row);
      if created.Failure? {
        return if created.error == UniqueViolation then Success(None) else Failure(created.error);
      }
      cache.Del({LatestStateKey(row.aggregateId), LatestLookupKey(row.aggregateId)}, del);
      return Success(Some(row));
    }

    /** Store a latest result as a snapshot, unless the table already reaches its position. */
    method StoreResult(projectId: string, id: string, k: nat, state: JsonObject, del: bool, fault: Fault)
      returns (r: Result<Option<Snapshot>, Error>)
      requires Wired() && aggregates.Inv()
      requires k >= 1 && Good(db.Now(), id, k, state)
      modifies db`snapshots, cache
      ensures r == StoreOutcome(db.aggregates, old(db.snapshots), projectId, id, k, state, fault)
      ensures db.snapshots == RowsAfter(old(db.snapshots), r)
      ensures cache.entries == CacheAfter(old(cache.entries), id, r, del)
      ensures aggregates.Inv()
      ensures old(aggregates.IsFresh()) && del ==> aggregates.IsFresh()
    {
      if fault.CompareFails? {
        return Failure(DatabaseError(fault.message));
      }
      var latest := FindLatest(db.snapshots, id);
      if latest.Some? && latest.value.sequenceNumber >= k {
        return Success(None);
      }
      if fault.InsertFails? {
        return Failure(DatabaseError(fault.message));
      }
      r := InsertRow(Snapshot(id, projectId, k, state), del);
    }

    /** Store the current state as a snapshot, unless there is nothing new to store. */
    method CreateSnapshot(projectId: string, id: string, answers: Answers, fault: Fault)
      returns (r: Result<Option<Snapshot>, Error>)
      requires Wired() && aggregates.Inv()
      modifies db`snapshots, cache
      ensures r == old(SnapshotOutcome(db.Now(), db.snapshots, cache.entries, projectId, id, answers, fault))
      ensures db.snapshots == RowsAfter(old(db.snapshots), r)
      ensures cache.entries ==
              CacheAfter(old(QueryOutcome(db.Now(), db.snapshots, cache.entries, projectId, id, None, answers,
                                          fault)).cache,
                         id, r, answers.del)
      ensures aggregates.Inv()
      ensures old(aggregates.IsFresh()) && answers.del ==> aggregates.IsFresh()
    {
      ghost var v := db.Now();
      SnapshotKeepsConsistent(v, db.snapshots, cache.entries, projectId, id, answers, fault);
      r := QueryAndStore(projectId, id, answers, fault);
      assert db.Now() == v;
    }

    method QueryAndStore(projectId: string, id: string, answers: Answers, fault: Fault)
      returns (r: Result<Option<Snapshot>, Error>)
      requires Wired() && aggregates.Inv()
      modifies db`snapshots, cache
      ensures r == old(SnapshotOutcome(db.Now(), db.snapshots, cache.entries, projectId, id, answers, fault))
      ensures db.snapshots == RowsAfter(old(db.snapshots), r)
      ensures cache.entries ==
              CacheAfter(old(QueryOutcome(db.Now(), db.snapshots, cache.entries, projectId, id, None, answers,
                                          fault)).cache,
                         id, r, answers.del)
    {
      ghost var v := db.Now();
      var result := aggregates.GetState(projectId, id, None, answers, fault);
      assert db.Now() == v;
      if result.Failure? {
        return Failure(result.error);
      }
      ghost var k := LatestPosition(v, id, result.value);
      if result.value.asOfSequence.None? {
        return Success(None);
      }
      var sequenceNumber := ToNat(result.value.asOfSequence.value);
      r := StoreResult(projectId, id, sequenceNumber, result.value.state, answers.del, fault);
    }
  }
}
