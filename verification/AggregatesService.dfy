/** Reconstructing a state through two cache layers and the nearest snapshot. */
module Aggregates {
  import opened Values
  import opened Reducer
  import opened EventReducers
  import opened CacheKeys
  import opened Tables
  import opened Consistency
  import opened Freshness
  import opened RedisCaching
  import opened Databases

  /** Which of a call's Redis commands are answered. */
  datatype Answers = Answers(getState: bool, getLookup: bool, setLookup: bool, setState: bool, del: bool)

  /** A database error in one of a call's statements, with its message. */
  datatype Fault =
    | NoFault
    | AggregateFails(message: string)  // the query for the aggregate
    | LookupFails(message: string)     // the query for the nearest snapshot
    | EventsFail(message: string)      // the query for the events to replay
    | RulesFail(message: string)       // the query for the rules
    | CompareFails(message: string)    // createSnapshot's query for the latest snapshot
    | InsertFails(message: string)     // its insert, for another reason than a constraint

  // ---- A state query as a whole ----

  /** Served from the cache: the entry is there and Redis answers. */
  predicate Hits(cache: map<string, CacheValue>, key: string, up: bool) {
    up && key in cache
  }

  /** The snapshot a query resumes from: the cached lookup, or the nearest row at or before `asOf`. */
  function Nearest(rows: seq<Snapshot>, cache: map<string, CacheValue>, id: string, asOf: Option<string>,
                   answers: Answers): Option<Lookup>
    requires ValidAsOf(asOf)
  {
    var key := LookupKey(id, asOf);
    if Hits(cache, key, answers.getLookup) then
      if cache[key].LookupValue? then Some(cache[key].lookup) else None
    else
      var row := FindLatestUpTo(rows, id, Bound(asOf));
      if row.None? then None else Some(Lookup(ToString(row.value.sequenceNumber), row.value.state))
  }

  /** The cache once the lookup is done: a lookup read from the table is kept. */
  function CacheAfterLookup(rows: seq<Snapshot>, cache: map<string, CacheValue>, id: string, asOf: Option<string>,
                            answers: Answers): map<string, CacheValue>
    requires ValidAsOf(asOf)
  {
    var key := LookupKey(id, asOf);
    var base := Nearest(rows, cache, id, asOf, answers);
    if Hits(cache, key, answers.getLookup) || base.None? || !answers.setLookup then cache
    else cache[key := LookupValue(base.value)]
  }

  /** The cache once the query is done: the answer is kept too. */
  function CacheAfterQuery(rows: seq<Snapshot>, cache: map<string, CacheValue>, id: string, asOf: Option<string>,
                           answers: Answers, r: StateResult, seen: nat): map<string, CacheValue>
    requires ValidAsOf(asOf)
  {
    var looked := CacheAfterLookup(rows, cache, id, asOf, answers);
    if answers.setState then looked[StateKey(id, asOf) := StateValue(r, seen)] else looked
  }

  lemma NearestIsGood(v: View, rows: seq<Snapshot>, cache: map<string, CacheValue>, id: string,
                      asOf: Option<string>, answers: Answers)
    requires Consistent(v, rows, cache) && ValidAsOf(asOf)
    ensures BaseGood(v, id, asOf, Nearest(rows, cache, id, asOf, answers))
    ensures Consistent(v, rows, CacheAfterLookup(rows, cache, id, asOf, answers))
  {
    assert LookupEntryGood(v, cache, id, asOf);
    SnapshotRowIsGoodLookup(v, rows, id, asOf);
    var base := Nearest(rows, cache, id, asOf, answers);
    if base.Some? { LookupFilled(v, cache, id, asOf, base.value); }
  }

  lemma NearestIsFresh(v: View, rows: seq<Snapshot>, cache: map<string, CacheValue>, id: string,
                       asOf: Option<string>, answers: Answers)
    requires Consistent(v, rows, cache) && Fresh(v, rows, cache) && ValidAsOf(asOf)
    ensures Fresh(v, rows, CacheAfterLookup(rows, cache, id, asOf, answers))
    ensures var base := Nearest(rows, cache, id, asOf, answers);
            && (base.Some? ==> IsDecimal(base.value.sequenceNumber))
            && (asOf == None ==> BasePosition(base) == LatestSequence(rows, id))
  {
    assert FreshEntries(v, rows, cache, id);
    NearestIsGood(v, rows, cache, id, asOf, answers);
    var row := FindLatestUpTo(rows, id, Bound(asOf));
    if row.Some? { LookupFillKeepsFresh(v, rows, cache, id, asOf, row.value); }
  }

  /** What a query that misses the state cache answers. */
  function Reconstruction(v: View, rows: seq<Snapshot>, cache: map<string, CacheValue>, agg: Aggregate,
                          asOf: Option<string>, answers: Answers): StateResult
    requires v.versions != [] && ValidAsOf(asOf)
    requires BaseGood(v, agg.id, asOf, Nearest(rows, cache, agg.id, asOf, answers))
  {
    var base := Nearest(rows, cache, agg.id, asOf, answers);
    Answer(agg, base, TailQuery(v.events, agg.id, asOf, base), CurrentRules(v, agg))
  }

  /** Reconstruction is right whichever of lookup cache, snapshot table or full replay serves
      it: it answers for the whole log as it stands, and leaves the cache consistent. */
  lemma ReconstructionIsGood(v: View, rows: seq<Snapshot>, cache: map<string, CacheValue>, agg: Aggregate,
                             asOf: Option<string>, answers: Answers)
    requires Consistent(v, rows, cache) && ValidAsOf(asOf) && agg in v.aggregates
    ensures BaseGood(v, agg.id, asOf, Nearest(rows, cache, agg.id, asOf, answers))
    ensures var r, seen := Reconstruction(v, rows, cache, agg, asOf, answers), |Log(v.events, agg.id)|;
            && ResultGood(v, agg.id, asOf, r, seen)
            && Consistent(v, rows, CacheAfterQuery(rows, cache, agg.id, asOf, answers, r, seen))
  {
    NearestIsGood(v, rows, cache, agg.id, asOf, answers);
    var base, looked := Nearest(rows, cache, agg.id, asOf, answers),
      CacheAfterLookup(rows, cache, agg.id, asOf, answers);
    var tail, seen := TailQuery(v.events, agg.id, asOf, base), |Log(v.events, agg.id)|;
    QueryReadsTail(v, agg.id, asOf, base);
    AnswerIsGood(v, agg, asOf, base, tail, seen);
    StateFilled(v, looked, agg.id, asOf, Reconstruction(v, rows, cache, agg, asOf, answers), seen);
  }

  lemma ReconstructionKeepsFresh(v: View, rows: seq<Snapshot>, cache: map<string, CacheValue>, agg: Aggregate,
                                 asOf: Option<string>, answers: Answers, r: StateResult)
    requires Consistent(v, rows, cache) && Fresh(v, rows, cache) && ValidAsOf(asOf)
    ensures Fresh(v, rows, CacheAfterQuery(rows, cache, agg.id, asOf, answers, r, |Log(v.events, agg.id)|))
  {
    NearestIsFresh(v, rows, cache, agg.id, asOf, answers);
    StateFillKeepsFresh(v, rows, CacheAfterLookup(rows, cache, agg.id, asOf, answers), agg.id, asOf, r);
  }

  /** The error a query that misses the state cache ends with, if any. */
  function QueryError(aggregates: seq<Aggregate>, cache: map<string, CacheValue>, projectId: string, id: string,
                      asOf: Option<string>, answers: Answers, fault: Fault): Option<Error>
    requires ValidAsOf(asOf)
  {
    if fault.AggregateFails? then Some(DatabaseError(fault.message))
    else if FindForProject(aggregates, id, projectId).None? then Some(NotFound)
    else if fault.LookupFails? && !Hits(cache, LookupKey(id, asOf), answers.getLookup)
      then Some(DatabaseError(fault.message))
    else if fault.EventsFail? || fault.RulesFail? then Some(DatabaseError(fault.message))
    else None
  }

  /** A query's error is that of its own database error, or says that the project does not own
      the aggregate. */
  predicate RightError(aggregates: seq<Aggregate>, projectId: string, id: string, fault: Fault, error: Error) {
    || (!fault.NoFault? && error == DatabaseError(fault.message))
    || (error == NotFound && FindForProject(aggregates, id, projectId).None?)
  }

  /** What a query returns, and the cache it leaves. */
  datatype Outcome = Outcome(r: Result<StateResult, Error>, cache: map<string, CacheValue>)

  /** A query that misses the state cache. An error after the lookup finds the lookup kept. */
  ghost function MissOutcome(v: View, rows: seq<Snapshot>, cache: map<string, CacheValue>, projectId: string,
                             id: string, asOf: Option<string>, answers: Answers, fault: Fault): Outcome
    requires Consistent(v, rows, cache) && ValidAsOf(asOf)
  {
    var error := QueryError(v.aggregates, cache, projectId, id, asOf, answers, fault);
    if error.Some? then
      Outcome(Failure(error.value),
              if error.value != NotFound && (fault.EventsFail? || fault.RulesFail?)
              then CacheAfterLookup(rows, cache, id, asOf, answers) else cache)
    else
      var agg := FindForProject(v.aggregates, id, projectId).value;
      NearestIsGood(v, rows, cache, id, asOf, answers);
      var r := Reconstruction(v, rows, cache, agg, asOf, answers);
      Outcome(Success(r), CacheAfterQuery(rows, cache, id, asOf, answers, r, |Log(v.events, id)|))
  }

  lemma MissOutcomeOfError(v: View, rows: seq<Snapshot>, cache: map<string, CacheValue>, projectId: string, id: string,
                           asOf: Option<string>, answers: Answers, fault: Fault)
    requires Consistent(v, rows, cache) && ValidAsOf(asOf) && !fault.AggregateFails?
    requires QueryError(v.aggregates, cache, projectId, id, asOf, answers, fault).Some?
    requires FindForProject(v.aggregates, id, projectId).Some?
    ensures MissOutcome(v, rows, cache, projectId, id, asOf, answers, fault) ==
            Outcome(Failure(DatabaseError(fault.message)),
                    if fault.LookupFails? then cache else CacheAfterLookup(rows, cache, id, asOf, answers))
  {}

  lemma MissOfEarlyError(v: View, rows: seq<Snapshot>, cache: map<string, CacheValue>, projectId: string, id: string,
                         asOf: Option<string>, answers: Answers, fault: Fault)
    requires Consistent(v, rows, cache) && ValidAsOf(asOf)
    requires fault.AggregateFails? || FindForProject(v.aggregates, id, projectId).None?
    ensures var o := MissOutcome(v, rows, cache, projectId, id, asOf, answers, fault);
            o.r.Failure? && o.cache == cache
  {}

  lemma MissOfNoError(v: View, rows: seq<Snapshot>, cache: map<string, CacheValue>, projectId: string, id: string,
                      asOf: Option<string>, answers: Answers, fault: Fault, agg: Aggregate)
    requires Consistent(v, rows, cache) && ValidAsOf(asOf) && FindForProject(v.aggregates, id, projectId) == Some(agg)
    requires QueryError(v.aggregates, cache, projectId, id, asOf, answers, fault).None?
    ensures BaseGood(v, id, asOf, Nearest(rows, cache, id, asOf, answers))
    ensures var r := Reconstruction(v, rows, cache, agg, asOf, answers);
            MissOutcome(v, rows, cache, projectId, id, asOf, answers, fault) ==
            Outcome(Success(r), CacheAfterQuery(rows, cache, id, asOf, answers, r, |Log(v.events, id)|))
  {
    NearestIsGood(v, rows, cache, id, asOf, answers);
  }

  /** A state query as one step. */
  ghost function QueryOutcome(v: View, rows: seq<Snapshot>, cache: map<string, CacheValue>, projectId: string,
                              id: string, asOf: Option<string>, answers: Answers, fault: Fault): Outcome
    requires Consistent(v, rows, cache) && ValidAsOf(asOf)
  {
    assert StateEntryGood(v, cache, id, asOf);
    if Hits(cache, StateKey(id, asOf), answers.getState) then
      Outcome(Success(cache[StateKey(id, asOf)].result), cache)
    else MissOutcome(v, rows, cache, projectId, id, asOf, answers, fault)
  }

  /** A miss answers for the whole log and leaves the cache consistent. */
  lemma MissOutcomeIsGood(v: View, rows: seq<Snapshot>, cache: map<string, CacheValue>, projectId: string, id: string,
                          asOf: Option<string>, answers: Answers, fault: Fault)
    requires Consistent(v, rows, cache) && ValidAsOf(asOf)
    ensures var o := MissOutcome(v, rows, cache, projectId, id, asOf, answers, fault);
            && Consistent(v, rows, o.cache)
            && (o.r.Success? ==> ResultGood(v, id, asOf, o.r.value, |Log(v.events, id)|))
  {
    NearestIsGood(v, rows, cache, id, asOf, answers);
    var o := MissOutcome(v, rows, cache, projectId, id, asOf, answers, fault);
    if o.r.Failure? {
      assert o.cache == cache || o.cache == CacheAfterLookup(rows, cache, id, asOf, answers);
    } else {
      var agg := FindForProject(v.aggregates, id, projectId).value;
      ReconstructionIsGood(v, rows, cache, agg, asOf, answers);
      assert o.r.value == Reconstruction(v, rows, cache, agg, asOf, answers);
      assert o.cache == CacheAfterQuery(rows, cache, id, asOf, answers, o.r.value, |Log(v.events, id)|);
    }
  }

  /** Every answer is prefix-consistent, and a query leaves the cache so. */
  lemma QueryOutcomeIsGood(v: View, rows: seq<Snapshot>, cache: map<string, CacheValue>, projectId: string, id: string,
                           asOf: Option<string>, answers: Answers, fault: Fault)
    requires Consistent(v, rows, cache) && ValidAsOf(asOf)
    ensures var o := QueryOutcome(v, rows, cache, projectId, id, asOf, answers, fault);
            && Consistent(v, rows, o.cache)
            && (o.r.Success? ==> exists seen :: ResultGood(v, id, asOf, o.r.value, seen))
  {
    assert StateEntryGood(v, cache, id, asOf);
    MissOutcomeIsGood(v, rows, cache, projectId, id, asOf, answers, fault);
    if Hits(cache, StateKey(id, asOf), answers.getState) {
      assert ResultGood(v, id, asOf, cache[StateKey(id, asOf)].result, cache[StateKey(id, asOf)].seen);
    }
  }

  /** A cached answer is what its entry says, a computed one covers the whole log. */
  lemma QueryOutcomeHasSeen(v: View, rows: seq<Snapshot>, cache: map<string, CacheValue>, projectId: string, id: string,
                            asOf: Option<string>, answers: Answers, fault: Fault)
    requires Consistent(v, rows, cache) && ValidAsOf(asOf)
    ensures var r, key := QueryOutcome(v, rows, cache, projectId, id, asOf, answers, fault).r, StateKey(id, asOf);
            r.Success? ==>
              if Hits(cache, key, answers.getState) then
                && cache[key].StateValue? && r.value == cache[key].result
                && ResultGood(v, id, asOf, r.value, cache[key].seen)
              else ResultGood(v, id, asOf, r.value, |Log(v.events, id)|)
  {
    assert StateEntryGood(v, cache, id, asOf);
    MissOutcomeIsGood(v, rows, cache, projectId, id, asOf, answers, fault);
  }

  lemma LookupKeepsStates(rows: seq<Snapshot>, cache: map<string, CacheValue>, id: string, asOf: Option<string>,
                          answers: Answers, i: string, o: Option<string>)
    requires ValidAsOf(asOf) && ValidAsOf(o)
    ensures EntrySame(cache, CacheAfterLookup(rows, cache, id, asOf, answers), i, o)
  {
    LookupKeysDiffer(id, asOf, i, o);
  }

  lemma LookupFillsNoState(v: View, rows: seq<Snapshot>, cache: map<string, CacheValue>, id: string,
                           asOf: Option<string>, answers: Answers)
    requires ValidAsOf(asOf)
    ensures FillsOnly(v, cache, CacheAfterLookup(rows, cache, id, asOf, answers), id, asOf)
  {
    forall i, p | ValidAsOf(p) ensures EntrySame(cache, CacheAfterLookup(rows, cache, id, asOf, answers), i, p) {
      LookupKeepsStates(rows, cache, id, asOf, answers, i, p);
    }
  }

  lemma AnswerFillsOnlyItsEntry(v: View, rows: seq<Snapshot>, cache: map<string, CacheValue>, id: string,
                                asOf: Option<string>, answers: Answers, r: StateResult)
    requires ValidAsOf(asOf)
    ensures FillsOnly(v, cache, CacheAfterQuery(rows, cache, id, asOf, answers, r, |Log(v.events, id)|), id, asOf)
  {
    var filled := CacheAfterQuery(rows, cache, id, asOf, answers, r, |Log(v.events, id)|);
    forall i, p | ValidAsOf(p)
      ensures EntryKept(v, cache, filled, i, p) && (i != id || p != asOf ==> EntrySame(cache, filled, i, p))
    {
      LookupKeepsStates(rows, cache, id, asOf, answers, i, p);
      StateKeysDiffer(id, asOf, i, p);
    }
  }

  /** What a miss leaves of the cache: nothing done, the lookup kept, or the answer kept too. */
  lemma MissCacheIs(v: View, rows: seq<Snapshot>, cache: map<string, CacheValue>, projectId: string, id: string,
                    asOf: Option<string>, answers: Answers, fault: Fault)
    requires Consistent(v, rows, cache) && ValidAsOf(asOf)
    ensures var o := MissOutcome(v, rows, cache, projectId, id, asOf, answers, fault);
            if o.r.Failure? then o.cache == cache || o.cache == CacheAfterLookup(rows, cache, id, asOf, answers)
            else o.cache == CacheAfterQuery(rows, cache, id, asOf, answers, o.r.value, |Log(v.events, id)|)
  {
    var agg := FindForProject(v.aggregates, id, projectId);
    if fault.AggregateFails? || agg.None? {
      MissOfEarlyError(v, rows, cache, projectId, id, asOf, answers, fault);
    } else if QueryError(v.aggregates, cache, projectId, id, asOf, answers, fault).Some? {
      MissOutcomeOfError(v, rows, cache, projectId, id, asOf, answers, fault);
    } else {
      MissOfNoError(v, rows, cache, projectId, id, asOf, answers, fault, agg.value);
    }
  }

  /** A query fills no state entry but its own, and that with the log of the moment. */
  lemma QueryFillsOnlyItsEntry(v: View, rows: seq<Snapshot>, cache: map<string, CacheValue>, projectId: string,
                               id: string, asOf: Option<string>, answers: Answers, fault: Fault)
    requires Consistent(v, rows, cache) && ValidAsOf(asOf)
    ensures FillsOnly(v, cache, QueryOutcome(v, rows, cache, projectId, id, asOf, answers, fault).cache, id, asOf)
  {
    assert StateEntryGood(v, cache, id, asOf);
    if !Hits(cache, StateKey(id, asOf), answers.getState) {
      var o := MissOutcome(v, rows, cache, projectId, id, asOf, answers, fault);
      MissCacheIs(v, rows, cache, projectId, id, asOf, answers, fault);
      LookupFillsNoState(v, rows, cache, id, asOf, answers);
      if o.r.Success? { AnswerFillsOnlyItsEntry(v, rows, cache, id, asOf, answers, o.r.value); }
    }
  }

  /** While the latest entries are fresh a latest answer covers the whole log, and they stay fresh. */
  lemma QueryOutcomeIsFresh(v: View, rows: seq<Snapshot>, cache: map<string, CacheValue>, projectId: string, id: string,
                            asOf: Option<string>, answers: Answers, fault: Fault)
    requires Consistent(v, rows, cache) && Fresh(v, rows, cache) && ValidAsOf(asOf)
    ensures var o := QueryOutcome(v, rows, cache, projectId, id, asOf, answers, fault);
            && Fresh(v, rows, o.cache)
            && (o.r.Success? && asOf == None ==> ResultGood(v, id, None, o.r.value, |Log(v.events, id)|))
  {
    assert StateEntryGood(v, cache, id, asOf);
    assert FreshEntries(v, rows, cache, id);
    MissOutcomeIsGood(v, rows, cache, projectId, id, asOf, answers, fault);
    NearestIsFresh(v, rows, cache, id, asOf, answers);
    var agg := FindForProject(v.aggregates, id, projectId);
    var o := QueryOutcome(v, rows, cache, projectId, id, asOf, answers, fault);
    if agg.Some? && o.r.Success? { ReconstructionKeepsFresh(v, rows, cache, agg.value, asOf, answers, o.r.value); }
  }

  /** The payoff of snapshots: while the latest entries are fresh, a latest query that misses
      the state cache replays exactly the aggregate's backlog. */
  lemma FreshQueryReplaysTheBacklog(v: View, rows: seq<Snapshot>, cache: map<string, CacheValue>, id: string,
                                    answers: Answers)
    requires Consistent(v, rows, cache) && Fresh(v, rows, cache)
    ensures BaseGood(v, id, None, Nearest(rows, cache, id, None, answers))
    ensures |TailQuery(v.events, id, None, Nearest(rows, cache, id, None, answers))| == Backlog(v, rows, id)
  {
    NearestIsGood(v, rows, cache, id, None, answers);
    NearestIsFresh(v, rows, cache, id, None, answers);
    QueryReadsTail(v, id, None, Nearest(rows, cache, id, None, answers));
  }

  /** Whatever order the rule rows arrive in, they are the current rules. */
  lemma RulesAreCurrent(v: View, agg: Aggregate, rows: seq<RuleRow>)
    requires v.versions != [] && UniqueKeys(v.versions[|v.versions| - 1])
    requires multiset(rows) == multiset(FindAll(v.versions[|v.versions| - 1], agg.projectId, agg.aggregateType))
    ensures RulesByEventType(RulesFrom(rows)) == CurrentRules(v, agg)
  {
    var current := v.versions[|v.versions| - 1];
    FindAllIsDistinct(current, agg.projectId, agg.aggregateType);
    RowOrderIsIrrelevant(FindAll(current, agg.projectId, agg.aggregateType), rows);
  }

  class AggregatesService {
    const db: Database
    const cache: RedisCache

    constructor (db: Database, cache: RedisCache)
      ensures this.db == db && this.cache == cache
    {
      this.db := db;
      this.cache := cache;
    }

    ghost predicate Inv()
      reads db, cache
    {
      db.Valid() && Consistent(db.Now(), db.snapshots, cache.entries)
    }

    ghost predicate IsFresh()
      reads db, cache
    {
      Fresh(db.Now(), db.snapshots, cache.entries)
    }

    /** The nearest snapshot at or before `asOf`, from its own cache layer or from the table. */
    method GetSnapshotLookup(id: string, asOf: Option<string>, answers: Answers, fault: Fault)
      returns (base: Result<Option<Lookup>, Error>)
      requires Inv() && ValidAsOf(asOf)
      modifies cache
      ensures if fault.LookupFails? && !Hits(old(cache.entries), LookupKey(id, asOf), answers.getLookup) then
                base == Failure(DatabaseError(fault.message)) && cache.entries == old(cache.entries)
              else
                && base == Success(Nearest(db.snapshots, old(cache.entries), id, asOf, answers))
                && cache.entries == CacheAfterLookup(db.snapshots, old(cache.entries), id, asOf, answers)
    {
      var key := LookupKey(id, asOf);
      assert LookupEntryGood(db.Now(), cache.entries, id, asOf);
      var cached := cache.Get(key, answers.getLookup);
      if cached.Some? {
        return Success(Some(cached.value.lookup));
      }
      if fault.LookupFails? {
        return Failure(DatabaseError(fault.message));
      }
      var row := FindLatestUpTo(db.snapshots, id, Bound(asOf));
      if row.None? {
        return Success(None);
      }
      var found := Lookup(ToString(row.value.sequenceNumber), row.value.state);
      cache.Set(key, LookupValue(found), answers.setLookup);
      return Success(Some(found));
    }

    /** Fold the replayed events onto the base under the rules of now. */
    method FoldOnto(aggregate: Aggregate, snapshot: Option<Lookup>, events: seq<Event>) returns (result: StateResult)
      requires db.Valid() && UniqueKeys(db.rules)
      ensures result == Answer(aggregate, snapshot, events, CurrentRules(db.Now(), aggregate))
    {
      var rawRules := db.FindAllForAggregateType(aggregate.projectId, aggregate.aggregateType);
      var rules := RulesFrom(rawRules);
      RulesAreCurrent(db.Now(), aggregate, rawRules);
      var state := ReduceEvents(events, rules, BaseState(snapshot));
      var asOfSequence := if events != [] then Some(ToString(events[|events| - 1].sequenceNumber))
                          else if snapshot.Some? then Some(snapshot.value.sequenceNumber)
                          else None;
      result := StateResult(aggregate.id, aggregate.aggregateType, aggregate.aggregateKey, asOfSequence, state);
    }

    /** Rebuild the state of an aggregate and keep the answer. */
    method Reconstruct(projectId: string, aggregate: Aggregate, asOf: Option<string>, answers: Answers, fault: Fault)
      returns (r: Result<StateResult, Error>)
      requires Inv() && ValidAsOf(asOf) && !fault.AggregateFails?
      requires FindForProject(db.aggregates, aggregate.id, projectId) == Some(aggregate)
      modifies cache
      ensures Outcome(r, cache.entries) ==
              old(MissOutcome(db.Now(), db.snapshots, cache.entries, projectId, aggregate.id, asOf, answers, fault))
    {
      var id := aggregate.id;
      ghost var v, before := db.Now(), cache.entries;
      NearestIsGood(v, db.snapshots, before, id, asOf, answers);
      var snapshot := GetSnapshotLookup(id, asOf, answers, fault);
      if snapshot.Failure? {
        return Failure(snapshot.error);
      }
      assert cache.entries == CacheAfterLookup(db.snapshots, before, id, asOf, answers);
      if fault.EventsFail? || fault.RulesFail? {
        MissOutcomeOfError(v, db.snapshots, before, projectId, id, asOf, answers, fault);
      }
      if fault.EventsFail? {
        return Failure(DatabaseError(fault.message));
      }
      var events := TailQuery(db.events, id, asOf, snapshot.value);
      if fault.RulesFail? {
        return Failure(DatabaseError(fault.message));
      }
      var result := FoldOnto(aggregate, snapshot.value, events);
      assert result == Reconstruction(v, db.snapshots, before, aggregate, asOf, answers);
      MissOfNoError(v, db.snapshots, before, projectId, id, asOf, answers, fault, aggregate);
      cache.Set(StateKey(id, asOf), StateValue(result, |Log(db.events, id)|), answers.setState);
      return Success(result);
    }

    /** The state of an aggregate, latest or as of a sequence number. */
    method GetState(projectId: string, id: string, asOf: Option<string>, answers: Answers, fault: Fault)
      returns (r: Result<StateResult, Error>)
      requires Inv() && ValidAsOf(asOf)
      modifies cache
      ensures Outcome(r, cache.entries) ==
              old(QueryOutcome(db.Now(), db.snapshots, cache.entries, projectId, id, asOf, answers, fault))
      // A cached answer is given whatever the project; otherwise only a database error or an
      // aggregate the project does not own makes the query fail.
      ensures r.Failure? ==>
        && !Hits(old(cache.entries), StateKey(id, asOf), answers.getState)
        && RightError(db.aggregates, projectId, id, fault, r.error)
      // Every answer is prefix-consistent, and the cache stays so.
      ensures Inv()
      ensures r.Success? ==> exists seen :: ResultGood(db.Now(), id, asOf, r.value, seen)
      // While the latest entries are fresh the latest answer covers the whole log, and they stay fresh.
      ensures old(IsFresh()) ==> IsFresh()
      ensures old(IsFresh()) && asOf == None && r.Success? ==>
        ResultGood(db.Now(), id, None, r.value, |Log(db.events, id)|)
    {
      ghost var v, rows, entries := db.Now(), db.snapshots, cache.entries;
      QueryOutcomeIsGood(v, rows, entries, projectId, id, asOf, answers, fault);
      if Fresh(v, rows, entries) { QueryOutcomeIsFresh(v, rows, entries, projectId, id, asOf, answers, fault); }
      r := QueryState(projectId, id, asOf, answers, fault);
      assert db.Now() == v && db.snapshots == rows;
    }

    method QueryState(projectId: string, id: string, asOf: Option<string>, answers: Answers, fault: Fault)
      returns (r: Result<StateResult, Error>)
      requires Inv() && ValidAsOf(asOf)
      modifies cache
      ensures Outcome(r, cache.entries) ==
              old(QueryOutcome(db.Now(), db.snapshots, cache.entries, projectId, id, asOf, answers, fault))
    {
      assert StateEntryGood(db.Now(), cache.entries, id, asOf);
      var cachedState := cache.Get(StateKey(id, asOf), answers.getState);
      if cachedState.Some? {
        return Success(cachedState.value.result);
      }
      if fault.AggregateFails? {
        return Failure(DatabaseError(fault.message));
      }
      var aggregate := FindForProject(db.aggregates, id, projectId);
      if aggregate.None? {
        return Failure(NotFound);
      }
      r := Reconstruct(projectId, aggregate.value, asOf, answers, fault);
    }
  }
}
