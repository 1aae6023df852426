/** The other half of running alone: however Redis answers and whatever fails, a call whose
    statements run with nothing in between ends as the service's function says. */
module SoloEnds {
  import opened Values
  import opened CacheKeys
  import opened Tables
  import opened Consistency
  import opened Freshness
  import opened Databases
  import opened Aggregates
  import opened Snapshots
  import opened Interleaving
  import opened PrefixConsistency
  import opened SoloRuns

  // ---- How far a call alone can have got ----

  /** The outcome of the call's query, for the answers and the error so far. */
  ghost function QueryOf(s: State, q: Call, answers: Answers, fault: Fault): Outcome
    requires Consistent(ViewOf(s), s.snapshots, s.cache) && ValidAsOf(q.asOf)
  {
    QueryOutcome(ViewOf(s), s.snapshots, s.cache, q.projectId, q.aggregateId, q.asOf, answers, fault)
  }

  ghost function SnapshotOf(s: State, q: Call, answers: Answers, fault: Fault): Result<Option<Snapshot>, Error>
    requires Consistent(ViewOf(s), s.snapshots, s.cache)
  {
    SnapshotOutcome(ViewOf(s), s.snapshots, s.cache, q.projectId, q.aggregateId, answers, fault)
  }

  /** The call has ended as the service's function says. */
  ghost predicate Ended(s: State, q: Call, cache: map<string, CacheValue>, rows: seq<Snapshot>, pc: Pc,
                        answers: Answers, fault: Fault)
    requires Consistent(ViewOf(s), s.snapshots, s.cache) && ValidAsOf(q.asOf)
  {
    if q.purpose == Reply then
      var o := QueryOf(s, q, answers, fault);
      && rows == s.snapshots && cache == o.cache
      && (if o.r.Success? then pc.Answered? && pc.result == o.r.value else pc == Failed)
    else
      var r := SnapshotOf(s, q, answers, fault);
      && rows == RowsAfter(s.snapshots, r)
      && cache == CacheAfter(QueryOf(s, q, answers, fault).cache, q.aggregateId, r, answers.del)
      && pc == (if r.Success? then Snapshotted(r.value) else Failed)
  }

  /** The query has missed the state cache and found its aggregate. */
  ghost predicate Missed(s: State, q: Call, answers: Answers, agg: Aggregate)
    requires ValidAsOf(q.asOf)
  {
    && !Hits(s.cache, StateKey(q.aggregateId, q.asOf), answers.getState)
    && FindForProject(s.db.aggregates, q.aggregateId, q.projectId) == Some(agg)
  }

  ghost predicate LookedUp(s: State, q: Call, cache: map<string, CacheValue>, answers: Answers, agg: Aggregate,
                           base: Option<Lookup>)
    requires ValidAsOf(q.asOf)
  {
    && Missed(s, q, answers, agg)
    && cache == CacheAfterLookup(s.snapshots, s.cache, q.aggregateId, q.asOf, answers)
    && base == Nearest(s.snapshots, s.cache, q.aggregateId, q.asOf, answers)
  }

  /** The query is answered. */
  ghost predicate Queried(s: State, q: Call, cache: map<string, CacheValue>, answers: Answers, r: StateResult)
    requires Consistent(ViewOf(s), s.snapshots, s.cache) && ValidAsOf(q.asOf)
  {
    QueryOf(s, q, answers, NoFault) == Outcome(Success(r), cache)
  }

  ghost predicate OnTheWay(s: State, q: Call, cache: map<string, CacheValue>, rows: seq<Snapshot>, pc: Pc,
                           answers: Answers)
    requires Consistent(ViewOf(s), s.snapshots, s.cache) && ValidAsOf(q.asOf)
  {
    var id, asOf := q.aggregateId, q.asOf;
    match pc
    case CheckCache => cache == s.cache && rows == s.snapshots
    case FindAggregate => cache == s.cache && rows == s.snapshots
      && !Hits(s.cache, StateKey(id, asOf), answers.getState)
    case CheckLookup(agg) => cache == s.cache && rows == s.snapshots && Missed(s, q, answers, agg)
    case FindSnapshot(agg) =>
      && cache == s.cache && rows == s.snapshots && Missed(s, q, answers, agg)
      && !Hits(s.cache, LookupKey(id, asOf), answers.getLookup)
    case FillLookup(agg, found) =>
      && cache == s.cache && rows == s.snapshots && Missed(s, q, answers, agg)
      && !Hits(s.cache, LookupKey(id, asOf), answers.getLookup)
      && Nearest(s.snapshots, s.cache, id, asOf, answers) == Some(found)
    case ReadEvents(agg, base) => rows == s.snapshots && LookedUp(s, q, cache, answers, agg, base)
    case ReadRules(agg, base, tail, seen) =>
      && rows == s.snapshots && LookedUp(s, q, cache, answers, agg, base)
      && (base.Some? ==> IsDecimal(base.value.sequenceNumber))
      && tail == TailQuery(s.db.events, id, asOf, base) && seen == |Log(s.db.events, id)|
    case FillState(r, seen) =>
      && rows == s.snapshots && seen == |Log(s.db.events, id)|
      && exists agg, base :: LookedUp(s, q, cache, answers, agg, base)
           && (base.Some? ==> IsDecimal(base.value.sequenceNumber))
           && r == Answer(agg, base, TailQuery(s.db.events, id, asOf, base), CurrentRules(ViewOf(s), agg))
    case Answered(r, _) => rows == s.snapshots && Queried(s, q, cache, answers, r)
    case InsertSnapshot(k, state) =>
      && rows == s.snapshots && q.purpose == MakeSnapshot
      && exists r :: Queried(s, q, cache, answers, r) && r.asOfSequence.Some? && IsDecimal(r.asOfSequence.value)
           && k == ToNat(r.asOfSequence.value) && state == r.state
           && (FindLatest(s.snapshots, id).Some? ==> FindLatest(s.snapshots, id).value.sequenceNumber < k)
    case Invalidate(row) =>
      && q.purpose == MakeSnapshot && SnapshotOf(s, q, answers, NoFault) == Success(Some(row))
      && rows == s.snapshots + [row] && cache == QueryOf(s, q, answers, NoFault).cache
    case _ => exists fault :: Ended(s, q, cache, rows, pc, answers, fault)
  }

  /** The next statement of the call, from one such point to another. */
  ghost predicate Moves(s: State, q: Call, cache: map<string, CacheValue>, rows: seq<Snapshot>, pc: Pc, a: Action,
                        cache': map<string, CacheValue>, rows': seq<Snapshot>, pc': Pc) {
    Enabled(At(s, cache, rows, q, pc), a) && Apply(At(s, cache, rows, q, pc), a) == At(s, cache', rows', q, pc')
  }

  ghost predicate Reached(s: State, q: Call, m: State)
    requires Consistent(ViewOf(s), s.snapshots, s.cache) && ValidAsOf(q.asOf)
  {
    exists cache, rows, pc, answers :: m == At(s, cache, rows, q, pc) && OnTheWay(s, q, cache, rows, pc, answers)
  }

  lemma Arrives(s: State, q: Call, cache: map<string, CacheValue>, rows: seq<Snapshot>, pc: Pc, a: Action,
                cache': map<string, CacheValue>, rows': seq<Snapshot>, pc': Pc, answers: Answers)
    requires Consistent(ViewOf(s), s.snapshots, s.cache) && ValidAsOf(q.asOf)
    requires Moves(s, q, cache, rows, pc, a, cache', rows', pc') && OnTheWay(s, q, cache', rows', pc', answers)
    ensures Reached(s, q, Apply(At(s, cache, rows, q, pc), a))
  {}

  /** A statement for the database does not depend on Redis. */
  lemma SqlGoes(s: State, cache: map<string, CacheValue>, rows: seq<Snapshot>, q: Call, pc: Pc, up: bool,
                cache': map<string, CacheValue>, rows': seq<Snapshot>, pc': Pc)
    requires Goes(s, cache, rows, q, pc, true, cache', rows', pc')
    requires RunsSql(pc) || pc.Answered?
    ensures Goes(s, cache, rows, q, pc, up, cache', rows', pc')
  {
    var m := At(s, cache, rows, q, pc);
    assert m.calls[|s.calls|] == q.(pc := pc);
    assert Next(m, |s.calls|, up) == Next(m, |s.calls|, true);
  }

  lemma FailMoves(s: State, cache: map<string, CacheValue>, rows: seq<Snapshot>, q: Call, pc: Pc)
    requires Enabled(At(s, cache, rows, q, pc), Fail(|s.calls|))
    ensures Moves(s, q, cache, rows, pc, Fail(|s.calls|), cache, rows, Failed)
  {
    GotoAt(s, cache, rows, q, pc, Failed);
  }

  /** A call alone, somewhere on its way. */
  ghost predicate Under(s: State, q: Call) {
    && Inv(s) && Consistent(ViewOf(s), s.snapshots, s.cache) && ValidAsOf(q.asOf)
    && (q.purpose == MakeSnapshot ==> q.asOf == None)
  }

  ghost predicate Steppable(s: State, q: Call, cache: map<string, CacheValue>, rows: seq<Snapshot>, pc: Pc, a: Action,
                            answers: Answers) {
    && Under(s, q) && OnTheWay(s, q, cache, rows, pc, answers) && Enabled(At(s, cache, rows, q, pc), a)
    && Runs(a, |s.calls|)
  }

  // ---- Errors ----

  lemma FailedQueryEnds(s: State, q: Call, cache: map<string, CacheValue>, answers: Answers, fault: Fault)
    requires Under(s, q)
    requires QueryOf(s, q, answers, fault).r.Failure? && cache == QueryOf(s, q, answers, fault).cache
    ensures Ended(s, q, cache, s.snapshots, Failed, answers, fault)
  {}

  /** An error of createSnapshot's own statements comes after its query. */
  lemma LateFaultSparesQuery(s: State, q: Call, answers: Answers, fault: Fault)
    requires Under(s, q) && (fault.CompareFails? || fault.InsertFails?)
    ensures QueryOf(s, q, answers, fault) == QueryOf(s, q, answers, NoFault)
  {
    assert StateEntryGood(ViewOf(s), s.cache, q.aggregateId, q.asOf);
  }

  /** Neither the lookup nor the answer looks at how the delete went. */
  lemma DeleteSparesNearest(s: State, q: Call, answers: Answers, del: bool)
    requires ValidAsOf(q.asOf)
    ensures Nearest(s.snapshots, s.cache, q.aggregateId, q.asOf, answers.(del := del)) ==
            Nearest(s.snapshots, s.cache, q.aggregateId, q.asOf, answers)
    ensures CacheAfterLookup(s.snapshots, s.cache, q.aggregateId, q.asOf, answers.(del := del)) ==
            CacheAfterLookup(s.snapshots, s.cache, q.aggregateId, q.asOf, answers)
  {}

  lemma DeleteSparesMiss(s: State, q: Call, answers: Answers, del: bool)
    requires Under(s, q)
    ensures MissOutcome(ViewOf(s), s.snapshots, s.cache, q.projectId, q.aggregateId, q.asOf, answers.(del := del),
                        NoFault) ==
            MissOutcome(ViewOf(s), s.snapshots, s.cache, q.projectId, q.aggregateId, q.asOf, answers, NoFault)
  {
    DeleteSparesNearest(s, q, answers, del);
    var v, found := ViewOf(s), FindForProject(s.db.aggregates, q.aggregateId, q.projectId);
    if found.Some? {
      MissOfNoError(v, s.snapshots, s.cache, q.projectId, q.aggregateId, q.asOf, answers, NoFault, found.value);
      MissOfNoError(v, s.snapshots, s.cache, q.projectId, q.aggregateId, q.asOf, answers.(del := del),
                    NoFault, found.value);
    }
  }

  lemma DeleteSparesQuery(s: State, q: Call, answers: Answers, del: bool)
    requires Under(s, q)
    ensures QueryOf(s, q, answers.(del := del), NoFault) == QueryOf(s, q, answers, NoFault)
  {
    DeleteSparesMiss(s, q, answers, del);
    assert StateEntryGood(ViewOf(s), s.cache, q.aggregateId, q.asOf);
  }

  lemma FindAggregateFails(s: State, q: Call, answers: Answers)
    requires Under(s, q) && OnTheWay(s, q, s.cache, s.snapshots, FindAggregate, answers)
    ensures OnTheWay(s, q, s.cache, s.snapshots, Failed, answers)
  {
    FailedQueryEnds(s, q, s.cache, answers, AggregateFails(""));
  }

  lemma FindSnapshotFails(s: State, q: Call, agg: Aggregate, answers: Answers)
    requires Under(s, q) && OnTheWay(s, q, s.cache, s.snapshots, FindSnapshot(agg), answers)
    ensures OnTheWay(s, q, s.cache, s.snapshots, Failed, answers)
  {
    FailedQueryEnds(s, q, s.cache, answers, LookupFails(""));
  }

  lemma ReadFails(s: State, q: Call, cache: map<string, CacheValue>, agg: Aggregate, base: Option<Lookup>,
                  answers: Answers, fault: Fault)
    requires Under(s, q) && LookedUp(s, q, cache, answers, agg, base) && (fault.EventsFail? || fault.RulesFail?)
    ensures OnTheWay(s, q, cache, s.snapshots, Failed, answers)
  {
    MissOutcomeOfError(ViewOf(s), s.snapshots, s.cache, q.projectId, q.aggregateId, q.asOf, answers, fault);
    FailedQueryEnds(s, q, cache, answers, fault);
  }

  lemma CompareFailsEnds(s: State, q: Call, cache: map<string, CacheValue>, r: StateResult, answers: Answers)
    requires Under(s, q) && q.purpose == MakeSnapshot && Queried(s, q, cache, answers, r) && r.asOfSequence.Some?
    ensures OnTheWay(s, q, cache, s.snapshots, Failed, answers)
  {
    LateFaultSparesQuery(s, q, answers, CompareFails(""));
    assert Ended(s, q, cache, s.snapshots, Failed, answers, CompareFails(""));
  }

  /** What createSnapshot makes of an answered query. */
  lemma SnapshotOfQueried(s: State, q: Call, cache: map<string, CacheValue>, r: StateResult, answers: Answers,
                          fault: Fault)
    requires Under(s, q) && q.purpose == MakeSnapshot && Queried(s, q, cache, answers, r)
    requires fault.NoFault? || fault.InsertFails?
    ensures r.asOfSequence.Some? ==> IsDecimal(r.asOfSequence.value)
    ensures SnapshotOf(s, q, answers, fault) ==
            if r.asOfSequence.None? then Success(None)
            else StoreOutcome(s.db.aggregates, s.snapshots, q.projectId, q.aggregateId, ToNat(r.asOfSequence.value),
                              r.state, fault)
  {
    if fault.InsertFails? { LateFaultSparesQuery(s, q, answers, fault); }
    QueryOutcomeIsGood(ViewOf(s), s.snapshots, s.cache, q.projectId, q.aggregateId, None, answers, fault);
    LatestLabelIsDecimal(ViewOf(s), q.aggregateId, r);
  }

  /** A call about to insert has compared, and what is left is the insert. */
  lemma SnapshotOfInserting(s: State, q: Call, cache: map<string, CacheValue>, k: nat, state: JsonObject,
                            answers: Answers)
    requires Under(s, q) && OnTheWay(s, q, cache, s.snapshots, InsertSnapshot(k, state), answers)
    ensures cache == QueryOf(s, q, answers, NoFault).cache == QueryOf(s, q, answers, InsertFails("")).cache
    ensures SnapshotOf(s, q, answers, NoFault) ==
            InsertOutcome(s.db.aggregates, s.snapshots, Snapshot(q.aggregateId, q.projectId, k, state))
    ensures SnapshotOf(s, q, answers, InsertFails("")).Failure?
  {
    var r :| Queried(s, q, cache, answers, r) && r.asOfSequence.Some? && IsDecimal(r.asOfSequence.value)
             && k == ToNat(r.asOfSequence.value) && state == r.state;
    LateFaultSparesQuery(s, q, answers, InsertFails(""));
    SnapshotOfQueried(s, q, cache, r, answers, NoFault);
    SnapshotOfQueried(s, q, cache, r, answers, InsertFails(""));
  }

  lemma InsertFailsEnds(s: State, q: Call, cache: map<string, CacheValue>, k: nat, state: JsonObject, answers: Answers)
    requires Under(s, q) && OnTheWay(s, q, cache, s.snapshots, InsertSnapshot(k, state), answers)
    ensures OnTheWay(s, q, cache, s.snapshots, Failed, answers)
  {
    SnapshotOfInserting(s, q, cache, k, state, answers);
    assert Ended(s, q, cache, s.snapshots, Failed, answers, InsertFails(""));
  }

  lemma FailArrives(s: State, q: Call, cache: map<string, CacheValue>, rows: seq<Snapshot>, pc: Pc, answers: Answers)
    requires Steppable(s, q, cache, rows, pc, Fail(|s.calls|), answers)
    ensures Reached(s, q, Apply(At(s, cache, rows, q, pc), Fail(|s.calls|)))
  {
    assert At(s, cache, rows, q, pc).calls[|s.calls|] == q.(pc := pc);
    match pc {
      case FindAggregate => FindAggregateFails(s, q, answers);
      case FindSnapshot(agg) => FindSnapshotFails(s, q, agg, answers);
      case ReadEvents(agg, base) => ReadFails(s, q, cache, agg, base, answers, EventsFail(""));
      case ReadRules(agg, base, _, _) => ReadFails(s, q, cache, agg, base, answers, RulesFail(""));
      case Answered(r, _) => CompareFailsEnds(s, q, cache, r, answers);
      case InsertSnapshot(k, state) => InsertFailsEnds(s, q, cache, k, state, answers);
      case _ =>
    }
    FailMoves(s, cache, rows, q, pc);
    Arrives(s, q, cache, rows, pc, Fail(|s.calls|), cache, rows, Failed, answers);
  }

  // ---- The query, statement by statement ----

  lemma CheckCacheArrives(s: State, q: Call, cache: map<string, CacheValue>, rows: seq<Snapshot>, answers: Answers,
                          up: bool)
    requires Steppable(s, q, cache, rows, CheckCache, Advance(|s.calls|, up), answers)
    ensures Reached(s, q, Apply(At(s, cache, rows, q, CheckCache), Advance(|s.calls|, up)))
  {
    assert cache == s.cache && rows == s.snapshots;
    var now, key := answers.(getState := up), StateKey(q.aggregateId, q.asOf);
    assert StateEntryGood(ViewOf(s), s.cache, q.aggregateId, q.asOf);
    ChecksCache(s, q, up);
    var pc' := if up && key in s.cache then Answered(s.cache[key].result, s.cache[key].seen) else FindAggregate;
    assert OnTheWay(s, q, s.cache, s.snapshots, pc', now) by {
      if up && key in s.cache { assert Queried(s, q, s.cache, now, s.cache[key].result); }
    }
    Arrives(s, q, s.cache, s.snapshots, CheckCache, Advance(|s.calls|, up), s.cache, s.snapshots, pc', now);
  }

  lemma FindAggregateArrives(s: State, q: Call, cache: map<string, CacheValue>, rows: seq<Snapshot>, answers: Answers,
                             up: bool)
    requires Steppable(s, q, cache, rows, FindAggregate, Advance(|s.calls|, up), answers)
    ensures Reached(s, q, Apply(At(s, cache, rows, q, FindAggregate), Advance(|s.calls|, up)))
  {
    assert cache == s.cache && rows == s.snapshots;
    var found := FindForProject(s.db.aggregates, q.aggregateId, q.projectId);
    var pc' := if found.Some? then CheckLookup(found.value) else Failed;
    FindsAggregate(s, q);
    SqlGoes(s, s.cache, s.snapshots, q, FindAggregate, up, s.cache, s.snapshots, pc');
    if found.None? { FailedQueryEnds(s, q, s.cache, answers, NoFault); }
    Arrives(s, q, s.cache, s.snapshots, FindAggregate, Advance(|s.calls|, up), s.cache, s.snapshots, pc', answers);
  }

  lemma CheckLookupArrives(s: State, q: Call, cache: map<string, CacheValue>, rows: seq<Snapshot>, agg: Aggregate,
                           answers: Answers, up: bool)
    requires Steppable(s, q, cache, rows, CheckLookup(agg), Advance(|s.calls|, up), answers)
    ensures Reached(s, q, Apply(At(s, cache, rows, q, CheckLookup(agg)), Advance(|s.calls|, up)))
  {
    assert cache == s.cache && rows == s.snapshots;
    var now, key := answers.(getLookup := up), LookupKey(q.aggregateId, q.asOf);
    assert LookupEntryGood(ViewOf(s), s.cache, q.aggregateId, q.asOf);
    ChecksLookup(s, q, agg, up);
    var pc' := if up && key in s.cache then ReadEvents(agg, Some(s.cache[key].lookup)) else FindSnapshot(agg);
    Arrives(s, q, s.cache, s.snapshots, CheckLookup(agg), Advance(|s.calls|, up), s.cache, s.snapshots, pc', now);
  }

  lemma FindSnapshotArrives(s: State, q: Call, cache: map<string, CacheValue>, rows: seq<Snapshot>, agg: Aggregate,
                            answers: Answers, up: bool)
    requires Steppable(s, q, cache, rows, FindSnapshot(agg), Advance(|s.calls|, up), answers)
    ensures Reached(s, q, Apply(At(s, cache, rows, q, FindSnapshot(agg)), Advance(|s.calls|, up)))
  {
    assert cache == s.cache && rows == s.snapshots;
    var row := FindLatestUpTo(s.snapshots, q.aggregateId, Bound(q.asOf));
    var pc' := if row.None? then ReadEvents(agg, None)
               else FillLookup(agg, Lookup(ToString(row.value.sequenceNumber), row.value.state));
    FindsSnapshot(s, q, agg);
    SqlGoes(s, s.cache, s.snapshots, q, FindSnapshot(agg), up, s.cache, s.snapshots, pc');
    Arrives(s, q, s.cache, s.snapshots, FindSnapshot(agg), Advance(|s.calls|, up), s.cache, s.snapshots, pc', answers);
  }

  lemma FillLookupArrives(s: State, q: Call, cache: map<string, CacheValue>, rows: seq<Snapshot>, agg: Aggregate,
                          found: Lookup, answers: Answers, up: bool)
    requires Steppable(s, q, cache, rows, FillLookup(agg, found), Advance(|s.calls|, up), answers)
    ensures Reached(s, q, Apply(At(s, cache, rows, q, FillLookup(agg, found)), Advance(|s.calls|, up)))
  {
    assert cache == s.cache && rows == s.snapshots;
    var now := answers.(setLookup := up);
    FillsLookup(s, q, agg, found, up);
    Arrives(s, q, s.cache, s.snapshots, FillLookup(agg, found), Advance(|s.calls|, up),
            CacheAfterLookup(s.snapshots, s.cache, q.aggregateId, q.asOf, now), s.snapshots,
            ReadEvents(agg, Some(found)), now);
  }

  lemma ReadEventsArrives(s: State, q: Call, cache: map<string, CacheValue>, rows: seq<Snapshot>, agg: Aggregate,
                          base: Option<Lookup>, answers: Answers, up: bool)
    requires Steppable(s, q, cache, rows, ReadEvents(agg, base), Advance(|s.calls|, up), answers)
    ensures Reached(s, q, Apply(At(s, cache, rows, q, ReadEvents(agg, base)), Advance(|s.calls|, up)))
  {
    assert rows == s.snapshots;
    NearestIsGood(ViewOf(s), s.snapshots, s.cache, q.aggregateId, q.asOf, answers);
    var pc' := ReadRules(agg, base, TailQuery(s.db.events, q.aggregateId, q.asOf, base),
                         |Log(s.db.events, q.aggregateId)|);
    ReadsEvents(s, cache, q, agg, base);
    SqlGoes(s, cache, s.snapshots, q, ReadEvents(agg, base), up, cache, s.snapshots, pc');
    Arrives(s, q, cache, s.snapshots, ReadEvents(agg, base), Advance(|s.calls|, up), cache, s.snapshots, pc', answers);
  }

  lemma ReadRulesArrives(s: State, q: Call, cache: map<string, CacheValue>, rows: seq<Snapshot>, agg: Aggregate,
                         base: Option<Lookup>, tail: seq<Event>, seen: nat, answers: Answers, up: bool)
    requires Steppable(s, q, cache, rows, ReadRules(agg, base, tail, seen), Advance(|s.calls|, up), answers)
    ensures Reached(s, q, Apply(At(s, cache, rows, q, ReadRules(agg, base, tail, seen)), Advance(|s.calls|, up)))
  {
    assert rows == s.snapshots;
    var pc' := FillState(Answer(agg, base, tail, CurrentRules(ViewOf(s), agg)), seen);
    ReadsRules(s, cache, q, agg, base, tail, seen);
    SqlGoes(s, cache, s.snapshots, q, ReadRules(agg, base, tail, seen), up, cache, s.snapshots, pc');
    assert LookedUp(s, q, cache, answers, agg, base);
    Arrives(s, q, cache, s.snapshots, ReadRules(agg, base, tail, seen), Advance(|s.calls|, up), cache, s.snapshots,
            pc', answers);
  }

  lemma FilledIsQueried(s: State, q: Call, cache: map<string, CacheValue>, agg: Aggregate, base: Option<Lookup>,
                        r: StateResult, answers: Answers, up: bool)
    requires Under(s, q) && LookedUp(s, q, cache, answers, agg, base)
    requires base.Some? ==> IsDecimal(base.value.sequenceNumber)
    requires r == Answer(agg, base, TailQuery(s.db.events, q.aggregateId, q.asOf, base), CurrentRules(ViewOf(s), agg))
    ensures var filled := if up then cache[StateKey(q.aggregateId, q.asOf) :=
                                           StateValue(r, |Log(s.db.events, q.aggregateId)|)]
                          else cache;
            Queried(s, q, filled, answers.(setState := up), r)
  {
    MissOfNoError(ViewOf(s), s.snapshots, s.cache, q.projectId, q.aggregateId, q.asOf, answers.(setState := up),
                  NoFault, agg);
  }

  lemma FillingIsQueried(s: State, q: Call, cache: map<string, CacheValue>, rows: seq<Snapshot>, r: StateResult,
                         seen: nat, answers: Answers, up: bool)
    requires Under(s, q) && OnTheWay(s, q, cache, rows, FillState(r, seen), answers)
    ensures rows == s.snapshots
    ensures var filled := if up then cache[StateKey(q.aggregateId, q.asOf) := StateValue(r, seen)] else cache;
            Queried(s, q, filled, answers.(setState := up), r)
  {
    var agg, base :|
      && LookedUp(s, q, cache, answers, agg, base)
      && (base.Some? ==> IsDecimal(base.value.sequenceNumber))
      && r == Answer(agg, base, TailQuery(s.db.events, q.aggregateId, q.asOf, base), CurrentRules(ViewOf(s), agg));
    FilledIsQueried(s, q, cache, agg, base, r, answers, up);
  }

  lemma FillStateArrives(s: State, q: Call, cache: map<string, CacheValue>, rows: seq<Snapshot>, r: StateResult,
                         seen: nat, answers: Answers, up: bool)
    requires Steppable(s, q, cache, rows, FillState(r, seen), Advance(|s.calls|, up), answers)
    ensures Reached(s, q, Apply(At(s, cache, rows, q, FillState(r, seen)), Advance(|s.calls|, up)))
  {
    FillingIsQueried(s, q, cache, rows, r, seen, answers, up);
    FillsState(s, cache, q, r, seen, up);
    Arrives(s, q, cache, s.snapshots, FillState(r, seen), Advance(|s.calls|, up),
            if up then cache[StateKey(q.aggregateId, q.asOf) := StateValue(r, seen)] else cache, s.snapshots,
            Answered(r, seen), answers.(setState := up));
  }

  // ---- createSnapshot's own statements ----

  lemma EndedIsOnTheWay(s: State, q: Call, cache: map<string, CacheValue>, rows: seq<Snapshot>, pc: Pc,
                        answers: Answers, fault: Fault)
    requires Under(s, q) && Ended(s, q, cache, rows, pc, answers, fault) && (pc.Failed? || pc.Snapshotted?)
    ensures OnTheWay(s, q, cache, rows, pc, answers)
  {}

  lemma StoredNothingEnds(s: State, q: Call, cache: map<string, CacheValue>, answers: Answers,
                          r: Result<Option<Snapshot>, Error>)
    requires Under(s, q) && q.purpose == MakeSnapshot && cache == QueryOf(s, q, answers, NoFault).cache
    requires SnapshotOf(s, q, answers, NoFault) == r && (r.Failure? || r.value.None?)
    ensures Ended(s, q, cache, s.snapshots, if r.Failure? then Failed else Snapshotted(None), answers, NoFault)
  {}

  lemma StoppedIsOnTheWay(s: State, q: Call, cache: map<string, CacheValue>, answers: Answers,
                          r: Result<Option<Snapshot>, Error>)
    requires Under(s, q) && q.purpose == MakeSnapshot && cache == QueryOf(s, q, answers, NoFault).cache
    requires SnapshotOf(s, q, answers, NoFault) == r && (r.Failure? || r.value.None?)
    ensures OnTheWay(s, q, cache, s.snapshots, if r.Failure? then Failed else Snapshotted(None), answers)
  {
    StoredNothingEnds(s, q, cache, answers, r);
    EndedIsOnTheWay(s, q, cache, s.snapshots, if r.Failure? then Failed else Snapshotted(None), answers, NoFault);
  }

  lemma ComparedIsOnTheWay(s: State, q: Call, cache: map<string, CacheValue>, r: StateResult, answers: Answers)
    requires Under(s, q) && q.purpose == MakeSnapshot && Queried(s, q, cache, answers, r)
    ensures r.asOfSequence.Some? ==> IsDecimal(r.asOfSequence.value)
    ensures var k := if r.asOfSequence.Some? then ToNat(r.asOfSequence.value) else 0;
            var latest := FindLatest(s.snapshots, q.aggregateId);
            if r.asOfSequence.None? || (latest.Some? && latest.value.sequenceNumber >= k)
            then OnTheWay(s, q, cache, s.snapshots, Snapshotted(None), answers)
            else OnTheWay(s, q, cache, s.snapshots, InsertSnapshot(k, r.state), answers)
  {
    SnapshotOfQueried(s, q, cache, r, answers, NoFault);
    var k := if r.asOfSequence.Some? then ToNat(r.asOfSequence.value) else 0;
    var latest := FindLatest(s.snapshots, q.aggregateId);
    if r.asOfSequence.None? || (latest.Some? && latest.value.sequenceNumber >= k) {
      StoppedIsOnTheWay(s, q, cache, answers, Success(None));
    }
  }

  lemma AnsweredArrives(s: State, q: Call, cache: map<string, CacheValue>, rows: seq<Snapshot>, r: StateResult,
                        seen: nat, answers: Answers, up: bool)
    requires Steppable(s, q, cache, rows, Answered(r, seen), Advance(|s.calls|, up), answers)
    requires q.purpose == MakeSnapshot
    ensures Reached(s, q, Apply(At(s, cache, rows, q, Answered(r, seen)), Advance(|s.calls|, up)))
  {
    assert rows == s.snapshots;
    ComparedIsOnTheWay(s, q, cache, r, answers);
    var k := if r.asOfSequence.Some? then ToNat(r.asOfSequence.value) else 0;
    var latest := FindLatest(s.snapshots, q.aggregateId);
    var pc' := if r.asOfSequence.None? || (latest.Some? && latest.value.sequenceNumber >= k) then Snapshotted(None)
               else InsertSnapshot(k, r.state);
    Compares(s, cache, q, r, seen);
    SqlGoes(s, cache, s.snapshots, q, Answered(r, seen), up, cache, s.snapshots, pc');
    Arrives(s, q, cache, s.snapshots, Answered(r, seen), Advance(|s.calls|, up), cache, s.snapshots, pc', answers);
  }

  lemma TriedIsOnTheWay(s: State, q: Call, cache: map<string, CacheValue>, k: nat, state: JsonObject, answers: Answers)
    requires Under(s, q) && OnTheWay(s, q, cache, s.snapshots, InsertSnapshot(k, state), answers)
    ensures var row := Snapshot(q.aggregateId, q.projectId, k, state);
            var r := InsertOutcome(s.db.aggregates, s.snapshots, row);
            if r.Failure? then OnTheWay(s, q, cache, s.snapshots, Failed, answers)
            else if r.value.None? then OnTheWay(s, q, cache, s.snapshots, Snapshotted(None), answers)
            else OnTheWay(s, q, cache, s.snapshots + [row], Invalidate(row), answers)
  {
    SnapshotOfInserting(s, q, cache, k, state, answers);
    var r := InsertOutcome(s.db.aggregates, s.snapshots, Snapshot(q.aggregateId, q.projectId, k, state));
    if r.Failure? || r.value.None? {
      StoppedIsOnTheWay(s, q, cache, answers, r);
    }
  }

  lemma InsertArrives(s: State, q: Call, cache: map<string, CacheValue>, rows: seq<Snapshot>, k: nat,
                      state: JsonObject, answers: Answers, up: bool)
    requires Steppable(s, q, cache, rows, InsertSnapshot(k, state), Advance(|s.calls|, up), answers)
    ensures Reached(s, q, Apply(At(s, cache, rows, q, InsertSnapshot(k, state)), Advance(|s.calls|, up)))
  {
    assert rows == s.snapshots;
    var row := Snapshot(q.aggregateId, q.projectId, k, state);
    var inserted := InsertOutcome(s.db.aggregates, s.snapshots, row);
    var pc' := if inserted.Failure? then Failed else if inserted.value.None? then Snapshotted(None)
      else Invalidate(row);
    TriedIsOnTheWay(s, q, cache, k, state, answers);
    Inserts(s, cache, q, k, state);
    SqlGoes(s, cache, s.snapshots, q, InsertSnapshot(k, state), up, cache, RowsAfter(s.snapshots, inserted), pc');
    Arrives(s, q, cache, s.snapshots, InsertSnapshot(k, state), Advance(|s.calls|, up),
            cache, RowsAfter(s.snapshots, inserted), pc', answers);
  }

  lemma DeleteSparesSnapshot(s: State, q: Call, answers: Answers, del: bool)
    requires Under(s, q) && q.purpose == MakeSnapshot
    ensures SnapshotOf(s, q, answers.(del := del), NoFault) == SnapshotOf(s, q, answers, NoFault)
  {
    DeleteSparesQuery(s, q, answers, del);
  }

  lemma InvalidatedEnds(s: State, q: Call, cache: map<string, CacheValue>, rows: seq<Snapshot>, row: Snapshot,
                        answers: Answers, up: bool)
    requires Under(s, q) && OnTheWay(s, q, cache, rows, Invalidate(row), answers)
    ensures var left := if up then cache - {LatestStateKey(q.aggregateId), LatestLookupKey(q.aggregateId)} else cache;
            Ended(s, q, left, rows, Snapshotted(Some(row)), answers.(del := up), NoFault)
  {
    DeleteSparesQuery(s, q, answers, up);
    DeleteSparesSnapshot(s, q, answers, up);
  }

  lemma InvalidateArrives(s: State, q: Call, cache: map<string, CacheValue>, rows: seq<Snapshot>, row: Snapshot,
                          answers: Answers, up: bool)
    requires Steppable(s, q, cache, rows, Invalidate(row), Advance(|s.calls|, up), answers)
    ensures Reached(s, q, Apply(At(s, cache, rows, q, Invalidate(row)), Advance(|s.calls|, up)))
  {
    var now := answers.(del := up);
    var left := if up then cache - {LatestStateKey(q.aggregateId), LatestLookupKey(q.aggregateId)} else cache;
    InvalidatedEnds(s, q, cache, rows, row, answers, up);
    Invalidates(s, cache, rows, q, row, up);
    Arrives(s, q, cache, rows, Invalidate(row), Advance(|s.calls|, up), left, rows, Snapshotted(Some(row)), now);
  }

  // ---- Every run alone ----

  predicate IsQuerying(pc: Pc) {
    !pc.Answered? && !pc.InsertSnapshot? && !pc.Invalidate? && !pc.Snapshotted? && !pc.Failed?
  }

  lemma QueryArrives(s: State, q: Call, cache: map<string, CacheValue>, rows: seq<Snapshot>, pc: Pc, answers: Answers,
                     up: bool)
    requires Steppable(s, q, cache, rows, pc, Advance(|s.calls|, up), answers) && IsQuerying(pc)
    ensures Reached(s, q, Apply(At(s, cache, rows, q, pc), Advance(|s.calls|, up)))
  {
    match pc
    case CheckCache => CheckCacheArrives(s, q, cache, rows, answers, up);
    case FindAggregate => FindAggregateArrives(s, q, cache, rows, answers, up);
    case CheckLookup(agg) => CheckLookupArrives(s, q, cache, rows, agg, answers, up);
    case FindSnapshot(agg) => FindSnapshotArrives(s, q, cache, rows, agg, answers, up);
    case FillLookup(agg, found) => FillLookupArrives(s, q, cache, rows, agg, found, answers, up);
    case ReadEvents(agg, base) => ReadEventsArrives(s, q, cache, rows, agg, base, answers, up);
    case ReadRules(agg, base, tail, seen) => ReadRulesArrives(s, q, cache, rows, agg, base, tail, seen, answers, up);
    case FillState(r, seen) => FillStateArrives(s, q, cache, rows, r, seen, answers, up);
  }

  /** A call that can go on after its query is a createSnapshot. */
  lemma UnfinishedStores(s: State, q: Call, cache: map<string, CacheValue>, rows: seq<Snapshot>, pc: Pc, up: bool)
    requires Enabled(At(s, cache, rows, q, pc), Advance(|s.calls|, up))
    ensures !pc.Snapshotted? && !pc.Failed? && (pc.Answered? ==> q.purpose == MakeSnapshot)
  {
    assert At(s, cache, rows, q, pc).calls[|s.calls|] == q.(pc := pc);
  }

  lemma AdvanceArrives(s: State, q: Call, cache: map<string, CacheValue>, rows: seq<Snapshot>, pc: Pc,
                       answers: Answers, up: bool)
    requires Steppable(s, q, cache, rows, pc, Advance(|s.calls|, up), answers)
    ensures Reached(s, q, Apply(At(s, cache, rows, q, pc), Advance(|s.calls|, up)))
  {
    UnfinishedStores(s, q, cache, rows, pc, up);
    if IsQuerying(pc) {
      QueryArrives(s, q, cache, rows, pc, answers, up);
    } else if pc.Answered? {
      AnsweredArrives(s, q, cache, rows, pc.result, pc.seen, answers, up);
    } else if pc.InsertSnapshot? {
      InsertArrives(s, q, cache, rows, pc.sequenceNumber, pc.state, answers, up);
    } else {
      InvalidateArrives(s, q, cache, rows, pc.row, answers, up);
    }
  }

  lemma {:induction false} RunArrives(s: State, q: Call, m: State, actions: seq<Action>, s': State)
    requires Under(s, q) && Reached(s, q, m) && Steps(m, actions, s')
    requires forall i :: 0 <= i < |actions| ==> Runs(actions[i], |s.calls|)
    ensures Reached(s, q, s')
    decreases |actions|
  {
    if actions != [] {
      var cache, rows, pc, answers :| m == At(s, cache, rows, q, pc) && OnTheWay(s, q, cache, rows, pc, answers);
      match actions[0] {
        case Advance(_, up) => AdvanceArrives(s, q, cache, rows, pc, answers, up);
        case Fail(_) => FailArrives(s, q, cache, rows, pc, answers);
        case _ =>
      }
      RunArrives(s, q, Apply(m, actions[0]), actions[1..], s');
    }
  }

  /** Every run of a call alone, from its start until it is done, whatever Redis answers and
      whichever statement fails, ends with the result, the error, the rows and the cache that the
      service's function gives for some answers and some error. */
  lemma EveryRunAloneEnds(s: State, q: Call, actions: seq<Action>, s': State) returns (answers: Answers, fault: Fault)
    requires Inv(s) && ValidAsOf(q.asOf) && (q.purpose == MakeSnapshot ==> q.asOf == None)
    requires Steps(s, [Start(q.projectId, q.aggregateId, q.asOf, q.purpose)] + actions, s')
    requires forall i :: 0 <= i < |actions| ==> Runs(actions[i], |s.calls|)
    requires |s'.calls| == |s.calls| + 1 && s'.calls[|s.calls|].Done()
    ensures Consistent(ViewOf(s), s.snapshots, s.cache)
    ensures s' == At(s, s'.cache, s'.snapshots, q, s'.calls[|s.calls|].pc)
    ensures Ended(s, q, s'.cache, s'.snapshots, s'.calls[|s.calls|].pc, answers, fault)
  {
    InvIsConsistent(s);
    var start := Start(q.projectId, q.aggregateId, q.asOf, q.purpose);
    var m := At(s, s.cache, s.snapshots, q, CheckCache);
    assert Apply(s, start) == m;
    assert ([start] + actions)[1..] == actions;
    assert OnTheWay(s, q, s.cache, s.snapshots, CheckCache, ALL_DOWN);
    RunArrives(s, q, m, actions, s');
    answers, fault := EndOf(s, q, s');
  }

  const ALL_DOWN := Answers(false, false, false, false, false)

  lemma EndOf(s: State, q: Call, s': State) returns (answers: Answers, fault: Fault)
    requires Under(s, q) && Reached(s, q, s') && s'.calls[|s.calls|].Done()
    ensures s' == At(s, s'.cache, s'.snapshots, q, s'.calls[|s.calls|].pc)
    ensures Ended(s, q, s'.cache, s'.snapshots, s'.calls[|s.calls|].pc, answers, fault)
  {
    var cache, rows, pc, now :| s' == At(s, cache, rows, q, pc) && OnTheWay(s, q, cache, rows, pc, now);
    assert s'.calls[|s.calls|] == q.(pc := pc);
    if pc.Answered? {
      answers, fault := now, NoFault;
    } else {
      answers := now;
      fault :| Ended(s, q, cache, rows, pc, now, fault);
    }
  }
}
