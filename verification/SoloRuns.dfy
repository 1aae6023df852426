/** Where the step system and the services meet: a call, or an append, whose statements run with
    nothing in between ends with what the service's method promises. */
module SoloRuns {
  import opened Values
  import opened CacheKeys
  import opened Tables
  import opened Consistency
  import opened Freshness
  import opened Databases
  import opened Aggregates
  import opened Snapshots
  import opened Interleaving
  import opened PrefixConsistency

  // ---- Runs of one call ----

  /** An action of call c alone; in a calm run every Redis command is answered and no database
      statement fails. */
  predicate OfCall(a: Action, c: nat, calm: bool) {
    match a
    case Start(_, _, _, _) => true
    case Advance(d, redisUp) => d == c && (calm ==> redisUp)
    case Fail(d) => d == c && !calm
    case _ => false
  }

  ghost predicate RunsAlone(s: State, s': State, c: nat, calm: bool) {
    exists actions: seq<Action> :: Steps(s, actions, s') && forall i :: 0 <= i < |actions| ==>
        OfCall(actions[i], c, calm)
  }

  lemma AloneOn(s: State, m: State, a: Action, c: nat, calm: bool)
    requires RunsAlone(s, m, c, calm) && Enabled(m, a) && OfCall(a, c, calm)
    ensures RunsAlone(s, Apply(m, a), c, calm)
  {
    var actions: seq<Action> :| Steps(s, actions, m) && forall i :: 0 <= i < |actions| ==> OfCall(actions[i], c, calm);
    StepsExtend(s, actions, m, a);
    var longer := actions + [a];
    assert forall i :: 0 <= i < |longer| ==> OfCall(longer[i], c, calm);
  }

  predicate Calm(answers: Answers, fault: Fault) {
    fault.NoFault? && answers.getState && answers.getLookup && answers.setLookup && answers.setState && answers.del
  }

  /** `s` with one more call in flight, and what the call has made of the cache and the rows. */
  function At(s: State, cache: map<string, CacheValue>, rows: seq<Snapshot>, q: Call, pc: Pc): State {
    s.(cache := cache, snapshots := rows, calls := s.calls + [q.(pc := pc)])
  }

  /** The next statement of the call leads from one such state to another. */
  predicate Goes(s: State, cache: map<string, CacheValue>, rows: seq<Snapshot>, q: Call, pc: Pc, up: bool,
                 cache': map<string, CacheValue>, rows': seq<Snapshot>, pc': Pc) {
    && Enabled(At(s, cache, rows, q, pc), Advance(|s.calls|, up))
    && Apply(At(s, cache, rows, q, pc), Advance(|s.calls|, up)) == At(s, cache', rows', q, pc')
  }

  lemma GotoAt(s: State, cache: map<string, CacheValue>, rows: seq<Snapshot>, q: Call, pc: Pc, pc': Pc)
    ensures Goto(At(s, cache, rows, q, pc), |s.calls|, pc') == At(s, cache, rows, q, pc')
  {}

  lemma GoesOn(s: State, cache: map<string, CacheValue>, rows: seq<Snapshot>, q: Call, pc: Pc, up: bool,
               cache': map<string, CacheValue>, rows': seq<Snapshot>, pc': Pc, calm: bool)
    requires RunsAlone(s, At(s, cache, rows, q, pc), |s.calls|, calm) && (calm ==> up)
    requires Goes(s, cache, rows, q, pc, up, cache', rows', pc')
    ensures RunsAlone(s, At(s, cache', rows', q, pc'), |s.calls|, calm)
  {
    AloneOn(s, At(s, cache, rows, q, pc), Advance(|s.calls|, up), |s.calls|, calm);
  }

  lemma Fails(s: State, cache: map<string, CacheValue>, rows: seq<Snapshot>, q: Call, pc: Pc)
    requires RunsAlone(s, At(s, cache, rows, q, pc), |s.calls|, false)
    requires RunsSql(pc) && !q.(pc := pc).Done()
    ensures RunsAlone(s, At(s, cache, rows, q, Failed), |s.calls|, false)
  {
    var m := At(s, cache, rows, q, pc);
    AloneOn(s, m, Fail(|s.calls|), |s.calls|, false);
    assert Apply(m, Fail(|s.calls|)) == At(s, cache, rows, q, Failed);
  }

  lemma Starts(s: State, q: Call, calm: bool)
    requires ValidAsOf(q.asOf) && (q.purpose == MakeSnapshot ==> q.asOf == None)
    ensures RunsAlone(s, At(s, s.cache, s.snapshots, q, CheckCache), |s.calls|, calm)
  {
    assert Steps(s, [], s);
    assert RunsAlone(s, s, |s.calls|, calm);
    AloneOn(s, s, Start(q.projectId, q.aggregateId, q.asOf, q.purpose), |s.calls|, calm);
    assert Apply(s, Start(q.projectId, q.aggregateId, q.asOf, q.purpose)) == At(s, s.cache, s.snapshots, q, CheckCache);
  }

  // ---- Statement by statement ----

  lemma ChecksCache(s: State, q: Call, up: bool)
    requires Inv(s) && ValidAsOf(q.asOf)
    ensures var key := StateKey(q.aggregateId, q.asOf);
            Goes(s, s.cache, s.snapshots, q, CheckCache, up, s.cache, s.snapshots,
                 if up && key in s.cache && s.cache[key].StateValue?
                   then Answered(s.cache[key].result, s.cache[key].seen) else FindAggregate)
  {
    assert StateEntryGood(ViewOf(s), s.cache, q.aggregateId, q.asOf);
  }

  lemma FindsAggregate(s: State, q: Call)
    requires Inv(s) && ValidAsOf(q.asOf)
    ensures var found := FindForProject(s.db.aggregates, q.aggregateId, q.projectId);
            Goes(s, s.cache, s.snapshots, q, FindAggregate, true, s.cache, s.snapshots,
                 if found.Some? then CheckLookup(found.value) else Failed)
  {}

  lemma ChecksLookup(s: State, q: Call, agg: Aggregate, up: bool)
    requires Inv(s) && ValidAsOf(q.asOf)
    ensures var key := LookupKey(q.aggregateId, q.asOf);
            Goes(s, s.cache, s.snapshots, q, CheckLookup(agg), up, s.cache, s.snapshots,
                 if up && key in s.cache && s.cache[key].LookupValue? then ReadEvents(agg, Some(s.cache[key].lookup))
                   else FindSnapshot(agg))
  {
    assert LookupEntryGood(ViewOf(s), s.cache, q.aggregateId, q.asOf);
  }

  lemma FindsSnapshot(s: State, q: Call, agg: Aggregate)
    requires Inv(s) && ValidAsOf(q.asOf)
    ensures var row := FindLatestUpTo(s.snapshots, q.aggregateId, Bound(q.asOf));
            Goes(s, s.cache, s.snapshots, q, FindSnapshot(agg), true, s.cache, s.snapshots,
                 if row.None? then ReadEvents(agg, None)
                 else FillLookup(agg, Lookup(ToString(row.value.sequenceNumber), row.value.state)))
  {
    var row := FindLatestUpTo(s.snapshots, q.aggregateId, Bound(q.asOf));
    var m, pc := At(s, s.cache, s.snapshots, q, FindSnapshot(agg)),
                 if row.None? then ReadEvents(agg, None)
                 else FillLookup(agg, Lookup(ToString(row.value.sequenceNumber), row.value.state));
    assert m.calls[|s.calls|] == q.(pc := FindSnapshot(agg));
    assert Next(m, |s.calls|, true) == Goto(m, |s.calls|, pc);
    GotoAt(s, s.cache, s.snapshots, q, FindSnapshot(agg), pc);
  }

  lemma FillsLookup(s: State, q: Call, agg: Aggregate, found: Lookup, up: bool)
    requires Inv(s) && ValidAsOf(q.asOf)
    ensures Goes(s, s.cache, s.snapshots, q, FillLookup(agg, found), up,
                 if up then s.cache[LookupKey(q.aggregateId, q.asOf) := LookupValue(found)] else s.cache, s.snapshots,
                 ReadEvents(agg, Some(found)))
  {}

  lemma ReadsEvents(s: State, cache: map<string, CacheValue>, q: Call, agg: Aggregate, base: Option<Lookup>)
    requires Inv(s) && ValidAsOf(q.asOf)
    requires base.Some? ==> IsDecimal(base.value.sequenceNumber)
    ensures Goes(s, cache, s.snapshots, q, ReadEvents(agg, base), true, cache, s.snapshots,
                 ReadRules(agg, base, TailQuery(s.db.events, q.aggregateId, q.asOf, base),
                           |Log(s.db.events, q.aggregateId)|))
  {
    GotoAt(s, cache, s.snapshots, q, ReadEvents(agg, base),
           ReadRules(agg, base, TailQuery(s.db.events, q.aggregateId, q.asOf, base),
                     |Log(s.db.events, q.aggregateId)|));
  }

  lemma ReadsRules(s: State, cache: map<string, CacheValue>, q: Call, agg: Aggregate, base: Option<Lookup>,
                   tail: seq<Event>, seen: nat)
    requires Inv(s) && ValidAsOf(q.asOf)
    ensures Goes(s, cache, s.snapshots, q, ReadRules(agg, base, tail, seen), true, cache, s.snapshots,
                 FillState(Answer(agg, base, tail, CurrentRules(ViewOf(s), agg)), seen))
  {}

  lemma FillsState(s: State, cache: map<string, CacheValue>, q: Call, r: StateResult, seen: nat, up: bool)
    requires Inv(s) && ValidAsOf(q.asOf)
    ensures Goes(s, cache, s.snapshots, q, FillState(r, seen), up,
                 if up then cache[StateKey(q.aggregateId, q.asOf) := StateValue(r, seen)] else cache, s.snapshots,
                 Answered(r, seen))
  {}

  // ---- A state query ----

  lemma LooksUp(s: State, q: Call, agg: Aggregate, answers: Answers, fault: Fault)
    requires Inv(s) && ValidAsOf(q.asOf)
    requires RunsAlone(s, At(s, s.cache, s.snapshots, q, CheckLookup(agg)), |s.calls|, Calm(answers, fault))
    ensures var base := Nearest(s.snapshots, s.cache, q.aggregateId, q.asOf, answers);
            var looked := CacheAfterLookup(s.snapshots, s.cache, q.aggregateId, q.asOf, answers);
            if fault.LookupFails? && !Hits(s.cache, LookupKey(q.aggregateId, q.asOf), answers.getLookup)
            then RunsAlone(s, At(s, s.cache, s.snapshots, q, Failed), |s.calls|, false)
            else RunsAlone(s, At(s, looked, s.snapshots, q, ReadEvents(agg, base)), |s.calls|, Calm(answers, fault))
  {
    var calm, rows := Calm(answers, fault), s.snapshots;
    var key := LookupKey(q.aggregateId, q.asOf);
    assert LookupEntryGood(ViewOf(s), s.cache, q.aggregateId, q.asOf);
    ChecksLookup(s, q, agg, answers.getLookup);
    if Hits(s.cache, key, answers.getLookup) {
      GoesOn(s, s.cache, rows, q, CheckLookup(agg), answers.getLookup, s.cache, rows,
             ReadEvents(agg, Some(s.cache[key].lookup)), calm);
    } else {
      GoesOn(s, s.cache, rows, q, CheckLookup(agg), answers.getLookup, s.cache, rows, FindSnapshot(agg), calm);
      if fault.LookupFails? {
        Fails(s, s.cache, rows, q, FindSnapshot(agg));
      } else {
        ReadsSnapshot(s, q, agg, answers, calm);
      }
    }
  }

  lemma ReadsSnapshot(s: State, q: Call, agg: Aggregate, answers: Answers, calm: bool)
    requires Inv(s) && ValidAsOf(q.asOf) && (calm ==> answers.setLookup)
    requires !Hits(s.cache, LookupKey(q.aggregateId, q.asOf), answers.getLookup)
    requires RunsAlone(s, At(s, s.cache, s.snapshots, q, FindSnapshot(agg)), |s.calls|, calm)
    ensures var base := Nearest(s.snapshots, s.cache, q.aggregateId, q.asOf, answers);
            var looked := CacheAfterLookup(s.snapshots, s.cache, q.aggregateId, q.asOf, answers);
            RunsAlone(s, At(s, looked, s.snapshots, q, ReadEvents(agg, base)), |s.calls|, calm)
  {
    var rows := s.snapshots;
    var row := FindLatestUpTo(rows, q.aggregateId, Bound(q.asOf));
    FindsSnapshot(s, q, agg);
    if row.None? {
      GoesOn(s, s.cache, rows, q, FindSnapshot(agg), true, s.cache, rows, ReadEvents(agg, None), calm);
    } else {
      var found := Lookup(ToString(row.value.sequenceNumber), row.value.state);
      GoesOn(s, s.cache, rows, q, FindSnapshot(agg), true, s.cache, rows, FillLookup(agg, found), calm);
      FillsLookup(s, q, agg, found, answers.setLookup);
      GoesOn(s, s.cache, rows, q, FillLookup(agg, found), answers.setLookup,
             CacheAfterLookup(rows, s.cache, q.aggregateId, q.asOf, answers), rows, ReadEvents(agg, Some(found)), calm);
    }
  }

  lemma Replays(s: State, cache: map<string, CacheValue>, q: Call, agg: Aggregate, base: Option<Lookup>, fault: Fault,
                calm: bool)
    requires Inv(s) && ValidAsOf(q.asOf) && (calm ==> fault.NoFault?)
    requires base.Some? ==> IsDecimal(base.value.sequenceNumber)
    requires RunsAlone(s, At(s, cache, s.snapshots, q, ReadEvents(agg, base)), |s.calls|, calm)
    ensures var tail := TailQuery(s.db.events, q.aggregateId, q.asOf, base);
            var seen := |Log(s.db.events, q.aggregateId)|;
            if fault.EventsFail? || fault.RulesFail?
            then RunsAlone(s, At(s, cache, s.snapshots, q, Failed), |s.calls|, calm)
            else RunsAlone(s, At(s, cache, s.snapshots, q, FillState(Answer(agg, base, tail,
                CurrentRules(ViewOf(s), agg)), seen)), |s.calls|, calm)
  {
    var rows := s.snapshots;
    var tail, seen := TailQuery(s.db.events, q.aggregateId, q.asOf, base), |Log(s.db.events, q.aggregateId)|;
    if fault.EventsFail? {
      Fails(s, cache, rows, q, ReadEvents(agg, base));
    } else {
      ReadsEvents(s, cache, q, agg, base);
      GoesOn(s, cache, rows, q, ReadEvents(agg, base), true, cache, rows, ReadRules(agg, base, tail, seen), calm);
      if fault.RulesFail? {
        Fails(s, cache, rows, q, ReadRules(agg, base, tail, seen));
      } else {
        ReadsRules(s, cache, q, agg, base, tail, seen);
        GoesOn(s, cache, rows, q, ReadRules(agg, base, tail, seen), true, cache, rows,
               FillState(Answer(agg, base, tail, CurrentRules(ViewOf(s), agg)), seen), calm);
      }
    }
  }

  /** From the aggregate it found, a call without an error gets as far as filling the state cache
      with the reference reconstruction. */
  lemma ReachesFill(s: State, q: Call, agg: Aggregate, answers: Answers, fault: Fault)
    requires Inv(s) && ValidAsOf(q.asOf) && Consistent(ViewOf(s), s.snapshots, s.cache)
    requires FindForProject(s.db.aggregates, q.aggregateId, q.projectId) == Some(agg)
    requires QueryError(s.db.aggregates, s.cache, q.projectId, q.aggregateId, q.asOf, answers, fault).None?
    requires RunsAlone(s, At(s, s.cache, s.snapshots, q, CheckLookup(agg)), |s.calls|, Calm(answers, fault))
    ensures BaseGood(ViewOf(s), q.aggregateId, q.asOf, Nearest(s.snapshots, s.cache, q.aggregateId, q.asOf, answers))
    ensures var looked := CacheAfterLookup(s.snapshots, s.cache, q.aggregateId, q.asOf, answers);
            var r := Reconstruction(ViewOf(s), s.snapshots, s.cache, agg, q.asOf, answers);
            RunsAlone(s, At(s, looked, s.snapshots, q, FillState(r, |Log(s.db.events, q.aggregateId)|)), |s.calls|,
                      Calm(answers, fault))
  {
    NearestIsGood(ViewOf(s), s.snapshots, s.cache, q.aggregateId, q.asOf, answers);
    LooksUp(s, q, agg, answers, fault);
    Replays(s, CacheAfterLookup(s.snapshots, s.cache, q.aggregateId, q.asOf, answers), q, agg,
            Nearest(s.snapshots, s.cache, q.aggregateId, q.asOf, answers), fault, Calm(answers, fault));
  }

  lemma FindsOwner(s: State, q: Call, calm: bool)
    requires Inv(s) && ValidAsOf(q.asOf)
    requires RunsAlone(s, At(s, s.cache, s.snapshots, q, FindAggregate), |s.calls|, calm)
    ensures var found := FindForProject(s.db.aggregates, q.aggregateId, q.projectId);
            RunsAlone(s, At(s, s.cache, s.snapshots, q, if found.Some? then CheckLookup(found.value) else Failed),
                      |s.calls|, calm)
  {
    var found := FindForProject(s.db.aggregates, q.aggregateId, q.projectId);
    FindsAggregate(s, q);
    GoesOn(s, s.cache, s.snapshots, q, FindAggregate, true, s.cache, s.snapshots,
           if found.Some? then CheckLookup(found.value) else Failed, calm);
  }

  /** What a run of a call from `pc` comes to when it ends as the outcome says. */
  ghost predicate EndsAs(s: State, q: Call, o: Outcome, end: Pc, calm: bool) {
    && RunsAlone(s, At(s, o.cache, s.snapshots, q, end), |s.calls|, calm)
    && (o.r.Success? ==> end.Answered? && end.result == o.r.value)
    && (o.r.Failure? ==> end == Failed)
  }

  lemma MissSucceeds(s: State, q: Call, agg: Aggregate, answers: Answers, fault: Fault) returns (end: Pc)
    requires Inv(s) && ValidAsOf(q.asOf) && Consistent(ViewOf(s), s.snapshots, s.cache)
    requires FindForProject(s.db.aggregates, q.aggregateId, q.projectId) == Some(agg)
    requires QueryError(s.db.aggregates, s.cache, q.projectId, q.aggregateId, q.asOf, answers, fault).None?
    requires RunsAlone(s, At(s, s.cache, s.snapshots, q, CheckLookup(agg)), |s.calls|, Calm(answers, fault))
    ensures EndsAs(s, q, MissOutcome(ViewOf(s), s.snapshots, s.cache, q.projectId, q.aggregateId, q.asOf, answers,
                                     fault), end,
                   Calm(answers, fault))
  {
    ReachesFill(s, q, agg, answers, fault);
    var looked := CacheAfterLookup(s.snapshots, s.cache, q.aggregateId, q.asOf, answers);
    var r, seen := Reconstruction(ViewOf(s), s.snapshots, s.cache, agg, q.asOf, answers),
      |Log(s.db.events, q.aggregateId)|;
    FillsState(s, looked, q, r, seen, answers.setState);
    end := Answered(r, seen);
    GoesOn(s, looked, s.snapshots, q, FillState(r, seen), answers.setState,
           CacheAfterQuery(s.snapshots, s.cache, q.aggregateId, q.asOf, answers, r, seen), s.snapshots, end,
             Calm(answers, fault));
  }

  lemma MissFailsLate(s: State, q: Call, agg: Aggregate, answers: Answers, fault: Fault)
    requires Inv(s) && ValidAsOf(q.asOf) && Consistent(ViewOf(s), s.snapshots, s.cache)
    requires FindForProject(s.db.aggregates, q.aggregateId, q.projectId) == Some(agg) && !fault.AggregateFails?
    requires QueryError(s.db.aggregates, s.cache, q.projectId, q.aggregateId, q.asOf, answers, fault).Some?
    requires RunsAlone(s, At(s, s.cache, s.snapshots, q, CheckLookup(agg)), |s.calls|, Calm(answers, fault))
    ensures EndsAs(s, q, MissOutcome(ViewOf(s), s.snapshots, s.cache, q.projectId, q.aggregateId, q.asOf, answers,
                                     fault), Failed, false)
  {
    NearestIsGood(ViewOf(s), s.snapshots, s.cache, q.aggregateId, q.asOf, answers);
    MissOutcomeOfError(ViewOf(s), s.snapshots, s.cache, q.projectId, q.aggregateId, q.asOf, answers, fault);
    LooksUp(s, q, agg, answers, fault);
    if !fault.LookupFails? {
      Replays(s, CacheAfterLookup(s.snapshots, s.cache, q.aggregateId, q.asOf, answers), q, agg,
              Nearest(s.snapshots, s.cache, q.aggregateId, q.asOf, answers), fault, false);
    }
  }

  lemma MissFailsEarly(s: State, q: Call, answers: Answers, fault: Fault)
    requires Inv(s) && ValidAsOf(q.asOf) && Consistent(ViewOf(s), s.snapshots, s.cache)
    requires fault.AggregateFails? || FindForProject(s.db.aggregates, q.aggregateId, q.projectId).None?
    requires RunsAlone(s, At(s, s.cache, s.snapshots, q, FindAggregate), |s.calls|, Calm(answers, fault))
    ensures EndsAs(s, q, MissOutcome(ViewOf(s), s.snapshots, s.cache, q.projectId, q.aggregateId, q.asOf, answers,
                                     fault), Failed,
                   Calm(answers, fault))
  {
    if fault.AggregateFails? {
      Fails(s, s.cache, s.snapshots, q, FindAggregate);
    } else {
      FindsOwner(s, q, Calm(answers, fault));
    }
  }

  lemma MissAlone(s: State, q: Call, answers: Answers, fault: Fault) returns (end: Pc)
    requires Inv(s) && ValidAsOf(q.asOf) && Consistent(ViewOf(s), s.snapshots, s.cache)
    requires RunsAlone(s, At(s, s.cache, s.snapshots, q, FindAggregate), |s.calls|, Calm(answers, fault))
    ensures EndsAs(s, q, MissOutcome(ViewOf(s), s.snapshots, s.cache, q.projectId, q.aggregateId, q.asOf, answers,
                                     fault), end,
                   Calm(answers, fault))
  {
    var found := FindForProject(s.db.aggregates, q.aggregateId, q.projectId);
    end := Failed;
    if fault.AggregateFails? || found.None? {
      MissFailsEarly(s, q, answers, fault);
    } else {
      FindsOwner(s, q, Calm(answers, fault));
      if QueryError(s.db.aggregates, s.cache, q.projectId, q.aggregateId, q.asOf, answers, fault).Some? {
        MissFailsLate(s, q, found.value, answers, fault);
      } else {
        end := MissSucceeds(s, q, found.value, answers, fault);
      }
    }
  }

  lemma InvIsConsistent(s: State)
    requires Inv(s)
    ensures Consistent(ViewOf(s), s.snapshots, s.cache)
  {}

  /** A state query whose statements run with nothing in between ends with the answer, the error
      and the cache of the service's query, for all answers Redis gives and all database errors. */
  lemma QueryAlone(s: State, q: Call, answers: Answers, fault: Fault) returns (end: Pc)
    requires Inv(s) && ValidAsOf(q.asOf) && (q.purpose == MakeSnapshot ==> q.asOf == None)
    ensures Consistent(ViewOf(s), s.snapshots, s.cache)
    ensures EndsAs(s, q, QueryOutcome(ViewOf(s), s.snapshots, s.cache, q.projectId, q.aggregateId, q.asOf, answers,
                                      fault), end,
                   Calm(answers, fault))
  {
    InvIsConsistent(s);
    var calm, key := Calm(answers, fault), StateKey(q.aggregateId, q.asOf);
    assert StateEntryGood(ViewOf(s), s.cache, q.aggregateId, q.asOf);
    Starts(s, q, calm);
    ChecksCache(s, q, answers.getState);
    if Hits(s.cache, key, answers.getState) {
      end := Answered(s.cache[key].result, s.cache[key].seen);
      GoesOn(s, s.cache, s.snapshots, q, CheckCache, answers.getState, s.cache, s.snapshots, end, calm);
    } else {
      GoesOn(s, s.cache, s.snapshots, q, CheckCache, answers.getState, s.cache, s.snapshots, FindAggregate, calm);
      end := MissAlone(s, q, answers, fault);
    }
  }

  // ---- createSnapshot ----

  lemma Compares(s: State, cache: map<string, CacheValue>, q: Call, r: StateResult, seen: nat)
    requires Inv(s) && ValidAsOf(q.asOf) && q.purpose == MakeSnapshot
    requires r.asOfSequence.Some? ==> IsDecimal(r.asOfSequence.value)
    ensures var k := if r.asOfSequence.Some? then ToNat(r.asOfSequence.value) else 0;
            var latest := FindLatest(s.snapshots, q.aggregateId);
            Goes(s, cache, s.snapshots, q, Answered(r, seen), true, cache, s.snapshots,
                 if r.asOfSequence.None? || (latest.Some? && latest.value.sequenceNumber >= k) then Snapshotted(None)
                 else InsertSnapshot(k, r.state))
  {
    var k := if r.asOfSequence.Some? then ToNat(r.asOfSequence.value) else 0;
    var latest := FindLatest(s.snapshots, q.aggregateId);
    var m, pc := At(s, cache, s.snapshots, q, Answered(r, seen)),
                 if r.asOfSequence.None? || (latest.Some? && latest.value.sequenceNumber >= k) then Snapshotted(None)
                 else InsertSnapshot(k, r.state);
    assert m.calls[|s.calls|] == q.(pc := Answered(r, seen));
    assert Next(m, |s.calls|, true) == Goto(m, |s.calls|, pc);
    GotoAt(s, cache, s.snapshots, q, Answered(r, seen), pc);
  }

  lemma Inserts(s: State, cache: map<string, CacheValue>, q: Call, k: nat, state: JsonObject)
    requires Inv(s) && ValidAsOf(q.asOf)
    ensures var row := Snapshot(q.aggregateId, q.projectId, k, state);
            var r := InsertOutcome(s.db.aggregates, s.snapshots, row);
            Goes(s, cache, s.snapshots, q, InsertSnapshot(k, state), true, cache, RowsAfter(s.snapshots, r),
                 if r.Failure? then Failed else if r.value.None? then Snapshotted(None) else Invalidate(row))
  {
    var row := Snapshot(q.aggregateId, q.projectId, k, state);
    var r := InsertOutcome(s.db.aggregates, s.snapshots, row);
    var pc := if r.Failure? then Failed else if r.value.None? then Snapshotted(None) else Invalidate(row);
    var m := At(s, cache, s.snapshots, q, InsertSnapshot(k, state));
    assert m.calls[|s.calls|] == q.(pc := InsertSnapshot(k, state));
    assert Next(m, |s.calls|, true) == Goto(m.(snapshots := RowsAfter(s.snapshots, r)), |s.calls|, pc);
    GotoAt(s, cache, RowsAfter(s.snapshots, r), q, InsertSnapshot(k, state), pc);
  }

  lemma Invalidates(s: State, cache: map<string, CacheValue>, rows: seq<Snapshot>, q: Call, row: Snapshot, up: bool)
    requires Inv(s) && ValidAsOf(q.asOf)
    ensures Goes(s, cache, rows, q, Invalidate(row), up,
                 if up then cache - {LatestStateKey(q.aggregateId), LatestLookupKey(q.aggregateId)} else cache, rows,
                 Snapshotted(Some(row)))
  {
    assert {LatestStateKey(q.aggregateId), LatestLookupKey(q.aggregateId)} ==
           {LatestLookupKey(q.aggregateId), LatestStateKey(q.aggregateId)};
  }

  ghost predicate SnapshotEndsAs(s: State, cache: map<string, CacheValue>, q: Call, r: Result<Option<Snapshot>, Error>,
                                 del: bool, calm: bool) {
    RunsAlone(s, At(s, CacheAfter(cache, q.aggregateId, r, del), RowsAfter(s.snapshots, r), q,
                    if r.Success? then Snapshotted(r.value) else Failed), |s.calls|, calm)
  }

  lemma InsertAlone(s: State, cache: map<string, CacheValue>, q: Call, k: nat, state: JsonObject, del: bool, calm: bool)
    requires Inv(s) && ValidAsOf(q.asOf) && (calm ==> del)
    requires RunsAlone(s, At(s, cache, s.snapshots, q, InsertSnapshot(k, state)), |s.calls|, calm)
    ensures SnapshotEndsAs(s, cache, q, InsertOutcome(s.db.aggregates, s.snapshots,
                                                      Snapshot(q.aggregateId, q.projectId, k, state)), del, calm)
  {
    var row := Snapshot(q.aggregateId, q.projectId, k, state);
    var r := InsertOutcome(s.db.aggregates, s.snapshots, row);
    var rows := RowsAfter(s.snapshots, r);
    Inserts(s, cache, q, k, state);
    GoesOn(s, cache, s.snapshots, q, InsertSnapshot(k, state), true, cache, rows,
           if r.Failure? then Failed else if r.value.None? then Snapshotted(None) else Invalidate(row), calm);
    if r.Success? && r.value.Some? {
      Invalidates(s, cache, rows, q, row, del);
      GoesOn(s, cache, rows, q, Invalidate(row), del, CacheAfter(cache, q.aggregateId, r, del), rows,
             Snapshotted(Some(row)), calm);
    }
  }

  lemma ComparesAlone(s: State, cache: map<string, CacheValue>, q: Call, r: StateResult, seen: nat, calm: bool)
    requires Inv(s) && ValidAsOf(q.asOf) && q.purpose == MakeSnapshot
    requires r.asOfSequence.Some? && IsDecimal(r.asOfSequence.value)
    requires RunsAlone(s, At(s, cache, s.snapshots, q, Answered(r, seen)), |s.calls|, calm)
    ensures var k, latest := ToNat(r.asOfSequence.value), FindLatest(s.snapshots, q.aggregateId);
            RunsAlone(s, At(s, cache, s.snapshots, q,
                            if latest.Some? && latest.value.sequenceNumber >= k then Snapshotted(None)
                              else InsertSnapshot(k, r.state)),
                      |s.calls|, calm)
  {
    var k, latest := ToNat(r.asOfSequence.value), FindLatest(s.snapshots, q.aggregateId);
    Compares(s, cache, q, r, seen);
    GoesOn(s, cache, s.snapshots, q, Answered(r, seen), true, cache, s.snapshots,
           if latest.Some? && latest.value.sequenceNumber >= k then Snapshotted(None)
             else InsertSnapshot(k, r.state), calm);
  }

  lemma EndsWithoutRow(s: State, cache: map<string, CacheValue>, q: Call, r: Result<Option<Snapshot>, Error>,
                       del: bool, calm: bool)
    requires r.Failure? || r.value.None?
    requires RunsAlone(s, At(s, cache, s.snapshots, q, if r.Success? then Snapshotted(None) else Failed), |s.calls|,
                       calm)
    ensures SnapshotEndsAs(s, cache, q, r, del, calm)
  {}

  lemma TryAlone(s: State, cache: map<string, CacheValue>, q: Call, k: nat, state: JsonObject, del: bool,
                 fault: Fault, calm: bool)
    requires Inv(s) && ValidAsOf(q.asOf) && (calm ==> del && fault.NoFault?) && !fault.CompareFails?
    requires FindLatest(s.snapshots, q.aggregateId).Some? ==>
            FindLatest(s.snapshots, q.aggregateId).value.sequenceNumber < k
    requires RunsAlone(s, At(s, cache, s.snapshots, q, InsertSnapshot(k, state)), |s.calls|, calm)
    ensures SnapshotEndsAs(s, cache, q, StoreOutcome(s.db.aggregates, s.snapshots, q.projectId, q.aggregateId, k,
                                                     state, fault), del, calm)
  {
    if fault.InsertFails? {
      Fails(s, cache, s.snapshots, q, InsertSnapshot(k, state));
      EndsWithoutRow(s, cache, q, Failure(DatabaseError(fault.message)), del, calm);
    } else {
      InsertAlone(s, cache, q, k, state, del, calm);
    }
  }

  lemma StoreAlone(s: State, cache: map<string, CacheValue>, q: Call, r: StateResult, seen: nat, del: bool,
                   fault: Fault, calm: bool)
    requires Inv(s) && ValidAsOf(q.asOf) && q.purpose == MakeSnapshot && (calm ==> del && fault.NoFault?)
    requires r.asOfSequence.Some? && IsDecimal(r.asOfSequence.value)
    requires RunsAlone(s, At(s, cache, s.snapshots, q, Answered(r, seen)), |s.calls|, calm)
    ensures SnapshotEndsAs(s, cache, q,
              StoreOutcome(s.db.aggregates, s.snapshots, q.projectId, q.aggregateId, ToNat(r.asOfSequence.value),
                           r.state, fault), del, calm)
  {
    var k, latest := ToNat(r.asOfSequence.value), FindLatest(s.snapshots, q.aggregateId);
    if fault.CompareFails? {
      Fails(s, cache, s.snapshots, q, Answered(r, seen));
      EndsWithoutRow(s, cache, q, Failure(DatabaseError(fault.message)), del, calm);
    } else {
      ComparesAlone(s, cache, q, r, seen, calm);
      if latest.Some? && latest.value.sequenceNumber >= k {
        EndsWithoutRow(s, cache, q, Success(None), del, calm);
      } else {
        TryAlone(s, cache, q, k, r.state, del, fault, calm);
      }
    }
  }

  /** The same for createSnapshot: the row, the error and the cache are those of the service's. */
  lemma SnapshotAlone(s: State, q: Call, answers: Answers, fault: Fault)
    requires Inv(s) && q.purpose == MakeSnapshot && q.asOf == None
    ensures Consistent(ViewOf(s), s.snapshots, s.cache)
    ensures SnapshotEndsAs(s, QueryOutcome(ViewOf(s), s.snapshots, s.cache, q.projectId, q.aggregateId, None, answers,
                                           fault).cache, q,
              SnapshotOutcome(ViewOf(s), s.snapshots, s.cache, q.projectId, q.aggregateId, answers, fault),
              answers.del, Calm(answers, fault))
  {
    var calm := Calm(answers, fault);
    var end := QueryAlone(s, q, answers, fault);
    var o := QueryOutcome(ViewOf(s), s.snapshots, s.cache, q.projectId, q.aggregateId, None, answers, fault);
    if o.r.Success? {
      QueryOutcomeIsGood(ViewOf(s), s.snapshots, s.cache, q.projectId, q.aggregateId, None, answers, fault);
      LatestLabelIsDecimal(ViewOf(s), q.aggregateId, o.r.value);
      if o.r.value.asOfSequence.None? {
        Compares(s, o.cache, q, o.r.value, end.seen);
        GoesOn(s, o.cache, s.snapshots, q, end, true, o.cache, s.snapshots, Snapshotted(None), calm);
      } else {
        StoreAlone(s, o.cache, q, o.r.value, end.seen, answers.del, fault, calm);
      }
    }
  }
}
