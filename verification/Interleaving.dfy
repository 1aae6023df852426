/** Every interleaving of appends, state queries, snapshot creation, rule changes, cache expiry
    and failing Redis commands, one SQL statement or Redis command at a time.

    Neither getState nor createSnapshot runs in a transaction: between any two of their
    statements anything else may happen. */
module Interleaving {
  import opened Values
  import opened EventReducers
  import opened CacheKeys
  import opened Tables
  import opened Consistency
  import Protocol = AppendProtocol

  datatype Purpose = Reply | MakeSnapshot

  /** The next statement of a call, with the call's local variables. */
  datatype Pc =
    | CheckCache
    | FindAggregate
    | CheckLookup(agg: Aggregate)
    | FindSnapshot(agg: Aggregate)
    | FillLookup(agg: Aggregate, found: Lookup)
    | ReadEvents(agg: Aggregate, base: Option<Lookup>)
    | ReadRules(agg: Aggregate, base: Option<Lookup>, tail: seq<Event>, seen: nat)
    | FillState(result: StateResult, seen: nat)
    | Answered(result: StateResult, seen: nat)
    | InsertSnapshot(sequenceNumber: nat, state: JsonObject)
    | Invalidate(row: Snapshot)
    | Snapshotted(created: Option<Snapshot>)
    | Failed

  /** A getState in flight; with purpose MakeSnapshot it is the one inside a createSnapshot. */
  datatype Call = Call(projectId: string, aggregateId: string, asOf: Option<string>, purpose: Purpose, pc: Pc)
  {
    predicate Done() {
      pc.Failed? || pc.Snapshotted? || (pc.Answered? && purpose == Reply)
    }
  }

  /** `invalidated` holds the committed transactions whose append has issued its delete. */
  datatype State = State(db: Protocol.State, versions: seq<seq<RuleRow>>, snapshots: seq<Snapshot>,
                         cache: map<string, CacheValue>, calls: seq<Call>, invalidated: set<nat>)

  datatype Action =
    | Append(statement: Protocol.Action)            // a statement of an append transaction
    | AfterCommit(t: nat, redisUp: bool)            // the append's invalidation after its commit
    | UpsertRule(declared: RuleRow)
    | Expire(keys: set<string>)
    | Start(projectId: string, aggregateId: string, asOf: Option<string>, purpose: Purpose)
    | Advance(c: nat, redisUp: bool)                // the next statement of a call
    | Fail(c: nat)                                  // a database error in a call

  function ViewOf(s: State): View {
    View(s.db.aggregates, s.db.events, s.versions)
  }

  predicate Enabled(s: State, a: Action) {
    match a
    case Append(statement) => Protocol.Enabled(s.db, statement)
    case AfterCommit(t, _) => t < |s.db.txs| && s.db.txs[t].phase.Committed? && t !in s.invalidated
    case UpsertRule(declared) => IsValid(declared) && s.versions != []
    case Expire(_) => true
    case Start(_, _, asOf, purpose) => ValidAsOf(asOf) && (purpose == MakeSnapshot ==> asOf == None)
    case Advance(c, _) => c < |s.calls| && !s.calls[c].Done() && Wellformed(s, s.calls[c])
    case Fail(c) => c < |s.calls| && !s.calls[c].Done() && RunsSql(s.calls[c].pc)
  }

  /** Is the next statement one for the database? A Redis command never fails a call. */
  predicate RunsSql(pc: Pc) {
    || pc.FindAggregate? || pc.FindSnapshot? || pc.ReadEvents? || pc.ReadRules? || pc.InsertSnapshot?
    || (pc.Answered? && pc.result.asOfSequence.Some?)
  }

  /** What the types of the source already promise about a call and its cached values. */
  predicate Wellformed(s: State, call: Call) {
    && ValidAsOf(call.asOf)
    && s.versions != []
    && (call.pc.CheckCache? && StateKey(call.aggregateId, call.asOf) in s.cache ==>
        s.cache[StateKey(call.aggregateId, call.asOf)].StateValue?)
    && (call.pc.CheckLookup? && LookupKey(call.aggregateId, call.asOf) in s.cache ==>
        s.cache[LookupKey(call.aggregateId, call.asOf)].LookupValue?)
    && (call.pc.ReadEvents? && call.pc.base.Some? ==> IsDecimal(call.pc.base.value.sequenceNumber))
    && (call.pc.Answered? && call.pc.result.asOfSequence.Some? ==> IsDecimal(call.pc.result.asOfSequence.value))
  }

  function Apply(s: State, a: Action): State
    requires Enabled(s, a)
  {
    match a
    case Append(statement) => s.(db := Protocol.Apply(s.db, statement))
    case AfterCommit(t, redisUp) =>
      var id := s.db.txs[t].phase.event.aggregateId;
      s.(cache := Cleared(s.cache, {LatestStateKey(id), LatestLookupKey(id)}, redisUp),
         invalidated := s.invalidated + {t})
    case UpsertRule(declared) => s.(versions := s.versions + [Upsert(s.versions[|s.versions| - 1], declared)])
    case Expire(keys) => s.(cache := s.cache - keys)
    case Start(projectId, aggregateId, asOf, purpose) =>
      s.(calls := s.calls + [Call(projectId, aggregateId, asOf, purpose, CheckCache)])
    case Advance(c, redisUp) => Next(s, c, redisUp)
    case Fail(c) => Goto(s, c, Failed)
  }

  function Cleared(cache: map<string, CacheValue>, keys: set<string>, redisUp: bool): map<string, CacheValue> {
    if redisUp then cache - keys else cache
  }

  function Filled(cache: map<string, CacheValue>, key: string, value: CacheValue,
                  redisUp: bool): map<string, CacheValue> {
    if redisUp then cache[key := value] else cache
  }

  function Goto(s: State, c: nat, pc: Pc): State
    requires c < |s.calls|
  {
    s.(calls := s.calls[c := s.calls[c].(pc := pc)])
  }

  /** One statement of a call. A Redis command that is not answered is a miss or does nothing. */
  function Next(s: State, c: nat, redisUp: bool): State
    requires Enabled(s, Advance(c, redisUp))
  {
    var call := s.calls[c];
    var id, asOf := call.aggregateId, call.asOf;
    match call.pc
    case CheckCache =>
      var key := StateKey(id, asOf);
      if redisUp && key in s.cache then Goto(s, c, Answered(s.cache[key].result, s.cache[key].seen))
      else Goto(s, c, FindAggregate)
    case FindAggregate =>
      var found := FindForProject(s.db.aggregates, id, call.projectId);
      Goto(s, c, if found.Some? then CheckLookup(found.value) else Failed)
    case CheckLookup(agg) =>
      var key := LookupKey(id, asOf);
      if redisUp && key in s.cache then Goto(s, c, ReadEvents(agg, Some(s.cache[key].lookup)))
      else Goto(s, c, FindSnapshot(agg))
    case FindSnapshot(agg) =>
      var row := FindLatestUpTo(s.snapshots, id, Bound(asOf));
      Goto(s, c, if row.None? then ReadEvents(agg, None)
                 else FillLookup(agg, Lookup(ToString(row.value.sequenceNumber), row.value.state)))
    case FillLookup(agg, found) =>
      Goto(s.(cache := Filled(s.cache, LookupKey(id, asOf), LookupValue(found), redisUp)), c,
           ReadEvents(agg, Some(found)))
    case ReadEvents(agg, base) =>
      Goto(s, c, ReadRules(agg, base, TailQuery(s.db.events, id, asOf, base), |Log(s.db.events, id)|))
    case ReadRules(agg, base, tail, seen) =>
      Goto(s, c, FillState(Answer(agg, base, tail, CurrentRules(ViewOf(s), agg)), seen))
    case FillState(result, seen) =>
      Goto(s.(cache := Filled(s.cache, StateKey(id, asOf), StateValue(result, seen), redisUp)), c,
           Answered(result, seen))
    case Answered(result, seen) =>
      if result.asOfSequence.None? then Goto(s, c, Snapshotted(None))
      else
        var k := ToNat(result.asOfSequence.value);
        var latest := FindLatest(s.snapshots, id);
        Goto(s, c, if latest.Some? && latest.value.sequenceNumber >= k then Snapshotted(None)
                   else InsertSnapshot(k, result.state))
    case InsertSnapshot(k, state) =>
      // The unique constraint is checked as the row goes in, the foreign key after that.
      if HasSnapshotAt(s.snapshots, id, k) then Goto(s, c, Snapshotted(None))
      else if FindForProject(s.db.aggregates, id, call.projectId).None? then Goto(s, c, Failed)
      else
        var row := Snapshot(id, call.projectId, k, state);
        Goto(s.(snapshots := s.snapshots + [row]), c, Invalidate(row))
    case Invalidate(row) =>
      Goto(s.(cache := Cleared(s.cache, {LatestLookupKey(id), LatestStateKey(id)}, redisUp)), c, Snapshotted(Some(row)))
    case _ => s
  }

  // ---- The invariant ----

  ghost predicate CallInv(v: View, rows: seq<Snapshot>, call: Call) {
    && ValidAsOf(call.asOf)
    && (call.purpose == MakeSnapshot ==> call.asOf == None)
    && var id, asOf := call.aggregateId, call.asOf;
       match call.pc
       case CheckLookup(agg) => agg in v.aggregates && agg.id == id
       case FindSnapshot(agg) => agg in v.aggregates && agg.id == id
       case FillLookup(agg, found) => agg in v.aggregates && agg.id == id && LookupGood(v, id, asOf, found)
       case ReadEvents(agg, base) => agg in v.aggregates && agg.id == id && BaseGood(v, id, asOf, base)
       case ReadRules(agg, base, tail, seen) =>
         agg in v.aggregates && agg.id == id && BaseGood(v, id, asOf, base) && IsTail(v, id, asOf, base, tail, seen)
       case FillState(result, seen) => ResultGood(v, id, asOf, result, seen)
       case Answered(result, seen) => ResultGood(v, id, asOf, result, seen)
       case InsertSnapshot(k, state) => call.purpose == MakeSnapshot && k >= 1 && Good(v, id, k, state)
       case Invalidate(row) => row in rows && row.aggregateId == id
       case Snapshotted(created) => created.Some? ==> created.value in rows && created.value.aggregateId == id
       case _ => true
  }

  ghost predicate Inv(s: State) {
    && Protocol.Inv(s.db) && Protocol.Ledger(s.db)
    && ViewInv(ViewOf(s)) && UniqueKeys(s.versions[|s.versions| - 1])
    && CacheGood(ViewOf(s), s.cache)
    && SnapshotsGood(ViewOf(s), s.snapshots)
    && (forall c :: 0 <= c < |s.calls| ==> CallInv(ViewOf(s), s.snapshots, s.calls[c]))
    && InvalidatedInv(s)
  }

  predicate InvalidatedInv(s: State) {
    forall t :: t in s.invalidated ==> t < |s.db.txs| && s.db.txs[t].phase.Committed?
  }

  ghost predicate Initial(s: State) {
    && s.db == Protocol.EMPTY_STATE && |s.versions| == 1 && UniqueKeys(s.versions[0])
    && s.snapshots == [] && s.cache == map[] && s.calls == [] && s.invalidated == {}
  }

  lemma InitialInv(s: State)
    requires Initial(s)
    ensures Inv(s)
  {
    Protocol.EmptyInv();
  }

  lemma CallGrows(v: View, v': View, rows: seq<Snapshot>, rows': seq<Snapshot>, call: Call)
    requires Grows(v, v') && rows <= rows' && CallInv(v, rows, call)
    ensures CallInv(v', rows', call)
  {
    var id, asOf := call.aggregateId, call.asOf;
    match call.pc
    case FillLookup(agg, found) => LookupGrows(v, v', id, asOf, found);
    case ReadEvents(agg, base) => if base.Some? { LookupGrows(v, v', id, asOf, base.value); }
    case ReadRules(agg, base, tail, seen) =>
      if base.Some? { LookupGrows(v, v', id, asOf, base.value); }
      TailGrows(v, v', id, asOf, base, tail, seen);
    case FillState(result, seen) => ResultGrows(v, v', id, asOf, result, seen);
    case Answered(result, seen) => ResultGrows(v, v', id, asOf, result, seen);
    case InsertSnapshot(k, state) => GoodGrows(v, v', id, k, state);
    case _ =>
  }

  /** A step that only adds rows and rule versions keeps everything derived good. */
  lemma GrowthKeepsInv(s: State, s': State)
    requires Inv(s)
    requires Protocol.Inv(s'.db) && Protocol.Ledger(s'.db)
    requires s'.versions != [] && UniqueKeys(s'.versions[|s'.versions| - 1]) && Grows(ViewOf(s), ViewOf(s'))
    requires s'.cache == s.cache && s'.snapshots == s.snapshots && s'.calls == s.calls && InvalidatedInv(s')
    ensures Inv(s')
  {
    CacheGrows(ViewOf(s), ViewOf(s'), s.cache);
    SnapshotsGrow(ViewOf(s), ViewOf(s'), s.snapshots);
    forall c | 0 <= c < |s.calls| ensures CallInv(ViewOf(s'), s.snapshots, s.calls[c]) {
      CallGrows(ViewOf(s), ViewOf(s'), s.snapshots, s.snapshots, s.calls[c]);
    }
  }

  lemma AppendKeepsInv(s: State, statement: Protocol.Action)
    requires Inv(s) && Enabled(s, Append(statement))
    ensures Inv(Apply(s, Append(statement)))
    ensures Grows(ViewOf(s), ViewOf(Apply(s, Append(statement))))
  {
    Protocol.StepKeepsInv(s.db, statement);
    Protocol.StepKeepsLedger(s.db, statement);
    Protocol.StepAppendsAtMostOne(s.db, statement);
    var s' := Apply(s, Append(statement));
    forall t | t in s.invalidated ensures t < |s'.db.txs| && s'.db.txs[t].phase.Committed? {
      Protocol.StepKeepsCommitted(s.db, statement, t);
    }
    GrowthKeepsInv(s, s');
  }

  lemma UpsertKeepsInv(s: State, declared: RuleRow)
    requires Inv(s) && Enabled(s, UpsertRule(declared))
    ensures Inv(Apply(s, UpsertRule(declared)))
  {
    UpsertKeepsKeysUnique(s.versions[|s.versions| - 1], declared);
    GrowthKeepsInv(s, Apply(s, UpsertRule(declared)));
  }

  lemma CallMovesInv(s: State, s': State, c: nat)
    requires Inv(s) && c < |s.calls| && |s'.calls| == |s.calls|
    requires s'.db == s.db && s'.versions == s.versions && s'.invalidated == s.invalidated
             && s.snapshots <= s'.snapshots
    requires CacheGood(ViewOf(s), s'.cache) && SnapshotsGood(ViewOf(s), s'.snapshots)
    requires s'.calls == s.calls[c := s'.calls[c]]
    requires CallInv(ViewOf(s), s'.snapshots, s'.calls[c])
    ensures Inv(s')
  {
    forall u | 0 <= u < |s.calls| ensures CallInv(ViewOf(s), s'.snapshots, s'.calls[u]) {
      if u != c { CallGrows(ViewOf(s), ViewOf(s), s.snapshots, s'.snapshots, s.calls[u]); }
    }
  }

  // ---- Statement by statement ----

  lemma CheckCacheKeepsInv(s: State, c: nat, redisUp: bool)
    requires Inv(s) && Enabled(s, Advance(c, redisUp)) && s.calls[c].pc.CheckCache?
    ensures Inv(Next(s, c, redisUp))
  {
    assert CallInv(ViewOf(s), s.snapshots, s.calls[c]);
    assert StateEntryGood(ViewOf(s), s.cache, s.calls[c].aggregateId, s.calls[c].asOf);
    CallMovesInv(s, Next(s, c, redisUp), c);
  }

  lemma CheckLookupKeepsInv(s: State, c: nat, redisUp: bool)
    requires Inv(s) && Enabled(s, Advance(c, redisUp)) && (s.calls[c].pc.CheckLookup? || s.calls[c].pc.FindAggregate?)
    ensures Inv(Next(s, c, redisUp))
  {
    assert CallInv(ViewOf(s), s.snapshots, s.calls[c]);
    assert LookupEntryGood(ViewOf(s), s.cache, s.calls[c].aggregateId, s.calls[c].asOf);
    CallMovesInv(s, Next(s, c, redisUp), c);
  }

  lemma FindSnapshotKeepsInv(s: State, c: nat, redisUp: bool)
    requires Inv(s) && Enabled(s, Advance(c, redisUp)) && s.calls[c].pc.FindSnapshot?
    ensures Inv(Next(s, c, redisUp))
  {
    assert CallInv(ViewOf(s), s.snapshots, s.calls[c]);
    SnapshotRowIsGoodLookup(ViewOf(s), s.snapshots, s.calls[c].aggregateId, s.calls[c].asOf);
    CallMovesInv(s, Next(s, c, redisUp), c);
  }

  lemma FillLookupKeepsInv(s: State, c: nat, redisUp: bool)
    requires Inv(s) && Enabled(s, Advance(c, redisUp)) && s.calls[c].pc.FillLookup?
    ensures Inv(Next(s, c, redisUp))
  {
    assert CallInv(ViewOf(s), s.snapshots, s.calls[c]);
    LookupFilled(ViewOf(s), s.cache, s.calls[c].aggregateId, s.calls[c].asOf, s.calls[c].pc.found);
    CallMovesInv(s, Next(s, c, redisUp), c);
  }

  lemma ReadEventsKeepsInv(s: State, c: nat, redisUp: bool)
    requires Inv(s) && Enabled(s, Advance(c, redisUp)) && s.calls[c].pc.ReadEvents?
    ensures Inv(Next(s, c, redisUp))
  {
    assert CallInv(ViewOf(s), s.snapshots, s.calls[c]);
    QueryReadsTail(ViewOf(s), s.calls[c].aggregateId, s.calls[c].asOf, s.calls[c].pc.base);
    CallMovesInv(s, Next(s, c, redisUp), c);
  }

  lemma ReadRulesKeepsInv(s: State, c: nat, redisUp: bool)
    requires Inv(s) && Enabled(s, Advance(c, redisUp)) && s.calls[c].pc.ReadRules?
    ensures Inv(Next(s, c, redisUp))
  {
    assert CallInv(ViewOf(s), s.snapshots, s.calls[c]);
    var pc := s.calls[c].pc;
    AnswerIsGood(ViewOf(s), pc.agg, s.calls[c].asOf, pc.base, pc.tail, pc.seen);
    CallMovesInv(s, Next(s, c, redisUp), c);
  }

  lemma FillStateKeepsInv(s: State, c: nat, redisUp: bool)
    requires Inv(s) && Enabled(s, Advance(c, redisUp)) && s.calls[c].pc.FillState?
    ensures Inv(Next(s, c, redisUp))
  {
    assert CallInv(ViewOf(s), s.snapshots, s.calls[c]);
    StateFilled(ViewOf(s), s.cache, s.calls[c].aggregateId, s.calls[c].asOf, s.calls[c].pc.result, s.calls[c].pc.seen);
    CallMovesInv(s, Next(s, c, redisUp), c);
  }

  lemma CompareKeepsInv(s: State, c: nat, redisUp: bool)
    requires Inv(s) && Enabled(s, Advance(c, redisUp)) && s.calls[c].pc.Answered?
    ensures Inv(Next(s, c, redisUp))
  {
    assert CallInv(ViewOf(s), s.snapshots, s.calls[c]);
    LabelReadsBack(Reach(s.calls[c].asOf, s.calls[c].pc.seen));
    CallMovesInv(s, Next(s, c, redisUp), c);
  }

  lemma InsertKeepsInv(s: State, c: nat, redisUp: bool)
    requires Inv(s) && Enabled(s, Advance(c, redisUp)) && s.calls[c].pc.InsertSnapshot?
    ensures Inv(Next(s, c, redisUp))
  {
    assert CallInv(ViewOf(s), s.snapshots, s.calls[c]);
    var call, s' := s.calls[c], Next(s, c, redisUp);
    if FindForProject(s.db.aggregates, call.aggregateId, call.projectId).Some?
       && !HasSnapshotAt(s.snapshots, call.aggregateId, call.pc.sequenceNumber) {
      var row := Snapshot(call.aggregateId, call.projectId, call.pc.sequenceNumber, call.pc.state);
      ForeignKeyHolds(ViewOf(s), call.aggregateId, call.projectId);
      InsertedIsGood(ViewOf(s), s.snapshots, row);
      assert s'.snapshots == s.snapshots + [row] && s'.snapshots[|s.snapshots|] == row;
    }
    CallMovesInv(s, s', c);
  }

  lemma InvalidateKeepsInv(s: State, c: nat, redisUp: bool)
    requires Inv(s) && Enabled(s, Advance(c, redisUp)) && s.calls[c].pc.Invalidate?
    ensures Inv(Next(s, c, redisUp))
  {
    assert CallInv(ViewOf(s), s.snapshots, s.calls[c]);
    var id := s.calls[c].aggregateId;
    CacheShrinks(ViewOf(s), s.cache, {LatestLookupKey(id), LatestStateKey(id)});
    CallMovesInv(s, Next(s, c, redisUp), c);
  }

  lemma AdvanceKeepsInv(s: State, c: nat, redisUp: bool)
    requires Inv(s) && Enabled(s, Advance(c, redisUp))
    ensures Inv(Next(s, c, redisUp))
  {
    match s.calls[c].pc
    case CheckCache => CheckCacheKeepsInv(s, c, redisUp);
    case FindAggregate => CheckLookupKeepsInv(s, c, redisUp);
    case CheckLookup(_) => CheckLookupKeepsInv(s, c, redisUp);
    case FindSnapshot(_) => FindSnapshotKeepsInv(s, c, redisUp);
    case FillLookup(_, _) => FillLookupKeepsInv(s, c, redisUp);
    case ReadEvents(_, _) => ReadEventsKeepsInv(s, c, redisUp);
    case ReadRules(_, _, _, _) => ReadRulesKeepsInv(s, c, redisUp);
    case FillState(_, _) => FillStateKeepsInv(s, c, redisUp);
    case Answered(_, _) => CompareKeepsInv(s, c, redisUp);
    case InsertSnapshot(_, _) => InsertKeepsInv(s, c, redisUp);
    case Invalidate(_) => InvalidateKeepsInv(s, c, redisUp);
    case _ =>
  }

  lemma StepKeepsInv(s: State, a: Action)
    requires Inv(s) && Enabled(s, a)
    ensures Inv(Apply(s, a))
  {
    match a
    case Append(statement) => AppendKeepsInv(s, statement);
    case AfterCommit(t, redisUp) =>
      var id := s.db.txs[t].phase.event.aggregateId;
      CacheShrinks(ViewOf(s), s.cache, {LatestStateKey(id), LatestLookupKey(id)});
    case UpsertRule(declared) => UpsertKeepsInv(s, declared);
    case Expire(keys) => CacheShrinks(ViewOf(s), s.cache, keys);
    case Start(_, _, _, _) =>
    case Advance(c, redisUp) => AdvanceKeepsInv(s, c, redisUp);
    case Fail(c) =>
      assert CallInv(ViewOf(s), s.snapshots, s.calls[c]);
      CallMovesInv(s, Goto(s, c, Failed), c);
  }
}
