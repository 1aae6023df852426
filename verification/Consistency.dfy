/** What it means for derived data - a snapshot row, a cached value, a returned result - to
    agree with the log, and how a resumed fold keeps that meaning. */
module Consistency {
  import opened Values
  import opened Reducer
  import opened EventReducers
  import opened CacheKeys
  import opened Tables

  /** The answer of `getState`. */
  datatype StateResult = StateResult(aggregateId: string, aggregateType: string, aggregateKey: string,
                                     asOfSequence: Option<string>, state: JsonObject)

  /** The cached part of a snapshot row. */
  datatype Lookup = Lookup(sequenceNumber: string, state: JsonObject)

  /** A cached value. `seen` is a history variable: the length the aggregate's log had when the
      events behind the result were read. No operation reads it. */
  datatype CacheValue =
    | StateValue(result: StateResult, seen: nat)
    | LookupValue(lookup: Lookup)

  /** The committed rows that derived data is derived from, and every version the rule table
      has had, the current one last. */
  datatype View = View(aggregates: seq<Aggregate>, events: seq<Event>, versions: seq<seq<RuleRow>>)

  ghost predicate ViewInv(v: View) {
    UniqueAggregates(v.aggregates) && Gapless(v.events) && v.versions != []
  }

  /** Committed rows are only ever added. */
  predicate Grows(v: View, v': View) {
    v.aggregates <= v'.aggregates && v.events <= v'.events && v.versions <= v'.versions
  }

  // ---- Folding under changing rules ----

  /** The rules of one aggregate under each version of the rule table. */
  function RuleTables(versions: seq<seq<RuleRow>>, agg: Aggregate): (tables: seq<map<string, Rule>>)
    ensures |tables| == |versions|
  {
    seq(|versions|, i requires 0 <= i < |versions| => TableFor(versions[i], agg.projectId, agg.aggregateType))
  }

  function CurrentRules(v: View, agg: Aggregate): map<string, Rule>
    requires v.versions != []
  {
    TableFor(v.versions[|v.versions| - 1], agg.projectId, agg.aggregateType)
  }

  /** One rule version per event, never going back to an older one. */
  predicate IsAssignment(versions: nat, chosen: seq<nat>, k: nat) {
    && |chosen| == k
    && (forall i :: 0 <= i < k ==> chosen[i] < versions)
    && (forall i, j :: 0 <= i < j < k ==> chosen[i] <= chosen[j])
  }

  function VersionedFold(tables: seq<map<string, Rule>>, log: seq<Event>, chosen: seq<nat>): JsonObject
    requires IsAssignment(|tables|, chosen, |log|)
  {
    if log == [] then EMPTY
    else
      var n := |log| - 1;
      ApplyEvent(VersionedFold(tables, log[..n], chosen[..n]), tables[chosen[n]], log[n])
  }

  predicate Explains(v: View, agg: Aggregate, k: nat, state: JsonObject, chosen: seq<nat>) {
    && agg in v.aggregates
    && k <= |Log(v.events, agg.id)|
    && IsAssignment(|v.versions|, chosen, k)
    && VersionedFold(RuleTables(v.versions, agg), Log(v.events, agg.id)[..k], chosen) == state
  }

  /** Prefix consistency: `state` is a fold of the first k events of `id`, from empty, under
      some nondecreasing assignment of rule versions to those events. */
  ghost predicate Good(v: View, id: string, k: nat, state: JsonObject) {
    exists agg: Aggregate, chosen: seq<nat> :: agg.id == id && Explains(v, agg, k, state, chosen)
  }

  lemma {:induction false} LogGrows(events: seq<Event>, more: seq<Event>, id: string)
    requires events <= more
    ensures Log(events, id) <= Log(more, id)
  {
    if events != more {
      LogGrows(events, more[..|more| - 1], id);
    }
  }

  lemma {:induction false} VersionedFoldGrows(tables: seq<map<string, Rule>>, more: seq<map<string, Rule>>,
                                              log: seq<Event>, chosen: seq<nat>)
    requires tables <= more && IsAssignment(|tables|, chosen, |log|)
    ensures IsAssignment(|more|, chosen, |log|)
    ensures VersionedFold(tables, log, chosen) == VersionedFold(more, log, chosen)
  {
    if log != [] {
      VersionedFoldGrows(tables, more, log[..|log| - 1], chosen[..|log| - 1]);
    }
  }

  lemma GoodGrows(v: View, v': View, id: string, k: nat, state: JsonObject)
    requires Grows(v, v') && Good(v, id, k, state)
    ensures Good(v', id, k, state)
  {
    var agg: Aggregate, chosen: seq<nat> :| agg.id == id && Explains(v, agg, k, state, chosen);
    LogGrows(v.events, v'.events, id);
    assert Log(v'.events, id)[..k] == Log(v.events, id)[..k];
    assert RuleTables(v.versions, agg) <= RuleTables(v'.versions, agg);
    VersionedFoldGrows(RuleTables(v.versions, agg), RuleTables(v'.versions, agg), Log(v.events, id)[..k], chosen);
    assert agg in v'.aggregates;
    assert Explains(v', agg, k, state, chosen);
  }

  lemma NothingFoldedIsGood(v: View, agg: Aggregate)
    requires agg in v.aggregates
    ensures Good(v, agg.id, 0, EMPTY)
  {
    assert Log(v.events, agg.id)[..0] == [];
    assert Explains(v, agg, 0, EMPTY, []);
  }

  lemma OneMoreEvent(tables: seq<map<string, Rule>>, log: seq<Event>, chosen: seq<nat>, e: Event, i: nat)
    requires IsAssignment(|tables|, chosen, |log|) && i < |tables|
    requires forall j :: 0 <= j < |chosen| ==> chosen[j] <= i
    ensures IsAssignment(|tables|, chosen + [i], |log + [e]|)
    ensures VersionedFold(tables, log + [e], chosen + [i]) ==
            ApplyEvent(VersionedFold(tables, log, chosen), tables[i], e)
  {
    assert (log + [e])[..|log|] == log;
    assert (chosen + [i])[..|chosen|] == chosen;
  }

  lemma {:induction false} TailUnderNewestRules(tables: seq<map<string, Rule>>, log: seq<Event>, chosen: seq<nat>,
                                                tail: seq<Event>) returns (longer: seq<nat>)
    requires tables != [] && IsAssignment(|tables|, chosen, |log|)
    ensures IsAssignment(|tables|, longer, |log + tail|)
    ensures VersionedFold(tables, log + tail, longer) ==
            Fold(tail, tables[|tables| - 1], VersionedFold(tables, log, chosen))
  {
    if tail == [] {
      longer := chosen;
      assert log + tail == log;
    } else {
      var rest, last := tail[..|tail| - 1], tail[|tail| - 1];
      var front := TailUnderNewestRules(tables, log, chosen, rest);
      assert log + tail == (log + rest) + [last];
      OneMoreEvent(tables, log + rest, front, last, |tables| - 1);
      longer := front + [|tables| - 1];
    }
  }

  lemma SameIdSameRow(aggregates: seq<Aggregate>, a: Aggregate, b: Aggregate)
    requires UniqueAggregates(aggregates) && a in aggregates && b in aggregates && a.id == b.id
    ensures a == b
  {
    var i :| 0 <= i < |aggregates| && aggregates[i] == a;
    var j :| 0 <= j < |aggregates| && aggregates[j] == b;
    assert i == j;
  }

  lemma ExplanationOf(v: View, agg: Aggregate, k: nat, state: JsonObject) returns (chosen: seq<nat>)
    requires UniqueAggregates(v.aggregates) && agg in v.aggregates
    requires Good(v, agg.id, k, state)
    ensures Explains(v, agg, k, state, chosen)
  {
    var a: Aggregate, c: seq<nat> :| a.id == agg.id && Explains(v, a, k, state, c);
    SameIdSameRow(v.aggregates, a, agg);
    chosen := c;
  }

  lemma SliceJoins(log: seq<Event>, k: nat, j: nat)
    requires k <= j <= |log|
    ensures log[..k] + log[k..j] == log[..j]
  {}

  lemma NewestTableIsCurrent(v: View, agg: Aggregate)
    requires v.versions != []
    ensures RuleTables(v.versions, agg)[|v.versions| - 1] == CurrentRules(v, agg)
  {}

  lemma ExplainedIsGood(v: View, agg: Aggregate, k: nat, state: JsonObject, chosen: seq<nat>)
    requires Explains(v, agg, k, state, chosen)
    ensures Good(v, agg.id, k, state)
  {}

  /** Resuming from any prefix-consistent state with the rules of now gives a
      prefix-consistent state: the tail's version is the newest, so the assignment still ascends. */
  lemma ResumeIsGood(v: View, agg: Aggregate, k: nat, j: nat, state: JsonObject)
    requires UniqueAggregates(v.aggregates) && v.versions != [] && agg in v.aggregates
    requires Good(v, agg.id, k, state)
    requires k <= j <= |Log(v.events, agg.id)|
    ensures Good(v, agg.id, j, Fold(Log(v.events, agg.id)[k..j], CurrentRules(v, agg), state))
  {
    var log, tables := Log(v.events, agg.id), RuleTables(v.versions, agg);
    var chosen := ExplanationOf(v, agg, k, state);
    var front, tail := log[..k], log[k..j];
    var longer := TailUnderNewestRules(tables, front, chosen, tail);
    SliceJoins(log, k, j);
    NewestTableIsCurrent(v, agg);
    ExplainedIsGood(v, agg, j, Fold(tail, CurrentRules(v, agg), state), longer);
  }

  /** No version of the rule table differs in effect from the current one, for this aggregate's
      own rules: whatever has been declared, nothing has changed for it. */
  predicate RulesHeld(v: View, agg: Aggregate)
    requires v.versions != []
  {
    forall i :: 0 <= i < |v.versions| ==>
      SameEffects(TableFor(v.versions[i], agg.projectId, agg.aggregateType), CurrentRules(v, agg))
  }

  lemma RulesHeldByVersions(v: View, v': View, agg: Aggregate)
    requires v.versions != [] && v'.versions == v.versions
    ensures RulesHeld(v, agg) <==> RulesHeld(v', agg)
  {
    assert CurrentRules(v, agg) == CurrentRules(v', agg);
  }

  lemma OneVersionHolds(v: View, agg: Aggregate)
    requires |v.versions| == 1
    ensures RulesHeld(v, agg)
  {
    forall i | 0 <= i < |v.versions|
      ensures SameEffects(TableFor(v.versions[i], agg.projectId, agg.aggregateType), CurrentRules(v, agg))
    {
      SameEffectsReflexive(CurrentRules(v, agg));
    }
  }

  lemma {:induction false} SteadyFoldIsPlain(tables: seq<map<string, Rule>>, table: map<string, Rule>,
                                             log: seq<Event>, chosen: seq<nat>)
    requires forall i :: 0 <= i < |tables| ==> SameEffects(tables[i], table)
    requires IsAssignment(|tables|, chosen, |log|)
    ensures VersionedFold(tables, log, chosen) == Fold(log, table, EMPTY)
  {
    if log != [] {
      var n := |log| - 1;
      SteadyFoldIsPlain(tables, table, log[..n], chosen[..n]);
      SameEffectsSameEvent(Fold(log[..n], table, EMPTY), tables[chosen[n]], table, log[n]);
    }
  }

  /** The reference: the plain fold of the first k events of an aggregate under the rules of now. */
  function PlainState(v: View, agg: Aggregate, k: nat): JsonObject
    requires v.versions != [] && k <= |Log(v.events, agg.id)|
  {
    Fold(Log(v.events, agg.id)[..k], CurrentRules(v, agg), EMPTY)
  }

  /** With its rules held, prefix-consistent means equal to the plain fold of the prefix. */
  lemma GoodIsPlainWhenRulesHeld(v: View, agg: Aggregate, k: nat, state: JsonObject)
    requires ViewInv(v) && RulesHeld(v, agg) && agg in v.aggregates
    requires Good(v, agg.id, k, state)
    ensures k <= |Log(v.events, agg.id)| && state == PlainState(v, agg, k)
  {
    var chosen := ExplanationOf(v, agg, k, state);
    SteadyFoldIsPlain(RuleTables(v.versions, agg), CurrentRules(v, agg), Log(v.events, agg.id)[..k], chosen);
  }

  // ---- Derived data ----

  function Bound(asOf: Option<string>): Option<nat>
    requires ValidAsOf(asOf)
  {
    if asOf.Some? then Some(ToNat(asOf.value)) else None
  }

  /** The last event a question about `asOf` covers when the log has `seen` events. */
  function Reach(asOf: Option<string>, seen: nat): (k: nat)
    requires ValidAsOf(asOf)
    ensures k <= seen
  {
    Min(OrElse(Bound(asOf), seen), seen)
  }

  /** How a position is reported: null before the first event. */
  function Label(k: nat): Option<string> {
    if k == 0 then None else Some(ToString(k))
  }

  lemma LabelReadsBack(k: nat)
    ensures Label(k).Some? ==> IsDecimal(Label(k).value) && ToNat(Label(k).value) == k
    ensures Label(k).None? <==> k == 0
  {}

  ghost predicate LookupGood(v: View, id: string, asOf: Option<string>, l: Lookup)
    requires ValidAsOf(asOf)
  {
    && IsDecimal(l.sequenceNumber)
    && var k := ToNat(l.sequenceNumber);
       && l.sequenceNumber == ToString(k)
       && 1 <= k <= OrElse(Bound(asOf), k)
       && Good(v, id, k, l.state)
  }

  predicate Describes(v: View, r: StateResult, id: string) {
    exists i :: 0 <= i < |v.aggregates|
                && v.aggregates[i].id == r.aggregateId == id
                && v.aggregates[i].aggregateType == r.aggregateType && v.aggregates[i].aggregateKey == r.aggregateKey
  }

  /** The result answers the question about `asOf` as of a log of `seen` events. */
  ghost predicate ResultGood(v: View, id: string, asOf: Option<string>, r: StateResult, seen: nat)
    requires ValidAsOf(asOf)
  {
    && seen <= |Log(v.events, id)|
    && r.asOfSequence == Label(Reach(asOf, seen))
    && Describes(v, r, id)
    && Good(v, id, Reach(asOf, seen), r.state)
  }

  ghost predicate StateEntryGood(v: View, cache: map<string, CacheValue>, id: string, asOf: Option<string>)
    requires ValidAsOf(asOf)
  {
    var key := StateKey(id, asOf);
    key in cache ==> cache[key].StateValue? && ResultGood(v, id, asOf, cache[key].result, cache[key].seen)
  }

  ghost predicate LookupEntryGood(v: View, cache: map<string, CacheValue>, id: string, asOf: Option<string>)
    requires ValidAsOf(asOf)
  {
    var key := LookupKey(id, asOf);
    key in cache ==> cache[key].LookupValue? && LookupGood(v, id, asOf, cache[key].lookup)
  }

  ghost predicate CacheGood(v: View, cache: map<string, CacheValue>) {
    forall id, asOf | ValidAsOf(asOf) :: StateEntryGood(v, cache, id, asOf) && LookupEntryGood(v, cache, id, asOf)
  }

  ghost predicate SnapshotGood(v: View, row: Snapshot) {
    && row.sequenceNumber >= 1
    && Good(v, row.aggregateId, row.sequenceNumber, row.state)
    && exists i :: 0 <= i < |v.aggregates|
                   && v.aggregates[i].id == row.aggregateId && v.aggregates[i].projectId == row.projectId
  }

  ghost predicate SnapshotsGood(v: View, rows: seq<Snapshot>) {
    UniqueSnapshots(rows) && forall i :: 0 <= i < |rows| ==> SnapshotGood(v, rows[i])
  }

  // ---- Derived data stays good as rows are added ----

  lemma LookupGrows(v: View, v': View, id: string, asOf: Option<string>, l: Lookup)
    requires Grows(v, v') && ValidAsOf(asOf) && LookupGood(v, id, asOf, l)
    ensures LookupGood(v', id, asOf, l)
  {
    GoodGrows(v, v', id, ToNat(l.sequenceNumber), l.state);
  }

  lemma ResultGrows(v: View, v': View, id: string, asOf: Option<string>, r: StateResult, seen: nat)
    requires Grows(v, v') && ValidAsOf(asOf) && ResultGood(v, id, asOf, r, seen)
    ensures ResultGood(v', id, asOf, r, seen)
  {
    LogGrows(v.events, v'.events, id);
    GoodGrows(v, v', id, Reach(asOf, seen), r.state);
    var i :| 0 <= i < |v.aggregates| && v.aggregates[i].id == r.aggregateId == id
             && v.aggregates[i].aggregateType == r.aggregateType && v.aggregates[i].aggregateKey == r.aggregateKey;
    assert v'.aggregates[i] == v.aggregates[i];
  }

  lemma CacheGrows(v: View, v': View, cache: map<string, CacheValue>)
    requires Grows(v, v') && CacheGood(v, cache)
    ensures CacheGood(v', cache)
  {
    forall id, asOf | ValidAsOf(asOf)
      ensures StateEntryGood(v', cache, id, asOf) && LookupEntryGood(v', cache, id, asOf)
    {
      assert StateEntryGood(v, cache, id, asOf) && LookupEntryGood(v, cache, id, asOf);
      if StateKey(id, asOf) in cache {
        ResultGrows(v, v', id, asOf, cache[StateKey(id, asOf)].result, cache[StateKey(id, asOf)].seen);
      }
      if LookupKey(id, asOf) in cache {
        LookupGrows(v, v', id, asOf, cache[LookupKey(id, asOf)].lookup);
      }
    }
  }

  lemma SnapshotsGrow(v: View, v': View, rows: seq<Snapshot>)
    requires Grows(v, v') && SnapshotsGood(v, rows)
    ensures SnapshotsGood(v', rows)
  {
    forall i | 0 <= i < |rows| ensures SnapshotGood(v', rows[i]) {
      var row := rows[i];
      assert SnapshotGood(v, row);
      GoodGrows(v, v', row.aggregateId, row.sequenceNumber, row.state);
      var j :| 0 <= j < |v.aggregates| && v.aggregates[j].id == row.aggregateId
        && v.aggregates[j].projectId == row.projectId;
      assert v'.aggregates[j] == v.aggregates[j];
    }
  }

  // ---- Filling and emptying the cache ----

  lemma CacheShrinks(v: View, cache: map<string, CacheValue>, keys: set<string>)
    requires CacheGood(v, cache)
    ensures CacheGood(v, cache - keys)
  {
    forall id, asOf | ValidAsOf(asOf)
      ensures StateEntryGood(v, cache - keys, id, asOf) && LookupEntryGood(v, cache - keys, id, asOf)
    {
      assert StateEntryGood(v, cache, id, asOf) && LookupEntryGood(v, cache, id, asOf);
    }
  }

  lemma StateFilled(v: View, cache: map<string, CacheValue>, id: string, asOf: Option<string>, r: StateResult,
                    seen: nat)
    requires CacheGood(v, cache) && ValidAsOf(asOf) && ResultGood(v, id, asOf, r, seen)
    ensures CacheGood(v, cache[StateKey(id, asOf) := StateValue(r, seen)])
  {
    var cache' := cache[StateKey(id, asOf) := StateValue(r, seen)];
    forall i, o | ValidAsOf(o) ensures StateEntryGood(v, cache', i, o) && LookupEntryGood(v, cache', i, o) {
      assert StateEntryGood(v, cache, i, o) && LookupEntryGood(v, cache, i, o);
      StateKeysDiffer(id, asOf, i, o);
    }
  }

  lemma LookupFilled(v: View, cache: map<string, CacheValue>, id: string, asOf: Option<string>, l: Lookup)
    requires CacheGood(v, cache) && ValidAsOf(asOf) && LookupGood(v, id, asOf, l)
    ensures CacheGood(v, cache[LookupKey(id, asOf) := LookupValue(l)])
  {
    var cache' := cache[LookupKey(id, asOf) := LookupValue(l)];
    forall i, o | ValidAsOf(o) ensures StateEntryGood(v, cache', i, o) && LookupEntryGood(v, cache', i, o) {
      assert StateEntryGood(v, cache, i, o) && LookupEntryGood(v, cache, i, o);
      LookupKeysDiffer(id, asOf, i, o);
    }
  }

  /** Writing one entry never touches another. */
  lemma StateKeysDiffer(id: string, asOf: Option<string>, i: string, o: Option<string>)
    requires ValidAsOf(asOf) && ValidAsOf(o)
    ensures StateKey(id, asOf) == StateKey(i, o) <==> id == i && asOf == o
    ensures StateKey(id, asOf) != LookupKey(i, o)
  {
    KeyRoundTrip(Address(StateLayer, id, asOf));
    KeyRoundTrip(Address(StateLayer, i, o));
    KeyRoundTrip(Address(LookupLayer, i, o));
  }

  lemma LookupKeysDiffer(id: string, asOf: Option<string>, i: string, o: Option<string>)
    requires ValidAsOf(asOf) && ValidAsOf(o)
    ensures LookupKey(id, asOf) == LookupKey(i, o) <==> id == i && asOf == o
    ensures LookupKey(id, asOf) != StateKey(i, o)
  {
    KeyRoundTrip(Address(LookupLayer, id, asOf));
    KeyRoundTrip(Address(LookupLayer, i, o));
    KeyRoundTrip(Address(StateLayer, i, o));
  }

  // ---- Reading and adding snapshot rows ----

  lemma SnapshotRowIsGoodLookup(v: View, rows: seq<Snapshot>, id: string, asOf: Option<string>)
    requires SnapshotsGood(v, rows) && ValidAsOf(asOf)
    ensures var row := FindLatestUpTo(rows, id, Bound(asOf));
            row.Some? ==> LookupGood(v, id, asOf, Lookup(ToString(row.value.sequenceNumber), row.value.state))
  {
    var row := FindLatestUpTo(rows, id, Bound(asOf));
    if row.Some? {
      var i :| 0 <= i < |rows| && rows[i] == row.value;
      assert SnapshotGood(v, rows[i]);
    }
  }

  /** A row that passes both constraints leaves the table good. */
  lemma InsertedIsGood(v: View, rows: seq<Snapshot>, row: Snapshot)
    requires SnapshotsGood(v, rows) && SnapshotGood(v, row)
    requires !HasSnapshotAt(rows, row.aggregateId, row.sequenceNumber)
    ensures SnapshotsGood(v, rows + [row])
  {}

  lemma ForeignKeyHolds(v: View, id: string, projectId: string)
    requires FindForProject(v.aggregates, id, projectId).Some?
    ensures exists i :: 0 <= i < |v.aggregates| && v.aggregates[i].id == id && v.aggregates[i].projectId == projectId
  {
    var agg := FindForProject(v.aggregates, id, projectId).value;
    var i :| 0 <= i < |v.aggregates| && v.aggregates[i] == agg;
  }

  // ---- Answering a question ----

  /** The position a lookup resumes after; 0 with no snapshot. */
  function BasePosition(base: Option<Lookup>): nat
    requires base.Some? ==> IsDecimal(base.value.sequenceNumber)
  {
    if base.Some? then ToNat(base.value.sequenceNumber) else 0
  }

  function BaseState(base: Option<Lookup>): JsonObject {
    if base.Some? then base.value.state else EMPTY
  }

  ghost predicate BaseGood(v: View, id: string, asOf: Option<string>, base: Option<Lookup>)
    requires ValidAsOf(asOf)
  {
    base.Some? ==> LookupGood(v, id, asOf, base.value)
  }

  /** The events to replay: everything the question covers after the base, read from a log
      that had `seen` events. */
  ghost predicate IsTail(v: View, id: string, asOf: Option<string>, base: Option<Lookup>, tail: seq<Event>, seen: nat)
    requires ValidAsOf(asOf)
    requires base.Some? ==> IsDecimal(base.value.sequenceNumber)
  {
    && seen <= |Log(v.events, id)|
    && BasePosition(base) <= Reach(asOf, seen)
    && tail == Log(v.events, id)[BasePosition(base)..Reach(asOf, seen)]
  }

  function TailQuery(events: seq<Event>, id: string, asOf: Option<string>, base: Option<Lookup>): seq<Event>
    requires ValidAsOf(asOf)
    requires base.Some? ==> IsDecimal(base.value.sequenceNumber)
  {
    EventsInRange(events, id, if base.Some? then Some(BasePosition(base)) else None, Bound(asOf))
  }

  lemma QueryReadsTail(v: View, id: string, asOf: Option<string>, base: Option<Lookup>)
    requires ViewInv(v) && ValidAsOf(asOf) && BaseGood(v, id, asOf, base)
    ensures IsTail(v, id, asOf, base, TailQuery(v.events, id, asOf, base), |Log(v.events, id)|)
  {
    RangeIsSlice(v.events, id, if base.Some? then Some(BasePosition(base)) else None, Bound(asOf));
    if base.Some? {
      var agg: Aggregate, chosen: seq<nat> :|
        agg.id == id && Explains(v, agg, BasePosition(base), base.value.state, chosen);
    }
  }

  lemma TailGrows(v: View, v': View, id: string, asOf: Option<string>, base: Option<Lookup>, tail: seq<Event>,
                  seen: nat)
    requires Grows(v, v') && ValidAsOf(asOf)
    requires base.Some? ==> IsDecimal(base.value.sequenceNumber)
    requires IsTail(v, id, asOf, base, tail, seen)
    ensures IsTail(v', id, asOf, base, tail, seen)
  {
    LogGrows(v.events, v'.events, id);
  }

  /** The answer assembled from a base state, the replayed events and the rules. */
  function Answer(agg: Aggregate, base: Option<Lookup>, tail: seq<Event>, rules: map<string, Rule>): StateResult {
    StateResult(agg.id, agg.aggregateType, agg.aggregateKey,
                if tail != [] then Some(ToString(tail[|tail| - 1].sequenceNumber))
                else if base.Some? then Some(base.value.sequenceNumber)
                else None,
                Fold(tail, rules, BaseState(base)))
  }

  lemma AnswerLabel(v: View, agg: Aggregate, asOf: Option<string>, base: Option<Lookup>, tail: seq<Event>, seen: nat,
                    rules: map<string, Rule>)
    requires GaplessLog(Log(v.events, agg.id)) && ValidAsOf(asOf)
    requires BaseGood(v, agg.id, asOf, base)
    requires IsTail(v, agg.id, asOf, base, tail, seen)
    ensures Answer(agg, base, tail, rules).asOfSequence == Label(Reach(asOf, seen))
  {
    var j, log := Reach(asOf, seen), Log(v.events, agg.id);
    if tail != [] {
      assert tail[|tail| - 1] == log[j - 1] && log[j - 1].sequenceNumber == j;
    } else {
      assert BasePosition(base) == j;
    }
  }

  /** Whatever the base - a cached lookup, a stored snapshot, or nothing - the answer is
      labelled with the position it reaches and is prefix-consistent there. */
  lemma AnswerIsGood(v: View, agg: Aggregate, asOf: Option<string>, base: Option<Lookup>, tail: seq<Event>, seen: nat)
    requires ViewInv(v) && agg in v.aggregates && ValidAsOf(asOf)
    requires BaseGood(v, agg.id, asOf, base)
    requires IsTail(v, agg.id, asOf, base, tail, seen)
    ensures ResultGood(v, agg.id, asOf, Answer(agg, base, tail, CurrentRules(v, agg)), seen)
  {
    var rules := CurrentRules(v, agg);
    if base.None? { NothingFoldedIsGood(v, agg); }
    ResumeIsGood(v, agg, BasePosition(base), Reach(asOf, seen), BaseState(base));
    AnswerLabel(v, agg, asOf, base, tail, seen, rules);
    assert Describes(v, Answer(agg, base, tail, rules), agg.id) by {
      var i :| 0 <= i < |v.aggregates| && v.aggregates[i] == agg;
      assert v.aggregates[i].id == agg.id;
    }
  }

  // ---- When a cached answer is the right one ----

  /** The answer a plain replay would give now. */
  predicate RightAnswer(v: View, agg: Aggregate, asOf: Option<string>, r: StateResult)
    requires v.versions != [] && ValidAsOf(asOf)
  {
    var k := Reach(asOf, |Log(v.events, agg.id)|);
    r.asOfSequence == Label(k) && r.state == PlainState(v, agg, k)
  }

  lemma LabelsDiffer(j: nat, k: nat)
    requires Label(j) == Label(k)
    ensures j == k
  {
    LabelReadsBack(j);
    LabelReadsBack(k);
  }

  /** With the aggregate's rules held a result is still the right answer exactly when no event the
      question covers has been committed since its events were read. For the latest state:
      when no event has; for sequence number N: when no event numbered N or lower has. */
  lemma AnswerIsRightIff(v: View, agg: Aggregate, asOf: Option<string>, r: StateResult, seen: nat)
    requires ViewInv(v) && RulesHeld(v, agg) && agg in v.aggregates && ValidAsOf(asOf)
    requires ResultGood(v, agg.id, asOf, r, seen)
    ensures RightAnswer(v, agg, asOf, r) <==> Reach(asOf, seen) == Reach(asOf, |Log(v.events, agg.id)|)
  {
    GoodIsPlainWhenRulesHeld(v, agg, Reach(asOf, seen), r.state);
    if RightAnswer(v, agg, asOf, r) { LabelsDiffer(Reach(asOf, seen), Reach(asOf, |Log(v.events, agg.id)|)); }
  }
}
