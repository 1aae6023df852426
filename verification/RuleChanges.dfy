/** What snapshots are worth after the rules have changed. */
module RuleChanges {
  import opened Values
  import opened Reducer
  import opened EventReducers
  import opened CacheKeys
  import opened Tables
  import opened Consistency
  import opened Freshness
  import opened Aggregates
  import opened Snapshots
  import opened Events
  import opened Interleaving
  import opened PrefixConsistency
  import opened SoloRuns
  import opened SoloAppends
  import opened StaleReads

  /** The tables valid declarations lead to: merge and append name their field. */
  predicate Usable(table: map<string, Rule>) {
    forall t :: t in table ==> table[t].operation == Set || HasField(table[t])
  }

  lemma {:induction false} FindAllMembers(rows: seq<RuleRow>, p: string, t: string)
    ensures forall r :: r in FindAll(rows, p, t) ==> r in rows
  {
    if rows != [] {
      FindAllMembers(rows[..|rows| - 1], p, t);
      assert rows == rows[..|rows| - 1] + [rows[|rows| - 1]];
    }
  }

  lemma {:induction false} StoredKeysAreUnique(history: seq<RuleRow>)
    ensures UniqueKeys(Stored(history))
  {
    if history != [] {
      StoredKeysAreUnique(history[..|history| - 1]);
      UpsertKeepsKeysUnique(Stored(history[..|history| - 1]), history[|history| - 1]);
    }
  }

  lemma StoredTablesAreUsable(history: seq<RuleRow>, p: string, t: string)
    requires forall d :: d in history ==> IsValid(d)
    ensures Usable(TableFor(Stored(history), p, t))
  {
    var table := TableFor(Stored(history), p, t);
    forall et | et in table ensures table[et].operation == Set || HasField(table[et]) {
      StoredRowIsLastDeclared(history, p, t, et);
      TableIsLastRow(FindAll(Stored(history), p, t), et);
      RowForFinds(FindAll(history, p, t), et);
      FindAllMembers(history, p, t);
      var declared := RowFor(FindAll(history, p, t), et).value;
      assert IsValid(declared);
      assert RuleFrom(RowFor(FindAll(Stored(history), p, t), et).value)[0] == table[et];
    }
  }

  /** Resuming with the rules `after` from a snapshot folded with `before` gives what replaying
      the whole log with `after` gives, for every log and every snapshot position. */
  ghost predicate SnapshotsSurvive(before: map<string, Rule>, after: map<string, Rule>) {
    forall log: seq<Event>, k: nat | k <= |log| ::
      Fold(log[k..], after, Fold(log[..k], before, EMPTY)) == Fold(log, after, EMPTY)
  }

  /** An event that tells any two usable rules, or a rule and none, apart. */
  function Probe(id: string, t: string): Event {
    Event(id, 1, t, Obj(map["" := Null]))
  }

  lemma OneEventFold(table: map<string, Rule>, e: Event)
    ensures Fold([e], table, EMPTY) == ApplyEvent(EMPTY, table, e)
  {
    assert [e][..0] == [];
    assert Fold([e][..0], table, EMPTY) == EMPTY;
  }

  lemma ProbesTellApart(before: map<string, Rule>, after: map<string, Rule>, e: Event)
    requires Usable(before) && Usable(after)
    requires e == Probe(e.aggregateId, e.eventType)
    requires ApplyEvent(EMPTY, before, e) == ApplyEvent(EMPTY, after, e)
    ensures e.eventType in before <==> e.eventType in after
    ensures e.eventType in before ==> SameEffect(before[e.eventType], after[e.eventType])
  {
    var t, a, b := e.eventType, ApplyEvent(EMPTY, before, e), ApplyEvent(EMPTY, after, e);
    assert t in before ==> Written(before[t]) in a && a[Written(before[t])] == Wrote(before[t]);
    assert t in after ==> Written(after[t]) in b && b[Written(after[t])] == Wrote(after[t]);
    assert t in before ==> a.Keys == {Written(before[t])};
    assert t in after ==> b.Keys == {Written(after[t])};
  }

  /** The field a rule writes on a probe, and the value it leaves there. */
  function Written(rule: Rule): string {
    if rule.operation == Set || rule.field.None? then "" else rule.field.value
  }

  function Wrote(rule: Rule): Json {
    match rule.operation
    case Set => Null
    case Merge => Obj(map["" := Null])
    case Append => Arr([Obj(map["" := Null])])
  }

  /** Resuming from the end of a log, and from position k of it. */
  lemma SurvivingSnapshotsAgree(before: map<string, Rule>, after: map<string, Rule>, log: seq<Event>)
    requires SnapshotsSurvive(before, after)
    ensures Fold(log, before, EMPTY) == Fold(log, after, EMPTY)
  {
    var k := |log|;
    assert log[k..] == [] && log[..k] == log;
    assert Fold(log[k..], after, Fold(log[..k], before, EMPTY)) == Fold(log, after, EMPTY);
  }

  lemma SameEffectsResume(before: map<string, Rule>, after: map<string, Rule>, log: seq<Event>, k: nat)
    requires SameEffects(before, after) && k <= |log|
    ensures Fold(log[k..], after, Fold(log[..k], before, EMPTY)) == Fold(log, after, EMPTY)
  {
    SameEffectsSameFold(log[..k], before, after, EMPTY);
    FoldResumes(log[..k], log[k..], after, EMPTY);
    assert log[..k] + log[k..] == log;
  }

  lemma SurvivalHasNoEffect(before: map<string, Rule>, after: map<string, Rule>, t: string)
    requires Usable(before) && Usable(after) && SnapshotsSurvive(before, after)
    ensures t in before <==> t in after
    ensures t in before ==> SameEffect(before[t], after[t])
  {
    var e := Probe("", t);
    SurvivingSnapshotsAgree(before, after, [e]);
    OneEventFold(before, e);
    OneEventFold(after, e);
    ProbesTellApart(before, after, e);
  }

  lemma SurvivalMeansSameEffects(before: map<string, Rule>, after: map<string, Rule>)
    requires Usable(before) && Usable(after) && SnapshotsSurvive(before, after)
    ensures SameEffects(before, after)
  {
    forall t ensures (t in before <==> t in after) && (t in before ==> SameEffect(before[t], after[t])) {
      SurvivalHasNoEffect(before, after, t);
    }
  }

  lemma SameEffectsMeanSurvival(before: map<string, Rule>, after: map<string, Rule>)
    requires SameEffects(before, after)
    ensures SnapshotsSurvive(before, after)
  {
    forall log: seq<Event>, k: nat | k <= |log|
      ensures Fold(log[k..], after, Fold(log[..k], before, EMPTY)) == Fold(log, after, EMPTY)
    {
      SameEffectsResume(before, after, log, k);
    }
  }

  /** Between two rule tables snapshots survive exactly when the change from one to the other
      has no effect: each event type has a rule before and after, or neither, with the same
      operation and, unless it is `set`, the same field. */
  lemma SnapshotsSurviveIff(before: map<string, Rule>, after: map<string, Rule>)
    requires Usable(before) && Usable(after)
    ensures SnapshotsSurvive(before, after) <==> SameEffects(before, after)
  {
    if SnapshotsSurvive(before, after) { SurvivalMeansSameEffects(before, after); }
    if SameEffects(before, after) { SameEffectsMeanSurvival(before, after); }
  }

  // ---- Histories of declarations ----

  predicate AllValid(declared: seq<RuleRow>) {
    forall d :: d in declared ==> IsValid(d)
  }

  /** The versions the rule table goes through when, after `history`, `declared` is declared. */
  function VersionsOf(history: seq<RuleRow>, declared: seq<RuleRow>): (versions: seq<seq<RuleRow>>)
    ensures |versions| == |declared| + 1
  {
    if declared == [] then [Stored(history)]
    else VersionsOf(history, declared[..|declared| - 1]) + [Stored(history + declared)]
  }

  function TableAfter(history: seq<RuleRow>, declared: seq<RuleRow>, p: string, t: string, i: nat): map<string, Rule>
    requires i <= |declared|
  {
    TableFor(Stored(history + declared[..i]), p, t)
  }

  /** No declaration changes what any event of this project and type does. */
  predicate NoneHasEffect(history: seq<RuleRow>, declared: seq<RuleRow>, p: string, t: string) {
    forall i :: 0 <= i < |declared| ==>
      SameEffects(TableAfter(history, declared, p, t, i), TableAfter(history, declared, p, t, i + 1))
  }

  lemma {:induction false} VersionAt(history: seq<RuleRow>, declared: seq<RuleRow>, i: nat)
    requires i <= |declared|
    ensures VersionsOf(history, declared)[i] == Stored(history + declared[..i])
  {
    if i == |declared| {
      assert declared[..i] == declared;
      if declared == [] { assert history + declared == history; }
    } else {
      var n := |declared| - 1;
      VersionAt(history, declared[..n], i);
      assert declared[..n][..i] == declared[..i];
    }
  }

  lemma VersionAdded(history: seq<RuleRow>, declared: seq<RuleRow>, k: nat)
    requires k < |declared|
    ensures var versions := VersionsOf(history, declared[..k]);
            VersionsOf(history, declared[..k + 1]) == versions + [Upsert(versions[k], declared[k])]
  {
    assert declared[..k + 1][..k] == declared[..k];
    VersionAt(history, declared[..k], k);
    assert declared[..k][..k] == declared[..k];
    var longer := history + declared[..k + 1];
    assert longer[..|longer| - 1] == history + declared[..k] && longer[|longer| - 1] == declared[k];
  }

  lemma SameEffectsChain(a: map<string, Rule>, b: map<string, Rule>, c: map<string, Rule>)
    requires SameEffects(a, b)
    ensures SameEffects(b, a)
    ensures SameEffects(b, c) ==> SameEffects(a, c)
    ensures SameEffects(a, c) ==> SameEffects(b, c)
  {
    assert a.Keys == b.Keys;
    assert forall t :: t in a <==> t in a.Keys;
    assert forall t :: t in b <==> t in b.Keys;
    assert forall t :: t in c <==> t in c.Keys;
  }

  lemma {:induction false} NoEffectSince(history: seq<RuleRow>, declared: seq<RuleRow>, p: string, t: string, i: nat)
    requires NoneHasEffect(history, declared, p, t) && i <= |declared|
    ensures SameEffects(TableAfter(history, declared, p, t, i), TableAfter(history, declared, p, t, |declared|))
    decreases |declared| - i
  {
    if i < |declared| {
      NoEffectSince(history, declared, p, t, i + 1);
      SameEffectsChain(TableAfter(history, declared, p, t, i), TableAfter(history, declared, p, t, i + 1),
                       TableAfter(history, declared, p, t, |declared|));
    }
  }

  /** Some version then differs in effect from the last one. */
  lemma SomeVersionDiffers(history: seq<RuleRow>, declared: seq<RuleRow>, p: string, t: string) returns (i: nat)
    requires !NoneHasEffect(history, declared, p, t)
    ensures i <= |declared|
    ensures !SameEffects(TableAfter(history, declared, p, t, i), TableAfter(history, declared, p, t, |declared|))
  {
    var j :| 0 <= j < |declared| &&
      !SameEffects(TableAfter(history, declared, p, t, j), TableAfter(history, declared, p, t, j + 1));
    var a, b, c := TableAfter(history, declared, p, t, j), TableAfter(history, declared, p, t, j + 1),
                   TableAfter(history, declared, p, t, |declared|);
    i := if SameEffects(a, c) then j + 1 else j;
    if SameEffects(a, c) {
      SameEffectsChain(a, c, b);
      if SameEffects(b, c) { SameEffectsChain(b, c, b); }
    }
  }

  // ---- Answers with and without snapshots ----

  /** A query that misses the state cache answers the same from these rows and cached lookups as
      from the events alone. */
  ghost predicate AnswersAlike(v: View, rows: seq<Snapshot>, cache: map<string, CacheValue>, agg: Aggregate,
                               asOf: Option<string>, answers: Answers)
    requires Consistent(v, rows, cache) && Consistent(v, [], map[]) && ValidAsOf(asOf)
  {
    MissOutcome(v, rows, cache, agg.projectId, agg.id, asOf, answers, NoFault).r ==
    MissOutcome(v, [], map[], agg.projectId, agg.id, asOf, answers, NoFault).r
  }

  lemma NothingDerivedIsConsistent(v: View)
    requires ViewInv(v) && UniqueKeys(v.versions[|v.versions| - 1])
    ensures Consistent(v, [], map[])
  {
    assert SnapshotsGood(v, []) && CacheGood(v, map[]);
  }

  lemma MissIsReconstruction(v: View, rows: seq<Snapshot>, cache: map<string, CacheValue>, agg: Aggregate,
                             asOf: Option<string>, answers: Answers)
    requires Consistent(v, rows, cache) && ValidAsOf(asOf) && agg in v.aggregates
    ensures BaseGood(v, agg.id, asOf, Nearest(rows, cache, agg.id, asOf, answers))
    ensures MissOutcome(v, rows, cache, agg.projectId, agg.id, asOf, answers, NoFault).r ==
            Success(Reconstruction(v, rows, cache, agg, asOf, answers))
  {
    FindsItself(v.aggregates, agg, "", map[]);
    NearestIsGood(v, rows, cache, agg.id, asOf, answers);
  }

  lemma HeldRulesAnswerAlike(v: View, rows: seq<Snapshot>, cache: map<string, CacheValue>, agg: Aggregate,
                             asOf: Option<string>, answers: Answers)
    requires Consistent(v, rows, cache) && Consistent(v, [], map[]) && ValidAsOf(asOf)
    requires agg in v.aggregates && RulesHeld(v, agg)
    ensures AnswersAlike(v, rows, cache, agg, asOf, answers)
  {
    MissIsReconstruction(v, rows, cache, agg, asOf, answers);
    MissIsReconstruction(v, [], map[], agg, asOf, answers);
    ReconstructionIsGood(v, rows, cache, agg, asOf, answers);
    ReconstructionIsGood(v, [], map[], agg, asOf, answers);
    var k := Reach(asOf, |Log(v.events, agg.id)|);
    GoodIsPlainWhenRulesHeld(v, agg, k, Reconstruction(v, rows, cache, agg, asOf, answers).state);
    GoodIsPlainWhenRulesHeld(v, agg, k, Reconstruction(v, [], map[], agg, asOf, answers).state);
  }

  lemma TellingEvent(before: map<string, Rule>, after: map<string, Rule>) returns (e: Event)
    requires Usable(before) && Usable(after) && !SameEffects(before, after)
    ensures e.aggregateId == "a" && e.sequenceNumber == 1 && e.payload.Obj?
    ensures ApplyEvent(EMPTY, before, e) != ApplyEvent(EMPTY, after, e)
  {
    var t :| !((t in before <==> t in after) && (t in before ==> SameEffect(before[t], after[t])));
    e := Probe("a", t);
    if ApplyEvent(EMPTY, before, e) == ApplyEvent(EMPTY, after, e) { ProbesTellApart(before, after, e); }
  }

  // ---- Runs of the engine ----

  lemma ReachableStep(s: State, a: Action)
    requires Reachable(s) && Enabled(s, a)
    ensures Reachable(Apply(s, a))
  {
    assert [a][1..] == [];
    ReachableSteps(s, [a], Apply(s, a));
  }

  lemma ReachableLeads(s: State, s': State)
    requires Reachable(s) && Leads(s, s')
    ensures Reachable(s')
  {
    var actions: seq<Action> :| Steps(s, actions, s') && forall i :: 0 <= i < |actions| ==> Undisturbed(actions[i]);
    ReachableSteps(s, actions, s');
  }

  lemma {:induction false} DeclaresAll(s: State, history: seq<RuleRow>, declared: seq<RuleRow>, k: nat, n: nat)
      returns (s': State)
    requires Reachable(s) && AllValid(declared) && k <= n <= |declared|
    requires s.versions == VersionsOf(history, declared[..k])
    ensures Reachable(s') && s' == s.(versions := VersionsOf(history, declared[..n]))
    decreases n - k
  {
    if k == n {
      s' := s;
    } else {
      ReachableStep(s, UpsertRule(declared[k]));
      VersionAdded(history, declared, k);
      s' := DeclaresAll(Apply(s, UpsertRule(declared[k])), history, declared, k + 1, n);
    }
  }

  /** Nothing but rules yet. */
  predicate Blank(s: State) {
    s.db == Protocol.EMPTY_STATE && s.snapshots == [] && s.cache == map[] && s.calls == [] && s.invalidated == {}
  }

  lemma AppendsFirst(s: State, agg: Aggregate, e: Event) returns (s': State)
    requires Reachable(s) && Blank(s) && agg.id == "a" && agg.aggregateKey == "k"
    requires e.aggregateId == "a" && e.sequenceNumber == 1 && e.payload.Obj?
    ensures Reachable(s') && s'.db.aggregates == [agg] && s'.db.events == [e]
    ensures s'.versions == s.versions && s'.snapshots == [] && s'.cache == map[] && s'.calls == []
  {
    var input := AppendInput(agg.aggregateType, "k", e.eventType, e.payload.fields);
    ReachableInv(s);
    AppendAlone(s, agg.projectId, input, "a", true);
    s' := AfterAppend(s, agg.projectId, input, "a", true);
    AppendLeads(s, s', 0);
    ReachableLeads(s, s');
    assert NextSequenceNumber([], "a") == 1;
    assert s'.db.events == [e] by { assert [] + [e] == [e]; }
  }

  lemma LogOfFirst(v: View, agg: Aggregate, e: Event)
    requires v.events == [e] && e.aggregateId == agg.id
    ensures Log(v.events, agg.id) == [e]
  {
    LogOfExtended([], e, agg.id);
    assert [] + [e] == v.events;
  }

  lemma TailOfFirst(v: View, id: string, e: Event, base: Option<Lookup>)
    requires ViewInv(v) && Log(v.events, id) == [e] && BaseGood(v, id, None, base)
    ensures TailQuery(v.events, id, None, base) == if base.None? then [e] else []
  {
    QueryReadsTail(v, id, None, base);
    assert [e][0..1] == [e];
  }

  /** Without snapshots the answer folds the one event under the rules of now. */
  lemma AnswerFromEvents(v: View, agg: Aggregate, e: Event, answers: Answers)
    requires Consistent(v, [], map[]) && v.aggregates == [agg] && v.events == [e]
    requires e.aggregateId == agg.id && e.sequenceNumber == 1
    ensures MissOutcome(v, [], map[], agg.projectId, agg.id, None, answers, NoFault).r ==
            Success(StateResult(agg.id, agg.aggregateType, agg.aggregateKey, Some(ToString(1)),
                                ApplyEvent(EMPTY, CurrentRules(v, agg), e)))
  {
    assert v.aggregates[0] == agg;
    MissIsReconstruction(v, [], map[], agg, None, answers);
    LogOfFirst(v, agg, e);
    TailOfFirst(v, agg.id, e, None);
    OneEventFold(CurrentRules(v, agg), e);
  }

  /** With a snapshot of it the answer is the state of the snapshot. */
  lemma AnswerFromSnapshot(v: View, agg: Aggregate, e: Event, row: Snapshot, answers: Answers)
    requires Consistent(v, [row], map[]) && v.aggregates == [agg] && v.events == [e]
    requires e.aggregateId == agg.id && row.aggregateId == agg.id && row.sequenceNumber == 1
    ensures var r := MissOutcome(v, [row], map[], agg.projectId, agg.id, None, answers, NoFault).r;
            r.Success? && r.value.state == row.state
  {
    assert v.aggregates[0] == agg;
    MissIsReconstruction(v, [row], map[], agg, None, answers);
    LogOfFirst(v, agg, e);
    assert [row][..0] == [];
    var base := Nearest([row], map[], agg.id, None, answers);
    assert base == Some(Lookup(ToString(1), row.state));
    TailOfFirst(v, agg.id, e, base);
  }

  lemma FirstSnapshot(v: View, agg: Aggregate, e: Event)
    requires Consistent(v, [], map[]) && v.aggregates == [agg] && v.events == [e]
    requires e.aggregateId == agg.id && e.sequenceNumber == 1
    ensures SnapshotOutcome(v, [], map[], agg.projectId, agg.id, ALL_UP, NoFault) ==
            Success(Some(Snapshot(agg.id, agg.projectId, 1, ApplyEvent(EMPTY, CurrentRules(v, agg), e))))
  {
    AnswerFromEvents(v, agg, e, ALL_UP);
    var q := QueryOutcome(v, [], map[], agg.projectId, agg.id, None, ALL_UP, NoFault).r;
    assert q == MissOutcome(v, [], map[], agg.projectId, agg.id, None, ALL_UP, NoFault).r;
    assert FindForProject(v.aggregates, agg.id, agg.projectId) == Some(agg);
  }

  /** A snapshot of the one event is taken, under the rules of now. */
  lemma SnapshotsFirst(s: State, agg: Aggregate, e: Event) returns (s': State)
    requires Reachable(s) && s.snapshots == [] && s.cache == map[]
    requires s.db.aggregates == [agg] && s.db.events == [e] && e.aggregateId == agg.id && e.sequenceNumber == 1
    requires s.versions != []
    ensures Reachable(s') && s'.db == s.db && s'.versions == s.versions
    ensures s'.snapshots ==
            [Snapshot(agg.id, agg.projectId, 1, ApplyEvent(EMPTY, CurrentRules(ViewOf(s), agg), e))]
  {
    var q := Call(agg.projectId, agg.id, None, MakeSnapshot, CheckCache);
    ReachableInv(s);
    InvIsConsistent(s);
    FirstSnapshot(ViewOf(s), agg, e);
    SnapshotAlone(s, q, ALL_UP, NoFault);
    var r := SnapshotOutcome(ViewOf(s), [], map[], agg.projectId, agg.id, ALL_UP, NoFault);
    var looked := QueryOutcome(ViewOf(s), [], map[], agg.projectId, agg.id, None, ALL_UP, NoFault).cache;
    s' := At(s, CacheAfter(looked, agg.id, r, true), RowsAfter([], r), q, Snapshotted(r.value));
    CallLeads(s, s', |s.calls|);
    ReachableLeads(s, s');
  }

  /** Rules are declared, an event is appended, a snapshot is taken, the other rules are declared,
      and the cache entries expire. */
  lemma DeclarationRun(history: seq<RuleRow>, declared: seq<RuleRow>, i: nat, agg: Aggregate, e: Event)
      returns (s: State)
    requires AllValid(declared) && i <= |declared| && agg.id == "a" && agg.aggregateKey == "k"
    requires e.aggregateId == "a" && e.sequenceNumber == 1 && e.payload.Obj?
    ensures Reachable(s) && s.versions == VersionsOf(history, declared) && s.cache == map[]
    ensures s.db.aggregates == [agg] && s.db.events == [e]
    ensures var before := TableAfter(history, declared, agg.projectId, agg.aggregateType, i);
            s.snapshots == [Snapshot(agg.id, agg.projectId, 1, ApplyEvent(EMPTY, before, e))]
  {
    StoredKeysAreUnique(history);
    var s0 := State(Protocol.EMPTY_STATE, [Stored(history)], [], map[], [], {});
    assert Steps(s0, [], s0);
    assert declared[..0] == [] && declared[..|declared|] == declared && declared[..i][..i] == declared[..i];
    var s1 := DeclaresAll(s0, history, declared, 0, i);
    var s2 := AppendsFirst(s1, agg, e);
    VersionAt(history, declared[..i], i);
    var s3 := SnapshotsFirst(s2, agg, e);
    var s4 := DeclaresAll(s3, history, declared, i, |declared|);
    ReachableStep(s4, Expire(s4.cache.Keys));
    s := Apply(s4, Expire(s4.cache.Keys));
    assert s.cache == map[];
  }

  /** Whatever valid declarations follow whatever history of them, if one has an effect the
      engine can show it: some run through just those versions reaches a state with empty caches
      in which deleting the one snapshot changes the answer to the same question. */
  lemma DeletingSnapshotsCanChangeAnswers(history: seq<RuleRow>, declared: seq<RuleRow>, p: string, t: string,
                                          answers: Answers) returns (s: State, agg: Aggregate)
    requires AllValid(history + declared) && !NoneHasEffect(history, declared, p, t)
    ensures Reachable(s) && s.versions == VersionsOf(history, declared) && s.cache == map[] && |s.snapshots| == 1
    ensures agg in s.db.aggregates && agg.projectId == p && agg.aggregateType == t
    ensures Consistent(ViewOf(s), s.snapshots, s.cache) && Consistent(ViewOf(s), [], map[])
    ensures !AnswersAlike(ViewOf(s), s.snapshots, s.cache, agg, None, answers)
  {
    agg := Aggregate("a", p, t, "k");
    var i := SomeVersionDiffers(history, declared, p, t);
    PrefixesAreUsable(history, declared, p, t, i);
    PrefixesAreUsable(history, declared, p, t, |declared|);
    var e := TellingEvent(TableAfter(history, declared, p, t, i), TableAfter(history, declared, p, t, |declared|));
    s := DeclarationRun(history, declared, i, agg, e);
    ReachableInv(s);
    InvIsConsistent(s);
    NothingDerivedIsConsistent(ViewOf(s));
    VersionAt(history, declared, |declared|);
    assert s.snapshots == [s.snapshots[0]];
    AnswerFromSnapshot(ViewOf(s), agg, e, s.snapshots[0], answers);
    AnswerFromEvents(ViewOf(s), agg, e, answers);
  }

  lemma PrefixesAreUsable(history: seq<RuleRow>, declared: seq<RuleRow>, p: string, t: string, i: nat)
    requires AllValid(history + declared) && i <= |declared|
    ensures Usable(TableAfter(history, declared, p, t, i))
  {
    var prefix := history + declared[..i];
    forall d | d in prefix ensures IsValid(d) {
      var j :| 0 <= j < |prefix| && prefix[j] == d;
      assert (history + declared)[j] == d;
    }
    StoredTablesAreUsable(prefix, p, t);
  }

  // ---- When snapshots change nothing but speed ----

  /** In this state, with and without its snapshots and the lookups cached from them. */
  ghost predicate DeletionIsInvisible(s: State, agg: Aggregate, asOf: Option<string>, answers: Answers)
    requires ValidAsOf(asOf)
  {
    && Consistent(ViewOf(s), s.snapshots, s.cache) && Consistent(ViewOf(s), [], map[])
    && AnswersAlike(ViewOf(s), s.snapshots, s.cache, agg, asOf, answers)
  }

  ghost predicate Reaches(s: State, versions: seq<seq<RuleRow>>, agg: Aggregate, p: string, t: string) {
    && Reachable(s) && s.versions == versions
    && agg in s.db.aggregates && agg.projectId == p && agg.aggregateType == t
  }

  /** In every reachable state with this history of versions, every query about an aggregate of
      this project and type that misses the state cache answers the same with snapshots as without. */
  ghost predicate SnapshotsOnlySaveTime(versions: seq<seq<RuleRow>>, p: string, t: string) {
    forall s: State, agg: Aggregate, asOf: Option<string>, answers: Answers |
      Reaches(s, versions, agg, p, t) && ValidAsOf(asOf) :: DeletionIsInvisible(s, agg, asOf, answers)
  }

  lemma NoEffectHoldsRules(v: View, agg: Aggregate, history: seq<RuleRow>, declared: seq<RuleRow>)
    requires v.versions == VersionsOf(history, declared)
    requires NoneHasEffect(history, declared, agg.projectId, agg.aggregateType)
    ensures RulesHeld(v, agg)
  {
    VersionAt(history, declared, |declared|);
    forall i | 0 <= i < |v.versions|
      ensures SameEffects(TableFor(v.versions[i], agg.projectId, agg.aggregateType), CurrentRules(v, agg))
    {
      VersionAt(history, declared, i);
      NoEffectSince(history, declared, agg.projectId, agg.aggregateType, i);
    }
  }

  lemma NoEffectAnswersAlike(s: State, agg: Aggregate, asOf: Option<string>, answers: Answers,
                             history: seq<RuleRow>, declared: seq<RuleRow>)
    requires Reachable(s) && s.versions == VersionsOf(history, declared) && agg in s.db.aggregates && ValidAsOf(asOf)
    requires NoneHasEffect(history, declared, agg.projectId, agg.aggregateType)
    ensures DeletionIsInvisible(s, agg, asOf, answers)
  {
    ReachableInv(s);
    InvIsConsistent(s);
    NothingDerivedIsConsistent(ViewOf(s));
    NoEffectHoldsRules(ViewOf(s), agg, history, declared);
    HeldRulesAnswerAlike(ViewOf(s), s.snapshots, s.cache, agg, asOf, answers);
  }

  /** Documentation promises that deleting every snapshot changes nothing but speed. For a
      history of valid declarations that holds, in every state the engine can reach through it
      and for every aggregate of a project and type, exactly when none of the declarations had
      an effect on that project and type. */
  lemma SnapshotsOnlySaveTimeIff(history: seq<RuleRow>, declared: seq<RuleRow>, p: string, t: string)
    requires AllValid(history + declared)
    ensures SnapshotsOnlySaveTime(VersionsOf(history, declared), p, t) <==> NoneHasEffect(history, declared, p, t)
  {
    if NoneHasEffect(history, declared, p, t) {
      forall s: State, agg: Aggregate, asOf: Option<string>, answers: Answers |
        Reaches(s, VersionsOf(history, declared), agg, p, t) && ValidAsOf(asOf)
        ensures DeletionIsInvisible(s, agg, asOf, answers)
      {
        NoEffectAnswersAlike(s, agg, asOf, answers, history, declared);
      }
    } else {
      var s, agg := DeletingSnapshotsCanChangeAnswers(history, declared, p, t, ALL_UP);
      assert Reaches(s, VersionsOf(history, declared), agg, p, t) && ValidAsOf(None);
      assert !DeletionIsInvisible(s, agg, None, ALL_UP);
    }
  }
}
