/** Cached answers that go stale with no command failing and nothing left to run. */
module StaleReads {
  import opened Values
  import opened CacheKeys
  import opened Tables
  import opened Consistency
  import opened Aggregates
  import opened Events
  import opened Interleaving
  import opened PrefixConsistency
  import opened SoloRuns
  import opened SoloAppends

  /** An action of a run on which every Redis command is answered, nothing expires, no
      database statement fails and no rule changes. */
  predicate Undisturbed(a: Action) {
    match a
    case Append(statement) => !statement.Abort?
    case AfterCommit(_, redisUp) => redisUp
    case Advance(_, redisUp) => redisUp
    case Start(_, _, _, _) => true
    case _ => false
  }

  ghost predicate Leads(s: State, s': State) {
    exists actions: seq<Action> ::
      Steps(s, actions, s') && forall i :: 0 <= i < |actions| ==> Undisturbed(actions[i])
  }

  lemma LeadsTogether(s: State, m: State, s': State)
    requires Leads(s, m) && Leads(m, s')
    ensures Leads(s, s')
  {
    var first: seq<Action> :| Steps(s, first, m) && forall i :: 0 <= i < |first| ==> Undisturbed(first[i]);
    var second: seq<Action> :| Steps(m, second, s') && forall i :: 0 <= i < |second| ==> Undisturbed(second[i]);
    StepsConcat(s, first, m, second, s');
    var both := first + second;
    assert forall i :: 0 <= i < |both| ==> Undisturbed(both[i]);
  }

  lemma StepLeads(s: State, a: Action)
    requires Enabled(s, a) && Undisturbed(a)
    ensures Leads(s, Apply(s, a))
  {
    var actions := [a];
    assert Steps(s, [a], Apply(s, a)) by { assert [a][1..] == []; }
    assert forall i :: 0 <= i < |actions| ==> Undisturbed(actions[i]);
  }

  lemma CallLeads(s: State, s': State, c: nat)
    requires RunsAlone(s, s', c, true)
    ensures Leads(s, s')
  {
    var actions: seq<Action> :| Steps(s, actions, s') && forall i :: 0 <= i < |actions| ==> OfCall(actions[i], c, true);
    assert forall i :: 0 <= i < |actions| ==> Undisturbed(actions[i]);
  }

  lemma AppendLeads(s: State, s': State, t: nat)
    requires AppendsAlone(s, s', t, true)
    ensures Leads(s, s')
  {
    var actions: seq<Action> :| Steps(s, actions, s') && forall i :: 0 <= i < |actions| ==>
        OfAppend(actions[i], t, true);
    assert forall i :: 0 <= i < |actions| ==> Undisturbed(actions[i]);
  }

  lemma LeadsKeepsInv(s: State, s': State)
    requires Inv(s) && Leads(s, s')
    ensures Inv(s')
  {
    var actions: seq<Action> :| Steps(s, actions, s') && forall i :: 0 <= i < |actions| ==> Undisturbed(actions[i]);
    StepsKeepInv(s, actions, s');
  }

  /** No transaction is under way and every committed append has issued its delete. */
  predicate AppendsDone(s: State) {
    Quiet(s) && AllInvalidated(s)
  }

  /** Nothing is left to run. */
  predicate AllDone(s: State) {
    AppendsDone(s) && forall c :: 0 <= c < |s.calls| ==> s.calls[c].Done()
  }

  function Query(agg: Aggregate, asOf: Option<string>): Call {
    Call(agg.projectId, agg.id, asOf, Reply, CheckCache)
  }

  function InputFor(agg: Aggregate, payload: JsonObject): AppendInput {
    AppendInput(agg.aggregateType, agg.aggregateKey, "E", payload)
  }

  const ALL_UP := Answers(true, true, true, true, true)

  lemma FindsItself(aggregates: seq<Aggregate>, agg: Aggregate, newId: string, payload: JsonObject)
    requires UniqueAggregates(aggregates) && agg in aggregates
    ensures FindForProject(aggregates, agg.id, agg.projectId) == Some(agg)
    ensures AggregateFor(aggregates, agg.projectId, InputFor(agg, payload), newId) == agg
    ensures CanStore(aggregates, agg.projectId, InputFor(agg, payload), newId)
  {
    var i :| 0 <= i < |aggregates| && aggregates[i] == agg;
    var byId := FindForProject(aggregates, agg.id, agg.projectId).value;
    var j :| 0 <= j < |aggregates| && aggregates[j] == byId;
    var byKey := FindByKey(aggregates, agg.projectId, agg.aggregateType, agg.aggregateKey).value;
    var k :| 0 <= k < |aggregates| && aggregates[k] == byKey;
    assert i == j && i == k;
  }

  /** The query reads everything and is about to fill the cache. */
  lemma ReadsEverything(s: State, agg: Aggregate, asOf: Option<string>) returns (m: State, r: StateResult)
    requires Inv(s) && ValidAsOf(asOf) && agg in s.db.aggregates && StateKey(agg.id, asOf) !in s.cache
    ensures Leads(s, m)
    ensures m == s.(cache := m.cache, calls := s.calls + [Query(agg,
                                                                asOf).(pc := FillState(r, |Log(s.db.events, agg.id)|))])
  {
    var q := Query(agg, asOf);
    FindsItself(s.db.aggregates, agg, "", map[]);
    InvIsConsistent(s);
    Starts(s, q, true);
    ChecksCache(s, q, true);
    GoesOn(s, s.cache, s.snapshots, q, CheckCache, true, s.cache, s.snapshots, FindAggregate, true);
    FindsOwner(s, q, true);
    ReachesFill(s, q, agg, ALL_UP, NoFault);
    r := Reconstruction(ViewOf(s), s.snapshots, s.cache, agg, asOf, ALL_UP);
    m := At(s, CacheAfterLookup(s.snapshots, s.cache, agg.id, asOf, ALL_UP), s.snapshots, q,
            FillState(r, |Log(s.db.events, agg.id)|));
    CallLeads(s, m, |s.calls|);
  }

  /** One more event for the aggregate, from its first statement to its delete. */
  lemma AppendsOneMore(m: State, agg: Aggregate, payload: JsonObject) returns (s': State)
    requires Inv(m) && Quiet(m) && agg in m.db.aggregates
    ensures Leads(m, s') && s' == AfterAppend(m, agg.projectId, InputFor(agg, payload), "", true) && Quiet(s')
    ensures agg in s'.db.aggregates && |Log(s'.db.events, agg.id)| == |Log(m.db.events, agg.id)| + 1
  {
    FindsItself(m.db.aggregates, agg, "", payload);
    AppendAlone(m, agg.projectId, InputFor(agg, payload), "", true);
    s' := AfterAppend(m, agg.projectId, InputFor(agg, payload), "", true);
    AppendLeads(m, s', |m.db.txs|);
    AppendedIsOneMore(ViewOf(m), agg.projectId, InputFor(agg, payload), "");
    LogOfExtended(m.db.events, EventFor(ViewOf(m), agg.projectId, InputFor(agg, payload), ""), agg.id);
  }

  lemma FillsTheCache(m: State, c: nat, r: StateResult, seen: nat)
    requires c < |m.calls| && m.calls[c].pc == FillState(r, seen) && m.calls[c].purpose == Reply
    requires ValidAsOf(m.calls[c].asOf) && m.versions != []
    ensures Enabled(m, Advance(c, true))
    ensures var s', key := Apply(m, Advance(c, true)), StateKey(m.calls[c].aggregateId, m.calls[c].asOf);
            && s' == m.(cache := m.cache[key := StateValue(r, seen)],
                        calls := m.calls[c := m.calls[c].(pc := Answered(r, seen))])
            && s'.calls[c].Done()
  {}

  lemma AppendIsDone(m: State, projectId: string, input: AppendInput, newId: string)
    requires AppendsDone(m)
    ensures AppendsDone(AfterAppend(m, projectId, input, newId, true))
  {}

  /** An append runs from its first statement to its delete, then the waiting query fills the cache. */
  lemma AppendsThenFills(m: State, c: nat, agg: Aggregate, payload: JsonObject, r: StateResult, seen: nat)
      returns (s': State)
    requires Inv(m) && AppendsDone(m) && agg in m.db.aggregates
    requires c < |m.calls| && m.calls[c].pc == FillState(r, seen) && m.calls[c].purpose == Reply
             && ValidAsOf(m.calls[c].asOf)
    ensures Leads(m, s') && AppendsDone(s') && s'.versions == m.versions && agg in s'.db.aggregates
    ensures s'.calls == m.calls[c := m.calls[c].(pc := Answered(r, seen))]
    ensures |s'.db.events| == |m.db.events| + 1 && |Log(s'.db.events, agg.id)| == |Log(m.db.events, agg.id)| + 1
    ensures var key := StateKey(m.calls[c].aggregateId, m.calls[c].asOf);
            key in s'.cache && s'.cache[key] == StateValue(r, seen)
  {
    var two := AppendsOneMore(m, agg, payload);
    AppendIsDone(m, agg.projectId, InputFor(agg, payload), "");
    FillsTheCache(two, c, r, seen);
    StepLeads(two, Advance(c, true));
    s' := Apply(two, Advance(c, true));
    LeadsTogether(m, two, s');
  }

  lemma NewEntryIsStale(s: State, agg: Aggregate, asOf: Option<string>, n: nat)
    requires Inv(s) && RulesHeld(ViewOf(s), agg) && agg in s.db.aggregates && ValidAsOf(asOf)
    requires StateKey(agg.id, asOf) in s.cache && s.cache[StateKey(agg.id, asOf)].StateValue?
    requires s.cache[StateKey(agg.id, asOf)].seen == n && |Log(s.db.events, agg.id)| == n + 1
    requires asOf.Some? ==> ToNat(asOf.value) > n
    ensures !RightAnswer(ViewOf(s), agg, asOf, s.cache[StateKey(agg.id, asOf)].result)
  {
    assert StateEntryGood(ViewOf(s), s.cache, agg.id, asOf);
    AnswerIsRightIff(ViewOf(s), agg, asOf, s.cache[StateKey(agg.id, asOf)].result, n);
  }

  /** Documentation promises that once an append has deleted the latest entries no read returns
      stale state, and that an answer as of sequence number N never changes. From every state
      with no append under way and a missing entry that covers the next event there is a run on
      which neither holds: a query reads the log, an append commits and deletes the latest
      entries, and then the query fills the cache. No command fails and the entry is wrong; if
      no other call was in flight, nothing is left to run that would remove it. */
  lemma EveryAnswerCanGoStale(s: State, agg: Aggregate, asOf: Option<string>, payload: JsonObject) returns (s': State)
    requires Inv(s) && AppendsDone(s) && RulesHeld(ViewOf(s), agg) && agg in s.db.aggregates
    requires ValidAsOf(asOf) && (asOf.Some? ==> ToNat(asOf.value) > |Log(s.db.events, agg.id)|)
    requires StateKey(agg.id, asOf) !in s.cache
    ensures Leads(s, s') && AppendsDone(s') && s'.versions == s.versions && agg in s'.db.aggregates
    ensures AllDone(s) ==> AllDone(s')
    ensures |s'.calls| == |s.calls| + 1 && s'.calls[..|s.calls|] == s.calls && s'.calls[|s.calls|].Done()
    ensures |s'.db.events| == |s.db.events| + 1
    ensures StateKey(agg.id, asOf) in s'.cache && s'.cache[StateKey(agg.id, asOf)].StateValue?
    ensures !RightAnswer(ViewOf(s'), agg, asOf, s'.cache[StateKey(agg.id, asOf)].result)
  {
    s' := ReadAppendFill(s, agg, asOf, payload);
    LeadsKeepsInv(s, s');
    RulesHeldByVersions(ViewOf(s), ViewOf(s'), agg);
    NewEntryIsStale(s', agg, asOf, |Log(s.db.events, agg.id)|);
    DoneCallsStayDone(s, s');
  }

  lemma DoneCallsStayDone(s: State, s': State)
    requires AppendsDone(s') && |s'.calls| == |s.calls| + 1
    requires s'.calls[..|s.calls|] == s.calls && s'.calls[|s.calls|].Done()
    ensures AllDone(s) ==> AllDone(s')
  {
    if AllDone(s) {
      forall c | 0 <= c < |s'.calls| ensures s'.calls[c].Done() {
        if c < |s.calls| { assert s'.calls[c] == s.calls[c]; }
      }
    }
  }

  /** The run itself. */
  lemma ReadAppendFill(s: State, agg: Aggregate, asOf: Option<string>, payload: JsonObject) returns (s': State)
    requires Inv(s) && AppendsDone(s) && agg in s.db.aggregates
    requires ValidAsOf(asOf) && StateKey(agg.id, asOf) !in s.cache
    ensures Leads(s, s') && AppendsDone(s') && s'.versions == s.versions && agg in s'.db.aggregates
    ensures |s'.calls| == |s.calls| + 1 && s'.calls[..|s.calls|] == s.calls && s'.calls[|s.calls|].Done()
    ensures |s'.db.events| == |s.db.events| + 1
    ensures |Log(s'.db.events, agg.id)| == |Log(s.db.events, agg.id)| + 1
    ensures var key := StateKey(agg.id, asOf);
            key in s'.cache && s'.cache[key].StateValue? && s'.cache[key].seen == |Log(s.db.events, agg.id)|
  {
    var n := |Log(s.db.events, agg.id)|;
    var m, r := ReadsEverything(s, agg, asOf);
    LeadsKeepsInv(s, m);
    s' := AppendsThenFills(m, |s.calls|, agg, payload, r, n);
    LeadsTogether(s, m, s');
  }

  const AGG := Aggregate("a", "p", "t", "k")

  lemma OneAppend(s0: State) returns (s: State)
    requires Initial(s0)
    ensures Leads(s0, s) && AllDone(s) && s.db.aggregates == [AGG] && s.versions == s0.versions
    ensures |Log(s.db.events, "a")| == |s.db.events| == 1 && s.cache == map[] && s.calls == []
  {
    InitialInv(s0);
    AppendAlone(s0, "p", InputFor(AGG, map[]), "a", true);
    s := AfterAppend(s0, "p", InputFor(AGG, map[]), "a", true);
    AppendLeads(s0, s, 0);
    LogOfExtended([], s.db.events[0], "a");
    assert [] + [s.db.events[0]] == s.db.events;
  }

  lemma CoversTwo(asOf: Option<string>)
    requires asOf == None || asOf == Some("2")
    ensures ValidAsOf(asOf) && (asOf.Some? ==> ToNat(asOf.value) == 2)
  {
    assert asOf.Some? ==> ToNat("2"[..0]) == 0;
  }

  /** In particular from the empty system, with two appends: for the latest state, and as of
      sequence number 2. */
  lemma CachedAnswerCanBeStale(s0: State, asOf: Option<string>) returns (s: State)
    requires Initial(s0)
    requires asOf == None || asOf == Some("2")
    ensures Leads(s0, s) && AllDone(s) && |s.db.events| == 2 && |s.calls| == 1 && s.calls[0].Done()
    ensures AGG in s.db.aggregates && ViewOf(s).versions != [] && ValidAsOf(asOf)
    ensures StateKey("a", asOf) in s.cache && s.cache[StateKey("a", asOf)].StateValue?
    ensures !RightAnswer(ViewOf(s), AGG, asOf, s.cache[StateKey("a", asOf)].result)
  {
    CoversTwo(asOf);
    InitialInv(s0);
    var one := OneAppend(s0);
    LeadsKeepsInv(s0, one);
    OneVersionHolds(ViewOf(one), AGG);
    s := EveryAnswerCanGoStale(one, AGG, asOf, map[]);
    LeadsTogether(s0, one, s);
  }
}
