/** What holds in every run of the interleaved system. */
module PrefixConsistency {
  import opened Values
  import opened CacheKeys
  import opened Tables
  import opened Consistency
  import opened Interleaving

  /** The actions lead from one state to the other, one enabled action after another. */
  predicate Steps(s: State, actions: seq<Action>, s': State)
    decreases |actions|
  {
    if actions == [] then s == s'
    else Enabled(s, actions[0]) && Steps(Apply(s, actions[0]), actions[1..], s')
  }

  lemma {:induction false} StepsConcat(s: State, first: seq<Action>, m: State, second: seq<Action>, s': State)
    requires Steps(s, first, m) && Steps(m, second, s')
    ensures Steps(s, first + second, s')
    decreases |first|
  {
    if first == [] {
      assert first + second == second;
    } else {
      StepsConcat(Apply(s, first[0]), first[1..], m, second, s');
      assert (first + second)[1..] == first[1..] + second;
    }
  }

  lemma StepsExtend(s: State, actions: seq<Action>, m: State, a: Action)
    requires Steps(s, actions, m) && Enabled(m, a)
    ensures Steps(s, actions + [a], Apply(m, a))
  {
    assert [a][1..] == [];
    StepsConcat(s, actions, m, [a], Apply(m, a));
  }

  /** Every committed append has issued its delete. */
  predicate AllInvalidated(s: State) {
    forall t: nat :: t < |s.db.txs| && s.db.txs[t].phase.Committed? ==> t in s.invalidated
  }

  /** Some run from empty tables and an empty cache, under any initial rule table, ends in `s`. */
  ghost predicate Reachable(s: State) {
    exists s0: State, actions: seq<Action> :: Initial(s0) && Steps(s0, actions, s)
  }

  lemma {:induction false} StepsKeepInv(s: State, actions: seq<Action>, s': State)
    requires Inv(s) && Steps(s, actions, s')
    ensures Inv(s')
    decreases |actions|
  {
    if actions != [] {
      Interleaving.StepKeepsInv(s, actions[0]);
      StepsKeepInv(Apply(s, actions[0]), actions[1..], s');
    }
  }

  lemma ReachableInv(s: State)
    requires Reachable(s)
    ensures Inv(s)
  {
    var s0: State, actions: seq<Action> :| Initial(s0) && Steps(s0, actions, s);
    InitialInv(s0);
    StepsKeepInv(s0, actions, s);
  }

  lemma ReachableSteps(s: State, actions: seq<Action>, s': State)
    requires Reachable(s) && Steps(s, actions, s')
    ensures Reachable(s')
  {
    var s0: State, before: seq<Action> :| Initial(s0) && Steps(s0, before, s);
    StepsConcat(s0, before, s, actions, s');
  }

  lemma StepGrows(s: State, a: Action)
    requires Inv(s) && Enabled(s, a)
    ensures Grows(ViewOf(s), ViewOf(Apply(s, a))) && s.snapshots <= Apply(s, a).snapshots
  {
    match a
    case Append(statement) => Protocol.StepAppendsAtMostOne(s.db, statement);
    case Advance(c, redisUp) => AdvanceOnlyAddsRows(s, c, redisUp);
    case _ =>
  }

  lemma AdvanceOnlyAddsRows(s: State, c: nat, redisUp: bool)
    requires Enabled(s, Advance(c, redisUp))
    ensures var s' := Next(s, c, redisUp);
            s'.db == s.db && s'.versions == s.versions && s.snapshots <= s'.snapshots
  {}

  /** Does the action run a statement of call c, or fail it? */
  predicate Runs(a: Action, c: nat) {
    (a.Advance? || a.Fail?) && a.c == c
  }

  lemma OtherCallsStay(s: State, a: Action, c: nat)
    requires Enabled(s, a) && c < |s.calls| && !Runs(a, c)
    ensures c < |Apply(s, a).calls| && Apply(s, a).calls[c] == s.calls[c]
  {}

  lemma CallsKeepTheirQuestion(s: State, a: Action, c: nat)
    requires Enabled(s, a) && c < |s.calls|
    ensures c < |Apply(s, a).calls| && Apply(s, a).calls[c] == s.calls[c].(pc := Apply(s, a).calls[c].pc)
  {
    if !Runs(a, c) { OtherCallsStay(s, a, c); }
  }

  lemma {:induction false} StepsKeepQuestion(s: State, actions: seq<Action>, s': State, c: nat)
    requires Steps(s, actions, s') && c < |s.calls|
    ensures c < |s'.calls| && s'.calls[c] == s.calls[c].(pc := s'.calls[c].pc)
    decreases |actions|
  {
    if actions != [] {
      CallsKeepTheirQuestion(s, actions[0], c);
      StepsKeepQuestion(Apply(s, actions[0]), actions[1..], s', c);
    }
  }

  lemma {:induction false} StepsGrow(s: State, actions: seq<Action>, s': State)
    requires Inv(s) && Steps(s, actions, s')
    ensures Grows(ViewOf(s), ViewOf(s')) && s.snapshots <= s'.snapshots
    decreases |actions|
  {
    if actions != [] {
      Interleaving.StepKeepsInv(s, actions[0]);
      StepGrows(s, actions[0]);
      StepsGrow(Apply(s, actions[0]), actions[1..], s');
    }
  }

  /** A getState result as its caller sees it, whichever call returned it. */
  predicate Returned(s: State, c: nat, r: StateResult) {
    c < |s.calls| && s.calls[c].pc.Answered? && s.calls[c].pc.result == r
  }

  /** The rules may change at any time: in every reachable state every snapshot row, every
      entry of either cache layer and every returned result sits at a position within the
      log, and its state folds exactly the events up to there, each under a rule version that
      never goes back to an older one. */
  lemma DerivedDataIsPrefixConsistent(s: State, id: string, asOf: Option<string>)
    requires Reachable(s) && ValidAsOf(asOf)
    ensures forall i :: 0 <= i < |s.snapshots| ==>
              && 1 <= s.snapshots[i].sequenceNumber
              && Good(ViewOf(s), s.snapshots[i].aggregateId, s.snapshots[i].sequenceNumber, s.snapshots[i].state)
    ensures StateKey(id, asOf) in s.cache ==>
              s.cache[StateKey(id, asOf)].StateValue?
              && ResultGood(ViewOf(s), id, asOf, s.cache[StateKey(id, asOf)].result, s.cache[StateKey(id, asOf)].seen)
    ensures LookupKey(id, asOf) in s.cache ==>
              s.cache[LookupKey(id, asOf)].LookupValue?
              && LookupGood(ViewOf(s), id, asOf, s.cache[LookupKey(id, asOf)].lookup)
    ensures forall c: nat, r: StateResult :: Returned(s, c, r) ==>
              ValidAsOf(s.calls[c].asOf)
              && ResultGood(ViewOf(s), s.calls[c].aggregateId, s.calls[c].asOf, r, s.calls[c].pc.seen)
  {
    ReachableInv(s);
    assert StateEntryGood(ViewOf(s), s.cache, id, asOf) && LookupEntryGood(ViewOf(s), s.cache, id, asOf);
    forall i | 0 <= i < |s.snapshots|
      ensures s.snapshots[i].sequenceNumber >= 1
              && Good(ViewOf(s), s.snapshots[i].aggregateId, s.snapshots[i].sequenceNumber, s.snapshots[i].state)
    {
      assert SnapshotGood(ViewOf(s), s.snapshots[i]);
    }
    forall c: nat, r: StateResult | Returned(s, c, r)
      ensures ValidAsOf(s.calls[c].asOf)
              && ResultGood(ViewOf(s), s.calls[c].aggregateId, s.calls[c].asOf, r, s.calls[c].pc.seen)
    {
      assert CallInv(ViewOf(s), s.snapshots, s.calls[c]);
    }
  }

  /** `r` is the plain fold of exactly as many events as its label says. */
  predicate IsPlain(v: View, agg: Aggregate, asOfSequence: Option<string>, state: JsonObject)
    requires v.versions != []
  {
    && (asOfSequence.Some? ==> IsDecimal(asOfSequence.value))
    && var k := if asOfSequence.Some? then ToNat(asOfSequence.value) else 0;
       k <= |Log(v.events, agg.id)| && state == PlainState(v, agg, k)
  }

  /** With an aggregate's rules held: every snapshot row, cached value and returned result labelled k,
      null meaning 0, has k at most the log length and is the plain fold of the first k events
      from the empty state, in every interleaving. */
  lemma DerivedDataIsThePlainFold(s: State, agg: Aggregate, asOf: Option<string>)
    requires Reachable(s) && s.versions != [] && RulesHeld(ViewOf(s), agg)
    requires agg in s.db.aggregates && ValidAsOf(asOf)
    ensures forall i :: 0 <= i < |s.snapshots| && s.snapshots[i].aggregateId == agg.id ==>
              IsPlain(ViewOf(s), agg, Label(s.snapshots[i].sequenceNumber), s.snapshots[i].state)
    ensures StateKey(agg.id, asOf) in s.cache ==>
              s.cache[StateKey(agg.id, asOf)].StateValue?
              && var r := s.cache[StateKey(agg.id, asOf)].result; IsPlain(ViewOf(s), agg, r.asOfSequence, r.state)
    ensures LookupKey(agg.id, asOf) in s.cache ==>
              s.cache[LookupKey(agg.id, asOf)].LookupValue?
              && var l := s.cache[LookupKey(agg.id, asOf)].lookup; IsPlain(ViewOf(s), agg, Some(l.sequenceNumber),
                  l.state)
    ensures forall c: nat, r: StateResult :: Returned(s, c, r) && s.calls[c].aggregateId == agg.id ==>
              IsPlain(ViewOf(s), agg, r.asOfSequence, r.state)
  {
    DerivedDataIsPrefixConsistent(s, agg.id, asOf);
    ReachableInv(s);
    var v := ViewOf(s);
    forall k, state | Good(v, agg.id, k, state) ensures IsPlain(v, agg, Label(k), state) {
      GoodIsPlainWhenRulesHeld(v, agg, k, state);
      LabelReadsBack(k);
    }
    if LookupKey(agg.id, asOf) in s.cache {
      var l := s.cache[LookupKey(agg.id, asOf)].lookup;
      GoodIsPlainWhenRulesHeld(v, agg, ToNat(l.sequenceNumber), l.state);
    }
    forall c: nat, r: StateResult | Returned(s, c, r) && s.calls[c].aggregateId == agg.id
      ensures IsPlain(v, agg, r.asOfSequence, r.state)
    {
      assert ResultGood(v, agg.id, s.calls[c].asOf, r, s.calls[c].pc.seen);
      assert Good(v, agg.id, Reach(s.calls[c].asOf, s.calls[c].pc.seen), r.state);
    }
  }

  /** A cached value always has the shape its reader expects, so no call ever gets stuck. */
  lemma CallsAlwaysAdvance(s: State, c: nat, redisUp: bool)
    requires Reachable(s) && c < |s.calls| && !s.calls[c].Done()
    ensures Enabled(s, Advance(c, redisUp))
  {
    ReachableInv(s);
    var call := s.calls[c];
    assert CallInv(ViewOf(s), s.snapshots, call);
    assert StateEntryGood(ViewOf(s), s.cache, call.aggregateId, call.asOf);
    assert LookupEntryGood(ViewOf(s), s.cache, call.aggregateId, call.asOf);
    if call.pc.Answered? { LabelReadsBack(Reach(call.asOf, call.pc.seen)); }
  }

  // ---- Permanence of history ----

  /** Permanence of history: an entry under sequence number N that was filled from a log of at
      least N events is the fold of the first N events, labelled N, in every later state of
      every run that has held the aggregate's rules, with nothing ever invalidating it. */
  lemma HistoryIsPermanent(s: State, actions: seq<Action>, s': State, agg: Aggregate, n: string)
    requires Reachable(s) && Steps(s, actions, s') && s'.versions != [] && RulesHeld(ViewOf(s'), agg)
    requires IsDecimal(n) && agg in s'.db.aggregates
    requires StateKey(agg.id, Some(n)) in s.cache
    requires s.cache[StateKey(agg.id, Some(n))].StateValue? && s.cache[StateKey(agg.id, Some(n))].seen >= ToNat(n)
    ensures var r := s.cache[StateKey(agg.id, Some(n))].result;
            && r.asOfSequence == Label(ToNat(n))
            && ToNat(n) <= |Log(s'.db.events, agg.id)|
            && r.state == PlainState(ViewOf(s'), agg, ToNat(n))
            && RightAnswer(ViewOf(s'), agg, Some(n), r)
  {
    ReachableInv(s);
    StepsKeepInv(s, actions, s');
    StepsGrow(s, actions, s');
    var entry := s.cache[StateKey(agg.id, Some(n))];
    assert StateEntryGood(ViewOf(s), s.cache, agg.id, Some(n));
    ResultGrows(ViewOf(s), ViewOf(s'), agg.id, Some(n), entry.result, entry.seen);
    AnswerIsRightIff(ViewOf(s'), agg, Some(n), entry.result, entry.seen);
  }

  /** And only such an entry is permanent: filled from a shorter log, it is wrong as soon as
      the log grows. */
  lemma HistoryIsPermanentIff(v: View, agg: Aggregate, n: string, r: StateResult, seen: nat)
    requires ViewInv(v) && RulesHeld(v, agg) && agg in v.aggregates && IsDecimal(n)
    requires ResultGood(v, agg.id, Some(n), r, seen)
    ensures (forall v': View | ViewInv(v') && Grows(v, v') && RulesHeld(v', agg) ::
               RightAnswer(v', agg, Some(n), r))
            <==> seen >= ToNat(n)
  {
    if seen >= ToNat(n) {
      forall v': View | ViewInv(v') && Grows(v, v') && RulesHeld(v', agg)
        ensures RightAnswer(v', agg, Some(n), r)
      {
        ResultGrows(v, v', agg.id, Some(n), r, seen);
        AnswerIsRightIff(v', agg, Some(n), r, seen);
      }
    } else {
      var v' := OneMore(v, agg.id);
      ResultGrows(v, v', agg.id, Some(n), r, seen);
      AnswerIsRightIff(v', agg, Some(n), r, seen);
      assert !RightAnswer(v', agg, Some(n), r);
    }
  }

  lemma OneMore(v: View, id: string) returns (v': View)
    requires ViewInv(v)
    ensures ViewInv(v') && Grows(v, v') && v'.versions == v.versions
    ensures |Log(v'.events, id)| == |Log(v.events, id)| + 1
  {
    var e := Event(id, |Log(v.events, id)| + 1, "", Null);
    v' := v.(events := v.events + [e]);
    forall i ensures GaplessLog(Log(v'.events, i)) {
      LogOfExtended(v.events, e, i);
      assert GaplessLog(Log(v.events, i));
    }
    LogOfExtended(v.events, e, id);
  }

  // ---- Racing snapshot creation ----

  /** In every reachable state the snapshot rows are unique per (aggregate, sequence number)
      and each lies within the log of its aggregate. */
  lemma SnapshotsLieWithinTheLog(s: State)
    requires Reachable(s)
    ensures UniqueSnapshots(s.snapshots)
    ensures forall i :: 0 <= i < |s.snapshots| ==>
              1 <= s.snapshots[i].sequenceNumber <= |Log(s.db.events, s.snapshots[i].aggregateId)|
  {
    ReachableInv(s);
    forall i | 0 <= i < |s.snapshots|
      ensures 1 <= s.snapshots[i].sequenceNumber <= |Log(s.db.events, s.snapshots[i].aggregateId)|
    {
      assert SnapshotGood(ViewOf(s), s.snapshots[i]);
    }
  }

  lemma ReportedIsStored(s: State, c: nat)
    requires Inv(s) && c < |s.calls| && s.calls[c].pc.Snapshotted? && s.calls[c].pc.created.Some?
    ensures s.calls[c].pc.created.value in s.snapshots
  {
    assert CallInv(ViewOf(s), s.snapshots, s.calls[c]);
  }

  /** A createSnapshot that reports a row has left that row in the table, for good. */
  lemma ReportedSnapshotsExist(s: State, actions: seq<Action>, s': State, c: nat)
    requires Reachable(s) && Steps(s, actions, s')
    requires c < |s.calls| && s.calls[c].pc.Snapshotted? && s.calls[c].pc.created.Some?
    ensures s.calls[c].pc.created.value in s'.snapshots
  {
    ReachableInv(s);
    ReportedIsStored(s, c);
    StepsGrow(s, actions, s');
  }

  /** The highest snapshot of an aggregate never moves back, in any run. */
  lemma LatestSnapshotNeverMovesBack(s: State, actions: seq<Action>, s': State, id: string)
    requires Reachable(s) && Steps(s, actions, s')
    ensures LatestSequence(s.snapshots, id) <= LatestSequence(s'.snapshots, id)
  {
    ReachableInv(s);
    StepsGrow(s, actions, s');
    LatestNeverDecreases(s.snapshots, s'.snapshots, id);
  }
}
