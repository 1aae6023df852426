/** Exactly which schedules leave a stale latest entry behind. */
module Straddling {
  import opened Values
  import opened CacheKeys
  import opened Tables
  import opened Consistency
  import opened Interleaving
  import opened PrefixConsistency
  import opened StaleReads

  /** A run with its states, so that its moments can be named. */
  predicate IsRun(states: seq<State>, actions: seq<Action>) {
    && |states| == |actions| + 1
    && (forall i :: 0 <= i < |actions| ==>
          Enabled(states[i], actions[i]) && states[i + 1] == Apply(states[i], actions[i]))
  }

  ghost predicate IsRunFromStart(states: seq<State>, actions: seq<Action>) {
    IsRun(states, actions) && Initial(states[0])
  }

  /** Every delete an append issues is answered. */
  predicate DeletesAnswered(actions: seq<Action>) {
    forall i :: 0 <= i < |actions| && actions[i].AfterCommit? ==> actions[i].redisUp
  }

  /** At moment i call c reads the events of `id`. */
  predicate ReadsAt(states: seq<State>, actions: seq<Action>, i: nat, c: nat)
    requires IsRun(states, actions)
  {
    && i < |actions| && actions[i].Advance? && actions[i].c == c
    && c < |states[i].calls| && states[i].calls[c].pc.ReadEvents?
  }

  /** At moment i call c fills the latest state entry of `id`. */
  predicate FillsAt(states: seq<State>, actions: seq<Action>, i: nat, c: nat, id: string)
    requires IsRun(states, actions)
  {
    && i < |actions| && actions[i] == Advance(c, true)
    && c < |states[i].calls| && states[i].calls[c].pc.FillState?
    && states[i].calls[c].aggregateId == id && states[i].calls[c].asOf == None
  }

  /** At moment i append t commits an event of `id`. */
  predicate CommitsAt(states: seq<State>, actions: seq<Action>, i: nat, t: nat, id: string)
    requires IsRun(states, actions)
  {
    && i < |actions| && actions[i] == Append(Protocol.Commit(t))
    && t < |states[i].db.txs| && states[i].db.txs[t].phase.Written? && states[i].db.txs[t].phase.event.aggregateId == id
  }

  /** At moment i append t issues its delete. */
  predicate DeletesAt(actions: seq<Action>, i: nat, t: nat) {
    i < |actions| && actions[i].AfterCommit? && actions[i].t == t
  }

  /** Between its read and its fill call c has missed a commit and the delete of that commit. */
  ghost predicate Straddled(states: seq<State>, actions: seq<Action>, f: nat, c: nat, id: string)
    requires IsRun(states, actions)
  {
    exists r: nat, k: nat, d: nat, t: nat ::
      r < k < d < f && ReadsAt(states, actions, r, c) && CommitsAt(states, actions, k, t, id)
        && DeletesAt(actions, d, t)
  }

  // ---- Runs ----

  lemma {:induction false} RunInv(states: seq<State>, actions: seq<Action>, i: nat)
    requires IsRunFromStart(states, actions) && i < |states|
    ensures Inv(states[i])
  {
    if i == 0 {
      InitialInv(states[0]);
    } else {
      RunInv(states, actions, i - 1);
      Interleaving.StepKeepsInv(states[i - 1], actions[i - 1]);
    }
  }

  lemma {:induction false} RunGrows(states: seq<State>, actions: seq<Action>, i: nat, j: nat, id: string)
    requires IsRunFromStart(states, actions) && i <= j < |states|
    ensures states[i].db.events <= states[j].db.events
    ensures |Log(states[i].db.events, id)| <= |Log(states[j].db.events, id)|
  {
    if i < j {
      RunGrows(states, actions, i, j - 1, id);
      RunInv(states, actions, j - 1);
      StepGrows(states[j - 1], actions[j - 1]);
      LogGrows(states[j - 1].db.events, states[j].db.events, id);
    }
  }

  lemma StepKeepsTx(s: State, a: Action, t: nat)
    requires Enabled(s, a) && t < |s.db.txs| && s.db.txs[t].phase.Committed?
    ensures t < |Apply(s, a).db.txs| && Apply(s, a).db.txs[t] == s.db.txs[t]
  {
    if a.Append? { Protocol.StepKeepsCommitted(s.db, a.statement, t); }
  }

  lemma {:induction false} RunKeepsTx(states: seq<State>, actions: seq<Action>, i: nat, j: nat, t: nat)
    requires IsRun(states, actions) && i <= j < |states|
    requires t < |states[i].db.txs| && states[i].db.txs[t].phase.Committed?
    ensures t < |states[j].db.txs| && states[j].db.txs[t] == states[i].db.txs[t]
  {
    if i < j {
      RunKeepsTx(states, actions, i, j - 1, t);
      StepKeepsTx(states[j - 1], actions[j - 1], t);
    }
  }

  /** Every run, with its states. */
  lemma {:induction false} StepsAreARun(s: State, actions: seq<Action>, s': State) returns (states: seq<State>)
    requires Steps(s, actions, s')
    ensures IsRun(states, actions) && states[0] == s && states[|actions|] == s'
    decreases |actions|
  {
    if actions == [] {
      states := [s];
    } else {
      var rest := StepsAreARun(Apply(s, actions[0]), actions[1..], s');
      states := [s] + rest;
      forall i | 0 <= i < |actions| ensures Enabled(states[i], actions[i])
        && states[i + 1] == Apply(states[i], actions[i]) {
        if i > 0 { assert actions[1..][i - 1] == actions[i] && states[i] == rest[i - 1] && states[i + 1] == rest[i]; }
      }
    }
  }

  lemma ProtocolRunExtends(states: seq<Protocol.State>, actions: seq<Protocol.Action>, a: Protocol.Action)
    requires Protocol.IsRun(states, actions) && Protocol.Enabled(states[|actions|], a)
    ensures Protocol.IsRun(states + [Protocol.Apply(states[|actions|], a)], actions + [a])
  {}

  /** The append statements of a run are a run of the append protocol, so all that holds of every
      run of the protocol holds of the appends in it. */
  lemma {:induction false} AppendsAreAProtocolRun(states: seq<State>, actions: seq<Action>, n: nat)
      returns (dbs: seq<Protocol.State>, statements: seq<Protocol.Action>)
    requires IsRunFromStart(states, actions) && n < |states|
    ensures Protocol.IsRun(dbs, statements) && dbs[0] == Protocol.EMPTY_STATE && dbs[|statements|] == states[n].db
  {
    if n == 0 {
      dbs, statements := [states[0].db], [];
    } else {
      dbs, statements := AppendsAreAProtocolRun(states, actions, n - 1);
      assert states[n] == Apply(states[n - 1], actions[n - 1]);
      if actions[n - 1].Append? {
        ProtocolRunExtends(dbs, statements, actions[n - 1].statement);
        dbs := dbs + [Protocol.Apply(dbs[|statements|], actions[n - 1].statement)];
        statements := statements + [actions[n - 1].statement];
      }
    }
  }

  // ---- When a transaction committed, and when its delete was issued ----

  lemma OnlyCommitCommits(s: State, a: Action, t: nat)
    requires Enabled(s, a)
    requires t < |Apply(s, a).db.txs| && Apply(s, a).db.txs[t].phase.Committed?
    requires !(t < |s.db.txs| && s.db.txs[t].phase.Committed?)
    ensures a == Append(Protocol.Commit(t)) && t < |s.db.txs| && s.db.txs[t].phase.Written?
    ensures Apply(s, a).db.txs[t].phase.event == s.db.txs[t].phase.event
  {}

  lemma {:induction false} CommitHappened(states: seq<State>, actions: seq<Action>, n: nat, t: nat) returns (k: nat)
    requires IsRunFromStart(states, actions) && n < |states|
    requires t < |states[n].db.txs| && states[n].db.txs[t].phase.Committed?
    ensures k < n && CommitsAt(states, actions, k, t, states[n].db.txs[t].phase.event.aggregateId)
    ensures states[k].db.txs[t].phase.event == states[n].db.txs[t].phase.event
  {
    if t < |states[n - 1].db.txs| && states[n - 1].db.txs[t].phase.Committed? {
      k := CommitHappened(states, actions, n - 1, t);
      StepKeepsTx(states[n - 1], actions[n - 1], t);
    } else {
      k := n - 1;
      OnlyCommitCommits(states[k], actions[k], t);
    }
  }

  lemma {:induction false} DeleteHappened(states: seq<State>, actions: seq<Action>, n: nat, t: nat) returns (d: nat)
    requires IsRunFromStart(states, actions) && n < |states| && t in states[n].invalidated
    ensures d < n && DeletesAt(actions, d, t)
  {
    if t in states[n - 1].invalidated {
      d := DeleteHappened(states, actions, n - 1, t);
    } else {
      d := n - 1;
      assert states[n] == Apply(states[d], actions[d]);
    }
  }

  lemma DeleteFollowsCommit(states: seq<State>, actions: seq<Action>, k: nat, d: nat, t: nat, id: string)
    requires IsRun(states, actions) && CommitsAt(states, actions, k, t, id) && DeletesAt(actions, d, t)
    ensures k < d
  {
    assert states[d].db.txs[t].phase.Committed?;
    if d <= k { RunKeepsTx(states, actions, d, k, t); }
  }

  // ---- What a fill stores ----

  /** Once a call has read its events it keeps the length of the log it read. */
  predicate Saw(s: State, c: nat, seen: nat) {
    && c < |s.calls|
    && match s.calls[c].pc
       case ReadRules(_, _, _, n) => n == seen
       case FillState(_, n) => n == seen
       case Answered(_, _) => true
       case InsertSnapshot(_, _) => true
       case Invalidate(_) => true
       case Snapshotted(_) => true
       case Failed => true
       case _ => false
  }

  lemma StepKeepsSaw(s: State, a: Action, c: nat, seen: nat)
    requires Enabled(s, a) && Saw(s, c, seen)
    ensures Saw(Apply(s, a), c, seen)
  {
    if !Runs(a, c) { OtherCallsStay(s, a, c); }
  }

  lemma {:induction false} RunKeepsSaw(states: seq<State>, actions: seq<Action>, i: nat, j: nat, c: nat, seen: nat)
    requires IsRun(states, actions) && i <= j < |states| && Saw(states[i], c, seen)
    ensures Saw(states[j], c, seen)
  {
    if i < j {
      RunKeepsSaw(states, actions, i, j - 1, c, seen);
      StepKeepsSaw(states[j - 1], actions[j - 1], c, seen);
    }
  }

  lemma ReadSees(s: State, a: Action, c: nat)
    requires Enabled(s, a) && a.Advance? && a.c == c && s.calls[c].pc.ReadEvents?
    ensures Saw(Apply(s, a), c, |Log(s.db.events, s.calls[c].aggregateId)|)
  {}

  lemma {:induction false} RunKeepsQuestion(states: seq<State>, actions: seq<Action>, i: nat, j: nat, c: nat)
    requires IsRun(states, actions) && i <= j < |states| && c < |states[i].calls|
    ensures c < |states[j].calls| && states[j].calls[c].aggregateId == states[i].calls[c].aggregateId
  {
    if i < j {
      RunKeepsQuestion(states, actions, i, j - 1, c);
      CallsKeepTheirQuestion(states[j - 1], actions[j - 1], c);
    }
  }

  /** A fill stores the length the log had at the call's read. */
  lemma FillStoresWhatWasRead(states: seq<State>, actions: seq<Action>, r: nat, f: nat, c: nat, id: string)
    requires IsRun(states, actions) && r < f && ReadsAt(states, actions, r, c) && FillsAt(states, actions, f, c, id)
    ensures states[f].calls[c].pc.seen == |Log(states[r].db.events, id)|
  {
    RunKeepsQuestion(states, actions, r, f, c);
    ReadSees(states[r], actions[r], c);
    RunKeepsSaw(states, actions, r + 1, f, c, |Log(states[r].db.events, id)|);
  }

  lemma ReadPrecedes(s: State, a: Action, c: nat)
    requires Enabled(s, a) && c < |Apply(s, a).calls|
    requires Apply(s, a).calls[c].pc.ReadRules? || Apply(s, a).calls[c].pc.FillState?
    ensures c < |s.calls| && (s.calls[c].pc.ReadRules? || s.calls[c].pc.FillState?
                              || (s.calls[c].pc.ReadEvents? && a.Advance? && a.c == c))
  {
    if c < |s.calls| && !Runs(a, c) { OtherCallsStay(s, a, c); }
  }

  lemma {:induction false} ReadHappened(states: seq<State>, actions: seq<Action>, f: nat, c: nat) returns (r: nat)
    requires IsRunFromStart(states, actions) && f < |states|
    requires c < |states[f].calls| && (states[f].calls[c].pc.ReadRules? || states[f].calls[c].pc.FillState?)
    ensures r < f && ReadsAt(states, actions, r, c)
  {
    ReadPrecedes(states[f - 1], actions[f - 1], c);
    if states[f - 1].calls[c].pc.ReadEvents? {
      r := f - 1;
    } else {
      r := ReadHappened(states, actions, f - 1, c);
    }
  }

  // ---- The last fill of an entry ----

  /** Only a fill of the entry changes what it holds. */
  lemma EntryStays(s: State, a: Action, id: string)
    requires Enabled(s, a) && LatestStateKey(id) in Apply(s, a).cache
    requires !(a.Advance? && a.redisUp && s.calls[a.c].pc.FillState? && s.calls[a.c].aggregateId == id
               && s.calls[a.c].asOf == None)
    ensures LatestStateKey(id) in s.cache && s.cache[LatestStateKey(id)] == Apply(s, a).cache[LatestStateKey(id)]
  {
    if a.Advance? {
      StateKeysDiffer(id, None, s.calls[a.c].aggregateId, s.calls[a.c].asOf);
    }
  }

  lemma FillStores(s: State, c: nat)
    requires Enabled(s, Advance(c, true)) && s.calls[c].pc.FillState?
    ensures var key := StateKey(s.calls[c].aggregateId, s.calls[c].asOf);
            && key in Apply(s, Advance(c, true)).cache
            && Apply(s, Advance(c, true)).cache[key] == StateValue(s.calls[c].pc.result, s.calls[c].pc.seen)
  {}

  /** Moment f is the last fill of the entry, which has been in the cache ever since. */
  ghost predicate LastFill(states: seq<State>, actions: seq<Action>, n: nat, f: nat, c: nat, id: string)
    requires IsRun(states, actions)
  {
    && f < n < |states| && FillsAt(states, actions, f, c, id)
    && (forall g :: f < g <= n ==> LatestStateKey(id) in states[g].cache)
    && (forall g: nat, b: nat :: f < g < n ==> !FillsAt(states, actions, g, b, id))
    && states[n].cache[LatestStateKey(id)] == StateValue(states[f].calls[c].pc.result, states[f].calls[c].pc.seen)
  }

  lemma EntryStaysAt(states: seq<State>, actions: seq<Action>, g: nat, id: string)
    requires IsRun(states, actions) && g < |actions| && LatestStateKey(id) in states[g + 1].cache
    requires !(actions[g].Advance? && FillsAt(states, actions, g, actions[g].c, id))
    ensures forall b: nat :: !FillsAt(states, actions, g, b, id)
    ensures LatestStateKey(id) in states[g].cache && states[g].cache[LatestStateKey(id)] ==
            states[g + 1].cache[LatestStateKey(id)]
  {
    EntryStays(states[g], actions[g], id);
  }

  lemma NewFillIsLast(states: seq<State>, actions: seq<Action>, f: nat, c: nat, id: string)
    requires IsRun(states, actions) && FillsAt(states, actions, f, c, id)
    ensures LastFill(states, actions, f + 1, f, c, id)
  {
    FillStores(states[f], c);
  }

  lemma LastFillStays(states: seq<State>, actions: seq<Action>, n: nat, f: nat, c: nat, id: string)
    requires IsRun(states, actions) && 0 < n < |states| && LastFill(states, actions, n - 1, f, c, id)
    requires forall g: nat, b: nat :: g == n - 1 ==> !FillsAt(states, actions, g, b, id)
    requires LatestStateKey(id) in states[n].cache
    requires states[n].cache[LatestStateKey(id)] == states[n - 1].cache[LatestStateKey(id)]
    ensures LastFill(states, actions, n, f, c, id)
  {}

  lemma {:induction false} EntryHasLastFill(states: seq<State>, actions: seq<Action>, n: nat, id: string)
      returns (f: nat, c: nat)
    requires IsRunFromStart(states, actions) && n < |states| && LatestStateKey(id) in states[n].cache
    ensures LastFill(states, actions, n, f, c, id)
  {
    var g := n - 1;
    if actions[g].Advance? && FillsAt(states, actions, g, actions[g].c, id) {
      f, c := g, actions[g].c;
      NewFillIsLast(states, actions, f, c, id);
    } else {
      EntryStaysAt(states, actions, g, id);
      f, c := EntryHasLastFill(states, actions, g, id);
      LastFillStays(states, actions, n, f, c, id);
    }
  }

  // ---- Stale exactly when straddled ----

  lemma CommitLengthensLog(states: seq<State>, actions: seq<Action>, k: nat, t: nat, id: string)
    requires IsRun(states, actions) && CommitsAt(states, actions, k, t, id)
    ensures |Log(states[k + 1].db.events, id)| == |Log(states[k].db.events, id)| + 1
  {
    LogOfExtended(states[k].db.events, states[k].db.txs[t].phase.event, id);
    assert states[k + 1] == Apply(states[k], actions[k]);
  }

  lemma StraddledIsStale(states: seq<State>, actions: seq<Action>, n: nat, f: nat, c: nat, id: string)
    requires IsRunFromStart(states, actions) && n < |states|
    requires LastFill(states, actions, n, f, c, id) && Straddled(states, actions, f, c, id)
    ensures states[n].cache[LatestStateKey(id)].seen < |Log(states[n].db.events, id)|
  {
    var r: nat, k: nat, d: nat, t: nat :|
      r < k < d < f && ReadsAt(states, actions, r, c) && CommitsAt(states, actions, k, t, id)
        && DeletesAt(actions, d, t);
    FillStoresWhatWasRead(states, actions, r, f, c, id);
    RunGrows(states, actions, r, k, id);
    CommitLengthensLog(states, actions, k, t, id);
    RunGrows(states, actions, k + 1, n, id);
  }

  /** The first event a stale entry has missed, and the append it came from. */
  lemma MissedAppend(s: State, id: string, seen: nat) returns (t: nat)
    requires Inv(s) && seen < |Log(s.db.events, id)|
    ensures t < |s.db.txs| && s.db.txs[t].phase.Committed?
    ensures s.db.txs[t].phase.event.aggregateId == id && s.db.txs[t].phase.event.sequenceNumber == seen + 1
  {
    var e := Log(s.db.events, id)[seen];
    assert GaplessLog(Log(s.db.events, id));
    LogMembers(s.db.events, id);
    assert e in Log(s.db.events, id);
    var i :| 0 <= i < |s.db.events| && s.db.events[i] == e;
    assert Protocol.WasCommitted(s.db, s.db.events[i]);
    t :| Protocol.CommittedEvent(s.db, t, e);
  }

  lemma CommittedEventIsLogged(s: State, t: nat)
    requires Inv(s) && t < |s.db.txs| && s.db.txs[t].phase.Committed?
    ensures s.db.txs[t].phase.event.sequenceNumber <= |Log(s.db.events, s.db.txs[t].phase.event.aggregateId)|
  {
    var e := s.db.txs[t].phase.event;
    assert Protocol.TxInv(s.db, s.db.txs[t]);
    LogMembers(s.db.events, e.aggregateId);
    var log := Log(s.db.events, e.aggregateId);
    assert GaplessLog(log);
    var i :| 0 <= i < |log| && log[i] == e;
  }

  /** It committed after the read: before, the read would have seen it. */
  lemma MissedCommitFollowsRead(states: seq<State>, actions: seq<Action>, r: nat, c: nat, k: nat, t: nat, id: string)
    requires IsRunFromStart(states, actions) && ReadsAt(states, actions, r, c) && CommitsAt(states, actions, k, t, id)
    requires states[k].db.txs[t].phase.event.sequenceNumber > |Log(states[r].db.events, id)|
    ensures r < k
  {
    if k < r {
      RunInv(states, actions, k + 1);
      CommittedEventIsLogged(states[k + 1], t);
      RunGrows(states, actions, k + 1, r, id);
    }
  }

  /** Its delete came before the fill: after, the entry would be gone. */
  lemma DeletePrecedesFill(states: seq<State>, actions: seq<Action>, n: nat, f: nat, c: nat, k: nat, d: nat, t: nat,
                           id: string)
    requires IsRun(states, actions) && DeletesAnswered(actions) && LastFill(states, actions, n, f, c, id)
    requires CommitsAt(states, actions, k, t, id) && k < d < n && DeletesAt(actions, d, t)
    ensures d < f
  {
    RunKeepsTx(states, actions, k + 1, d, t);
    assert LatestStateKey(id) !in states[d + 1].cache;
  }

  lemma StaleIsStraddled(states: seq<State>, actions: seq<Action>, f: nat, c: nat, id: string)
    requires IsRunFromStart(states, actions) && DeletesAnswered(actions) && AllInvalidated(states[|actions|])
    requires LastFill(states, actions, |actions|, f, c, id)
    requires states[|actions|].cache[LatestStateKey(id)].seen < |Log(states[|actions|].db.events, id)|
    ensures Straddled(states, actions, f, c, id)
  {
    var n := |actions|;
    RunInv(states, actions, n);
    var r := ReadHappened(states, actions, f, c);
    FillStoresWhatWasRead(states, actions, r, f, c, id);
    var t := MissedAppend(states[n], id, states[f].calls[c].pc.seen);
    var k := CommitHappened(states, actions, n, t);
    var d := DeleteHappened(states, actions, n, t);
    MissedCommitFollowsRead(states, actions, r, c, k, t, id);
    DeleteFollowsCommit(states, actions, k, d, t, id);
    DeletePrecedesFill(states, actions, n, f, c, k, d, t, id);
  }

  /** Freshness, in terms of the schedule. In a run in which deletes are answered and every
      committed append has issued its delete, a latest state entry is out of date exactly when
      the call that last filled it straddled a commit and its delete: it read the events before
      the commit and filled the cache after the delete. Nothing else makes an entry stale. */
  lemma LatestEntryIsStaleIff(states: seq<State>, actions: seq<Action>, id: string) returns (f: nat, c: nat)
    requires IsRunFromStart(states, actions) && DeletesAnswered(actions) && AllInvalidated(states[|actions|])
    requires LatestStateKey(id) in states[|actions|].cache
    ensures LastFill(states, actions, |actions|, f, c, id)
    ensures states[|actions|].cache[LatestStateKey(id)].seen != |Log(states[|actions|].db.events, id)|
            <==> Straddled(states, actions, f, c, id)
  {
    var n := |actions|;
    f, c := EntryHasLastFill(states, actions, n, id);
    RunInv(states, actions, n);
    assert StateEntryGood(ViewOf(states[n]), states[n].cache, id, None);
    if states[n].cache[LatestStateKey(id)].seen < |Log(states[n].db.events, id)| {
      StaleIsStraddled(states, actions, f, c, id);
    }
    if Straddled(states, actions, f, c, id) { StraddledIsStale(states, actions, n, f, c, id); }
  }

  /** With the aggregate's rules held: the entry is what a full replay gives unless that happened. */
  lemma LatestEntryIsRightIff(states: seq<State>, actions: seq<Action>, agg: Aggregate) returns (f: nat, c: nat)
    requires IsRunFromStart(states, actions) && DeletesAnswered(actions) && AllInvalidated(states[|actions|])
    requires LatestStateKey(agg.id) in states[|actions|].cache
    requires states[|actions|].versions != [] && RulesHeld(ViewOf(states[|actions|]), agg)
    requires agg in states[|actions|].db.aggregates
    ensures LastFill(states, actions, |actions|, f, c, agg.id)
    ensures RightAnswer(ViewOf(states[|actions|]), agg, None, states[|actions|].cache[LatestStateKey(agg.id)].result)
            <==> !Straddled(states, actions, f, c, agg.id)
  {
    var s := states[|actions|];
    f, c := LatestEntryIsStaleIff(states, actions, agg.id);
    RunInv(states, actions, |actions|);
    assert StateEntryGood(ViewOf(s), s.cache, agg.id, None);
    var entry := s.cache[LatestStateKey(agg.id)];
    AnswerIsRightIff(ViewOf(s), agg, None, entry.result, entry.seen);
  }

  /** The runs that leave a stale latest entry with no command failing are such runs. */
  lemma StaleRunStraddles(s0: State) returns (states: seq<State>, actions: seq<Action>, f: nat, c: nat)
    requires Initial(s0)
    ensures IsRunFromStart(states, actions) && states[0] == s0 && DeletesAnswered(actions)
    ensures AllDone(states[|actions|]) && LatestStateKey("a") in states[|actions|].cache
    ensures LastFill(states, actions, |actions|, f, c, "a") && Straddled(states, actions, f, c, "a")
  {
    var s := CachedAnswerCanBeStale(s0, None);
    actions :| Steps(s0, actions, s) && forall i :: 0 <= i < |actions| ==> Undisturbed(actions[i]);
    states := StepsAreARun(s0, actions, s);
    RulesHeldInRun(states, actions);
    f, c := LatestEntryIsRightIff(states, actions, AGG);
  }

  lemma {:induction false} UndisturbedKeepsRules(states: seq<State>, actions: seq<Action>, n: nat)
    requires IsRun(states, actions) && n < |states|
    requires forall i :: 0 <= i < |actions| ==> Undisturbed(actions[i])
    ensures states[n].versions == states[0].versions
  {
    if n > 0 {
      UndisturbedKeepsRules(states, actions, n - 1);
      UndisturbedStepKeepsRules(states[n - 1], actions[n - 1]);
    }
  }

  lemma UndisturbedStepKeepsRules(s: State, a: Action)
    requires Enabled(s, a) && Undisturbed(a)
    ensures Apply(s, a).versions == s.versions
  {}

  lemma RulesHeldInRun(states: seq<State>, actions: seq<Action>)
    requires IsRunFromStart(states, actions) && forall i :: 0 <= i < |actions| ==> Undisturbed(actions[i])
    ensures states[|actions|].versions != [] && RulesHeld(ViewOf(states[|actions|]), AGG)
  {
    UndisturbedKeepsRules(states, actions, |actions|);
    OneVersionHolds(ViewOf(states[|actions|]), AGG);
  }
}
