/** An append whose statements run with nothing in between ends with the tables and the cache
    that the events service promises. */
module SoloAppends {
  import opened Values
  import opened CacheKeys
  import opened Tables
  import opened Events
  import opened Interleaving
  import opened PrefixConsistency

  /** An action of append t alone, none of them an abort; in a calm run its delete is answered. */
  predicate OfAppend(a: Action, t: nat, calm: bool) {
    match a
    case Append(statement) => statement.Begin? || (!statement.Abort? && statement.t == t)
    case AfterCommit(u, redisUp) => u == t && (calm ==> redisUp)
    case _ => false
  }

  ghost predicate AppendsAlone(s: State, s': State, t: nat, calm: bool) {
    exists actions: seq<Action> :: Steps(s, actions, s') && forall i :: 0 <= i < |actions| ==>
        OfAppend(actions[i], t, calm)
  }

  lemma AppendOn(s: State, m: State, a: Action, t: nat, calm: bool)
    requires AppendsAlone(s, m, t, calm) && Enabled(m, a) && OfAppend(a, t, calm)
    ensures AppendsAlone(s, Apply(m, a), t, calm)
  {
    var actions: seq<Action> :| Steps(s, actions, m) && forall i :: 0 <= i < |actions| ==>
        OfAppend(actions[i], t, calm);
    StepsExtend(s, actions, m, a);
    var longer := actions + [a];
    assert forall i :: 0 <= i < |longer| ==> OfAppend(longer[i], t, calm);
  }

  /** No transaction is under way. */
  predicate Quiet(s: State) {
    forall t :: 0 <= t < |s.db.txs| ==> !s.db.txs[t].Active()
  }

  function RequestFor(projectId: string, input: AppendInput): Protocol.Request {
    Protocol.Request(projectId, input.aggregateType, input.aggregateKey, input.eventType, Obj(input.payload))
  }

  /** `s` with one more transaction. */
  function InFlight(s: State, tx: Protocol.Tx): State {
    s.(db := s.db.(txs := s.db.txs + [tx]))
  }

  function NewRow(s: State, projectId: string, input: AppendInput, newId: string): Option<Aggregate> {
    if FindByKey(s.db.aggregates, projectId, input.aggregateType, input.aggregateKey).Some? then None
    else Some(AggregateFor(s.db.aggregates, projectId, input, newId))
  }

  /** The state after the whole append. */
  function AfterCommitted(s: State, projectId: string, input: AppendInput, newId: string): State {
    var v := Appended(ViewOf(s), projectId, input, newId);
    var e := EventFor(ViewOf(s), projectId, input, newId);
    s.(db := Protocol.State(v.aggregates, v.events, s.db.txs +
                            [Protocol.Tx(RequestFor(projectId, input), Protocol.Committed(e), None)]))
  }

  function AfterAppend(s: State, projectId: string, input: AppendInput, newId: string, del: bool): State {
    var id := AggregateFor(s.db.aggregates, projectId, input, newId).id;
    AfterCommitted(s, projectId, input, newId).(
      cache := Cleared(s.cache, {LatestStateKey(id), LatestLookupKey(id)}, del),
      invalidated := s.invalidated + {|s.db.txs|})
  }

  predicate Does(s: State, tx: Protocol.Tx, a: Protocol.Action, tx': Protocol.Tx) {
    Enabled(InFlight(s, tx), Append(a)) && Apply(InFlight(s, tx), Append(a)) == InFlight(s, tx')
  }

  lemma DoesOn(s: State, tx: Protocol.Tx, a: Protocol.Action, tx': Protocol.Tx, calm: bool)
    requires AppendsAlone(s, InFlight(s, tx), |s.db.txs|, calm)
    requires Does(s, tx, a, tx') && !a.Begin? && !a.Abort? && a.t == |s.db.txs|
    ensures AppendsAlone(s, InFlight(s, tx'), |s.db.txs|, calm)
  {
    AppendOn(s, InFlight(s, tx), Append(a), |s.db.txs|, calm);
  }

  lemma Begins(s: State, r: Protocol.Request, calm: bool)
    ensures AppendsAlone(s, InFlight(s, Protocol.Tx(r, Protocol.Begun, None)), |s.db.txs|, calm)
  {
    assert Steps(s, [], s);
    assert AppendsAlone(s, s, |s.db.txs|, calm);
    AppendOn(s, s, Append(Protocol.Begin(r)), |s.db.txs|, calm);
  }

  lemma NothingIsPending(s: State, tx: Protocol.Tx, id: string)
    requires Inv(s) && Quiet(s)
    ensures var db, t := InFlight(s, tx).db, |s.db.txs|;
            !Protocol.UncommittedInsert(db, t) && !Protocol.LockedByOther(db, t, id)
    ensures forall n :: !Protocol.UncommittedEvent(InFlight(s, tx).db, |s.db.txs|, id, n)
  {
    forall u | 0 <= u < |s.db.txs| ensures s.db.txs[u].created.None? && s.db.txs[u].Held().None? {
      assert Protocol.TxInv(s.db, s.db.txs[u]);
      assert !s.db.txs[u].Active();
    }
  }

  lemma Ensures(s: State, projectId: string, input: AppendInput, newId: string)
    requires Inv(s) && Quiet(s) && CanStore(s.db.aggregates, projectId, input, newId)
    ensures var r := RequestFor(projectId, input);
            Does(s, Protocol.Tx(r, Protocol.Begun, None), Protocol.Ensure(|s.db.txs|, newId),
                 Protocol.Tx(r, Protocol.Ensured, NewRow(s, projectId, input, newId)))
  {
    var tx := Protocol.Tx(RequestFor(projectId, input), Protocol.Begun, None);
    NothingIsPending(s, tx, "");
    if Protocol.CommittedRow(s.db, tx).None? {
      forall a | a in s.db.aggregates ensures a.id != newId {
        var i :| 0 <= i < |s.db.aggregates| && s.db.aggregates[i] == a;
      }
      forall u | 0 <= u < |s.db.txs| ensures s.db.txs[u].created.None? {
        assert Protocol.TxInv(s.db, s.db.txs[u]) && !s.db.txs[u].Active();
      }
      assert Protocol.FreshId(InFlight(s, tx).db, newId);
    }
    assert Protocol.CommittedRow(InFlight(s, tx).db, tx) == Protocol.CommittedRow(s.db, tx);
  }

  lemma Locks(s: State, projectId: string, input: AppendInput, newId: string)
    requires Inv(s) && Quiet(s)
    ensures var r, row := RequestFor(projectId, input), NewRow(s, projectId, input, newId);
            Does(s, Protocol.Tx(r, Protocol.Ensured, row), Protocol.Lock(|s.db.txs|),
                 Protocol.Tx(r, Protocol.Locked(AggregateFor(s.db.aggregates, projectId, input, newId).id), row))
  {
    var tx := Protocol.Tx(RequestFor(projectId, input), Protocol.Ensured, NewRow(s, projectId, input, newId));
    NothingIsPending(s, tx, AggregateFor(s.db.aggregates, projectId, input, newId).id);
    assert Protocol.CommittedRow(InFlight(s, tx).db, tx) == Protocol.CommittedRow(s.db, tx);
  }

  lemma Numbers(s: State, r: Protocol.Request, row: Option<Aggregate>, id: string)
    ensures Does(s, Protocol.Tx(r, Protocol.Locked(id), row), Protocol.Number(|s.db.txs|),
                 Protocol.Tx(r, Protocol.Numbered(id, NextSequenceNumber(s.db.events, id)), row))
  {}

  lemma Writes(s: State, r: Protocol.Request, row: Option<Aggregate>, id: string)
    requires Inv(s) && Quiet(s)
    ensures var n := NextSequenceNumber(s.db.events, id);
            Does(s, Protocol.Tx(r, Protocol.Numbered(id, n), row), Protocol.Write(|s.db.txs|),
                 Protocol.Tx(r, Protocol.Written(Event(id, n, r.eventType, r.payload)), row))
  {
    var n := NextSequenceNumber(s.db.events, id);
    NothingIsPending(s, Protocol.Tx(r, Protocol.Numbered(id, n), row), id);
    Protocol.NextNumberIsFree(s.db, id);
    LastSequenceIsLength(s.db.events, id);
  }

  lemma Commits(s: State, projectId: string, input: AppendInput, newId: string, calm: bool)
    requires AppendsAlone(s, InFlight(s, Protocol.Tx(RequestFor(projectId, input),
                                                     Protocol.Written(EventFor(ViewOf(s), projectId, input, newId)),
                                                     NewRow(s, projectId, input, newId))), |s.db.txs|, calm)
    ensures AppendsAlone(s, AfterCommitted(s, projectId, input, newId), |s.db.txs|, calm)
  {
    var tx := Protocol.Tx(RequestFor(projectId, input), Protocol.Written(EventFor(ViewOf(s), projectId, input, newId)),
                          NewRow(s, projectId, input, newId));
    AppendOn(s, InFlight(s, tx), Append(Protocol.Commit(|s.db.txs|)), |s.db.txs|, calm);
    assert Apply(InFlight(s, tx), Append(Protocol.Commit(|s.db.txs|))) == AfterCommitted(s, projectId, input, newId);
  }

  /** The transaction alone, from any state in which no other is under way, ends with the tables
      the service's StoreEvent promises. */
  lemma TransactionAlone(s: State, projectId: string, input: AppendInput, newId: string, calm: bool)
    requires Inv(s) && Quiet(s) && CanStore(s.db.aggregates, projectId, input, newId)
    ensures AppendsAlone(s, AfterCommitted(s, projectId, input, newId), |s.db.txs|, calm)
    ensures ViewOf(AfterCommitted(s, projectId, input, newId)) == Appended(ViewOf(s), projectId, input, newId)
  {
    var r, row := RequestFor(projectId, input), NewRow(s, projectId, input, newId);
    var id, t := AggregateFor(s.db.aggregates, projectId, input, newId).id, |s.db.txs|;
    var n := NextSequenceNumber(s.db.events, id);
    Begins(s, r, calm);
    Ensures(s, projectId, input, newId);
    DoesOn(s, Protocol.Tx(r, Protocol.Begun, None), Protocol.Ensure(t, newId), Protocol.Tx(r, Protocol.Ensured, row),
           calm);
    Locks(s, projectId, input, newId);
    DoesOn(s, Protocol.Tx(r, Protocol.Ensured, row), Protocol.Lock(t), Protocol.Tx(r, Protocol.Locked(id), row), calm);
    Numbers(s, r, row, id);
    DoesOn(s, Protocol.Tx(r, Protocol.Locked(id), row), Protocol.Number(t),
           Protocol.Tx(r, Protocol.Numbered(id, n), row), calm);
    Writes(s, r, row, id);
    DoesOn(s, Protocol.Tx(r, Protocol.Numbered(id, n), row), Protocol.Write(t),
           Protocol.Tx(r, Protocol.Written(Event(id, n, r.eventType, r.payload)), row), calm);
    Commits(s, projectId, input, newId, calm);
  }

  /** And with its delete, the whole append ends with the tables and the cache the service's
      Append promises. */
  lemma AppendAlone(s: State, projectId: string, input: AppendInput, newId: string, del: bool)
    requires Inv(s) && Quiet(s) && CanStore(s.db.aggregates, projectId, input, newId)
    ensures AppendsAlone(s, AfterAppend(s, projectId, input, newId, del), |s.db.txs|, del)
    ensures ViewOf(AfterAppend(s, projectId, input, newId, del)) == Appended(ViewOf(s), projectId, input, newId)
    ensures Quiet(AfterAppend(s, projectId, input, newId, del))
  {
    TransactionAlone(s, projectId, input, newId, del);
    AppendOn(s, AfterCommitted(s, projectId, input, newId), AfterCommit(|s.db.txs|, del), |s.db.txs|, del);
  }

  // ---- Every run of an append alone ----

  /** A statement or the delete of append t; it may also abort. */
  predicate RunsAppend(a: Action, t: nat) {
    match a
    case Append(statement) => !statement.Begin? && statement.t == t
    case AfterCommit(u, _) => u == t
    case _ => false
  }

  function Aborted(s: State, projectId: string, input: AppendInput): State {
    InFlight(s, Protocol.Tx(RequestFor(projectId, input), Protocol.Aborted, None))
  }

  /** The phase of an append that has found or made its row and is not yet committed. */
  predicate IsPhase(s: State, projectId: string, input: AppendInput, newId: string, phase: Protocol.Phase) {
    var id := AggregateFor(s.db.aggregates, projectId, input, newId).id;
    || phase == Protocol.Ensured
    || phase == Protocol.Locked(id)
    || phase == Protocol.Numbered(id, NextSequenceNumber(s.db.events, id))
    || phase == Protocol.Written(EventFor(ViewOf(s), projectId, input, newId))
  }

  /** How far an append alone can have got. */
  ghost predicate AppendReached(s: State, projectId: string, input: AppendInput, m: State) {
    || m == InFlight(s, Protocol.Tx(RequestFor(projectId, input), Protocol.Begun, None))
    || m == Aborted(s, projectId, input)
    || exists newId ::
         CanStore(s.db.aggregates, projectId, input, newId) && StoredReached(s, projectId, input, newId, m)
  }

  ghost predicate StoredReached(s: State, projectId: string, input: AppendInput, newId: string, m: State) {
    || (exists phase :: IsPhase(s, projectId, input, newId, phase) && m == InPhase(s, projectId, input, newId, phase))
    || m == AfterCommitted(s, projectId, input, newId)
    || (exists del :: m == AfterAppend(s, projectId, input, newId, del))
  }

  function InPhase(s: State, projectId: string, input: AppendInput, newId: string, phase: Protocol.Phase): State {
    InFlight(s, Protocol.Tx(RequestFor(projectId, input), phase, NewRow(s, projectId, input, newId)))
  }

  lemma AbortArrives(s: State, projectId: string, input: AppendInput, tx: Protocol.Tx)
    requires tx.request == RequestFor(projectId, input) && Enabled(InFlight(s, tx), Append(Protocol.Abort(|s.db.txs|)))
    ensures Apply(InFlight(s, tx), Append(Protocol.Abort(|s.db.txs|))) == Aborted(s, projectId, input)
  {}

  lemma EnsureArrives(s: State, projectId: string, input: AppendInput, newId: string)
    requires Inv(s) && Quiet(s)
    requires Enabled(InFlight(s, Protocol.Tx(RequestFor(projectId, input), Protocol.Begun, None)),
                     Append(Protocol.Ensure(|s.db.txs|, newId)))
    ensures CanStore(s.db.aggregates, projectId, input, newId)
    ensures Apply(InFlight(s, Protocol.Tx(RequestFor(projectId, input), Protocol.Begun, None)),
                  Append(Protocol.Ensure(|s.db.txs|, newId))) == InPhase(s, projectId, input, newId, Protocol.Ensured)
  {
    var tx := Protocol.Tx(RequestFor(projectId, input), Protocol.Begun, None);
    assert Protocol.CommittedRow(InFlight(s, tx).db, tx) == Protocol.CommittedRow(s.db, tx);
    forall i | 0 <= i < |s.db.aggregates| && Protocol.CommittedRow(s.db, tx).None?
      ensures s.db.aggregates[i].id != newId {
      assert s.db.aggregates[i] in InFlight(s, tx).db.aggregates;
    }
    Ensures(s, projectId, input, newId);
  }

  lemma PhaseArrives(s: State, projectId: string, input: AppendInput, newId: string, phase: Protocol.Phase, a: Action)
    requires Inv(s) && Quiet(s) && CanStore(s.db.aggregates, projectId, input, newId)
    requires IsPhase(s, projectId, input, newId, phase)
    requires Enabled(InPhase(s, projectId, input, newId, phase), a) && RunsAppend(a, |s.db.txs|)
    ensures AppendReached(s, projectId, input, Apply(InPhase(s, projectId, input, newId, phase), a))
  {
    var m, t := InPhase(s, projectId, input, newId, phase), |s.db.txs|;
    var id := AggregateFor(s.db.aggregates, projectId, input, newId).id;
    var n := NextSequenceNumber(s.db.events, id);
    assert m.db.txs[t].phase == phase;
    if a == Append(Protocol.Abort(t)) {
      AbortArrives(s, projectId, input, m.db.txs[t]);
    } else if phase.Ensured? {
      Locks(s, projectId, input, newId);
      PhaseReached(s, projectId, input, newId, Protocol.Locked(id), Apply(m, a));
    } else if phase.Locked? {
      Numbers(s, RequestFor(projectId, input), NewRow(s, projectId, input, newId), id);
      PhaseReached(s, projectId, input, newId, Protocol.Numbered(id, n), Apply(m, a));
    } else if phase.Numbered? {
      Writes(s, RequestFor(projectId, input), NewRow(s, projectId, input, newId), id);
      PhaseReached(s, projectId, input, newId, Protocol.Written(EventFor(ViewOf(s), projectId, input, newId)),
                   Apply(m, a));
    } else {
      CommitArrives(s, projectId, input, newId);
      assert StoredReached(s, projectId, input, newId, Apply(m, a));
    }
  }

  lemma PhaseReached(s: State, projectId: string, input: AppendInput, newId: string, phase: Protocol.Phase, m: State)
    requires CanStore(s.db.aggregates, projectId, input, newId) && IsPhase(s, projectId, input, newId, phase)
    requires m == InPhase(s, projectId, input, newId, phase)
    ensures AppendReached(s, projectId, input, m)
  {
    assert StoredReached(s, projectId, input, newId, m);
  }

  lemma CommitArrives(s: State, projectId: string, input: AppendInput, newId: string)
    ensures var m := InPhase(s, projectId, input, newId, Protocol.Written(EventFor(ViewOf(s), projectId, input,
        newId)));
            && Enabled(m, Append(Protocol.Commit(|s.db.txs|)))
            && Apply(m, Append(Protocol.Commit(|s.db.txs|))) == AfterCommitted(s, projectId, input, newId)
  {}

  lemma DeleteArrives(s: State, projectId: string, input: AppendInput, newId: string, a: Action)
    requires CanStore(s.db.aggregates, projectId, input, newId)
    requires Enabled(AfterCommitted(s, projectId, input, newId), a) && RunsAppend(a, |s.db.txs|)
    ensures AppendReached(s, projectId, input, Apply(AfterCommitted(s, projectId, input, newId), a))
  {
    var m := AfterCommitted(s, projectId, input, newId);
    assert m.db.txs[|s.db.txs|].phase.Committed? && a.AfterCommit?;
    assert Apply(m, a) == AfterAppend(s, projectId, input, newId, a.redisUp);
    assert StoredReached(s, projectId, input, newId, Apply(m, a));
  }

  lemma NothingFollowsDelete(s: State, projectId: string, input: AppendInput, newId: string, del: bool, a: Action)
    requires RunsAppend(a, |s.db.txs|)
    ensures !Enabled(AfterAppend(s, projectId, input, newId, del), a)
  {
    assert AfterAppend(s, projectId, input, newId, del).db.txs[|s.db.txs|].phase.Committed?;
  }

  lemma NothingFollowsAbort(s: State, projectId: string, input: AppendInput, a: Action)
    requires RunsAppend(a, |s.db.txs|)
    ensures !Enabled(Aborted(s, projectId, input), a)
  {
    assert Aborted(s, projectId, input).db.txs[|s.db.txs|].phase.Aborted?;
  }

  lemma AppendStepArrives(s: State, projectId: string, input: AppendInput, m: State, a: Action)
    requires Inv(s) && Quiet(s) && AppendReached(s, projectId, input, m)
    requires Enabled(m, a) && RunsAppend(a, |s.db.txs|)
    ensures AppendReached(s, projectId, input, Apply(m, a))
  {
    var t, begun := |s.db.txs|, Protocol.Tx(RequestFor(projectId, input), Protocol.Begun, None);
    if m == InFlight(s, begun) {
      assert m.db.txs[t] == begun;
      if a == Append(Protocol.Abort(t)) {
        AbortArrives(s, projectId, input, begun);
      } else {
        EnsureArrives(s, projectId, input, a.statement.newId);
        PhaseReached(s, projectId, input, a.statement.newId, Protocol.Ensured, Apply(m, a));
      }
    } else if m == Aborted(s, projectId, input) {
      NothingFollowsAbort(s, projectId, input, a);
    } else {
      var newId :| CanStore(s.db.aggregates, projectId, input, newId) && StoredReached(s, projectId, input, newId, m);
      if phase :| IsPhase(s, projectId, input, newId, phase) && m == InPhase(s, projectId, input, newId, phase) {
        PhaseArrives(s, projectId, input, newId, phase, a);
      } else if m == AfterCommitted(s, projectId, input, newId) {
        DeleteArrives(s, projectId, input, newId, a);
      } else {
        var del :| m == AfterAppend(s, projectId, input, newId, del);
        NothingFollowsDelete(s, projectId, input, newId, del, a);
      }
    }
  }

  lemma {:induction false} AppendRunArrives(s: State, projectId: string, input: AppendInput, m: State,
                                            actions: seq<Action>, s': State)
    requires Inv(s) && Quiet(s) && AppendReached(s, projectId, input, m) && Steps(m, actions, s')
    requires forall i :: 0 <= i < |actions| ==> RunsAppend(actions[i], |s.db.txs|)
    ensures AppendReached(s, projectId, input, s')
    decreases |actions|
  {
    if actions != [] {
      AppendStepArrives(s, projectId, input, m, actions[0]);
      AppendRunArrives(s, projectId, input, Apply(m, actions[0]), actions[1..], s');
    }
  }

  /** The append is over: aborted, or committed with its delete issued. */
  predicate IsOver(s: State, t: nat) {
    t < |s.db.txs| && (s.db.txs[t].phase.Aborted? || (s.db.txs[t].phase.Committed? && t in s.invalidated))
  }

  /** Every run of an append alone, from its first statement until it is over, whatever id the
      database generates and however Redis answers, leaves tables and cache as they were, if it
      aborts, or ends with those the service's Append promises. */
  lemma EveryAppendAloneEnds(s: State, projectId: string, input: AppendInput, actions: seq<Action>, s': State)
    requires Inv(s) && Quiet(s)
    requires Steps(s, [Append(Protocol.Begin(RequestFor(projectId, input)))] + actions, s')
    requires forall i :: 0 <= i < |actions| ==> RunsAppend(actions[i], |s.db.txs|)
    requires IsOver(s', |s.db.txs|)
    ensures || s' == Aborted(s, projectId, input)
            || (exists newId, del :: CanStore(s.db.aggregates, projectId, input, newId)
                                     && s' == AfterAppend(s, projectId, input, newId, del))
  {
    var begin, t := Append(Protocol.Begin(RequestFor(projectId, input))), |s.db.txs|;
    assert ([begin] + actions)[1..] == actions;
    AppendRunArrives(s, projectId, input, Apply(s, begin), actions, s');
    OverIsEnded(s, projectId, input, s');
  }

  lemma StoredIsEnded(s: State, projectId: string, input: AppendInput, newId: string, m: State)
    requires StoredReached(s, projectId, input, newId, m) && IsOver(m, |s.db.txs|) && InvalidatedInv(s)
    ensures exists del :: m == AfterAppend(s, projectId, input, newId, del)
  {
    var t := |s.db.txs|;
    assert t !in s.invalidated;
    if phase :| IsPhase(s, projectId, input, newId, phase) && m == InPhase(s, projectId, input, newId, phase) {
      assert false;
    }
  }

  lemma OverIsEnded(s: State, projectId: string, input: AppendInput, m: State)
    requires Inv(s) && AppendReached(s, projectId, input, m) && IsOver(m, |s.db.txs|)
    ensures || m == Aborted(s, projectId, input)
            || (exists newId, del :: CanStore(s.db.aggregates, projectId, input, newId)
                                     && m == AfterAppend(s, projectId, input, newId, del))
  {
    if newId :| CanStore(s.db.aggregates, projectId, input, newId) && StoredReached(s, projectId, input, newId, m) {
      StoredIsEnded(s, projectId, input, newId, m);
    }
  }
}
