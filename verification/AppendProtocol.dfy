/** Concurrent append transactions, one SQL statement at a time.

    READ COMMITTED (PostgreSQL 16, section 13.2.1): a statement sees the rows committed before
    it and its own transaction's rows. Row locks taken by FOR UPDATE are held to the end of the
    transaction (section 13.3.2). INSERT ... ON CONFLICT DO NOTHING waits while another
    transaction's insert of the same key is uncommitted. A transaction may abort at any point. */
module AppendProtocol {
  import opened Values
  import opened Tables

  datatype Request = Request(projectId: string, aggregateType: string, aggregateKey: string,
                             eventType: string, payload: Json)

  /** How far a transaction has got; each phase names the statement it has completed. */
  datatype Phase =
    | Begun
    | Ensured
    | Locked(id: string)
    | Numbered(id: string, n: nat)
    | Written(event: Event)
    | Committed(event: Event)
    | Aborted

  /** `created` is the aggregate row this transaction has inserted and not yet committed. */
  datatype Tx = Tx(request: Request, phase: Phase, created: Option<Aggregate>)
  {
    predicate Active() {
      !phase.Committed? && !phase.Aborted?
    }

    /** The aggregate row the transaction has locked, if any. */
    function Held(): Option<string> {
      match phase
      case Locked(id) => Some(id)
      case Numbered(id, _) => Some(id)
      case Written(e) => Some(e.aggregateId)
      case _ => None
    }

    predicate Wants(a: Aggregate) {
      a.HasKey(request.projectId, request.aggregateType, request.aggregateKey)
    }
  }

  /** The committed tables, and the transactions begun so far. */
  datatype State = State(aggregates: seq<Aggregate>, events: seq<Event>, txs: seq<Tx>)

  datatype Action =
    | Begin(request: Request)
    | Ensure(t: nat, newId: string)
    | Lock(t: nat)
    | Number(t: nat)
    | Write(t: nat)
    | Commit(t: nat)
    | Abort(t: nat)

  // ---- The statements ----

  function CommittedRow(s: State, tx: Tx): (row: Option<Aggregate>)
    ensures row.Some? ==> row.value in s.aggregates && tx.Wants(row.value)
    ensures row.None? ==> forall a :: a in s.aggregates ==> !tx.Wants(a)
  {
    FindByKey(s.aggregates, tx.request.projectId, tx.request.aggregateType, tx.request.aggregateKey)
  }

  /** The row the SELECT ... FOR UPDATE of `tx` returns. */
  function VisibleRow(s: State, tx: Tx): Option<Aggregate> {
    if CommittedRow(s, tx).Some? then CommittedRow(s, tx) else tx.created
  }

  /** A primary key no committed or uncommitted row has. */
  predicate FreshId(s: State, id: string) {
    && (forall a :: a in s.aggregates ==> a.id != id)
    && (forall u :: 0 <= u < |s.txs| && s.txs[u].created.Some? ==> s.txs[u].created.value.id != id)
  }

  predicate UncommittedInsert(s: State, t: nat)
    requires t < |s.txs|
  {
    exists u :: 0 <= u < |s.txs| && u != t && s.txs[u].created.Some? && s.txs[t].Wants(s.txs[u].created.value)
  }

  predicate LockedByOther(s: State, t: nat, id: string) {
    exists u :: 0 <= u < |s.txs| && u != t && s.txs[u].Held() == Some(id)
  }

  predicate SequenceTaken(s: State, id: string, n: nat) {
    exists i :: 0 <= i < |s.events| && s.events[i].aggregateId == id && s.events[i].sequenceNumber == n
  }

  predicate UncommittedEvent(s: State, t: nat, id: string, n: nat) {
    exists u :: 0 <= u < |s.txs| && u != t && s.txs[u].phase.Written?
                && s.txs[u].phase.event.aggregateId == id && s.txs[u].phase.event.sequenceNumber == n
  }

  /** Can the statement run now, or must it wait? */
  predicate Enabled(s: State, a: Action) {
    match a
    case Begin(_) => true
    case Ensure(t, newId) =>
      && t < |s.txs| && s.txs[t].phase.Begun?
      && (CommittedRow(s, s.txs[t]).None? ==> !UncommittedInsert(s, t) && FreshId(s, newId))
    case Lock(t) =>
      && t < |s.txs| && s.txs[t].phase.Ensured?
      && (VisibleRow(s, s.txs[t]).Some? ==> !LockedByOther(s, t, VisibleRow(s, s.txs[t]).value.id))
    case Number(t) =>
      t < |s.txs| && s.txs[t].phase.Locked?
    case Write(t) =>
      && t < |s.txs| && s.txs[t].phase.Numbered?
      && !UncommittedEvent(s, t, s.txs[t].phase.id, s.txs[t].phase.n)
    case Commit(t) =>
      t < |s.txs| && s.txs[t].phase.Written?
    case Abort(t) =>
      t < |s.txs| && s.txs[t].Active()
  }

  function WithTx(s: State, t: nat, tx: Tx): State
    requires t < |s.txs|
  {
    s.(txs := s.txs[t := tx])
  }

  function Apply(s: State, a: Action): State
    requires Enabled(s, a)
  {
    match a
    case Begin(request) =>
      s.(txs := s.txs + [Tx(request, Begun, None)])
    case Ensure(t, newId) =>
      var tx := s.txs[t];
      var r := tx.request;
      WithTx(s, t, tx.(phase := Ensured,
                       created := if CommittedRow(s, tx).Some? then None
                                  else Some(Aggregate(newId, r.projectId, r.aggregateType, r.aggregateKey))))
    case Lock(t) =>
      // With no row to lock the call fails on the missing aggregate.
      var row := VisibleRow(s, s.txs[t]);
      if row.None? then Rollback(s, t) else WithTx(s, t, s.txs[t].(phase := Locked(row.value.id)))
    case Number(t) =>
      var id := s.txs[t].phase.id;
      WithTx(s, t, s.txs[t].(phase := Numbered(id, NextSequenceNumber(s.events, id))))
    case Write(t) =>
      var Tx(request, Numbered(id, n), _) := s.txs[t];
      if SequenceTaken(s, id, n) then Rollback(s, t)
      else WithTx(s, t, s.txs[t].(phase := Written(Event(id, n, request.eventType, request.payload))))
    case Commit(t) =>
      var tx := s.txs[t];
      State(s.aggregates + (if tx.created.Some? then [tx.created.value] else []),
            s.events + [tx.phase.event],
            s.txs[t := tx.(phase := Committed(tx.phase.event), created := None)])
    case Abort(t) =>
      Rollback(s, t)
  }

  function Rollback(s: State, t: nat): State
    requires t < |s.txs|
  {
    WithTx(s, t, s.txs[t].(phase := Aborted, created := None))
  }

  // ---- The invariant ----

  predicate InTables(s: State, id: string) {
    exists i :: 0 <= i < |s.aggregates| && s.aggregates[i].id == id
  }

  /** The event belongs to the request: its aggregate is the requested one, its content the requested content. */
  predicate Serves(s: State, tx: Tx, e: Event) {
    && e.eventType == tx.request.eventType && e.payload == tx.request.payload
    && exists a :: a in s.aggregates && a.id == e.aggregateId && tx.Wants(a)
  }

  predicate TxInv(s: State, tx: Tx) {
    && (tx.created.Some? ==>
        && tx.Wants(tx.created.value) && tx.Active() && !tx.phase.Begun?
        && CommittedRow(s, tx).None? && !InTables(s, tx.created.value.id))
    && (tx.phase.Ensured? ==> VisibleRow(s, tx).Some?)
    && (tx.Held().Some? ==> VisibleRow(s, tx).Some? && VisibleRow(s, tx).value.id == tx.Held().value)
    && (tx.phase.Numbered? ==> tx.phase.n == |Log(s.events, tx.phase.id)| + 1)
    && (tx.phase.Written? ==>
        && tx.phase.event.sequenceNumber == |Log(s.events, tx.phase.event.aggregateId)| + 1
        && tx.phase.event.eventType == tx.request.eventType && tx.phase.event.payload == tx.request.payload)
    && (tx.phase.Committed? ==> tx.phase.event in s.events && Serves(s, tx, tx.phase.event))
  }

  predicate Disjoint(a: Tx, b: Tx) {
    && (a.created.Some? && b.created.Some? ==>
        a.created.value.id != b.created.value.id && !b.Wants(a.created.value))
    && (a.Held().Some? ==> a.Held() != b.Held())
    && (a.phase.Committed? && b.phase.Committed? ==> a.phase.event != b.phase.event)
  }

  ghost predicate TablesInv(s: State) {
    && UniqueAggregates(s.aggregates)
    && Gapless(s.events)
    && (forall e :: e in s.events ==> InTables(s, e.aggregateId))
  }

  ghost predicate Inv(s: State) {
    && TablesInv(s)
    && (forall t :: 0 <= t < |s.txs| ==> TxInv(s, s.txs[t]))
    && (forall t, u :: 0 <= t < |s.txs| && 0 <= u < |s.txs| && t != u ==> Disjoint(s.txs[t], s.txs[u]))
  }

  const EMPTY_STATE := State([], [], [])

  lemma EmptyInv()
    ensures Inv(EMPTY_STATE)
  {}

  // ---- Every statement keeps the invariant ----

  lemma BeginKeepsInv(s: State, request: Request)
    requires Inv(s)
    ensures Inv(Apply(s, Begin(request)))
  {}

  /** A step that leaves the tables alone and replaces one transaction. */
  lemma ReplacingTxKeepsInv(s: State, t: nat, tx: Tx)
    requires Inv(s) && t < |s.txs|
    requires TxInv(s, tx)
    requires forall u :: 0 <= u < |s.txs| && u != t ==> Disjoint(tx, s.txs[u]) && Disjoint(s.txs[u], tx)
    ensures Inv(WithTx(s, t, tx))
  {
    var s' := WithTx(s, t, tx);
    assert forall x :: CommittedRow(s', x) == CommittedRow(s, x);
    forall u | 0 <= u < |s'.txs| ensures TxInv(s', s'.txs[u]) {
      assert TxInv(s, s'.txs[u]);
    }
  }

  lemma RollbackKeepsInv(s: State, t: nat)
    requires Inv(s) && t < |s.txs|
    requires s.txs[t].Active()
    ensures Inv(Rollback(s, t))
  {
    ReplacingTxKeepsInv(s, t, s.txs[t].(phase := Aborted, created := None));
  }

  lemma EnsureKeepsInv(s: State, t: nat, newId: string)
    requires Inv(s) && Enabled(s, Ensure(t, newId))
    ensures Inv(Apply(s, Ensure(t, newId)))
  {
    var tx := Apply(s, Ensure(t, newId)).txs[t];
    assert CommittedRow(s, tx) == CommittedRow(s, s.txs[t]);
    assert TxInv(s, s.txs[t]);
    forall u | 0 <= u < |s.txs| && u != t ensures Disjoint(tx, s.txs[u]) && Disjoint(s.txs[u], tx) {
      assert Disjoint(s.txs[t], s.txs[u]);
      assert tx.Wants(Aggregate("", s.txs[t].request.projectId, s.txs[t].request.aggregateType,
                                s.txs[t].request.aggregateKey));
      if tx.created.Some? && s.txs[u].created.Some? {
        assert TxInv(s, s.txs[u]);
        assert !s.txs[t].Wants(s.txs[u].created.value);
      }
    }
    ReplacingTxKeepsInv(s, t, tx);
  }

  lemma LockKeepsInv(s: State, t: nat)
    requires Inv(s) && Enabled(s, Lock(t))
    ensures Inv(Apply(s, Lock(t)))
    ensures Apply(s, Lock(t)).txs[t].phase.Locked?
  {
    assert TxInv(s, s.txs[t]);
    var tx := Apply(s, Lock(t)).txs[t];
    assert CommittedRow(s, tx) == CommittedRow(s, s.txs[t]);
    forall u | 0 <= u < |s.txs| && u != t ensures Disjoint(tx, s.txs[u]) && Disjoint(s.txs[u], tx) {
      assert Disjoint(s.txs[t], s.txs[u]) && Disjoint(s.txs[u], s.txs[t]);
    }
    ReplacingTxKeepsInv(s, t, tx);
  }

  lemma NumberKeepsInv(s: State, t: nat)
    requires Inv(s) && Enabled(s, Number(t))
    ensures Inv(Apply(s, Number(t)))
  {
    assert TxInv(s, s.txs[t]);
    var tx := Apply(s, Number(t)).txs[t];
    assert CommittedRow(s, tx) == CommittedRow(s, s.txs[t]);
    LastSequenceIsLength(s.events, s.txs[t].phase.id);
    forall u | 0 <= u < |s.txs| && u != t ensures Disjoint(tx, s.txs[u]) && Disjoint(s.txs[u], tx) {
      assert Disjoint(s.txs[t], s.txs[u]) && Disjoint(s.txs[u], s.txs[t]);
    }
    ReplacingTxKeepsInv(s, t, tx);
  }

  /** Under the lock the next number is free: no committed event has it. */
  lemma NextNumberIsFree(s: State, id: string)
    requires Inv(s)
    ensures !SequenceTaken(s, id, |Log(s.events, id)| + 1)
  {
    LogMembers(s.events, id);
    var log := Log(s.events, id);
    forall i | 0 <= i < |s.events| && s.events[i].aggregateId == id
      ensures s.events[i].sequenceNumber != |log| + 1
    {
      assert s.events[i] in log;
    }
  }

  lemma WriteKeepsInv(s: State, t: nat)
    requires Inv(s) && Enabled(s, Write(t))
    ensures Inv(Apply(s, Write(t)))
    ensures Apply(s, Write(t)).txs[t].phase.Written?
  {
    assert TxInv(s, s.txs[t]);
    NextNumberIsFree(s, s.txs[t].phase.id);
    var tx := Apply(s, Write(t)).txs[t];
    assert CommittedRow(s, tx) == CommittedRow(s, s.txs[t]);
    forall u | 0 <= u < |s.txs| && u != t ensures Disjoint(tx, s.txs[u]) && Disjoint(s.txs[u], tx) {
      assert Disjoint(s.txs[t], s.txs[u]) && Disjoint(s.txs[u], s.txs[t]);
    }
    ReplacingTxKeepsInv(s, t, tx);
  }

  /** What a commit shows to the other transactions. */
  lemma CommitIsSeenBy(s: State, t: nat, tx: Tx)
    requires Enabled(s, Commit(t))
    ensures var s' := Apply(s, Commit(t));
            var created := s.txs[t].created;
            CommittedRow(s', tx) ==
            if CommittedRow(s, tx).Some? then CommittedRow(s, tx)
            else if created.Some? && tx.Wants(created.value) then created else None
    ensures var e := s.txs[t].phase.event;
            forall id :: Log(Apply(s, Commit(t)).events, id) ==
                         Log(s.events, id) + (if e.aggregateId == id then [e] else [])
    ensures forall id :: InTables(s, id) ==> InTables(Apply(s, Commit(t)), id)
    ensures forall id :: InTables(Apply(s, Commit(t)), id) ==>
              InTables(s, id) || (s.txs[t].created.Some? && s.txs[t].created.value.id == id)
  {
    var s', created, r := Apply(s, Commit(t)), s.txs[t].created, tx.request;
    if created.Some? {
      FindByKeyExtended(s.aggregates, created.value, r.projectId, r.aggregateType, r.aggregateKey);
    } else {
      assert s'.aggregates == s.aggregates;
    }
    forall id ensures Log(s'.events, id) == Log(s.events, id) +
      (if s.txs[t].phase.event.aggregateId == id then [s.txs[t].phase.event] else []) {
      LogOfExtended(s.events, s.txs[t].phase.event, id);
    }
    forall id | InTables(s, id) ensures InTables(s', id) {
      var i :| 0 <= i < |s.aggregates| && s.aggregates[i].id == id;
      assert s'.aggregates[i].id == id;
    }
  }

  lemma CommitKeepsLogsGapless(s: State, t: nat)
    requires Inv(s) && Enabled(s, Commit(t))
    ensures Gapless(Apply(s, Commit(t)).events)
  {
    var e := s.txs[t].phase.event;
    assert TxInv(s, s.txs[t]);
    forall id ensures GaplessLog(Log(s.events + [e], id)) {
      assert GaplessLog(Log(s.events, id));
      LogOfExtended(s.events, e, id);
    }
  }

  lemma CommitKeepsKeysUnique(s: State, t: nat)
    requires Inv(s) && Enabled(s, Commit(t))
    ensures UniqueAggregates(Apply(s, Commit(t)).aggregates)
  {
    var tx := s.txs[t];
    assert TxInv(s, tx);
    if tx.created.Some? {
      forall i | 0 <= i < |s.aggregates|
        ensures s.aggregates[i].id != tx.created.value.id && !tx.Wants(s.aggregates[i])
      {
        assert s.aggregates[i] in s.aggregates;
      }
    }
  }

  /** The locked row is a committed row once its holder commits. */
  lemma CommitPublishesItsRow(s: State, t: nat)
    requires Inv(s) && Enabled(s, Commit(t))
    ensures var row, s' := VisibleRow(s, s.txs[t]), Apply(s, Commit(t));
            && row.Some? && row.value in s'.aggregates && s.txs[t].Wants(row.value)
            && row.value.id == s.txs[t].phase.event.aggregateId && InTables(s', row.value.id)
  {
    var tx, s' := s.txs[t], Apply(s, Commit(t));
    assert TxInv(s, tx);
    var row := VisibleRow(s, tx).value;
    if CommittedRow(s, tx).Some? {
      var i :| 0 <= i < |s.aggregates| && s.aggregates[i] == row;
      assert s'.aggregates[i] == row;
    } else {
      assert s'.aggregates[|s.aggregates|] == row;
    }
  }

  lemma CommitKeepsTables(s: State, t: nat)
    requires Inv(s) && Enabled(s, Commit(t))
    ensures TablesInv(Apply(s, Commit(t)))
  {
    CommitKeepsLogsGapless(s, t);
    CommitKeepsKeysUnique(s, t);
    CommitPublishesItsRow(s, t);
    var s' := Apply(s, Commit(t));
    forall e | e in s'.events ensures InTables(s', e.aggregateId) {
      if e in s.events {
        var i :| 0 <= i < |s.aggregates| && s.aggregates[i].id == e.aggregateId;
        assert s'.aggregates[i].id == e.aggregateId;
      }
    }
  }

  lemma CommitKeepsOwnTx(s: State, t: nat)
    requires Inv(s) && Enabled(s, Commit(t))
    ensures TxInv(Apply(s, Commit(t)), Apply(s, Commit(t)).txs[t])
  {
    var s' := Apply(s, Commit(t));
    assert TxInv(s, s.txs[t]);
    CommitPublishesItsRow(s, t);
    assert s'.events[|s.events|] == s.txs[t].phase.event;
    assert s'.txs[t].Wants(VisibleRow(s, s.txs[t]).value);
  }

  lemma CommitKeepsTx(s: State, t: nat, u: nat)
    requires Inv(s) && Enabled(s, Commit(t)) && u < |s.txs|
    ensures TxInv(Apply(s, Commit(t)), Apply(s, Commit(t)).txs[u])
  {
    if u == t {
      CommitKeepsOwnTx(s, t);
    } else {
      assert TxInv(s, s.txs[u]);
      assert Disjoint(s.txs[t], s.txs[u]) && Disjoint(s.txs[u], s.txs[t]);
      CommitIsSeenBy(s, t, s.txs[u]);
    }
  }

  lemma CommitKeepsInv(s: State, t: nat)
    requires Inv(s) && Enabled(s, Commit(t))
    ensures Inv(Apply(s, Commit(t)))
  {
    var s' := Apply(s, Commit(t));
    CommitKeepsTables(s, t);
    forall u | 0 <= u < |s'.txs| ensures TxInv(s', s'.txs[u]) { CommitKeepsTx(s, t, u); }
    assert TxInv(s, s.txs[t]);
    var e := s.txs[t].phase.event;
    NextNumberIsFree(s, e.aggregateId);
    forall u | 0 <= u < |s.txs| && u != t ensures Disjoint(s'.txs[t], s.txs[u]) && Disjoint(s.txs[u], s'.txs[t]) {
      assert TxInv(s, s.txs[u]);
      assert forall i :: 0 <= i < |s.events| ==> s.events[i] != e;
    }
  }

  lemma StepKeepsInv(s: State, a: Action)
    requires Inv(s) && Enabled(s, a)
    ensures Inv(Apply(s, a))
  {
    match a
    case Begin(request) => BeginKeepsInv(s, request);
    case Ensure(t, newId) => EnsureKeepsInv(s, t, newId);
    case Lock(t) => LockKeepsInv(s, t);
    case Number(t) => NumberKeepsInv(s, t);
    case Write(t) => WriteKeepsInv(s, t);
    case Commit(t) => CommitKeepsInv(s, t);
    case Abort(t) => RollbackKeepsInv(s, t);
  }

  // ---- Runs ----

  /** A run from empty tables: any number of transactions, any interleaving, any aborts. */
  predicate IsRun(states: seq<State>, actions: seq<Action>) {
    && |states| == |actions| + 1
    && (forall i :: 0 <= i < |actions| ==>
          Enabled(states[i], actions[i]) && states[i + 1] == Apply(states[i], actions[i]))
  }

  lemma {:induction false} RunKeepsInv(states: seq<State>, actions: seq<Action>, i: nat)
    requires IsRun(states, actions) && states[0] == EMPTY_STATE
    requires i < |states|
    ensures Inv(states[i])
  {
    if i == 0 {
      EmptyInv();
    } else {
      RunKeepsInv(states, actions, i - 1);
      StepKeepsInv(states[i - 1], actions[i - 1]);
    }
  }

  /** Gapless sequencing: in every state of every run each aggregate's committed events carry
      exactly 1..n in commit order; two aggregate rows with one id, or with one project, type
      and key, are one row. */
  lemma SequencesAreGapless(states: seq<State>, actions: seq<Action>, i: nat, id: string)
    requires IsRun(states, actions) && states[0] == EMPTY_STATE
    requires i < |states|
    ensures var log := Log(states[i].events, id);
            forall k :: 0 <= k < |log| ==> log[k].sequenceNumber == k + 1
    ensures var rows := states[i].aggregates;
            forall a, b :: 0 <= a < |rows| && 0 <= b < |rows| ==>
              && (rows[a].id == rows[b].id ==> a == b)
              && ((rows[a].projectId == rows[b].projectId && rows[a].aggregateType == rows[b].aggregateType
                   && rows[a].aggregateKey == rows[b].aggregateKey) ==> a == b)
  {
    RunKeepsInv(states, actions, i);
  }

  /** In every run the SELECT ... FOR UPDATE finds its row and no insert meets the unique
      constraint on (aggregate, sequence number), committed or pending: a transaction that
      aborts does so only because something outside the protocol aborted it. */
  lemma NoStatementFails(states: seq<State>, actions: seq<Action>, i: nat, t: nat)
    requires IsRun(states, actions) && states[0] == EMPTY_STATE
    requires i < |actions| && t < |states[i].txs|
    ensures states[i].txs[t].phase.Ensured? ==> VisibleRow(states[i], states[i].txs[t]).Some?
    ensures states[i].txs[t].phase.Numbered? ==>
              var Numbered(id, n) := states[i].txs[t].phase;
              !SequenceTaken(states[i], id, n) && !UncommittedEvent(states[i], t, id, n)
    ensures states[i + 1].txs[t].phase.Aborted? && !states[i].txs[t].phase.Aborted? ==> actions[i] == Abort(t)
  {
    RunKeepsInv(states, actions, i);
    var s := states[i];
    assert TxInv(s, s.txs[t]);
    if s.txs[t].phase.Numbered? {
      NextNumberIsFree(s, s.txs[t].phase.id);
      forall u | 0 <= u < |s.txs| && u != t ensures s.txs[u].Held() != s.txs[t].Held() {
        assert Disjoint(s.txs[t], s.txs[u]);
      }
    }
    match actions[i] {
      case Lock(_) => LockKeepsInv(s, actions[i].t);
      case Write(_) => WriteKeepsInv(s, actions[i].t);
      case _ =>
    }
  }

  // ---- Acknowledged appends ----

  predicate CommittedEvent(s: State, t: nat, e: Event) {
    t < |s.txs| && s.txs[t].phase.Committed? && s.txs[t].phase.event == e
  }

  ghost predicate WasCommitted(s: State, e: Event) {
    exists t: nat :: CommittedEvent(s, t, e)
  }

  /** No event is in the table twice, and every event is the event of some committed transaction. */
  ghost predicate Ledger(s: State) {
    && (forall i, j :: 0 <= i < j < |s.events| ==> s.events[i] != s.events[j])
    && (forall i :: 0 <= i < |s.events| ==> WasCommitted(s, s.events[i]))
  }

  lemma StepKeepsCommitted(s: State, a: Action, t: nat)
    requires Enabled(s, a) && t < |s.txs| && s.txs[t].phase.Committed?
    ensures t < |Apply(s, a).txs| && Apply(s, a).txs[t] == s.txs[t]
  {}

  lemma {:induction false} RunKeepsCommitted(states: seq<State>, actions: seq<Action>, i: nat, j: nat, t: nat)
    requires IsRun(states, actions) && i <= j < |states|
    requires t < |states[i].txs| && states[i].txs[t].phase.Committed?
    ensures t < |states[j].txs| && states[j].txs[t] == states[i].txs[t]
  {
    if i < j {
      RunKeepsCommitted(states, actions, i, j - 1, t);
      StepKeepsCommitted(states[j - 1], actions[j - 1], t);
    }
  }

  lemma StepKeepsEventsOwned(s: State, a: Action, i: nat)
    requires Ledger(s) && Enabled(s, a) && i < |Apply(s, a).events|
    ensures WasCommitted(Apply(s, a), Apply(s, a).events[i])
  {
    var s' := Apply(s, a);
    if i < |s.events| {
      var t: nat :| CommittedEvent(s, t, s.events[i]);
      StepKeepsCommitted(s, a, t);
      assert CommittedEvent(s', t, s'.events[i]);
    } else {
      assert CommittedEvent(s', a.t, s'.events[i]);
    }
  }

  lemma StepKeepsLedger(s: State, a: Action)
    requires Inv(s) && Ledger(s) && Enabled(s, a)
    ensures Ledger(Apply(s, a))
  {
    forall i | 0 <= i < |Apply(s, a).events| ensures WasCommitted(Apply(s, a), Apply(s, a).events[i]) {
      StepKeepsEventsOwned(s, a, i);
    }
    if a.Commit? { CommittedEventIsNew(s, a.t); }
  }

  lemma CommittedEventIsNew(s: State, t: nat)
    requires Inv(s) && Enabled(s, Commit(t))
    ensures s.txs[t].phase.event !in s.events
  {
    assert TxInv(s, s.txs[t]);
    NextNumberIsFree(s, s.txs[t].phase.event.aggregateId);
  }

  lemma {:induction false} RunKeepsLedger(states: seq<State>, actions: seq<Action>, i: nat)
    requires IsRun(states, actions) && states[0] == EMPTY_STATE
    requires i < |states|
    ensures Ledger(states[i])
  {
    if i > 0 {
      RunKeepsLedger(states, actions, i - 1);
      RunKeepsInv(states, actions, i - 1);
      StepKeepsLedger(states[i - 1], actions[i - 1]);
    }
  }

  /** The event has the requested content and lies under the aggregate row with the requested
      project, type and key. */
  predicate StoredAsRequested(s: State, r: Request, e: Event) {
    && e.eventType == r.eventType && e.payload == r.payload
    && exists a :: a in s.aggregates && a.id == e.aggregateId
                   && a.projectId == r.projectId && a.aggregateType == r.aggregateType
                    && a.aggregateKey == r.aggregateKey
  }

  /** Every acknowledged append is kept: from its commit on, in every later state of the run,
      its event is in the table exactly once, under the requested aggregate with the requested
      content, and is the event of no other committed transaction. */
  lemma AcknowledgedAppendsAreKept(states: seq<State>, actions: seq<Action>, i: nat, j: nat, t: nat)
    requires IsRun(states, actions) && states[0] == EMPTY_STATE
    requires i <= j < |states| && t < |states[i].txs| && states[i].txs[t].phase.Committed?
    ensures var s, e := states[j], states[i].txs[t].phase.event;
            && CommittedEvent(s, t, e) && StoredAsRequested(s, states[i].txs[t].request, e)
            && (exists k :: 0 <= k < |s.events| && s.events[k] == e
                            && forall m :: 0 <= m < |s.events| && m != k ==> s.events[m] != e)
            && (forall u: nat :: CommittedEvent(s, u, e) ==> u == t)
  {
    RunKeepsCommitted(states, actions, i, j, t);
    RunKeepsInv(states, actions, j);
    RunKeepsLedger(states, actions, j);
    var s, e := states[j], states[i].txs[t].phase.event;
    assert TxInv(s, s.txs[t]);
    var k :| 0 <= k < |s.events| && s.events[k] == e;
    assert forall m :: 0 <= m < |s.events| && m != k ==> s.events[m] != e;
    forall u: nat | CommittedEvent(s, u, e) ensures u == t {
      assert u == t || Disjoint(s.txs[t], s.txs[u]);
    }
  }

  /** And the table holds nothing else: every event in it is the event of exactly one committed
      transaction. */
  lemma EveryEventWasAppendedOnce(states: seq<State>, actions: seq<Action>, i: nat, k: nat)
    requires IsRun(states, actions) && states[0] == EMPTY_STATE
    requires i < |states| && k < |states[i].events|
    ensures exists t: nat :: CommittedEvent(states[i], t, states[i].events[k])
                             && forall u: nat :: CommittedEvent(states[i], u, states[i].events[k]) ==> u == t
  {
    RunKeepsInv(states, actions, i);
    RunKeepsLedger(states, actions, i);
    var s := states[i];
    var t: nat :| CommittedEvent(s, t, s.events[k]);
    forall u: nat | CommittedEvent(s, u, s.events[k]) ensures u == t {
      assert u == t || Disjoint(s.txs[t], s.txs[u]);
    }
  }

  /** What a reader outside the transactions sees of one step: nothing, or one more event
      with the next sequence number of its aggregate, and that aggregate's row. */
  ghost predicate AppendsOne(s: State, s': State) {
    && s.aggregates <= s'.aggregates
    && exists e :: s'.events == s.events + [e]
                   && e.sequenceNumber == |Log(s.events, e.aggregateId)| + 1 && InTables(s', e.aggregateId)
  }

  lemma StepAppendsAtMostOne(s: State, a: Action)
    requires Inv(s) && Enabled(s, a)
    ensures var s' := Apply(s, a);
            (s'.aggregates == s.aggregates && s'.events == s.events) || AppendsOne(s, s')
    ensures a.Commit? <==> Apply(s, a).events != s.events
  {
    if a.Commit? {
      var e := s.txs[a.t].phase.event;
      assert TxInv(s, s.txs[a.t]);
      CommitKeepsInv(s, a.t);
      assert Apply(s, a).events[|s.events|] == e;
      assert e in Apply(s, a).events;
    }
  }

  // ---- Progress ----

  /** How many statements the transaction still has to run. */
  function Remaining(phase: Phase): nat {
    match phase
    case Begun => 5
    case Ensured => 4
    case Locked(_) => 3
    case Numbered(_, _) => 2
    case Written(_) => 1
    case _ => 0
  }

  function Work(txs: seq<Tx>): nat {
    if txs == [] then 0 else Remaining(txs[0].phase) + Work(txs[1..])
  }

  lemma {:induction false} WorkOfUpdate(txs: seq<Tx>, t: nat, tx: Tx)
    requires t < |txs|
    ensures Work(txs[t := tx]) + Remaining(txs[t].phase) == Work(txs) + Remaining(tx.phase)
  {
    if t == 0 {
      assert txs[t := tx][1..] == txs[1..];
    } else {
      WorkOfUpdate(txs[1..], t - 1, tx);
      assert txs[t := tx][1..] == txs[1..][t - 1 := tx];
    }
  }

  lemma StepReducesWork(s: State, a: Action)
    requires Enabled(s, a) && !a.Begin?
    ensures Work(Apply(s, a).txs) < Work(s.txs)
  {
    var t := a.t;
    WorkOfUpdate(s.txs, t, Apply(s, a).txs[t]);
    assert Apply(s, a).txs == s.txs[t := Apply(s, a).txs[t]];
  }

  /** With no new transactions a run is no longer than the work left at its start. */
  lemma {:induction false} RunsAreBounded(states: seq<State>, actions: seq<Action>)
    requires IsRun(states, actions)
    requires forall i :: 0 <= i < |actions| ==> !actions[i].Begin?
    ensures |actions| + Work(states[|states| - 1].txs) <= Work(states[0].txs)
  {
    if actions != [] {
      var n := |actions| - 1;
      RunsAreBounded(states[..n + 1], actions[..n]);
      StepReducesWork(states[n], actions[n]);
    }
  }

  function Longest(ids: seq<string>): (n: nat)
    ensures forall id :: id in ids ==> |id| <= n
  {
    if ids == [] then 0
    else
      var rest := Longest(ids[1..]);
      if |ids[0]| > rest then |ids[0]| else rest
  }

  lemma SomeIdIsFresh(s: State)
    ensures exists id :: FreshId(s, id)
  {
    var committed := seq(|s.aggregates|, i requires 0 <= i < |s.aggregates| => s.aggregates[i].id);
    var pending := seq(|s.txs|, i requires 0 <= i < |s.txs| =>
      if s.txs[i].created.Some? then s.txs[i].created.value.id else "");
    var n := Longest(committed) + Longest(pending) + 1;
    var id := seq(n, _ => 'x');
    forall a | a in s.aggregates ensures a.id != id {
      var i :| 0 <= i < |s.aggregates| && s.aggregates[i] == a;
      assert committed[i] in committed;
    }
    forall u | 0 <= u < |s.txs| && s.txs[u].created.Some? ensures s.txs[u].created.value.id != id {
      assert pending[u] in pending;
    }
    assert FreshId(s, id);
  }

  /** No deadlock: while a transaction is unfinished some transaction has a statement that can
      run now. A lock holder never waits; with no lock held nobody waits for a lock; with no
      insert pending nobody waits for an insert. */
  lemma SomeTransactionCanMove(s: State, t: nat)
    requires Inv(s)
    requires t < |s.txs| && s.txs[t].Active()
    ensures exists a: Action :: Enabled(s, a) && !a.Begin? && !a.Abort?
  {
    if u :| 0 <= u < |s.txs| && s.txs[u].Held().Some? {
      HolderCanMove(s, u);
    } else if u :| 0 <= u < |s.txs| && s.txs[u].phase.Ensured? {
      assert Enabled(s, Lock(u));
    } else {
      assert s.txs[t].phase.Begun?;
      SomeIdIsFresh(s);
      var id :| FreshId(s, id);
      forall u | 0 <= u < |s.txs| ensures s.txs[u].created.None? {
        assert TxInv(s, s.txs[u]);
      }
      assert Enabled(s, Ensure(t, id));
    }
  }

  lemma HolderCanMove(s: State, u: nat)
    requires Inv(s)
    requires u < |s.txs| && s.txs[u].Held().Some?
    ensures exists a: Action :: Enabled(s, a) && !a.Begin? && !a.Abort?
  {
    match s.txs[u].phase
    case Locked(_) => assert Enabled(s, Number(u));
    case Written(_) => assert Enabled(s, Commit(u));
    case Numbered(id, n) =>
      forall v | 0 <= v < |s.txs| && v != u ensures s.txs[v].Held() != Some(id) {
        assert Disjoint(s.txs[u], s.txs[v]);
      }
      assert Enabled(s, Write(u));
  }

  /** Progress: once no new transactions arrive, every run stops within the work it starts
      with, and it can stop only with every transaction committed or aborted. */
  lemma EveryAppendFinishes(states: seq<State>, actions: seq<Action>, from: nat)
    requires IsRun(states, actions) && states[0] == EMPTY_STATE
    requires from <= |actions|
    requires forall i :: from <= i < |actions| ==> !actions[i].Begin?
    ensures |actions| - from <= Work(states[from].txs)
    ensures var last := states[|actions|];
            (forall a: Action | Enabled(last, a) :: a.Begin? || a.Abort?) ==>
            forall t :: 0 <= t < |last.txs| ==> last.txs[t].phase.Committed? || last.txs[t].phase.Aborted?
  {
    RunsAreBounded(states[from..], actions[from..]);
    RunKeepsInv(states, actions, |actions|);
    var last := states[|actions|];
    if forall a: Action | Enabled(last, a) :: a.Begin? || a.Abort? {
      forall t | 0 <= t < |last.txs| ensures !last.txs[t].Active() {
        if last.txs[t].Active() { SomeTransactionCanMove(last, t); }
      }
    }
  }
}
