/** Any number of createSnapshot calls racing for the same rows. */
module SnapshotRaces {
  import opened Values
  import opened Tables
  import opened Interleaving
  import opened PrefixConsistency

  /** The row a call has inserted. */
  function Created(s: State, c: nat): Option<Snapshot> {
    if c >= |s.calls| then None
    else
      match s.calls[c].pc
      case Invalidate(row) => Some(row)
      case Snapshotted(created) => created
      case _ => None
  }

  ghost predicate HasCreator(s: State, row: Snapshot) {
    exists c: nat :: Created(s, c) == Some(row)
  }

  /** Every row has the one call that inserted it. */
  ghost predicate OneCreatorEach(s: State) {
    && (forall i :: 0 <= i < |s.snapshots| ==> HasCreator(s, s.snapshots[i]))
    && (forall c: nat, d: nat :: Created(s, c).Some? && c != d ==> Created(s, c) != Created(s, d))
  }

  lemma CreatedRowsAreStored(s: State, c: nat)
    requires Inv(s) && Created(s, c).Some?
    ensures Created(s, c).value in s.snapshots
  {
    assert CallInv(ViewOf(s), s.snapshots, s.calls[c]);
  }

  /** Only an insert gives a call a row, and a new one; what a call has inserted stays its own. */
  lemma RunCreates(s: State, a: Action, c: nat)
    requires Enabled(s, a) && c < |s.calls| && Runs(a, c)
    ensures Created(s, c).Some? ==> Created(Apply(s, a), c) == Created(s, c)
    ensures Created(s, c).None? && Created(Apply(s, a), c).Some? ==>
              a.Advance? && s.calls[c].pc.InsertSnapshot?
              && Apply(s, a).snapshots == s.snapshots + [Created(Apply(s, a), c).value]
  {}

  lemma StepCreates(s: State, a: Action, c: nat)
    requires Enabled(s, a)
    ensures Created(s, c).Some? ==> Created(Apply(s, a), c) == Created(s, c)
    ensures Created(s, c).None? && Created(Apply(s, a), c).Some? ==>
              Runs(a, c) && Created(Apply(s, a), c).value !in s.snapshots
  {
    if c < |s.calls| {
      if Runs(a, c) {
        RunCreates(s, a, c);
        if a.Advance? && s.calls[c].pc.InsertSnapshot? { InsertedRowIsNew(s, a); }
      } else {
        OtherCallsStay(s, a, c);
      }
    }
  }

  lemma InsertedRowIsNew(s: State, a: Action)
    requires Enabled(s, a) && a.Advance? && s.calls[a.c].pc.InsertSnapshot?
    ensures Created(Apply(s, a), a.c).Some? ==> Created(Apply(s, a), a.c).value !in s.snapshots
  {
    var row := Created(Apply(s, a), a.c);
    if row.Some? && row.value in s.snapshots {
      var i :| 0 <= i < |s.snapshots| && s.snapshots[i] == row.value;
      assert HasSnapshotAt(s.snapshots, row.value.aggregateId, row.value.sequenceNumber);
      assert false;
    }
  }

  lemma OnlyInsertsAddRows(s: State, a: Action)
    requires Enabled(s, a) && Apply(s, a).snapshots != s.snapshots
    ensures a.Advance? && s.calls[a.c].pc.InsertSnapshot?
  {}

  lemma InsertAddsItsRow(s: State, c: nat, redisUp: bool)
    requires Enabled(s, Advance(c, redisUp)) && s.calls[c].pc.InsertSnapshot?
    ensures var s' := Next(s, c, redisUp);
            s'.snapshots != s.snapshots ==> Created(s', c).Some? && s'.snapshots == s.snapshots + [Created(s', c).value]
  {}

  lemma AddedRowHasCreator(s: State, a: Action)
    requires Enabled(s, a) && Apply(s, a).snapshots != s.snapshots
    ensures exists row :: Apply(s, a).snapshots == s.snapshots + [row] && HasCreator(Apply(s, a), row)
  {
    OnlyInsertsAddRows(s, a);
    InsertAddsItsRow(s, a.c, a.redisUp);
    assert HasCreator(Apply(s, a), Created(Apply(s, a), a.c).value);
  }

  lemma StepKeepsRowsCreated(s: State, a: Action, i: nat)
    requires Inv(s) && OneCreatorEach(s) && Enabled(s, a) && i < |Apply(s, a).snapshots|
    ensures HasCreator(Apply(s, a), Apply(s, a).snapshots[i])
  {
    if i < |s.snapshots| {
      StepGrows(s, a);
      var c: nat :| Created(s, c) == Some(s.snapshots[i]);
      StepCreates(s, a, c);
      assert Created(Apply(s, a), c) == Some(s.snapshots[i]);
    } else {
      AddedRowHasCreator(s, a);
    }
  }

  lemma StepKeepsCreatorsApart(s: State, a: Action, c: nat, d: nat)
    requires Inv(s) && OneCreatorEach(s) && Enabled(s, a) && c != d
    requires Created(Apply(s, a), c).Some?
    ensures Created(Apply(s, a), c) != Created(Apply(s, a), d)
  {
    StepCreates(s, a, c);
    StepCreates(s, a, d);
    if Created(s, c).Some? { CreatedRowsAreStored(s, c); }
    if Created(s, d).Some? { CreatedRowsAreStored(s, d); }
  }

  lemma {:induction false} StepsKeepCreators(s: State, actions: seq<Action>, s': State)
    requires Inv(s) && OneCreatorEach(s) && Steps(s, actions, s')
    ensures OneCreatorEach(s')
    decreases |actions|
  {
    if actions != [] {
      var m := Apply(s, actions[0]);
      forall i | 0 <= i < |m.snapshots| ensures HasCreator(m, m.snapshots[i]) {
        StepKeepsRowsCreated(s, actions[0], i);
      }
      forall c: nat, d: nat | Created(m, c).Some? && c != d ensures Created(m, c) != Created(m, d) {
        StepKeepsCreatorsApart(s, actions[0], c, d);
      }
      Interleaving.StepKeepsInv(s, actions[0]);
      StepsKeepCreators(m, actions[1..], s');
    }
  }

  /** In every reachable state every snapshot row was inserted by exactly one call, which is
      about to invalidate or has reported it; so no two calls ever report the same row. */
  lemma EveryRowHasOneCreator(s: State)
    requires Reachable(s)
    ensures forall i :: 0 <= i < |s.snapshots| ==> HasCreator(s, s.snapshots[i])
    ensures forall c: nat, d: nat :: Created(s, c).Some? && c != d ==> Created(s, c) != Created(s, d)
    ensures forall c: nat :: Created(s, c).Some? ==> Created(s, c).value in s.snapshots
  {
    var s0: State, actions: seq<Action> :| Initial(s0) && Steps(s0, actions, s);
    InitialInv(s0);
    StepsKeepCreators(s0, actions, s);
    ReachableInv(s);
    forall c: nat | Created(s, c).Some? ensures Created(s, c).value in s.snapshots { CreatedRowsAreStored(s, c); }
  }

  lemma CreatedRowsDiffer(s: State, c: nat, d: nat)
    requires Reachable(s) && c != d
    ensures Created(s, c).Some? && Created(s, d).Some? ==>
              Created(s, c).value.aggregateId != Created(s, d).value.aggregateId
              || Created(s, c).value.sequenceNumber != Created(s, d).value.sequenceNumber
  {
    EveryRowHasOneCreator(s);
    SnapshotsLieWithinTheLog(s);
    if Created(s, c).Some? && Created(s, d).Some? {
      var i :| 0 <= i < |s.snapshots| && s.snapshots[i] == Created(s, c).value;
      var j :| 0 <= j < |s.snapshots| && s.snapshots[j] == Created(s, d).value;
      assert i != j;
    }
  }

  // ---- Winners and losers ----

  /** How far a call has got that was about to insert a row at position k. */
  predicate Inserting(s: State, c: nat, id: string, k: nat) {
    && c < |s.calls| && s.calls[c].aggregateId == id
    && match s.calls[c].pc
       case InsertSnapshot(n, _) => n == k
       case Invalidate(row) => row.aggregateId == id && row.sequenceNumber == k
       case Snapshotted(Some(row)) => row.aggregateId == id && row.sequenceNumber == k
       case Snapshotted(None) => HasSnapshotAt(s.snapshots, id, k)
       case Failed => true
       case _ => false
  }

  lemma RunKeepsInserting(s: State, a: Action, c: nat, id: string, k: nat)
    requires Enabled(s, a) && Runs(a, c) && Inserting(s, c, id, k)
    ensures Inserting(Apply(s, a), c, id, k)
  {}

  lemma RowStays(rows: seq<Snapshot>, more: seq<Snapshot>, id: string, k: nat)
    requires rows <= more && HasSnapshotAt(rows, id, k)
    ensures HasSnapshotAt(more, id, k)
  {
    var i :| 0 <= i < |rows| && rows[i].aggregateId == id && rows[i].sequenceNumber == k;
    assert more[i] == rows[i];
  }

  lemma StepKeepsInserting(s: State, a: Action, c: nat, id: string, k: nat)
    requires Inv(s) && Enabled(s, a) && Inserting(s, c, id, k)
    ensures Inserting(Apply(s, a), c, id, k)
  {
    if Runs(a, c) {
      RunKeepsInserting(s, a, c, id, k);
    } else {
      OtherCallsStay(s, a, c);
      StepGrows(s, a);
      if HasSnapshotAt(s.snapshots, id, k) { RowStays(s.snapshots, Apply(s, a).snapshots, id, k); }
    }
  }

  lemma {:induction false} StepsKeepInserting(s: State, actions: seq<Action>, s': State, c: nat, id: string, k: nat)
    requires Inv(s) && Steps(s, actions, s') && Inserting(s, c, id, k)
    ensures Inserting(s', c, id, k)
    decreases |actions|
  {
    if actions != [] {
      StepKeepsInserting(s, actions[0], c, id, k);
      Interleaving.StepKeepsInv(s, actions[0]);
      StepsKeepInserting(Apply(s, actions[0]), actions[1..], s', c, id, k);
    }
  }

  /** A race: whatever else runs, of two calls about to insert the same row at most one reports
      it. A call that ends without a row, and without a database error, has lost to another
      call that inserted the row, and the row is in the table. */
  lemma RacingCallsCreateOneRow(s: State, actions: seq<Action>, s': State, c: nat, d: nat)
    requires Reachable(s) && Steps(s, actions, s') && c != d
    requires c < |s.calls| && s.calls[c].pc.InsertSnapshot?
    requires d < |s.calls| && s.calls[d].pc.InsertSnapshot?
    requires s.calls[c].aggregateId == s.calls[d].aggregateId
             && s.calls[c].pc.sequenceNumber == s.calls[d].pc.sequenceNumber
    requires c < |s'.calls| && s'.calls[c].pc.Snapshotted?
    requires d < |s'.calls| && s'.calls[d].pc.Snapshotted?
    ensures s'.calls[c].pc.created.None? || s'.calls[d].pc.created.None?
    ensures s'.calls[c].pc.created.None? ==>
              exists e: nat :: e != c && Created(s', e).Some? && Created(s', e).value in s'.snapshots
                && Created(s', e).value.aggregateId == s.calls[c].aggregateId
                && Created(s', e).value.sequenceNumber == s.calls[c].pc.sequenceNumber
  {
    var id, k := s.calls[c].aggregateId, s.calls[c].pc.sequenceNumber;
    ReachableInv(s);
    StepsKeepInserting(s, actions, s', c, id, k);
    StepsKeepInserting(s, actions, s', d, id, k);
    ReachableSteps(s, actions, s');
    CreatedRowsDiffer(s', c, d);
    if s'.calls[c].pc.created.None? {
      var i :| 0 <= i < |s'.snapshots| && s'.snapshots[i].aggregateId == id && s'.snapshots[i].sequenceNumber == k;
      EveryRowHasOneCreator(s');
      var e: nat :| Created(s', e) == Some(s'.snapshots[i]);
    }
  }

  /** A call that meets the unique constraint returns null, whoever owns the aggregate, and
      changes nothing else. */
  lemma LosingASnapshotRaceChangesNothing(s: State, c: nat, redisUp: bool)
    requires Enabled(s, Advance(c, redisUp)) && s.calls[c].pc.InsertSnapshot?
    requires HasSnapshotAt(s.snapshots, s.calls[c].aggregateId, s.calls[c].pc.sequenceNumber)
    ensures Next(s, c, redisUp) == s.(calls := s.calls[c := s.calls[c].(pc := Snapshotted(None))])
  {}
}
