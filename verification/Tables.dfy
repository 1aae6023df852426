/** The SQL queries over aggregates, events and snapshots. */
module Tables {
  import opened Values

  // ---- Aggregates ----

  predicate UniqueAggregates(aggregates: seq<Aggregate>) {
    forall i, j :: 0 <= i < j < |aggregates| ==>
      && aggregates[i].id != aggregates[j].id
      && !(aggregates[i].projectId == aggregates[j].projectId
           && aggregates[i].aggregateType == aggregates[j].aggregateType
           && aggregates[i].aggregateKey == aggregates[j].aggregateKey)
  }

  /** The aggregate with this id, if it belongs to this project. */
  function FindForProject(aggregates: seq<Aggregate>, id: string, projectId: string): (found: Option<Aggregate>)
    ensures found.Some? ==> found.value in aggregates && found.value.id == id && found.value.projectId == projectId
    ensures found.None? ==> forall a :: a in aggregates ==> a.id != id || a.projectId != projectId
  {
    if aggregates == [] then None
    else if aggregates[0].id == id && aggregates[0].projectId == projectId then Some(aggregates[0])
    else FindForProject(aggregates[1..], id, projectId)
  }

  lemma FindForProjectFinds(aggregates: seq<Aggregate>, agg: Aggregate)
    requires UniqueAggregates(aggregates) && agg in aggregates
    ensures FindForProject(aggregates, agg.id, agg.projectId) == Some(agg)
  {
    var found := FindForProject(aggregates, agg.id, agg.projectId).value;
    var i :| 0 <= i < |aggregates| && aggregates[i] == agg;
    var j :| 0 <= j < |aggregates| && aggregates[j] == found;
    assert i == j;
  }

  /** The aggregate with this natural key. */
  function FindByKey(aggregates: seq<Aggregate>, projectId: string, aggregateType: string, aggregateKey: string)
    : (found: Option<Aggregate>)
    ensures found.Some? ==>
              && found.value in aggregates && found.value.projectId == projectId
              && found.value.aggregateType == aggregateType && found.value.aggregateKey == aggregateKey
    ensures found.None? ==>
              forall a :: a in aggregates ==>
                a.projectId != projectId || a.aggregateType != aggregateType || a.aggregateKey != aggregateKey
  {
    if aggregates == [] then None
    else if aggregates[0].HasKey(projectId, aggregateType, aggregateKey) then Some(aggregates[0])
    else FindByKey(aggregates[1..], projectId, aggregateType, aggregateKey)
  }

  lemma {:induction false} FindByKeyExtended(aggregates: seq<Aggregate>, a: Aggregate, p: string, t: string, k: string)
    ensures FindByKey(aggregates + [a], p, t, k) ==
            if FindByKey(aggregates, p, t, k).Some? then FindByKey(aggregates, p, t, k)
            else if a.HasKey(p, t, k) then Some(a) else None
  {
    if aggregates == [] {
      assert [a][1..] == [];
    } else {
      FindByKeyExtended(aggregates[1..], a, p, t, k);
      assert (aggregates + [a])[1..] == aggregates[1..] + [a];
    }
  }

  // ---- Events ----

  /** One aggregate's events in commit order. */
  function Log(events: seq<Event>, id: string): seq<Event> {
    if events == [] then []
    else
      var last := events[|events| - 1];
      Log(events[..|events| - 1], id) + (if last.aggregateId == id then [last] else [])
  }

  /** The log of `id` carries exactly 1..n in commit order. */
  predicate GaplessLog(log: seq<Event>) {
    forall i :: 0 <= i < |log| ==> log[i].sequenceNumber == i + 1
  }

  ghost predicate Gapless(events: seq<Event>) {
    forall id :: GaplessLog(Log(events, id))
  }

  predicate InRange(e: Event, id: string, after: Option<nat>, upTo: Option<nat>) {
    && e.aggregateId == id
    && (after.Some? ==> e.sequenceNumber > after.value)
    && (upTo.Some? ==> e.sequenceNumber <= upTo.value)
  }

  function Select(events: seq<Event>, id: string, after: Option<nat>, upTo: Option<nat>): seq<Event> {
    if events == [] then []
    else
      var last := events[|events| - 1];
      Select(events[..|events| - 1], id, after, upTo) + (if InRange(last, id, after, upTo) then [last] else [])
  }

  function InsertBySequence(sorted: seq<Event>, e: Event): seq<Event> {
    if sorted == [] || sorted[|sorted| - 1].sequenceNumber <= e.sequenceNumber then sorted + [e]
    else InsertBySequence(sorted[..|sorted| - 1], e) + [sorted[|sorted| - 1]]
  }

  /** ORDER BY sequence_number ASC. */
  function OrderBySequence(events: seq<Event>): seq<Event> {
    if events == [] then []
    else InsertBySequence(OrderBySequence(events[..|events| - 1]), events[|events| - 1])
  }

  /** The events of the half-open range (after, upTo], in ascending order. */
  function EventsInRange(events: seq<Event>, id: string, after: Option<nat>, upTo: Option<nat>): seq<Event> {
    OrderBySequence(Select(events, id, after, upTo))
  }

  function CountEventsSince(events: seq<Event>, id: string, after: Option<nat>): nat {
    |Select(events, id, after, None)|
  }

  /** The highest sequence number in the log of `id`, or 0. */
  function LastSequence(events: seq<Event>, id: string): nat {
    if events == [] then 0
    else
      var last, rest := events[|events| - 1], LastSequence(events[..|events| - 1], id);
      if last.aggregateId == id && last.sequenceNumber > rest then last.sequenceNumber else rest
  }

  function NextSequenceNumber(events: seq<Event>, id: string): nat {
    LastSequence(events, id) + 1
  }

  function OrElse(n: Option<nat>, default: nat): nat {
    if n.Some? then n.value else default
  }

  /** ORDER BY returns the rows it was given, each as often, in ascending order. */
  lemma {:induction false} OrderBySequenceSorts(events: seq<Event>)
    ensures multiset(OrderBySequence(events)) == multiset(events) && IsAscending(OrderBySequence(events))
  {
    if events != [] {
      var n := |events| - 1;
      assert events == events[..n] + [events[n]];
      OrderBySequenceSorts(events[..n]);
      var sorted := OrderBySequence(events[..n]);
      InsertKeepsRows(sorted, events[n]);
      var last := if sorted == [] then 0 else sorted[|sorted| - 1].sequenceNumber;
      InsertKeepsOrder(sorted, events[n], last + events[n].sequenceNumber);
    }
  }

  predicate IsAscending(events: seq<Event>) {
    forall i, j :: 0 <= i < j < |events| ==> events[i].sequenceNumber <= events[j].sequenceNumber
  }

  lemma {:induction false} InsertKeepsRows(sorted: seq<Event>, e: Event)
    ensures multiset(InsertBySequence(sorted, e)) == multiset(sorted) + multiset{e}
  {
    if sorted != [] && sorted[|sorted| - 1].sequenceNumber > e.sequenceNumber {
      var n := |sorted| - 1;
      assert sorted == sorted[..n] + [sorted[n]];
      InsertKeepsRows(sorted[..n], e);
    }
  }

  predicate AllUpTo(events: seq<Event>, bound: nat) {
    forall i :: 0 <= i < |events| ==> events[i].sequenceNumber <= bound
  }

  lemma {:induction false} InsertKeepsOrder(sorted: seq<Event>, e: Event, bound: nat)
    requires IsAscending(sorted) && AllUpTo(sorted, bound) && e.sequenceNumber <= bound
    ensures IsAscending(InsertBySequence(sorted, e)) && AllUpTo(InsertBySequence(sorted, e), bound)
  {
    if sorted != [] && sorted[|sorted| - 1].sequenceNumber > e.sequenceNumber {
      var n := |sorted| - 1;
      InsertKeepsOrder(sorted[..n], e, sorted[n].sequenceNumber);
    }
  }

  lemma {:induction false} SelectKeepsMatching(events: seq<Event>, id: string, after: Option<nat>, upTo: Option<nat>,
                                               e: Event)
    ensures multiset(Select(events, id, after, upTo))[e] ==
            if InRange(e, id, after, upTo) then multiset(events)[e] else 0
  {
    if events != [] {
      var n := |events| - 1;
      assert events == events[..n] + [events[n]];
      SelectKeepsMatching(events[..n], id, after, upTo, e);
      assert Select(events, id, after, upTo) ==
             Select(events[..n], id, after, upTo) + (if InRange(events[n], id, after, upTo) then [events[n]] else []);
    }
  }

  /** The range query on any table: in ascending order, exactly the rows of this aggregate within
      both bounds, the lower one exclusive, each as often as it is there. */
  lemma RangeQueryIsExact(events: seq<Event>, id: string, after: Option<nat>, upTo: Option<nat>, e: Event)
    ensures var found := EventsInRange(events, id, after, upTo);
            && IsAscending(found)
            && multiset(found)[e] ==
               if e.aggregateId == id && (after.None? || after.value < e.sequenceNumber)
                  && (upTo.None? || e.sequenceNumber <= upTo.value)
               then multiset(events)[e] else 0
  {
    OrderBySequenceSorts(Select(events, id, after, upTo));
    SelectKeepsMatching(events, id, after, upTo, e);
  }

  lemma LogOfExtended(events: seq<Event>, e: Event, id: string)
    ensures Log(events + [e], id) == Log(events, id) + (if e.aggregateId == id then [e] else [])
  {
    assert (events + [e])[..|events|] == events;
  }

  lemma {:induction false} LogMembers(events: seq<Event>, id: string)
    ensures forall e :: e in Log(events, id) <==> e in events && e.aggregateId == id
  {
    if events != [] {
      LogMembers(events[..|events| - 1], id);
      assert events == events[..|events| - 1] + [events[|events| - 1]];
    }
  }

  /** Which slice of a gapless log of length n the range (after, upTo] is. */
  function Low(n: nat, after: Option<nat>): nat {
    Min(OrElse(after, 0), n)
  }

  function High(n: nat, after: Option<nat>, upTo: Option<nat>): (high: nat)
    ensures Low(n, after) <= high <= n
  {
    var high := Min(OrElse(upTo, n), n);
    if high < Low(n, after) then Low(n, after) else high
  }

  lemma SliceGrows(before: seq<Event>, last: Event, after: Option<nat>, upTo: Option<nat>)
    requires last.sequenceNumber == |before| + 1
    ensures var n, log := |before|, before + [last];
            log[Low(n + 1, after)..High(n + 1, after, upTo)] ==
            before[Low(n, after)..High(n, after, upTo)] +
            (if InRange(last, last.aggregateId, after, upTo) then [last] else [])
  {
    var n, log := |before|, before + [last];
    var low, high := Low(n, after), High(n, after, upTo);
    if InRange(last, last.aggregateId, after, upTo) {
      assert Low(n + 1, after) == low && high == n && High(n + 1, after, upTo) == n + 1;
      assert log[low..n + 1] == log[low..n] + [last];
      assert log[low..n] == before[low..n];
    } else if Low(n + 1, after) == low {
      assert High(n + 1, after, upTo) == high;
      assert log[low..high] == before[low..high];
    } else {
      assert low == high == n;
      assert Low(n + 1, after) == High(n + 1, after, upTo);
    }
  }

  lemma PrefixIsGapless(log: seq<Event>, n: nat)
    requires GaplessLog(log) && n <= |log|
    ensures GaplessLog(log[..n])
  {}

  lemma {:induction false} SelectIsSlice(events: seq<Event>, id: string, after: Option<nat>, upTo: Option<nat>)
    requires GaplessLog(Log(events, id))
    ensures var log := Log(events, id);
            Select(events, id, after, upTo) == log[Low(|log|, after)..High(|log|, after, upTo)]
  {
    if events != [] {
      var rest, last := events[..|events| - 1], events[|events| - 1];
      var log, before := Log(events, id), Log(rest, id);
      assert before == log[..|before|];
      PrefixIsGapless(log, |before|);
      SelectIsSlice(rest, id, after, upTo);
      if last.aggregateId == id {
        assert log[|before|] == last;
        SliceGrows(before, last, after, upTo);
      } else {
        assert log == before;
        assert Select(events, id, after, upTo) == Select(rest, id, after, upTo);
      }
    }
  }

  lemma {:induction false} AscendingStaysPut(events: seq<Event>)
    requires IsAscending(events)
    ensures OrderBySequence(events) == events
  {
    if events != [] {
      AscendingStaysPut(events[..|events| - 1]);
    }
  }

  /** On a gapless log the range query returns a slice of the log. */
  lemma RangeIsSlice(events: seq<Event>, id: string, after: Option<nat>, upTo: Option<nat>)
    requires GaplessLog(Log(events, id))
    ensures var log := Log(events, id);
            EventsInRange(events, id, after, upTo) == log[Low(|log|, after)..High(|log|, after, upTo)]
  {
    SelectIsSlice(events, id, after, upTo);
    AscendingStaysPut(Select(events, id, after, upTo));
  }

  lemma {:induction false} LastSequenceIsLength(events: seq<Event>, id: string)
    requires GaplessLog(Log(events, id))
    ensures LastSequence(events, id) == |Log(events, id)|
  {
    if events != [] {
      var rest := events[..|events| - 1];
      var log, before := Log(events, id), Log(rest, id);
      assert forall i :: 0 <= i < |before| ==> before[i] == log[i];
      LastSequenceIsLength(rest, id);
      assert |log| > |before| ==> log[|log| - 1] == events[|events| - 1];
    }
  }

  // ---- Snapshots ----

  /** The unique constraint on (aggregate, sequence number). */
  predicate UniqueSnapshots(rows: seq<Snapshot>) {
    forall i, j :: 0 <= i < j < |rows| ==>
      !(rows[i].aggregateId == rows[j].aggregateId && rows[i].sequenceNumber == rows[j].sequenceNumber)
  }

  predicate Eligible(row: Snapshot, id: string, upTo: Option<nat>) {
    row.aggregateId == id && (upTo.Some? ==> row.sequenceNumber <= upTo.value)
  }

  /** The eligible row with the highest sequence number. */
  function FindLatestUpTo(rows: seq<Snapshot>, id: string, upTo: Option<nat>): (found: Option<Snapshot>)
    ensures found.Some? ==> found.value in rows && Eligible(found.value, id, upTo)
    ensures found.Some? ==>
      forall r :: r in rows && Eligible(r, id, upTo) ==> r.sequenceNumber <= found.value.sequenceNumber
    ensures found.None? ==> forall r :: r in rows ==> !Eligible(r, id, upTo)
  {
    if rows == [] then None
    else
      var n := |rows| - 1;
      var rest := FindLatestUpTo(rows[..n], id, upTo);
      assert rows == rows[..n] + [rows[n]];
      if Eligible(rows[n], id, upTo) && (rest.None? || rest.value.sequenceNumber < rows[n].sequenceNumber)
      then Some(rows[n]) else rest
  }

  /** Column by column: a row of this aggregate, at or before the bound if there is one, and the
      highest of these; none exactly if there are none. */
  lemma LatestUpToIsHighest(rows: seq<Snapshot>, id: string, upTo: Option<nat>)
    ensures var found := FindLatestUpTo(rows, id, upTo);
            if exists r :: r in rows && r.aggregateId == id && (upTo.None? || r.sequenceNumber <= upTo.value)
            then && found.Some? && found.value in rows && found.value.aggregateId == id
                 && (upTo.None? || found.value.sequenceNumber <= upTo.value)
                 && forall r :: r in rows && r.aggregateId == id && (upTo.None? || r.sequenceNumber <= upTo.value) ==>
                      r.sequenceNumber <= found.value.sequenceNumber
            else found.None?
  {
    var found := FindLatestUpTo(rows, id, upTo);
    if r :| r in rows && r.aggregateId == id && (upTo.None? || r.sequenceNumber <= upTo.value) {
      assert Eligible(r, id, upTo);
    }
  }

  function FindLatest(rows: seq<Snapshot>, id: string): Option<Snapshot> {
    FindLatestUpTo(rows, id, None)
  }

  /** The sequence number of the latest snapshot, or 0 when there is none. */
  function LatestSequence(rows: seq<Snapshot>, id: string): nat {
    var latest := FindLatest(rows, id);
    if latest.Some? then latest.value.sequenceNumber else 0
  }

  predicate HasSnapshotAt(rows: seq<Snapshot>, id: string, k: nat) {
    exists i :: 0 <= i < |rows| && rows[i].aggregateId == id && rows[i].sequenceNumber == k
  }

  /** Rows are only ever added, so the latest position never moves back. */
  lemma LatestNeverDecreases(rows: seq<Snapshot>, more: seq<Snapshot>, id: string)
    requires rows <= more
    ensures LatestSequence(rows, id) <= LatestSequence(more, id)
  {
    var latest := FindLatest(rows, id);
    if latest.Some? { assert latest.value in more; }
  }
}
