/** States built through chains of snapshots. */
module SnapshotChains {
  import opened Values
  import opened Reducer
  import opened ReducerProperties
  import opened Tables

  predicate Ascending(cuts: seq<nat>) {
    forall i, j :: 0 <= i < j < |cuts| ==> cuts[i] <= cuts[j]
  }

  /** Rebuild a state in segments: each picks up after the previous cut and stores its state. */
  function Resume(events: seq<Event>, id: string, byType: map<string, Rule>, cuts: seq<nat>): JsonObject {
    if cuts == [] then EMPTY
    else
      var n := |cuts| - 1;
      var after := if n == 0 then None else Some(cuts[n - 1]);
      Fold(EventsInRange(events, id, after, Some(cuts[n])), byType, Resume(events, id, byType, cuts[..n]))
  }

  lemma OneMoreSegment(events: seq<Event>, id: string, byType: map<string, Rule>, after: Option<nat>, cut: nat)
    requires GaplessLog(Log(events, id)) && OrElse(after, 0) <= cut
    ensures var log := Log(events, id);
            Fold(EventsInRange(events, id, after, Some(cut)), byType, Fold(log[..Low(|log|, after)], byType, EMPTY)) ==
            Fold(log[..Min(cut, |log|)], byType, EMPTY)
  {
    var log := Log(events, id);
    RangeIsSlice(events, id, after, Some(cut));
    FoldSplits(log, Low(|log|, after), Min(cut, |log|), byType);
  }

  /** The log up to the last cut. */
  function UpToLast(log: seq<Event>, cuts: seq<nat>): seq<Event> {
    if cuts == [] then [] else log[..Min(cuts[|cuts| - 1], |log|)]
  }

  lemma OneMoreCut(events: seq<Event>, id: string, byType: map<string, Rule>, cuts: seq<nat>)
    requires GaplessLog(Log(events, id)) && Ascending(cuts) && cuts != []
    requires var front := cuts[..|cuts| - 1];
             Resume(events, id, byType, front) == Fold(UpToLast(Log(events, id), front), byType, EMPTY)
    ensures Resume(events, id, byType, cuts) == Fold(UpToLast(Log(events, id), cuts), byType, EMPTY)
  {
    var log, n := Log(events, id), |cuts| - 1;
    var after := if n == 0 then None else Some(cuts[n - 1]);
    assert UpToLast(log, cuts[..n]) == log[..Low(|log|, after)] by {
      if n > 0 { assert cuts[..n][|cuts[..n]| - 1] == cuts[n - 1]; }
    }
    assert OrElse(after, 0) <= cuts[n];
    OneMoreSegment(events, id, byType, after, cuts[n]);
  }

  /** Chain independence: through however many snapshots a state was built, it is the state
      of one pass from empty. */
  lemma {:induction false} ChainsAgreeWithOnePass(events: seq<Event>, id: string, byType: map<string, Rule>,
                                                  cuts: seq<nat>)
    requires GaplessLog(Log(events, id))
    requires Ascending(cuts)
    ensures Resume(events, id, byType, cuts) == Fold(UpToLast(Log(events, id), cuts), byType, EMPTY)
  {
    if cuts != [] {
      ChainsAgreeWithOnePass(events, id, byType, cuts[..|cuts| - 1]);
      OneMoreCut(events, id, byType, cuts);
    }
  }

  /** Accumulation survives snapshots: through any chain of cuts an append-only field holds
      exactly the payloads of the events that append to it, in log order. */
  lemma AppendIsLosslessAcrossSnapshots(events: seq<Event>, id: string, byType: map<string, Rule>, cuts: seq<nat>,
                                        f: string)
    requires GaplessLog(Log(events, id)) && Ascending(cuts)
    requires cuts != [] && cuts[|cuts| - 1] >= |Log(events, id)|
    requires WrittenOnlyBy(Log(events, id), byType, f, Append)
    ensures var slice := Slice(Log(events, id), byType, f);
            FieldOf(Resume(events, id, byType, cuts), f) == if slice == [] then None else Some(Arr(Payloads(slice)))
  {
    var log := Log(events, id);
    ChainsAgreeWithOnePass(events, id, byType, cuts);
    assert log[..|log|] == log;
    AppendIsLossless(log, byType, EMPTY, f);
    assert ListAt(EMPTY, f) + Payloads(Slice(log, byType, f)) == Payloads(Slice(log, byType, f));
  }
}
