/** What a historical question is answered with. */
module PointInTime {
  import opened Values
  import opened Reducer
  import opened CacheKeys
  import opened Tables
  import opened Consistency
  import opened Freshness
  import opened Databases
  import opened Aggregates
  import opened Numerals

  /** As of N a query that misses the state cache folds exactly the first N events of the log, or
      all of them if there are fewer, and says how many those are, null for none; through
      whatever snapshot or cached lookup it goes. */
  lemma AnswerAsOfFoldsFirstN(v: View, rows: seq<Snapshot>, cache: map<string, CacheValue>, agg: Aggregate, n: string,
                              answers: Answers)
    requires Consistent(v, rows, cache) && agg in v.aggregates && RulesHeld(v, agg) && IsDecimal(n)
    ensures var r, log := MissOutcome(v, rows, cache, agg.projectId, agg.id, Some(n), answers, NoFault).r,
                Log(v.events, agg.id);
            var k := if ToNat(n) <= |log| then ToNat(n) else |log|;
            && r.Success?
            && r.value.state == Fold(log[..k], CurrentRules(v, agg), EMPTY)
            && r.value.asOfSequence == (if k == 0 then None else Some(ToString(k)))
  {
    FindForProjectFinds(v.aggregates, agg);
    MissOutcomeIsGood(v, rows, cache, agg.projectId, agg.id, Some(n), answers, NoFault);
    var r := MissOutcome(v, rows, cache, agg.projectId, agg.id, Some(n), answers, NoFault).r;
    MissOfNoError(v, rows, cache, agg.projectId, agg.id, Some(n), answers, NoFault, agg);
    GoodIsPlainWhenRulesHeld(v, agg, Reach(Some(n), |Log(v.events, agg.id)|), r.value.state);
  }

  /** So as of "10", with ten events or more, the answer folds ten events and is labelled "10"; as
      of "0" it is empty and labelled null. */
  lemma AnswerAsOfTenFoldsTen(v: View, rows: seq<Snapshot>, cache: map<string, CacheValue>, agg: Aggregate,
                              answers: Answers)
    requires Consistent(v, rows, cache) && agg in v.aggregates && RulesHeld(v, agg)
    requires |Log(v.events, agg.id)| >= 10
    ensures ValidAsOf(Some("10")) && ValidAsOf(Some("0"))
    ensures var r := MissOutcome(v, rows, cache, agg.projectId, agg.id, Some("10"), answers, NoFault).r;
            && r.Success? && r.value.asOfSequence == Some("10")
            && r.value.state == Fold(Log(v.events, agg.id)[..10], CurrentRules(v, agg), EMPTY)
    ensures var r := MissOutcome(v, rows, cache, agg.projectId, agg.id, Some("0"), answers, NoFault).r;
            r.Success? && r.value.asOfSequence == None && r.value.state == EMPTY
  {
    Ten();
    AnswerAsOfFoldsFirstN(v, rows, cache, agg, "10", answers);
    AnswerAsOfFoldsFirstN(v, rows, cache, agg, "0", answers);
    assert Log(v.events, agg.id)[..0] == [];
  }

  /** Ten events or more, folded and labelled as of "10". */
  ghost predicate FoldsTen(v: View, agg: Aggregate, r: Result<StateResult, Error>)
    requires v.versions != []
  {
    && r.Success? && r.value.asOfSequence == Some("10")
    && |Log(v.events, agg.id)| >= 10
    && r.value.state == Fold(Log(v.events, agg.id)[..10], CurrentRules(v, agg), EMPTY)
  }

  lemma AsOfTenKey(id: string)
    ensures StateKey(id, Some("10")) == "aggregate-state:" + id + ":seq:10"
  {
    KeyTexts(id, "10");
    assert ":seq:" + "10" == ":seq:10";
  }

  lemma QueryAsOfTen(v: View, rows: seq<Snapshot>, cache: map<string, CacheValue>, agg: Aggregate, answers: Answers)
    requires Consistent(v, rows, cache) && agg in v.aggregates && RulesHeld(v, agg)
    requires |Log(v.events, agg.id)| >= 10
    requires "aggregate-state:" + agg.id + ":seq:10" !in cache
    ensures ValidAsOf(Some("10"))
    ensures FoldsTen(v, agg, QueryOutcome(v, rows, cache, agg.projectId, agg.id, Some("10"), answers, NoFault).r)
  {
    AnswerAsOfTenFoldsTen(v, rows, cache, agg, answers);
    AsOfTenKey(agg.id);
  }

  /** The service's own query as of "10", when no state is cached under that key and no statement
      fails: whatever else the cache and the snapshot table hold, it folds the first ten events. */
  method AskAsOfTen(service: AggregatesService, agg: Aggregate, answers: Answers)
    returns (r: Result<StateResult, Error>)
    requires service.Inv() && agg in service.db.aggregates && RulesHeld(service.db.Now(), agg)
    requires |Log(service.db.events, agg.id)| >= 10
    requires "aggregate-state:" + agg.id + ":seq:10" !in service.cache.entries
    modifies service.cache
    ensures service.Inv() && FoldsTen(service.db.Now(), agg, r)
  {
    ghost var v := service.db.Now();
    QueryAsOfTen(v, service.db.snapshots, service.cache.entries, agg, answers);
    r := service.GetState(agg.projectId, agg.id, Some("10"), answers, NoFault);
    assert service.db.Now() == v;
  }
}
