/** The stored rule table: upsert, the query that reads it, and the rules it stands for. */
module EventReducers {
  import opened Values
  import opened Reducer

  function ParseOperation(text: string): Option<Operation> {
    if text == "set" then Some(Set)
    else if text == "merge" then Some(Merge)
    else if text == "append" then Some(Append)
    else None
  }

  predicate IsRowOf(row: RuleRow, projectId: string, aggregateType: string, eventType: string) {
    row.projectId == projectId && row.aggregateType == aggregateType && row.eventType == eventType
  }

  predicate SameKey(a: RuleRow, b: RuleRow) {
    IsRowOf(a, b.projectId, b.aggregateType, b.eventType)
  }

  /** The unique constraint on (project, aggregate type, event type). */
  predicate UniqueKeys(rows: seq<RuleRow>) {
    forall i, j :: 0 <= i < j < |rows| ==> !SameKey(rows[i], rows[j])
  }

  /** What request validation lets through: a known operation, and a field for merge and append. */
  predicate IsValid(declared: RuleRow) {
    var op := ParseOperation(declared.operation);
    op.Some? && (op.value == Set || (declared.field.Some? && declared.field.value != ""))
  }

  /** An update leaves the stored field alone when the request has none. */
  function Updated(row: RuleRow, declared: RuleRow): RuleRow {
    row.(operation := declared.operation, field := if declared.field.Some? then declared.field else row.field)
  }

  /** Create the row, or update the row with its key in place. */
  function Upsert(rows: seq<RuleRow>, declared: RuleRow): seq<RuleRow> {
    if exists i :: 0 <= i < |rows| && SameKey(rows[i], declared) then Update(rows, declared) else rows + [declared]
  }

  function Update(rows: seq<RuleRow>, declared: RuleRow): (updated: seq<RuleRow>)
    ensures |updated| == |rows|
    ensures forall i :: 0 <= i < |rows| ==>
      updated[i] == if SameKey(rows[i], declared) then Updated(rows[i], declared) else rows[i]
  {
    if rows == [] then []
    else
      var last := rows[|rows| - 1];
      Update(rows[..|rows| - 1], declared) + [if SameKey(last, declared) then Updated(last, declared) else last]
  }

  /** The rows of one project and aggregate type. The query promises no order. */
  function FindAll(rows: seq<RuleRow>, projectId: string, aggregateType: string): seq<RuleRow> {
    if rows == [] then []
    else
      var last := rows[|rows| - 1];
      FindAll(rows[..|rows| - 1], projectId, aggregateType) +
      (if last.projectId == projectId && last.aggregateType == aggregateType then [last] else [])
  }

  /** Rows to rules: a row whose operation is not one of the three is dropped. */
  function RulesFrom(rows: seq<RuleRow>): seq<Rule> {
    if rows == [] then []
    else
      var last := rows[|rows| - 1];
      RulesFrom(rows[..|rows| - 1]) + RuleFrom(last)
  }

  function RuleFrom(row: RuleRow): seq<Rule> {
    var op := ParseOperation(row.operation);
    if op.Some? then [Rule(row.eventType, op.value, row.field)] else []
  }

  /** The rules a rule table means for one aggregate type. */
  function TableFor(rows: seq<RuleRow>, projectId: string, aggregateType: string): map<string, Rule> {
    RulesByEventType(RulesFrom(FindAll(rows, projectId, aggregateType)))
  }

  // ---- Reading the table row by row ----

  /** The last usable row for an event type. */
  function RowFor(rows: seq<RuleRow>, eventType: string): Option<RuleRow> {
    if rows == [] then None
    else
      var last := rows[|rows| - 1];
      if last.eventType == eventType && ParseOperation(last.operation).Some? then Some(last)
      else RowFor(rows[..|rows| - 1], eventType)
  }

  lemma {:induction false} TableIsLastRow(rows: seq<RuleRow>, eventType: string)
    ensures var table := RulesByEventType(RulesFrom(rows));
            var row := RowFor(rows, eventType);
            && (eventType in table <==> row.Some?)
            && (row.Some? ==> RuleFrom(row.value) == [table[eventType]])
  {
    if rows != [] {
      var rest, last := rows[..|rows| - 1], rows[|rows| - 1];
      TableIsLastRow(rest, eventType);
      if ParseOperation(last.operation).Some? {
        assert RulesFrom(rows)[..|RulesFrom(rest)|] == RulesFrom(rest);
      } else {
        assert RulesFrom(rows) == RulesFrom(rest);
      }
    }
  }

  lemma {:induction false} RowForFinds(rows: seq<RuleRow>, eventType: string)
    ensures var row := RowFor(rows, eventType);
            && (row.Some? ==> row.value in rows)
            && (row.Some? ==> row.value.eventType == eventType && ParseOperation(row.value.operation).Some?)
            && (row.None? ==> forall r :: r in rows && r.eventType == eventType ==> ParseOperation(r.operation).None?)
  {
    if rows != [] {
      RowForFinds(rows[..|rows| - 1], eventType);
      assert rows == rows[..|rows| - 1] + [rows[|rows| - 1]];
    }
  }

  // ---- Order of the rows ----

  predicate DistinctEventTypes(rows: seq<RuleRow>) {
    forall i, j :: 0 <= i < j < |rows| ==> rows[i].eventType != rows[j].eventType
  }

  lemma {:induction false} FindAllIsDistinct(rows: seq<RuleRow>, projectId: string, aggregateType: string)
    requires UniqueKeys(rows)
    ensures DistinctEventTypes(FindAll(rows, projectId, aggregateType))
    ensures forall r :: r in FindAll(rows, projectId, aggregateType) ==>
              r in rows && r.projectId == projectId && r.aggregateType == aggregateType
  {
    if rows != [] {
      FindAllIsDistinct(rows[..|rows| - 1], projectId, aggregateType);
    }
  }

  lemma PermutedRowFor(rows: seq<RuleRow>, permuted: seq<RuleRow>, eventType: string)
    requires multiset(rows) == multiset(permuted)
    requires DistinctEventTypes(rows)
    ensures RowFor(rows, eventType) == RowFor(permuted, eventType)
  {
    RowForFinds(rows, eventType);
    RowForFinds(permuted, eventType);
    forall r ensures r in rows <==> r in permuted {
      assert r in rows <==> r in multiset(rows);
      assert r in permuted <==> r in multiset(permuted);
    }
  }

  /** The rows are fetched without ORDER BY: whatever order they come in, the rules are the same. */
  lemma RowOrderIsIrrelevant(rows: seq<RuleRow>, permuted: seq<RuleRow>)
    requires multiset(rows) == multiset(permuted)
    requires DistinctEventTypes(rows)
    ensures RulesByEventType(RulesFrom(rows)) == RulesByEventType(RulesFrom(permuted))
  {
    var a, b := RulesByEventType(RulesFrom(rows)), RulesByEventType(RulesFrom(permuted));
    forall t ensures (t in a <==> t in b) && (t in a ==> [a[t]] == [b[t]]) {
      TableIsLastRow(rows, t);
      TableIsLastRow(permuted, t);
      PermutedRowFor(rows, permuted, t);
    }
    forall t | t in a ensures a[t] == b[t] { assert [a[t]][0] == [b[t]][0]; }
    assert a == b;
  }

  // ---- Upsert means replace ----

  /** The table after a history of upserts, starting empty. */
  function Stored(history: seq<RuleRow>): seq<RuleRow> {
    if history == [] then [] else Upsert(Stored(history[..|history| - 1]), history[|history| - 1])
  }

  lemma UpsertKeepsKeysUnique(rows: seq<RuleRow>, declared: RuleRow)
    requires UniqueKeys(rows)
    ensures UniqueKeys(Upsert(rows, declared))
  {}

  /** Column by column: a row with the declared project, type and event type gets the declared
      operation, and the declared field if there is one; no other row changes; with no such row
      the declared one is added. */
  lemma UpsertIsExact(rows: seq<RuleRow>, d: RuleRow)
    ensures var after := Upsert(rows, d);
            && |after| == |rows| + (if exists r :: r in rows && r.projectId == d.projectId
                                                   && r.aggregateType == d.aggregateType && r.eventType == d.eventType
                                    then 0 else 1)
            && (|after| > |rows| ==> after[|rows|] == d)
            && forall i :: 0 <= i < |rows| ==>
                 after[i] == if rows[i].projectId == d.projectId && rows[i].aggregateType == d.aggregateType
                                && rows[i].eventType == d.eventType
                             then RuleRow(d.projectId, d.aggregateType, d.eventType, d.operation,
                                          if d.field.Some? then d.field else rows[i].field)
                             else rows[i]
  {
    if r :| r in rows && r.projectId == d.projectId && r.aggregateType == d.aggregateType
            && r.eventType == d.eventType {
      assert SameKey(r, d);
    }
    forall i | 0 <= i < |rows| && SameKey(rows[i], d) ensures rows[i] in rows {}
  }

  /** The query keeps exactly the rows of the project and type, each as often as it is there. */
  lemma {:induction false} FindAllIsExact(rows: seq<RuleRow>, p: string, t: string, r: RuleRow)
    ensures multiset(FindAll(rows, p, t))[r] ==
            if r.projectId == p && r.aggregateType == t then multiset(rows)[r] else 0
  {
    if rows != [] {
      var n := |rows| - 1;
      assert rows == rows[..n] + [rows[n]];
      FindAllIsExact(rows[..n], p, t, r);
    }
  }

  /** Two rules no event can tell apart: `set` ignores its field. */
  predicate SameEffect(a: Rule, b: Rule) {
    a.operation == b.operation && (a.operation == Set || a.field == b.field)
  }

  predicate SameEffects(a: map<string, Rule>, b: map<string, Rule>) {
    a.Keys == b.Keys && forall t :: t in a ==> SameEffect(a[t], b[t])
  }

  lemma SameEffectsReflexive(a: map<string, Rule>)
    ensures SameEffects(a, a)
  {}

  lemma SameEffectsSameEvent(state: JsonObject, a: map<string, Rule>, b: map<string, Rule>, e: Event)
    requires SameEffects(a, b)
    ensures ApplyEvent(state, a, e) == ApplyEvent(state, b, e)
  {
    assert e.eventType in a.Keys <==> e.eventType in b.Keys;
  }

  lemma {:induction false} SameEffectsSameFold(events: seq<Event>, a: map<string, Rule>, b: map<string, Rule>,
                                               initial: JsonObject)
    requires SameEffects(a, b)
    ensures Fold(events, a, initial) == Fold(events, b, initial)
  {
    if events != [] {
      var e := events[|events| - 1];
      SameEffectsSameFold(events[..|events| - 1], a, b, initial);
      SameEffectsSameEvent(Fold(events[..|events| - 1], a, initial), a, b, e);
    }
  }

  lemma RowForExtended(rows: seq<RuleRow>, declared: RuleRow, p: string, t: string, eventType: string)
    requires ParseOperation(declared.operation).Some?
    ensures RowFor(FindAll(rows + [declared], p, t), eventType) ==
            if IsRowOf(declared, p, t, eventType) then Some(declared) else RowFor(FindAll(rows, p, t), eventType)
  {
    assert (rows + [declared])[..|rows|] == rows;
    var before := FindAll(rows, p, t);
    if declared.projectId == p && declared.aggregateType == t {
      assert (before + [declared])[..|before|] == before;
    } else {
      assert before + [] == before;
    }
  }

  lemma {:induction false} RowForUpdated(rows: seq<RuleRow>, declared: RuleRow, p: string, t: string, eventType: string)
    requires forall r :: r in rows ==> ParseOperation(r.operation).Some?
    requires ParseOperation(declared.operation).Some?
    ensures var before := RowFor(FindAll(rows, p, t), eventType);
            RowFor(FindAll(Update(rows, declared), p, t), eventType) ==
            if before.Some? && IsRowOf(declared, p, t, eventType) then Some(Updated(before.value, declared)) else before
  {
    if rows != [] {
      var rest, last := rows[..|rows| - 1], rows[|rows| - 1];
      assert rows == rest + [last];
      RowForUpdated(rest, declared, p, t, eventType);
      RowForExtended(rest, last, p, t, eventType);
      var updated := if SameKey(last, declared) then Updated(last, declared) else last;
      assert Update(rows, declared) == Update(rest, declared) + [updated];
      RowForExtended(Update(rest, declared), updated, p, t, eventType);
    }
  }

  lemma {:induction false} RowForNone(rows: seq<RuleRow>, p: string, t: string, eventType: string)
    requires forall r :: r in rows ==> ParseOperation(r.operation).Some?
    ensures RowFor(FindAll(rows, p, t), eventType).None? <==> forall r :: r in rows ==> !IsRowOf(r, p, t, eventType)
  {
    if rows != [] {
      var n := |rows| - 1;
      assert rows == rows[..n] + [rows[n]];
      RowForNone(rows[..n], p, t, eventType);
      RowForExtended(rows[..n], rows[n], p, t, eventType);
    }
  }

  lemma {:induction false} StoredOperationsAreValid(history: seq<RuleRow>)
    requires forall d :: d in history ==> IsValid(d)
    ensures forall r :: r in Stored(history) ==> ParseOperation(r.operation).Some?
  {
    if history != [] {
      var n := |history| - 1;
      assert history == history[..n] + [history[n]];
      StoredOperationsAreValid(history[..n]);
      assert IsValid(history[n]);
      var rows := Stored(history[..n]);
      forall r | r in Update(rows, history[n]) ensures ParseOperation(r.operation).Some? {
        var i :| 0 <= i < |rows| && Update(rows, history[n])[i] == r;
        assert rows[i] in rows;
      }
    }
  }

  lemma RowForUpserted(rows: seq<RuleRow>, declared: RuleRow, p: string, t: string, eventType: string)
    requires forall r :: r in rows ==> ParseOperation(r.operation).Some?
    requires ParseOperation(declared.operation).Some?
    ensures var before := RowFor(FindAll(rows, p, t), eventType);
            RowFor(FindAll(Upsert(rows, declared), p, t), eventType) ==
            if !IsRowOf(declared, p, t, eventType) then before
            else if before.Some? then Some(Updated(before.value, declared))
            else Some(declared)
  {
    RowForUpdated(rows, declared, p, t, eventType);
    RowForExtended(rows, declared, p, t, eventType);
    RowForNone(rows, p, t, eventType);
  }

  /** Two rows that mean the same: `set` ignores its field. */
  predicate SameMeaning(stored: Option<RuleRow>, declared: Option<RuleRow>) {
    && (stored.Some? <==> declared.Some?)
    && (stored.Some? ==>
        && stored.value.operation == declared.value.operation
        && (declared.value.operation == "set" || stored.value.field == declared.value.field))
  }

  lemma UpdatedMeansDeclared(row: RuleRow, d: RuleRow)
    requires IsValid(d)
    ensures SameMeaning(Some(Updated(row, d)), Some(d)) && SameMeaning(Some(d), Some(d))
  {}

  /** The row stored for an event type is the row last declared for it, up to the field of
      a `set`, where an update without a field keeps a field nothing reads. */
  lemma {:induction false} StoredRowIsLastDeclared(history: seq<RuleRow>, p: string, t: string, eventType: string)
    requires forall d :: d in history ==> IsValid(d)
    ensures SameMeaning(RowFor(FindAll(Stored(history), p, t), eventType), RowFor(FindAll(history, p, t), eventType))
  {
    if history != [] {
      var rest, d := history[..|history| - 1], history[|history| - 1];
      assert history == rest + [d] && d in history;
      StoredRowIsLastDeclared(rest, p, t, eventType);
      StoredOperationsAreValid(rest);
      RowForExtended(rest, d, p, t, eventType);
      RowForUpserted(Stored(rest), d, p, t, eventType);
      var before := RowFor(FindAll(Stored(rest), p, t), eventType);
      if before.Some? { UpdatedMeansDeclared(before.value, d); } else { UpdatedMeansDeclared(d, d); }
    }
  }

  /** Upsert means replace: after any history of valid upserts the stored rows fold every log
      exactly as the last rule declared for each event type does. */
  lemma UpsertMeansReplace(history: seq<RuleRow>, p: string, t: string, events: seq<Event>, initial: JsonObject)
    requires forall d :: d in history ==> IsValid(d)
    ensures Fold(events, TableFor(Stored(history), p, t), initial) == Fold(events, TableFor(history, p, t), initial)
  {
    var a, b := TableFor(Stored(history), p, t), TableFor(history, p, t);
    forall et ensures (et in a <==> et in b) && (et in a ==> SameEffect(a[et], b[et])) {
      StoredRowIsLastDeclared(history, p, t, et);
      TableIsLastRow(FindAll(Stored(history), p, t), et);
      TableIsLastRow(FindAll(history, p, t), et);
    }
    SameEffectsSameFold(events, a, b, initial);
  }
}
