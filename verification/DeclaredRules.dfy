/** From the text of a declaration to the field of a state. */
module DeclaredRules {
  import opened Values
  import opened Reducer
  import opened ReducerProperties
  import opened EventReducers

  /** Request validation: a known operation, with a field unless it is `set`. */
  lemma ValidIff(d: RuleRow)
    ensures IsValid(d) <==>
            d.operation == "set"
            || ((d.operation == "merge" || d.operation == "append") && d.field.Some? && d.field.value != "")
  {}

  /** A stored row stands for one rule; a row with any other operation for none. */
  lemma RowMeans(row: RuleRow)
    ensures row.operation == "set" ==> RuleFrom(row) == [Rule(row.eventType, Set, row.field)]
    ensures row.operation == "merge" ==> RuleFrom(row) == [Rule(row.eventType, Merge, row.field)]
    ensures row.operation == "append" ==> RuleFrom(row) == [Rule(row.eventType, Append, row.field)]
    ensures row.operation != "set" && row.operation != "merge" && row.operation != "append" ==> RuleFrom(row) == []
  {}

  /** The declaration made last for this project, aggregate type and event type. */
  function LastDeclared(history: seq<RuleRow>, p: string, t: string, eventType: string): Option<RuleRow> {
    if history == [] then None
    else
      var last := history[|history| - 1];
      if last.projectId == p && last.aggregateType == t && last.eventType == eventType then Some(last)
      else LastDeclared(history[..|history| - 1], p, t, eventType)
  }

  lemma {:induction false} LastDeclaredIsLast(history: seq<RuleRow>, p: string, t: string, eventType: string)
    ensures var d := LastDeclared(history, p, t, eventType);
            if d.None? then NoneAfter(history, -1, p, t, eventType)
            else
              && d.value.projectId == p && d.value.aggregateType == t && d.value.eventType == eventType
              && exists i :: 0 <= i < |history| && history[i] == d.value && NoneAfter(history, i, p, t, eventType)
  {
    if history != [] {
      var n := |history| - 1;
      LastDeclaredIsLast(history[..n], p, t, eventType);
      var d := LastDeclared(history[..n], p, t, eventType);
      if history[n].projectId == p && history[n].aggregateType == t && history[n].eventType == eventType {
        assert NoneAfter(history, n, p, t, eventType);
      } else if d.Some? {
        var i :| 0 <= i < n && history[..n][i] == d.value && NoneAfter(history[..n], i, p, t, eventType);
        NoneAfterOneMore(history, i, p, t, eventType);
      } else {
        NoneAfterOneMore(history, -1, p, t, eventType);
      }
    }
  }

  /** No declaration after position i is for this project, aggregate type and event type. */
  predicate NoneAfter(history: seq<RuleRow>, i: int, p: string, t: string, eventType: string)
    requires i >= -1
  {
    forall j :: i < j < |history| ==>
      history[j].projectId != p || history[j].aggregateType != t || history[j].eventType != eventType
  }

  lemma NoneAfterOneMore(history: seq<RuleRow>, i: int, p: string, t: string, eventType: string)
    requires -1 <= i < |history| - 1 && NoneAfter(history[..|history| - 1], i, p, t, eventType)
    requires var last := history[|history| - 1];
             last.projectId != p || last.aggregateType != t || last.eventType != eventType
    ensures NoneAfter(history, i, p, t, eventType)
  {
    forall j | i < j < |history| - 1
      ensures history[j].projectId != p || history[j].aggregateType != t || history[j].eventType != eventType
    {
      assert history[j] == history[..|history| - 1][j];
    }
  }

  lemma {:induction false} RowForIsLastDeclared(history: seq<RuleRow>, p: string, t: string, eventType: string)
    requires forall d :: d in history ==> IsValid(d)
    ensures RowFor(FindAll(history, p, t), eventType) == LastDeclared(history, p, t, eventType)
  {
    if history != [] {
      var rest, last := history[..|history| - 1], history[|history| - 1];
      assert history == rest + [last] && last in history;
      RowForIsLastDeclared(rest, p, t, eventType);
      RowForExtended(rest, last, p, t, eventType);
    }
  }

  /** After any history of valid upserts the table has a rule for exactly the event types that
      were declared, and each is the one declared last, read word by word. */
  lemma TableIsAsDeclared(history: seq<RuleRow>, p: string, t: string, eventType: string)
    requires forall d :: d in history ==> IsValid(d)
    ensures var table, d := TableFor(Stored(history), p, t), LastDeclared(history, p, t, eventType);
            && (eventType in table <==> d.Some?)
            && (d.Some? && d.value.operation == "set" ==>
                table[eventType].eventType == eventType && table[eventType].operation == Set)
            && (d.Some? && d.value.operation == "merge" ==> table[eventType] == Rule(eventType, Merge, d.value.field))
            && (d.Some? && d.value.operation == "append" ==> table[eventType] == Rule(eventType, Append, d.value.field))
            && (d.Some? ==> d.value.operation == "set"
                            || ((d.value.operation == "merge" || d.value.operation == "append")
                                && d.value.field.Some? && d.value.field.value != ""))
  {
    var stored := FindAll(Stored(history), p, t);
    var d := LastDeclared(history, p, t, eventType);
    StoredRowIsLastDeclared(history, p, t, eventType);
    RowForIsLastDeclared(history, p, t, eventType);
    LastDeclaredIsLast(history, p, t, eventType);
    TableIsLastRow(stored, eventType);
    if d.Some? {
      ValidIff(d.value);
      RowForFinds(stored, eventType);
      RowMeans(RowFor(stored, eventType).value);
    }
  }

  /** What one event does to a state under the rules declared, read from their text. */
  lemma DeclaredEffect(history: seq<RuleRow>, p: string, t: string, state: JsonObject, e: Event)
    requires forall d :: d in history ==> IsValid(d)
    ensures var after, d := ApplyEvent(state, TableFor(Stored(history), p, t), e),
                LastDeclared(history, p, t, e.eventType);
            && (d.None? ==> after == state)
            && (d.Some? && d.value.operation == "set" ==>
                after == if e.payload.Obj? then state + e.payload.fields else state)
            && (d.Some? && d.value.operation == "merge" ==>
                && d.value.field.Some?
                && var f := d.value.field.value;
                   after == if !e.payload.Obj? then state
                            else state[f := Obj((if f in state && state[f].Obj? then state[f].fields else map[])
                                                + e.payload.fields)])
            && (d.Some? && d.value.operation == "append" ==>
                && d.value.field.Some?
                && var f := d.value.field.value;
                   after == state[f := Arr((if f in state && state[f].Arr? then state[f].items else []) + [e.payload])])
  {
    TableIsAsDeclared(history, p, t, e.eventType);
    var table := TableFor(Stored(history), p, t);
    if e.eventType in table { ApplyRuleCases(state, table[e.eventType], e.payload); }
  }

  // ---- Whole logs ----

  /** Does an event with this payload write field `f` under this declaration? */
  predicate Writes(d: Option<RuleRow>, payload: Json, f: string) {
    && d.Some?
    && (d.value.operation == "set" ==> payload.Obj? && f in payload.fields)
    && (d.value.operation == "merge" ==> payload.Obj? && d.value.field == Some(f))
    && (d.value.operation == "append" ==> d.value.field == Some(f))
  }

  /** The events that write `f`, in log order. */
  function DeclaredSlice(history: seq<RuleRow>, p: string, t: string, events: seq<Event>, f: string): seq<Event> {
    if events == [] then []
    else
      var e := events[|events| - 1];
      DeclaredSlice(history, p, t, events[..|events| - 1], f) +
      (if Writes(LastDeclared(history, p, t, e.eventType), e.payload, f) then [e] else [])
  }

  lemma TouchesAsDeclared(history: seq<RuleRow>, p: string, t: string, e: Event, f: string)
    requires forall d :: d in history ==> IsValid(d)
    ensures Touches(TableFor(Stored(history), p, t), e, f) <==>
            Writes(LastDeclared(history, p, t, e.eventType), e.payload, f)
  {
    TableIsAsDeclared(history, p, t, e.eventType);
  }

  lemma {:induction false} SliceAsDeclared(history: seq<RuleRow>, p: string, t: string, events: seq<Event>, f: string)
    requires forall d :: d in history ==> IsValid(d)
    ensures Slice(events, TableFor(Stored(history), p, t), f) == DeclaredSlice(history, p, t, events, f)
  {
    if events != [] {
      SliceAsDeclared(history, p, t, events[..|events| - 1], f);
      TouchesAsDeclared(history, p, t, events[|events| - 1], f);
    }
  }

  /** Every event that writes `f` was declared with this operation. */
  predicate DeclaredOnlyBy(history: seq<RuleRow>, p: string, t: string, events: seq<Event>, f: string,
                           operation: string) {
    forall i :: 0 <= i < |events| ==>
      var d := LastDeclared(history, p, t, events[i].eventType);
      Writes(d, events[i].payload, f) ==> d.value.operation == operation
  }

  lemma WrittenAsDeclared(history: seq<RuleRow>, p: string, t: string, events: seq<Event>, f: string,
                          operation: string, op: Operation)
    requires forall d :: d in history ==> IsValid(d)
    requires DeclaredOnlyBy(history, p, t, events, f, operation)
    requires || (operation == "set" && op == Set)
             || (operation == "merge" && op == Merge)
             || (operation == "append" && op == Append)
    ensures WrittenOnlyBy(events, TableFor(Stored(history), p, t), f, op)
  {
    var table := TableFor(Stored(history), p, t);
    forall i | 0 <= i < |events| && Touches(table, events[i], f) ensures table[events[i].eventType].operation == op {
      TouchesAsDeclared(history, p, t, events[i], f);
      TableIsAsDeclared(history, p, t, events[i].eventType);
    }
  }

  /** From the declared text to the field of the state. If all that write `f` were declared
      "append", the field is the list of exactly their payloads in log order; if "merge", it is
      an object that holds under each key the last payload value for it; if "set", the value of
      the last payload that has it. A field nothing writes is absent. */
  lemma DeclaredTextGivesField(history: seq<RuleRow>, p: string, t: string, events: seq<Event>, f: string,
                               operation: string)
    requires forall d :: d in history ==> IsValid(d)
    requires operation == "set" || operation == "merge" || operation == "append"
    requires DeclaredOnlyBy(history, p, t, events, f, operation)
    ensures var state, slice := Fold(events, TableFor(Stored(history), p, t), EMPTY),
                DeclaredSlice(history, p, t, events, f);
            && (slice == [] ==> f !in state)
            && (slice != [] && operation == "append" ==> f in state && state[f] == Arr(Payloads(slice)))
            && (slice != [] && operation == "merge" ==>
                f in state && state[f].Obj? && forall key :: FieldOf(state[f].fields, key) == LastValue(slice, key))
            && (slice != [] && operation == "set" ==> f in state && Some(state[f]) == LastValue(slice, f))
  {
    var table := TableFor(Stored(history), p, t);
    SliceAsDeclared(history, p, t, events, f);
    if operation == "append" {
      WrittenAsDeclared(history, p, t, events, f, operation, Append);
      AppendIsLossless(events, table, EMPTY, f);
      assert ListAt(EMPTY, f) + Payloads(Slice(events, table, f)) == Payloads(Slice(events, table, f));
    } else if operation == "merge" {
      WrittenAsDeclared(history, p, t, events, f, operation, Merge);
      forall key ensures var after := Fold(events, table, EMPTY);
        if Slice(events, table, f) == [] then f !in after
        else f in after && after[f].Obj? && FieldOf(after[f].fields, key) == LastValue(Slice(events, table, f), key)
      {
        MergeKeepsLastValue(events, table, EMPTY, f, key);
      }
      MergeKeepsLastValue(events, table, EMPTY, f, "");
    } else {
      WrittenAsDeclared(history, p, t, events, f, operation, Set);
      SetKeepsLastValue(events, table, EMPTY, f);
      SetSliceHasValue(history, p, t, events, f);
    }
  }

  lemma {:induction false} SetSliceHasValue(history: seq<RuleRow>, p: string, t: string, events: seq<Event>, f: string)
    requires DeclaredOnlyBy(history, p, t, events, f, "set")
    ensures var slice := DeclaredSlice(history, p, t, events, f);
            LastValue(slice, f).Some? <==> slice != []
  {
    if events != [] {
      var n := |events| - 1;
      assert forall i :: 0 <= i < n ==> events[..n][i] == events[i];
      SetSliceHasValue(history, p, t, events[..n], f);
      var slice, e := DeclaredSlice(history, p, t, events[..n], f), events[n];
      if Writes(LastDeclared(history, p, t, e.eventType), e.payload, f) {
        assert DeclaredSlice(history, p, t, events, f) == slice + [e];
        assert LastDeclared(history, p, t, e.eventType).value.operation == "set";
      } else {
        assert DeclaredSlice(history, p, t, events, f) == slice;
      }
    }
  }
}
