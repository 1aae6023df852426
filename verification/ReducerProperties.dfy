/** What the fold promises about one field of the state. */
module ReducerProperties {
  import opened Values
  import opened Reducer

  /** Presence and value of one top-level field. */
  function FieldOf(state: JsonObject, f: string): Option<Json> {
    if f in state then Some(state[f]) else None
  }

  /** Applying a rule, case by case: `set` spreads an object payload over the state, `merge` over
      the object at its field, `append` puts any payload at the end of the list at its field.
      Anything that is not an object, or not a list, counts as an empty one; without a field,
      or with a payload that is no object where one is needed, nothing happens. */
  lemma ApplyRuleCases(state: JsonObject, rule: Rule, payload: Json)
    ensures rule.operation == Set ==>
              ApplyRule(state, rule, payload) == if payload.Obj? then state + payload.fields else state
    ensures rule.operation != Set && (rule.field.None? || rule.field.value == "") ==>
              ApplyRule(state, rule, payload) == state
    ensures rule.operation == Merge && rule.field.Some? && rule.field.value != "" ==>
              var f := rule.field.value;
              ApplyRule(state, rule, payload) ==
              if !payload.Obj? then state
              else state[f := Obj((if f in state && state[f].Obj? then state[f].fields else map[]) + payload.fields)]
    ensures rule.operation == Append && rule.field.Some? && rule.field.value != "" ==>
              var f := rule.field.value;
              ApplyRule(state, rule, payload) ==
              state[f := Arr((if f in state && state[f].Arr? then state[f].items else []) + [payload])]
  {}

  /** What a field counts as: a list only if it is one, an object only if it is one. */
  lemma FieldCountsAs(state: JsonObject, f: string, value: Json)
    ensures IsPlainObject(value) <==> value.Obj?
    ensures ListAt(state, f) == if f in state && state[f].Arr? then state[f].items else []
    ensures ObjectAt(state, f) == if f in state && state[f].Obj? then state[f].fields else map[]
  {}

  /** An event without a rule changes nothing; any other is under the last rule for its type. */
  lemma {:induction false} LastRuleApplies(rules: seq<Rule>, t: string)
    ensures var table := RulesByEventType(rules);
            && (t in table <==> exists i :: 0 <= i < |rules| && rules[i].eventType == t)
            && (t in table ==> exists i :: 0 <= i < |rules| && rules[i] == table[t] && rules[i].eventType == t
                                           && forall j :: i < j < |rules| ==> rules[j].eventType != t)
  {
    if rules != [] {
      var n := |rules| - 1;
      LastRuleApplies(rules[..n], t);
      if rules[n].eventType != t && t in RulesByEventType(rules) {
        var i :| 0 <= i < n && rules[..n][i] == RulesByEventType(rules[..n])[t] && rules[..n][i].eventType == t
                 && forall j :: i < j < n ==> rules[..n][j].eventType != t;
        assert forall j :: i < j < |rules| ==> rules[j].eventType != t by {
          forall j | i < j < |rules| ensures rules[j].eventType != t { if j < n { assert rules[j] == rules[..n][j]; } }
        }
        assert rules[i] == rules[..n][i];
      } else if rules[n].eventType == t {
        assert rules[n] == RulesByEventType(rules)[t];
      } else {
        forall i | 0 <= i < |rules| ensures rules[i].eventType != t {
          if i < n { assert rules[i] == rules[..n][i]; }
        }
      }
    }
  }

  /** Can applying `rule` to `payload` write field `f`? */
  predicate RuleTouches(rule: Rule, payload: Json, f: string) {
    match rule.operation
    case Set => IsPlainObject(payload) && f in payload.fields
    case Merge => HasField(rule) && rule.field.value == f && IsPlainObject(payload)
    case Append => HasField(rule) && rule.field.value == f
  }

  lemma RuleTouchesIff(rule: Rule, payload: Json, f: string)
    ensures RuleTouches(rule, payload, f) <==>
            || (rule.operation == Set && payload.Obj? && f in payload.fields)
            || (rule.operation == Merge && payload.Obj? && rule.field == Some(f) && f != "")
            || (rule.operation == Append && rule.field == Some(f) && f != "")
  {}

  predicate Touches(byType: map<string, Rule>, e: Event, f: string) {
    e.eventType in byType && RuleTouches(byType[e.eventType], e.payload, f)
  }

  /** The events that can write `f`, in log order. */
  function Slice(events: seq<Event>, byType: map<string, Rule>, f: string): seq<Event> {
    if events == [] then []
    else
      var e := events[|events| - 1];
      Slice(events[..|events| - 1], byType, f) + (if Touches(byType, e, f) then [e] else [])
  }

  /** A field after one event depends only on that field before it. */
  lemma EventIsLocal(s: JsonObject, t: JsonObject, byType: map<string, Rule>, e: Event, f: string)
    requires FieldOf(s, f) == FieldOf(t, f)
    ensures FieldOf(ApplyEvent(s, byType, e), f) == FieldOf(ApplyEvent(t, byType, e), f)
    ensures !Touches(byType, e, f) ==> FieldOf(ApplyEvent(s, byType, e), f) == FieldOf(s, f)
  {
    assert f in s <==> f in t;
    if f in s { assert s[f] == t[f]; }
  }

  /** Slicing: a field after the whole log is that field after the events that can write it. */
  lemma {:induction false} FieldDependsOnlyOnItsSlice(events: seq<Event>, byType: map<string, Rule>,
                                                      initial: JsonObject, f: string)
    ensures FieldOf(Fold(events, byType, initial), f) ==
            FieldOf(Fold(Slice(events, byType, f), byType, initial), f)
  {
    if events != [] {
      var n := |events| - 1;
      var rest := events[..n];
      FieldDependsOnlyOnItsSlice(rest, byType, initial, f);
      EventIsLocal(Fold(rest, byType, initial), Fold(Slice(rest, byType, f), byType, initial), byType, events[n], f);
      if Touches(byType, events[n], f) {
        assert (Slice(rest, byType, f) + [events[n]])[..|Slice(rest, byType, f)|] == Slice(rest, byType, f);
      } else {
        assert Slice(events, byType, f) == Slice(rest, byType, f);
      }
    }
  }

  function Payloads(events: seq<Event>): seq<Json> {
    if events == [] then [] else Payloads(events[..|events| - 1]) + [events[|events| - 1].payload]
  }

  /** Every event of the log that writes `f` does so through operation `op`. */
  predicate WrittenOnlyBy(events: seq<Event>, byType: map<string, Rule>, f: string, op: Operation) {
    forall i :: 0 <= i < |events| && Touches(byType, events[i], f) ==> byType[events[i].eventType].operation == op
  }

  lemma AppendAddsPayload(before: JsonObject, byType: map<string, Rule>, e: Event, f: string)
    requires Touches(byType, e, f) && byType[e.eventType].operation == Append
    ensures FieldOf(ApplyEvent(before, byType, e), f) == Some(Arr(ListAt(before, f) + [e.payload]))
  {}

  /** Lossless accumulation: an append-only field is the starting list followed by
      exactly the payloads of the events that append to it, in log order. */
  lemma {:induction false} AppendIsLossless(events: seq<Event>, byType: map<string, Rule>,
                                            initial: JsonObject, f: string)
    requires WrittenOnlyBy(events, byType, f, Append)
    ensures var slice := Slice(events, byType, f);
            FieldOf(Fold(events, byType, initial), f) ==
            if slice == [] then FieldOf(initial, f) else Some(Arr(ListAt(initial, f) + Payloads(slice)))
  {
    if events != [] {
      var n := |events| - 1;
      var rest, slice := events[..n], Slice(events[..n], byType, f);
      assert forall i :: 0 <= i < |rest| ==> rest[i] == events[i];
      AppendIsLossless(rest, byType, initial, f);
      var before := Fold(rest, byType, initial);
      if Touches(byType, events[n], f) {
        assert (slice + [events[n]])[..|slice|] == slice;
        assert Payloads(slice + [events[n]]) == Payloads(slice) + [events[n].payload];
        AppendAddsPayload(before, byType, events[n], f);
        assert ListAt(before, f) == ListAt(initial, f) + Payloads(slice);
        assert ListAt(initial, f) + Payloads(slice) + [events[n].payload]
            == ListAt(initial, f) + (Payloads(slice) + [events[n].payload]);
      } else {
        EventIsLocal(before, before, byType, events[n], f);
        assert slice + [] == slice;
      }
    }
  }

  /** The value of `key` in the last of these events whose payload holds it. */
  function LastValue(events: seq<Event>, key: string): Option<Json> {
    if events == [] then None
    else
      var p := events[|events| - 1].payload;
      if p.Obj? && key in p.fields then Some(p.fields[key]) else LastValue(events[..|events| - 1], key)
  }

  /** What stands under `key` once the events of `slice` have written over `base`. */
  function Merged(slice: seq<Event>, base: JsonObject, key: string): Option<Json> {
    if LastValue(slice, key).Some? then LastValue(slice, key) else FieldOf(base, key)
  }

  lemma MergeOverwritesKey(before: JsonObject, byType: map<string, Rule>, e: Event, f: string, key: string)
    requires Touches(byType, e, f) && byType[e.eventType].operation == Merge
    ensures var after := ApplyEvent(before, byType, e);
            && f in after && after[f].Obj?
            && FieldOf(after[f].fields, key) ==
               if key in e.payload.fields then Some(e.payload.fields[key]) else FieldOf(ObjectAt(before, f), key)
  {
    var after := ApplyEvent(before, byType, e);
    assert after[f] == Obj(ObjectAt(before, f) + e.payload.fields);
  }

  /** A merge-only field holds, key by key, the value from the last payload that has the
      key, and keys no payload has keep the value they started with. */
  lemma {:induction false} MergeKeepsLastValue(events: seq<Event>, byType: map<string, Rule>,
                                               initial: JsonObject, f: string, key: string)
    requires WrittenOnlyBy(events, byType, f, Merge)
    ensures var slice := Slice(events, byType, f);
            var after := Fold(events, byType, initial);
            if slice == [] then FieldOf(after, f) == FieldOf(initial, f)
            else
              && f in after && after[f].Obj?
              && FieldOf(after[f].fields, key) == Merged(slice, ObjectAt(initial, f), key)
  {
    if events != [] {
      var n := |events| - 1;
      var rest, slice := events[..n], Slice(events[..n], byType, f);
      assert forall i :: 0 <= i < |rest| ==> rest[i] == events[i];
      MergeKeepsLastValue(rest, byType, initial, f, key);
      var before := Fold(rest, byType, initial);
      if Touches(byType, events[n], f) {
        MergeOverwritesKey(before, byType, events[n], f, key);
        var longer := slice + [events[n]];
        assert longer[..|longer| - 1] == slice;
        assert FieldOf(ObjectAt(before, f), key) == Merged(slice, ObjectAt(initial, f), key) by {
          if slice == [] { assert ObjectAt(before, f) == ObjectAt(initial, f); }
        }
      } else {
        EventIsLocal(before, before, byType, events[n], f);
        assert slice + [] == slice;
      }
    }
  }

  lemma SetOverwritesField(before: JsonObject, byType: map<string, Rule>, e: Event, f: string)
    requires Touches(byType, e, f) && byType[e.eventType].operation == Set
    ensures FieldOf(ApplyEvent(before, byType, e), f) == Some(e.payload.fields[f])
  {}

  /** A field only `set` writes holds the value from the last payload that has it, or what it
      started with. */
  lemma {:induction false} SetKeepsLastValue(events: seq<Event>, byType: map<string, Rule>, initial: JsonObject,
                                             f: string)
    requires WrittenOnlyBy(events, byType, f, Set)
    ensures FieldOf(Fold(events, byType, initial), f) == Merged(Slice(events, byType, f), initial, f)
  {
    if events != [] {
      var n := |events| - 1;
      var rest, slice := events[..n], Slice(events[..n], byType, f);
      assert forall i :: 0 <= i < |rest| ==> rest[i] == events[i];
      SetKeepsLastValue(rest, byType, initial, f);
      var before := Fold(rest, byType, initial);
      if Touches(byType, events[n], f) {
        SetOverwritesField(before, byType, events[n], f);
        assert Slice(events, byType, f) == slice + [events[n]];
      } else {
        EventIsLocal(before, before, byType, events[n], f);
        assert slice + [] == slice;
      }
    }
  }
}
