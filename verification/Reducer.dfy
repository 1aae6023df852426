/** The declarative fold of an event log into a state object. */
module Reducer {
  import opened Values

  datatype Operation = Set | Merge | Append

  datatype Rule = Rule(eventType: string, operation: Operation, field: Option<string>)

  predicate IsPlainObject(value: Json) {
    value.Obj?
  }

  /** A missing field and an empty one are both ignored. */
  predicate HasField(rule: Rule) {
    rule.field.Some? && rule.field.value != ""
  }

  function ApplyRule(state: JsonObject, rule: Rule, payload: Json): JsonObject {
    match rule.operation
    case Set =>
      if !IsPlainObject(payload) then state else state + payload.fields
    case Merge =>
      if !HasField(rule) || !IsPlainObject(payload) then state
      else
        var f := rule.field.value;
        state[f := Obj(ObjectAt(state, f) + payload.fields)]
    case Append =>
      if !HasField(rule) then state
      else
        var f := rule.field.value;
        state[f := Arr(ListAt(state, f) + [payload])]
  }

  /** The object at a field, or an empty one when the field holds anything else. */
  function ObjectAt(state: JsonObject, f: string): JsonObject {
    if f in state && IsPlainObject(state[f]) then state[f].fields else EMPTY
  }

  /** The list at a field, or an empty one when the field holds anything else. */
  function ListAt(state: JsonObject, f: string): seq<Json> {
    if f in state && state[f].Arr? then state[f].items else []
  }

  /** The rule table keyed by event type; of two rows with one event type the later wins. */
  function RulesByEventType(rules: seq<Rule>): map<string, Rule> {
    if rules == [] then map[]
    else
      var last := rules[|rules| - 1];
      RulesByEventType(rules[..|rules| - 1])[last.eventType := last]
  }

  function ApplyEvent(state: JsonObject, byType: map<string, Rule>, event: Event): JsonObject {
    if event.eventType in byType then ApplyRule(state, byType[event.eventType], event.payload) else state
  }

  /** The plain fold: the meaning of a log under a rule table, from a starting state. */
  function Fold(events: seq<Event>, byType: map<string, Rule>, initial: JsonObject): JsonObject {
    if events == [] then initial
    else ApplyEvent(Fold(events[..|events| - 1], byType, initial), byType, events[|events| - 1])
  }

  /** The source's loop computes the plain fold. */
  method ReduceEvents(events: seq<Event>, rules: seq<Rule>, initialState: JsonObject := EMPTY)
    returns (state: JsonObject)
    ensures state == Fold(events, RulesByEventType(rules), initialState)
  {
    var rulesByEventType := RulesByEventType(rules);
    state := initialState;
    for i := 0 to |events|
      invariant state == Fold(events[..i], rulesByEventType, initialState)
    {
      assert events[..i + 1][..i] == events[..i];
      var event := events[i];
      if event.eventType !in rulesByEventType {
        continue;
      }
      state := ApplyRule(state, rulesByEventType[event.eventType], event.payload);
    }
    assert events[..|events|] == events;
  }

  /** Resuming: a fold can be cut anywhere and continued from the state at the cut. */
  lemma {:induction false} FoldResumes(a: seq<Event>, b: seq<Event>, byType: map<string, Rule>, initial: JsonObject)
    ensures Fold(a + b, byType, initial) == Fold(b, byType, Fold(a, byType, initial))
  {
    if b == [] {
      assert a + b == a;
    } else {
      var n := |b| - 1;
      FoldResumes(a, b[..n], byType, initial);
      assert (a + b)[..|a + b| - 1] == a + b[..n];
    }
  }

  /** The same fact for a log and two cut points. */
  lemma FoldSplits(log: seq<Event>, k: nat, j: nat, byType: map<string, Rule>)
    requires k <= j <= |log|
    ensures Fold(log[..j], byType, EMPTY) == Fold(log[k..j], byType, Fold(log[..k], byType, EMPTY))
  {
    FoldResumes(log[..k], log[k..j], byType, EMPTY);
    assert log[..j] == log[..k] + log[k..j];
  }
}
