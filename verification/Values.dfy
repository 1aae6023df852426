/** The rows and JSON values every other module talks about. */
module Values {

  datatype Option<+T> = None | Some(value: T)

  datatype Result<+T, +E> = Success(value: T) | Failure(error: E)

  /** A JSON value. Object key order is not observable, so an object is a map. */
  datatype Json =
    | Null
    | Bool(b: bool)
    | Num(n: real)
    | Str(s: string)
    | Arr(items: seq<Json>)
    | Obj(fields: map<string, Json>)

  type JsonObject = map<string, Json>

  const EMPTY: JsonObject := map[]

  /** A row of `aggregates`; `(projectId, aggregateType, aggregateKey)` is its natural key. */
  datatype Aggregate = Aggregate(id: string, projectId: string, aggregateType: string, aggregateKey: string)
  {
    predicate HasKey(project: string, atype: string, key: string) {
      projectId == project && aggregateType == atype && aggregateKey == key
    }
  }

  /** A row of `events`. */
  datatype Event = Event(aggregateId: string, sequenceNumber: nat, eventType: string, payload: Json)

  /** A row of `snapshots`. */
  datatype Snapshot = Snapshot(aggregateId: string, projectId: string, sequenceNumber: nat, state: JsonObject)

  /** A row of `event_reducers`; the database keeps the operation as text. */
  datatype RuleRow = RuleRow(projectId: string, aggregateType: string, eventType: string,
                             operation: string, field: Option<string>)

  function Min(a: nat, b: nat): nat {
    if a <= b then a else b
  }
}
