/** The tables, as the repositories change them. */
module Databases {
  import opened Values
  import opened EventReducers
  import opened Tables
  import opened Consistency

  datatype Error =
    | NotFound
    | UniqueViolation
    | DatabaseError(message: string)

  class Database {
    var aggregates: seq<Aggregate>
    var events: seq<Event>
    var snapshots: seq<Snapshot>
    var rules: seq<RuleRow>

    /** Every version of the rule table, the current one last. */
    ghost var versions: seq<seq<RuleRow>>

    ghost predicate Valid()
      reads this
    {
      versions != [] && versions[|versions| - 1] == rules
    }

    ghost function Now(): View
      reads this
    {
      View(aggregates, events, versions)
    }

    /** Empty tables, under rules declared up front. */
    constructor (rules: seq<RuleRow>)
      ensures Valid() && aggregates == [] && events == [] && snapshots == []
      ensures this.rules == rules && versions == [rules]
    {
      this.rules := rules;
      aggregates, events, snapshots := [], [], [];
      versions := [rules];
    }

    /** Create the rule, or replace the rule with its key. */
    method UpsertRule(declared: RuleRow)
      requires Valid() && IsValid(declared)
      modifies this`rules, this`versions
      ensures Valid() && rules == Upsert(old(rules), declared)
      ensures versions == old(versions) + [rules]
    {
      rules := Upsert(rules, declared);
      versions := versions + [rules];
    }

    /** The rules of one aggregate type. The query names no order, so neither does the contract. */
    method FindAllForAggregateType(projectId: string, aggregateType: string) returns (rows: seq<RuleRow>)
      ensures multiset(rows) == multiset(FindAll(rules, projectId, aggregateType))
    {
      rows := FindAll(rules, projectId, aggregateType);
    }

    /** Insert a snapshot row under the table's two constraints: the unique one is checked as the
        row goes in, the foreign key after that. */
    method CreateSnapshotRow(row: Snapshot) returns (r: Result<Snapshot, Error>)
      modifies this`snapshots
      ensures r == if HasSnapshotAt(old(snapshots), row.aggregateId, row.sequenceNumber) then Failure(UniqueViolation)
                   else if FindForProject(aggregates, row.aggregateId, row.projectId).None?
                     then Failure(DatabaseError("foreign key"))
                   else Success(row)
      ensures snapshots == if r.Success? then old(snapshots) + [row] else old(snapshots)
    {
      if HasSnapshotAt(snapshots, row.aggregateId, row.sequenceNumber) {
        return Failure(UniqueViolation);
      }
      if FindForProject(aggregates, row.aggregateId, row.projectId).None? {
        return Failure(DatabaseError("foreign key"));
      }
      snapshots := snapshots + [row];
      return Success(row);
    }
  }
}
