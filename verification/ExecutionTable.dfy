/**
 The `executions` and `executions_output` tables (internal/store) as values, and the order in which
 ClaimNextExecution takes pending rows.
 */
module ExecutionTable {
  import opened Basics

  // A row id, represented by its rank in the database's ordering of the id column.
  type Id = int

  datatype Status = Pending | Running | Succeeded | Failed

  datatype Row = Row(createdAt: int, status: Status, completedAt: Option<int>)

  datatype Output = Output(message: string, resources: seq<string>)

  datatype OutputRow = OutputRow(execId: Id, output: Output)

  // What a Runner reports for one execution (internal/worker/pool.go, RunResult).
  datatype RunResult = RunResult(status: Status, output: Option<Output>)

  predicate Terminal(s: Status) { s.Succeeded? || s.Failed? }

  // What the executor-backed runner always returns: a terminal status, with an output exactly on success.
  predicate WellFormed(r: RunResult) {
    Terminal(r.status) && (r.status.Succeeded? <==> r.output.Some?)
  }

  // ORDER BY created_at ASC, id ASC.
  predicate Older(rows: map<Id, Row>, a: Id, b: Id)
    requires a in rows && b in rows
  {
    rows[a].createdAt < rows[b].createdAt || (rows[a].createdAt == rows[b].createdAt && a < b)
  }

  predicate IsPending(rows: map<Id, Row>, id: Id) {
    id in rows && rows[id].status.Pending?
  }

  predicate IsRunning(rows: map<Id, Row>, id: Id) {
    id in rows && rows[id].status.Running?
  }

  function PendingIds(rows: map<Id, Row>): set<Id> {
    set id | id in rows && IsPending(rows, id)
  }

  function RunningIds(rows: map<Id, Row>): set<Id> {
    set id | id in rows && IsRunning(rows, id)
  }

  // ORDER BY ... LIMIT 1 over `candidates`: no row when there is none, else the unique oldest.
  predicate IsFirst(rows: map<Id, Row>, candidates: set<Id>, choice: Option<Id>) {
    if choice.None? then candidates == {}
    else choice.value in candidates && candidates <= rows.Keys
         && forall c | c in candidates && c != choice.value :: Older(rows, choice.value, c)
  }

  // The scan behind ORDER BY created_at ASC, id ASC LIMIT 1.
  method SelectFirst(rows: map<Id, Row>, candidates: set<Id>) returns (choice: Option<Id>)
    requires candidates <= rows.Keys
    ensures IsFirst(rows, candidates, choice)
  {
    choice := None;
    var rest := candidates;
    ghost var seen: set<Id> := {};
    while rest != {}
      invariant rest + seen == candidates
      invariant IsFirst(rows, seen, choice)
      decreases |rest|
    {
      // a witness for the choice below
      ghost var member := AnyMember(rest);
      var c :| c in rest;
      if choice.None? || Older(rows, c, choice.value) {
        choice := Some(c);
      }
      rest, seen := rest - {c}, seen + {c};
    }
    assert seen == candidates;
  }

  // DELETE FROM executions_output WHERE exec_id = ?
  function WithoutOutput(outputs: seq<OutputRow>, id: Id): seq<OutputRow> {
    if outputs == [] then []
    else if outputs[0].execId == id then WithoutOutput(outputs[1..], id)
    else [outputs[0]] + WithoutOutput(outputs[1..], id)
  }

  function CountOutput(outputs: seq<OutputRow>, id: Id): nat {
    if outputs == [] then 0
    else (if outputs[0].execId == id then 1 else 0) + CountOutput(outputs[1..], id)
  }

  // The output table after the DELETE and, if there is an output, the INSERT.
  function ReplaceOutput(outputs: seq<OutputRow>, id: Id, output: Option<Output>): seq<OutputRow> {
    WithoutOutput(outputs, id) + if output.Some? then [OutputRow(id, output.value)] else []
  }

  lemma {:induction false} CountReplaced(outputs: seq<OutputRow>, id: Id, output: Option<Output>, other: Id)
    ensures CountOutput(ReplaceOutput(outputs, id, output), other)
         == if other != id then CountOutput(outputs, other) else if output.Some? then 1 else 0
  {
    if outputs == [] {
    } else {
      CountReplaced(outputs[1..], id, output, other);
      var rest := ReplaceOutput(outputs[1..], id, output);
      if outputs[0].execId != id {
        assert ReplaceOutput(outputs, id, output) == [outputs[0]] + rest;
      } else {
        assert ReplaceOutput(outputs, id, output) == rest;
      }
    }
  }
}
