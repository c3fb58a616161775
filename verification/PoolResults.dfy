/** What ends up in the two tables: over every run, the runner's own result for each execution, and nothing else. */
module PoolResults {
  import opened Basics
  import opened ExecutionTable
  import opened PoolModel
  import opened PoolSafety
  import opened PoolTheorems

  // The output rows of one execution, in table order.
  function OutputsOf(outputs: seq<OutputRow>, id: Id): seq<OutputRow> {
    if outputs == [] then []
    else (if outputs[0].execId == id then [outputs[0]] else []) + OutputsOf(outputs[1..], id)
  }

  lemma {:induction false} OutputsOfConcat(a: seq<OutputRow>, b: seq<OutputRow>, id: Id)
    ensures OutputsOf(a + b, id) == OutputsOf(a, id) + OutputsOf(b, id)
  {
    if a == [] {
      assert a + b == b;
    } else {
      assert (a + b)[1..] == a[1..] + b;
      OutputsOfConcat(a[1..], b, id);
    }
  }

  lemma {:induction false} OutputsOfWithout(outputs: seq<OutputRow>, id: Id, other: Id)
    ensures OutputsOf(WithoutOutput(outputs, id), other) == if other == id then [] else OutputsOf(outputs, other)
  {
    if outputs != [] {
      OutputsOfWithout(outputs[1..], id, other);
      if outputs[0].execId != id {
        var rest := WithoutOutput(outputs[1..], id);
        assert ([outputs[0]] + rest)[1..] == rest;
      }
    }
  }

  // DELETE then INSERT: the execution's output rows become the one given, or none; every other execution keeps its
  // own, contents and order.
  lemma OutputsReplaced(outputs: seq<OutputRow>, id: Id, output: Option<Output>, other: Id)
    ensures OutputsOf(ReplaceOutput(outputs, id, output), other)
         == if other != id then OutputsOf(outputs, other)
            else if output.Some? then [OutputRow(id, output.value)] else []
  {
    var inserted := if output.Some? then [OutputRow(id, output.value)] else [];
    OutputsOfWithout(outputs, id, other);
    OutputsOfConcat(WithoutOutput(outputs, id), inserted, other);
    if output.Some? {
      assert inserted[1..] == [];
    }
  }

  // ---------------------------------------------------------------- from the runner to the final update

  // At step f worker w's runner returned `result` for execution `id`, and up to state i the worker has done nothing else.
  ghost predicate Returned(states: seq<State>, events: seq<Event>, f: nat, i: nat, w: nat, id: Id, result: RunResult)
    requires i <= |events| < |states|
  {
    && f < i && events[f] == Finish(w, result) && w < |states[f].pc| && states[f].pc[w] == Executing(id)
    && forall k :: f < k <= i ==> w < |states[k].pc| && states[k].pc[w].Persisting?
  }

  // What a worker is about to persist is what its runner returned.
  lemma {:induction false} PersistingIsReturned(states: seq<State>, events: seq<Event>, i: nat, w: nat) returns (f: nat)
    requires IsRun(states, events) && i < |states| && w < |states[i].pc| && states[i].pc[w].Persisting?
    ensures f < i && Returned(states, events, f, i, w, states[i].pc[w].id, states[i].pc[w].result)
  {
    var s, e := states[i - 1], events[i - 1];
    assert Enabled(s, e) && states[i - 1 + 1] == Next(s, e);
    PcKept(s, e, w);
    if Mover(e) == Some(w) {
      f := i - 1;
    } else {
      f := PersistingIsReturned(states, events, i - 1, w);
    }
  }

  function StoredOutput(id: Id, result: RunResult): seq<OutputRow> {
    if result.output.Some? then [OutputRow(id, result.output.value)] else []
  }

  // Execution `id` ended as its own runner said: the runner returned at step f, its worker wrote the result at step p,
  // and status, completion time and output are those.
  ghost predicate EndedAs(states: seq<State>, events: seq<Event>, f: nat, p: nat, i: nat, id: Id)
    requires i <= |events| < |states|
  {
    && f < p < i && events[f].Finish? && events[p].Persist? && events[p].w == events[f].w
    && Returned(states, events, f, p, events[f].w, id, events[f].result)
    && id in states[i].rows
    && states[i].rows[id].status == events[f].result.status
    && states[i].rows[id].completedAt == Some(events[p].now)
    && OutputsOf(states[i].outputs, id) == StoredOutput(id, events[f].result)
  }

  predicate Ended(s: State, id: Id) {
    id in s.rows && Terminal(s.rows[id].status)
  }

  // A final update by execution `id`'s own worker writes all of that worker's result.
  lemma PersistWrites(s: State, e: Event)
    requires Inv(s) && Enabled(s, e) && e.Persist?
    ensures var id, result := s.pc[e.w].id, s.pc[e.w].result;
            && Next(s, e).rows[id] == s.rows[id].(status := result.status, completedAt := Some(e.now))
            && OutputsOf(Next(s, e).outputs, id) == StoredOutput(id, result)
  {
    OutputsReplaced(s.outputs, s.pc[e.w].id, s.pc[e.w].result.output, s.pc[e.w].id);
  }

  // Any other event leaves an ended execution alone, row and output.
  lemma EndedKept(s: State, e: Event, id: Id)
    requires Inv(s) && Enabled(s, e) && id in s.rows && !(e.Persist? && s.pc[e.w].id == id)
    ensures OutputsOf(Next(s, e).outputs, id) == OutputsOf(s.outputs, id)
    ensures id in Next(s, e).rows && (Ended(Next(s, e), id) || Ended(s, id) ==> Next(s, e).rows[id] == s.rows[id])
  {
    if e.Persist? {
      OutputsReplaced(s.outputs, s.pc[e.w].id, s.pc[e.w].result.output, id);
    }
    RowKept(s, e, id);
    if Touched(s, e) == Some(id) {
      TouchedRow(s, e);
    }
  }

  // It ended at step k itself.
  ghost predicate EndsAt(states: seq<State>, events: seq<Event>, f: nat, k: nat, id: Id)
    requires k < |events| < |states|
  {
    EndedAs(states, events, f, k, k + 1, id)
  }

  // The step from one state of a run to the next, as far as one ended execution is concerned.
  ghost predicate EndedStep(states: seq<State>, events: seq<Event>, k: nat, id: Id)
    requires k < |events| < |states|
  {
    Ended(states[k + 1], id) ==>
      || (&& Ended(states[k], id) && states[k + 1].rows[id] == states[k].rows[id]
          && OutputsOf(states[k + 1].outputs, id) == OutputsOf(states[k].outputs, id))
      || exists f :: EndsAt(states, events, f, k, id)
  }

  lemma EndedInRun(states: seq<State>, events: seq<Event>, k: nat, id: Id)
    requires IsRun(states, events) && k < |events|
    ensures EndedStep(states, events, k, id)
  {
    var s, e := states[k], events[k];
    InvAlways(states, events, k);
    assert Enabled(s, e) && states[k + 1] == Next(s, e);
    if e.Persist? && s.pc[e.w].id == id {
      var f := PersistingIsReturned(states, events, k, e.w);
      PersistWrites(s, e);
      assert EndsAt(states, events, f, k, id);
    } else if id in s.rows {
      EndedKept(s, e, id);
    }
  }

  lemma {:induction false} EndedTelescopes(states: seq<State>, events: seq<Event>, i: nat, id: Id)
    requires i <= |events| < |states| && Ended(states[i], id) && !Ended(states[0], id)
    requires forall k :: 0 <= k < i ==> EndedStep(states, events, k, id)
    ensures exists f, p :: EndedAs(states, events, f, p, i, id)
  {
    var k: nat := i - 1;
    assert EndedStep(states, events, k, id);
    if exists f :: EndsAt(states, events, f, k, id) {
      var f :| EndsAt(states, events, f, k, id);
      assert EndedAs(states, events, f, k, i, id);
    } else {
      EndedTelescopes(states, events, k, id);
      var f, p :| EndedAs(states, events, f, p, k, id);
      assert EndedAs(states, events, f, p, i, id);
    }
  }

  // In every state of every run, each execution that has ended since the start has in the tables exactly what its own
  // runner returned: that status, the time of its worker's final update, and that output as its one output row, or no
  // output row if there was none.
  lemma ResultsAreStored(states: seq<State>, events: seq<Event>, i: nat, id: Id)
    requires IsRun(states, events) && i < |states| && Ended(states[i], id) && !Ended(states[0], id)
    ensures exists f, p :: EndedAs(states, events, f, p, i, id)
  {
    forall k: nat | k < i
      ensures EndedStep(states, events, k, id)
    {
      EndedInRun(states, events, k, id);
    }
    EndedTelescopes(states, events, i, id);
  }

  // An execution that has ended keeps its output to the end of the run.
  lemma {:induction false} OutputStays(states: seq<State>, events: seq<Event>, i: nat, j: nat, id: Id)
    requires IsRun(states, events) && i <= j < |states| && Ended(states[i], id)
    ensures Ended(states[j], id) && OutputsOf(states[j].outputs, id) == OutputsOf(states[i].outputs, id)
    decreases j
  {
    StatusAdvances(states, events, i, j, id);
    if i < j {
      OutputStays(states, events, i, j - 1, id);
      OutputStep(states, events, j - 1, id);
    }
  }

  lemma OutputStep(states: seq<State>, events: seq<Event>, k: nat, id: Id)
    requires IsRun(states, events) && k < |events| && Ended(states[k], id)
    ensures OutputsOf(states[k + 1].outputs, id) == OutputsOf(states[k].outputs, id)
  {
    var s, e := states[k], events[k];
    InvAlways(states, events, k);
    assert Enabled(s, e) && states[k + 1] == Next(s, e);
    if e.Persist? {
      TouchedRow(s, e);
    }
    EndedKept(s, e, id);
  }

  // A row that was not there at the start was inserted in the run, with the creation time of its request.
  lemma {:induction false} CreatedByInsert(states: seq<State>, events: seq<Event>, i: nat, id: Id)
    requires IsRun(states, events) && i < |states| && id in states[i].rows && id !in states[0].rows
    ensures exists j :: 0 <= j < i && events[j] == Insert(id, states[i].rows[id].createdAt)
  {
    var s, e := states[i - 1], events[i - 1];
    assert Enabled(s, e) && states[i - 1 + 1] == Next(s, e);
    if id in s.rows {
      RowKept(s, e, id);
      CreatedByInsert(states, events, i - 1, id);
    }
  }
}
