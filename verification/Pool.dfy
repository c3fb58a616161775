/**
 The pool as the object the source has: fields updated in place, one method for each section of
 internal/worker/pool.go and of the store's claim and update that other goroutines see as one step. Every method
 is proved to be an event of PoolModel, and a pool keeps the run it has made: whatever calls are made in whatever
 order, Valid says that they are a run of PoolModel that ended in the current fields, so that what holds for all
 runs holds for the pool.
 */
module Pool {
  import opened Basics
  import opened ExecutionTable
  import opened PoolModel
  import opened PoolSafety
  import PoolTheorems

  // DELETE FROM executions_output WHERE exec_id = ?, then INSERT when the runner produced an output.
  method RewriteOutput(outputs: seq<OutputRow>, id: Id, output: Option<Output>) returns (rewritten: seq<OutputRow>)
    ensures rewritten == ReplaceOutput(outputs, id, output)
  {
    rewritten := if output.Some? then [OutputRow(id, output.value)] else [];
    var i := |outputs|;
    while i > 0
      invariant 0 <= i <= |outputs|
      invariant rewritten == ReplaceOutput(outputs[i..], id, output)
    {
      i := i - 1;
      assert outputs[i..][1..] == outputs[i + 1..];
      if outputs[i].execId != id {
        rewritten := [outputs[i]] + rewritten;
      }
    }
    assert outputs[0..] == outputs;
  }

  // Some receiver blocked on the channel, if there is one.
  method FindParked(pc: seq<Pc>) returns (w: Option<nat>)
    ensures w.None? <==> !AnyParked(pc)
    ensures w.Some? ==> w.value < |pc| && pc[w.value].Parked?
  {
    w := None;
    var i := 0;
    while i < |pc|
      invariant 0 <= i <= |pc|
      invariant w.None? ==> forall j :: 0 <= j < i ==> !pc[j].Parked?
      invariant w.Some? ==> w.value < |pc| && pc[w.value].Parked?
    {
      if pc[i].Parked? {
        w := Some(i);
      }
      i := i + 1;
    }
  }

  lemma RunExtends(states: seq<State>, events: seq<Event>, e: Event)
    requires IsRun(states, events) && Enabled(states[|events|], e)
    ensures IsRun(states + [Next(states[|events|], e)], events + [e])
  {
    var states', events' := states + [Next(states[|events|], e)], events + [e];
    forall i | 0 <= i < |events'|
      ensures Enabled(states'[i], events'[i]) && states'[i + 1] == Next(states'[i], events'[i])
    {
      if i < |events| {
        assert Enabled(states[i], events[i]) && states[i + 1] == Next(states[i], events[i]);
      }
    }
  }

  class WorkerPool {
    const backend: Backend
    var rows: map<Id, Row>
    var outputs: seq<OutputRow>
    var notify: bool
    var cancelled: bool
    var pc: seq<Pc>
    ghost var unsignalled: set<Id>
    ghost var silent: set<Id>
    ghost var started: seq<Id>
    ghost var lost: set<Id>
    ghost var missed: bool
    ghost var states: seq<State>
    ghost var events: seq<Event>

    ghost function St(): State
      reads this
    {
      State(backend, rows, outputs, notify, cancelled, pc, unsignalled, silent, started, lost, missed)
    }

    ghost predicate Valid()
      reads this
    {
      IsRun(states, events) && states[|events|] == St()
    }

    // What a method does: one enabled event, which it adds to the run.
    twostate predicate Did(e: Event)
      reads this
    {
      && Valid() && events == old(events) + [e] && states == old(states) + [St()]
      && Enabled(old(St()), e) && St() == Next(old(St()), e)
    }

    // Keeps the run, once the fields have been updated for an event.
    ghost method Record(e: Event)
      requires IsRun(states, events) && Enabled(states[|events|], e) && St() == Next(states[|events|], e)
      modifies this`states, this`events
      ensures Valid() && events == old(events) + [e] && states == old(states) + [St()] && St() == old(St())
    {
      RunExtends(states, events, e);
      states, events := states + [St()], events + [e];
    }

    // New and Start over an existing table; `history` is what earlier processes ran.
    constructor (backend: Backend, rows: map<Id, Row>, outputs: seq<OutputRow>, concurrency: int, ghost history: seq<Id>)
      requires TableConsistent(rows, outputs) && HistoryConsistent(rows, history)
      ensures Valid() && events == [] && Init(St()) && this.backend == backend && this.rows == rows && this.outputs == outputs
      ensures |pc| == if concurrency < 1 then 1 else concurrency
    {
      this.backend, this.rows, this.outputs := backend, rows, outputs;
      notify, cancelled := false, false;
      var n := if concurrency < 1 then 1 else concurrency;
      pc := seq(n, _ => Top);
      unsignalled, silent, started, missed := {}, {}, history, false;
      lost := RunningIds(rows);
      events := [];
      new;
      states := [St()];
    }

    // What a worker holds is a row of the table; an open claim is one of Postgres.
    lemma HeldIsThere(w: nat)
      requires Valid() && w < |pc| && Held(pc[w]).Some?
      ensures Held(pc[w]).value in rows
      ensures pc[w].Updated? ==> backend.Postgres?
    {
      InvAlways(states, events, |events|);
      HeldStatus(St(), w);
    }

    // In a pool, after any calls: executions are handed out once, no two workers own one, and the tables agree.
    lemma Exclusive()
      requires Valid()
      ensures PoolModel.Distinct(started) && TableConsistent(rows, outputs)
      ensures forall v, w, id :: 0 <= v < w < |pc| && Owns(pc[v], id) ==> !Owns(pc[w], id)
    {
      PoolTheorems.RunAtMostOnce(states, events, |events|);
    }

    // And notified work is never left with every worker asleep and nothing in the channel, short of a failed claim.
    lemma NothingStranded(id: Id)
      requires Valid() && !cancelled && !missed && IsPending(rows, id) && id !in unsignalled
      ensures notify || exists w :: 0 <= w < |pc| && !pc[w].Parked?
    {
      PoolTheorems.NoLostWakeup(states, events, |events|, id);
    }

    // The insert of the handler's CreateExecution; the id is a new UUID and the primary key.
    method CreateExecution(id: Id, createdAt: int)
      requires id !in rows
      requires Valid()
      modifies this
      ensures Did(Insert(id, createdAt))
    {
      rows := rows[id := Row(createdAt, Pending, None)];
      unsignalled := unsignalled + {id};
      Record(Insert(id, createdAt));
    }

    // The insert took effect although CreateExecution returned an error: the handler answers 500 and does not notify.
    ghost method FailCreate(id: Id)
      requires id in unsignalled && id !in silent
      requires Valid()
      modifies this
      ensures Did(CreatorFails(id))
    {
      silent := silent + {id};
      Record(CreatorFails(id));
    }

    // The non-blocking send on the notify channel, on behalf of the creator of `id`.
    method Notify(ghost id: Id) returns (ghost to: Option<nat>)
      requires id in unsignalled && id !in silent
      requires Valid()
      modifies this
      ensures Did(PoolModel.Notify(id, to))
    {
      var receiver := FindParked(pc);
      if receiver.Some? {
        pc := pc[receiver.value := Top];
        missed := false;
      } else {
        notify := true;
      }
      unsignalled := unsignalled - {id};
      to := receiver;
      Record(PoolModel.Notify(id, to));
    }

    method Shutdown()
      requires Valid()
      modifies this
      ensures Did(Cancel)
    {
      cancelled := true;
      Record(Cancel);
    }

    method LoopTop(w: nat)
      requires w < |pc| && pc[w].Top?
      requires Valid()
      modifies this
      ensures Did(CheckCtx(w))
    {
      if cancelled {
        pc := pc[w := Exited];
      } else {
        pc := pc[w := Claiming];
      }
      Record(CheckCtx(w));
    }

    // SQLiteStore.ClaimNextExecution.
    method ClaimNextExecution(w: nat) returns (claimed: Option<Id>)
      requires w < |pc| && pc[w].Claiming? && backend.Sqlite?
      requires Valid()
      modifies this
      ensures Did(SqliteClaim(w, claimed))
    {
      claimed := SelectFirst(rows, PendingIds(rows));
      if claimed.Some? {
        rows := rows[claimed.value := rows[claimed.value].(status := Running)];
        pc := pc[w := Claimed(claimed.value)];
      } else {
        pc := pc[w := AtSelect];
      }
      Record(SqliteClaim(w, claimed));
    }

    // PostgresStore.ClaimNextExecution: the snapshot of its SELECT ...
    method BeginClaim(w: nat)
      requires w < |pc| && pc[w].Claiming? && backend.Postgres?
      requires Valid()
      modifies this
      ensures Did(ClaimBegin(w))
    {
      pc := pc[w := Scanning(PendingIds(rows))];
      Record(ClaimBegin(w));
    }

    // ... FOR UPDATE SKIP LOCKED ...
    method LockNext(w: nat) returns (locked: Option<Id>)
      requires w < |pc| && pc[w].Scanning?
      requires Valid()
      modifies this
      ensures Did(ClaimSelect(w, locked))
    {
      var candidates := set id | id in pc[w].visible && IsPending(rows, id) && !IsLocked(pc, id);
      locked := SelectFirst(rows, candidates);
      pc := pc[w := if locked.Some? then Locked(locked.value) else AtSelect];
      Record(ClaimSelect(w, locked));
    }

    // ... the UPDATE inside the transaction ...
    method UpdateClaimed(w: nat)
      requires w < |pc| && pc[w].Locked?
      requires Valid()
      modifies this
      ensures Did(ClaimUpdate(w))
    {
      pc := pc[w := Updated(pc[w].id)];
      Record(ClaimUpdate(w));
    }

    // ... and its commit.
    method CommitClaim(w: nat)
      requires w < |pc| && pc[w].Updated?
      requires Valid()
      modifies this
      ensures Did(ClaimCommit(w))
    {
      HeldIsThere(w);
      var id := pc[w].id;
      rows := rows[id := rows[id].(status := Running)];
      pc := pc[w := Claimed(id)];
      Record(ClaimCommit(w));
    }

    // The deferred rollback and the error branches of workerLoop.
    method FailClaim(w: nat)
      requires w < |pc| && (pc[w].Claiming? || pc[w].Scanning? || pc[w].Locked? || pc[w].Updated?)
      requires Valid()
      modifies this
      ensures Did(ClaimError(w))
    {
      pc := pc[w := if cancelled then Exited else AtSelect];
      missed := true;
      Record(ClaimError(w));
    }

    // Its commit took effect although the claim returned an error.
    method LoseClaim(w: nat)
      requires w < |pc| && pc[w].Updated? && Valid()
      modifies this
      ensures Did(ClaimLost(w, old(pc[w].id)))
    {
      HeldIsThere(w);
      var id := pc[w].id;
      rows := rows[id := rows[id].(status := Running)];
      pc := pc[w := if cancelled then Exited else AtSelect];
      lost, missed := lost + {id}, true;
      Record(ClaimLost(w, id));
    }

    // process: hand the execution to the runner ...
    method StartRun(w: nat)
      requires w < |pc| && pc[w].Claimed?
      requires Valid()
      modifies this
      ensures Did(Start(w))
    {
      started := started + [pc[w].id];
      pc := pc[w := Executing(pc[w].id)];
      Record(Start(w));
    }

    method FinishRun(w: nat, result: RunResult)
      requires w < |pc| && pc[w].Executing? && WellFormed(result)
      requires Valid()
      modifies this
      ensures Did(Finish(w, result))
    {
      pc := pc[w := Persisting(pc[w].id, result)];
      Record(Finish(w, result));
    }

    // ... and UpdateExecutionWithResult, on a context that shutdown does not cancel.
    method UpdateExecutionWithResult(w: nat, now: int)
      requires w < |pc| && pc[w].Persisting?
      requires Valid()
      modifies this
      ensures Did(Persist(w, now))
    {
      HeldIsThere(w);
      var id, result := pc[w].id, pc[w].result;
      rows := rows[id := rows[id].(status := result.status, completedAt := Some(now))];
      outputs := RewriteOutput(outputs, id, result.output);
      pc := pc[w := Top];
      missed := false;
      Record(Persist(w, now));
    }

    method FailUpdate(w: nat)
      requires w < |pc| && pc[w].Persisting?
      requires Valid()
      modifies this
      ensures Did(PersistError(w))
    {
      lost := lost + {pc[w].id};
      pc := pc[w := Top];
      missed := false;
      Record(PersistError(w));
    }

    // The select statement of workerLoop: one ready case, chosen freely, or none and the worker blocks.
    method Select(w: nat, tick: bool) returns (ghost e: Event)
      requires w < |pc| && pc[w].AtSelect?
      requires Valid()
      modifies this
      ensures Did(e) && WorkerOf(e) == Some(w)
      ensures e.Block? <==> !old(cancelled) && !old(notify) && !tick
    {
      if {
        case cancelled =>
          pc := pc[w := Exited];
          e := Receive(w, Done);
        case notify =>
          notify, missed := false, false;
          pc := pc[w := Top];
          e := Receive(w, Token);
        case tick =>
          missed := false;
          pc := pc[w := Top];
          e := Receive(w, Tick);
        case !cancelled && !notify && !tick =>
          pc := pc[w := Parked];
          e := Block(w);
      }
      Record(e);
    }

    // A blocked worker is woken by ctx or by its ticker.
    method Wake(w: nat)
      requires w < |pc| && pc[w].Parked?
      requires Valid()
      modifies this
      ensures Did(Receive(w, if old(cancelled) then Done else Tick))
    {
      if cancelled {
        pc := pc[w := Exited];
      } else {
        missed := false;
        pc := pc[w := Top];
      }
      Record(Receive(w, if cancelled then Done else Tick));
    }
  }
}
