/**
 The worker pool of internal/worker/pool.go over one of the two stores, as a step machine.

 Every atomic section of every goroutine is one `Event`; the nondeterministic choices (which ready case a
 select takes, which parked worker a send reaches, which row a claim is given) are carried by the event, so
 `Next` is a function and a run is any interleaving. The Postgres claim is split into the snapshot its
 SELECT takes, the row lock, the UPDATE and the COMMIT; the SQLite claim, which owns the only connection, is one
 event.
 */
module PoolModel {
  import opened Basics
  import opened ExecutionTable

  datatype Backend = Sqlite | Postgres

  datatype Pc =
    | Top                                    // before `if ctx.Err() != nil`
    | Claiming                               // inside ClaimNextExecution, no snapshot yet
    | Scanning(visible: set<Id>)             // the SELECT's snapshot of pending rows is taken
    | Locked(id: Id)                         // FOR UPDATE SKIP LOCKED returned this row
    | Updated(id: Id)                        // UPDATE executed, not committed
    | Claimed(id: Id)                        // ClaimNextExecution returned this row
    | Executing(id: Id)                      // inside runner.Run
    | Persisting(id: Id, result: RunResult)  // inside UpdateExecutionWithResult
    | AtSelect                               // about to evaluate the select statement
    | Parked                                 // blocked in the select statement
    | Exited

  datatype State = State(
    backend: Backend,
    rows: map<Id, Row>,
    outputs: seq<OutputRow>,
    token: bool,            // the one-slot notify channel holds a value
    cancelled: bool,        // ctx is done
    pc: seq<Pc>,            // one entry per worker
    unsignalled: set<Id>,   // inserted, the creator has not called Notify
    silent: set<Id>,        // of these: inserted by a statement that returned an error, so the creator never will
    started: seq<Id>,       // history: every execution handed to the runner, in order
    lost: set<Id>,          // history: left running by a failed final update or an unacknowledged claim
    missed: bool            // history: a claim failed and no worker has been back at the loop top since
  )

  datatype Case = Done | Token | Tick

  datatype Event =
    | Insert(id: Id, createdAt: int)
    | CreatorFails(id: Id)
    | Notify(id: Id, to: Option<nat>)
    | Cancel
    | CheckCtx(w: nat)
    | SqliteClaim(w: nat, choice: Option<Id>)
    | ClaimBegin(w: nat)
    | ClaimSelect(w: nat, choice: Option<Id>)
    | ClaimUpdate(w: nat)
    | ClaimCommit(w: nat)
    | ClaimError(w: nat)
    | ClaimLost(w: nat, lostRow: Id)
    | Start(w: nat)
    | Finish(w: nat, result: RunResult)
    | Persist(w: nat, now: int)
    | PersistError(w: nat)
    | Receive(w: nat, via: Case)
    | Block(w: nat)

  predicate HoldsLock(p: Pc, id: Id) {
    (p.Locked? || p.Updated?) && p.id == id
  }

  predicate IsLocked(pc: seq<Pc>, id: Id) {
    exists w :: 0 <= w < |pc| && HoldsLock(pc[w], id)
  }

  // Rows FOR UPDATE SKIP LOCKED may return: seen by the snapshot, still pending, locked by nobody.
  function Eligible(s: State, visible: set<Id>): set<Id> {
    set id | id in visible && IsPending(s.rows, id) && !IsLocked(s.pc, id)
  }

  predicate AnyParked(pc: seq<Pc>) {
    exists w :: 0 <= w < |pc| && pc[w].Parked?
  }

  // The worker an event belongs to; creators and the shutdown signal have none.
  function WorkerOf(e: Event): Option<nat> {
    match e
    case Insert(_, _) => None
    case CreatorFails(_) => None
    case Notify(_, _) => None
    case Cancel => None
    case _ => Some(e.w)
  }

  predicate Enabled(s: State, e: Event) {
    (WorkerOf(e).Some? ==> WorkerOf(e).value < |s.pc|) &&
    match e
    case Insert(id, _) => id !in s.rows
    case CreatorFails(id) => id in s.unsignalled && id !in s.silent
    case Notify(id, to) =>
      id in s.unsignalled && id !in s.silent &&
      (match to
       case None => s.cancelled || !AnyParked(s.pc)
       case Some(w) => w < |s.pc| && s.pc[w].Parked?)
    case Cancel => true
    case CheckCtx(w) => s.pc[w].Top?
    case SqliteClaim(w, choice) =>
      s.backend.Sqlite? && s.pc[w].Claiming? && IsFirst(s.rows, PendingIds(s.rows), choice)
    case ClaimBegin(w) => s.backend.Postgres? && s.pc[w].Claiming?
    case ClaimSelect(w, choice) =>
      s.pc[w].Scanning? && IsFirst(s.rows, Eligible(s, s.pc[w].visible), choice)
    case ClaimUpdate(w) => s.pc[w].Locked?
    case ClaimCommit(w) => s.pc[w].Updated? && s.pc[w].id in s.rows
    case ClaimError(w) =>
      s.pc[w].Claiming? || s.pc[w].Scanning? || s.pc[w].Locked? || s.pc[w].Updated?
    case ClaimLost(w, id) =>
      if s.backend.Sqlite? then s.pc[w].Claiming? && IsFirst(s.rows, PendingIds(s.rows), Some(id))
      else s.pc[w] == Updated(id) && id in s.rows
    case Start(w) => s.pc[w].Claimed?
    case Finish(w, result) => s.pc[w].Executing? && WellFormed(result)
    case Persist(w, _) => s.pc[w].Persisting? && s.pc[w].id in s.rows
    case PersistError(w) => s.pc[w].Persisting?
    case Receive(w, via) =>
      (s.pc[w].AtSelect? || (s.pc[w].Parked? && !via.Token?)) &&
      (via.Done? ==> s.cancelled) && (via.Token? ==> s.token)
    case Block(w) => s.pc[w].AtSelect? && !s.cancelled && !s.token
  }

  // The worker whose program counter an event moves.
  function Mover(e: Event): Option<nat> {
    if e.Notify? then e.to else WorkerOf(e)
  }

  // Where that worker goes. A failed claim returns when ctx is done, and is logged before the select otherwise.
  function Moved(s: State, e: Event): Pc
    requires Enabled(s, e) && Mover(e).Some?
  {
    match e
    case Notify(_, _) => Top
    case CheckCtx(_) => if s.cancelled then Exited else Claiming
    case SqliteClaim(_, choice) => if choice.None? then AtSelect else Claimed(choice.value)
    case ClaimBegin(_) => Scanning(PendingIds(s.rows))
    case ClaimSelect(_, choice) => if choice.None? then AtSelect else Locked(choice.value)
    case ClaimUpdate(w) => Updated(s.pc[w].id)
    case ClaimCommit(w) => Claimed(s.pc[w].id)
    case ClaimError(_) => if s.cancelled then Exited else AtSelect
    case ClaimLost(_, _) => if s.cancelled then Exited else AtSelect
    case Start(w) => Executing(s.pc[w].id)
    case Finish(w, result) => Persisting(s.pc[w].id, result)
    case Persist(_, _) => Top
    case PersistError(_) => Top
    case Receive(_, via) => if via.Done? then Exited else Top
    case Block(_) => Parked
  }

  predicate ClaimFails(e: Event) { e.ClaimError? || e.ClaimLost? }

  // The row whose claim an event commits.
  function ClaimedRow(s: State, e: Event): Option<Id>
    requires Enabled(s, e)
  {
    if e.SqliteClaim? then e.choice
    else if e.ClaimLost? then Some(e.lostRow)
    else if e.ClaimCommit? then Some(s.pc[e.w].id)
    else None
  }

  // An uncommitted UPDATE is invisible, so rows change at commits only.
  function NextRows(s: State, e: Event): map<Id, Row>
    requires Enabled(s, e)
  {
    if e.Insert? then s.rows[e.id := Row(e.createdAt, Pending, None)]
    else if ClaimedRow(s, e).Some? then
      var id := ClaimedRow(s, e).value;
      s.rows[id := s.rows[id].(status := Running)]
    else if e.Persist? then
      var id := s.pc[e.w].id;
      s.rows[id := s.rows[id].(status := s.pc[e.w].result.status, completedAt := Some(e.now))]
    else s.rows
  }

  // A send is handed to a blocked receiver, else buffered, else dropped because the buffer is full.
  function NextToken(s: State, e: Event): bool
    requires Enabled(s, e)
  {
    if e.Notify? && e.to.None? then true
    else if e.Receive? && e.via.Token? then false
    else s.token
  }

  function NextLost(s: State, e: Event): set<Id>
    requires Enabled(s, e)
  {
    if e.ClaimLost? then s.lost + {e.lostRow}
    else if e.PersistError? then s.lost + {s.pc[e.w].id}
    else s.lost
  }

  // A worker back at the loop top will look at the table again, so nothing stays missed.
  function NextMissed(s: State, e: Event): bool
    requires Enabled(s, e)
  {
    ClaimFails(e) || (s.missed && !(Mover(e).Some? && Moved(s, e).Top?))
  }

  function Next(s: State, e: Event): State
    requires Enabled(s, e)
  {
    State(
      s.backend,
      NextRows(s, e),
      if e.Persist? then ReplaceOutput(s.outputs, s.pc[e.w].id, s.pc[e.w].result.output) else s.outputs,
      NextToken(s, e),
      s.cancelled || e.Cancel?,
      if Mover(e).Some? then s.pc[Mover(e).value := Moved(s, e)] else s.pc,
      if e.Insert? then s.unsignalled + {e.id} else if e.Notify? then s.unsignalled - {e.id} else s.unsignalled,
      if e.CreatorFails? then s.silent + {e.id} else s.silent,
      if e.Start? then s.started + [s.pc[e.w].id] else s.started,
      NextLost(s, e),
      NextMissed(s, e))
  }

  // completed_at is set exactly in terminal states, and the output table holds one row for a succeeded
  // execution and none for any other.
  ghost predicate TableConsistent(rows: map<Id, Row>, outputs: seq<OutputRow>) {
    (forall id :: id in rows ==> (rows[id].completedAt.Some? <==> Terminal(rows[id].status))) &&
    (forall id :: CountOutput(outputs, id) == if id in rows && rows[id].status.Succeeded? then 1 else 0)
  }

  ghost predicate Distinct(ids: seq<Id>) {
    forall i, j :: 0 <= i < j < |ids| ==> ids[i] != ids[j]
  }

  // Every execution handed to a runner is past pending, was handed over once, and nothing finished otherwise.
  ghost predicate HistoryConsistent(rows: map<Id, Row>, started: seq<Id>) {
    Distinct(started) &&
    (forall id :: id in started ==> id in rows && !rows[id].status.Pending?) &&
    (forall id :: id in rows && Terminal(rows[id].status) ==> id in started)
  }

  // A pool starting over any consistent table, such as the one an earlier process left: its rows still running
  // belong to nobody. New clamps the number of workers to at least one.
  ghost predicate Init(s: State) {
    |s.pc| >= 1 && (forall w :: 0 <= w < |s.pc| ==> s.pc[w].Top?)
    && !s.token && !s.cancelled && !s.missed && s.unsignalled == {} && s.silent == {}
    && TableConsistent(s.rows, s.outputs) && HistoryConsistent(s.rows, s.started)
    && (forall id :: id in s.lost <==> IsRunning(s.rows, id))
  }

  // A finite run: `states[0]` is initial and each event leads from one state to the next.
  ghost predicate IsRun(states: seq<State>, events: seq<Event>) {
    |states| == |events| + 1 && Init(states[0]) && IsPath(states, events)
  }

  ghost predicate IsPath(states: seq<State>, events: seq<Event>) {
    |states| == |events| + 1 &&
    forall i :: 0 <= i < |events| ==> Enabled(states[i], events[i]) && states[i + 1] == Next(states[i], events[i])
  }
}
