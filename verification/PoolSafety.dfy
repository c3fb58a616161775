/** What every event of the pool keeps, and what follows for every run. */
module PoolSafety {
  import opened Basics
  import opened ExecutionTable
  import opened PoolModel

  // The row a worker is claiming, has claimed, runs or persists.
  function Held(p: Pc): Option<Id> {
    match p
    case Locked(id) => Some(id)
    case Updated(id) => Some(id)
    case Claimed(id) => Some(id)
    case Executing(id) => Some(id)
    case Persisting(id, _) => Some(id)
    case _ => None
  }

  predicate Owns(p: Pc, id: Id) {
    Held(p) == Some(id) && !HoldsLock(p, id)
  }

  ghost predicate Ownership(s: State) {
    // an open claim holds a pending row
    (forall w, id :: 0 <= w < |s.pc| && HoldsLock(s.pc[w], id) ==> IsPending(s.rows, id)) &&
    // a claimed row is running and accounted for
    (forall w, id :: 0 <= w < |s.pc| && Owns(s.pc[w], id) ==> IsRunning(s.rows, id) && id !in s.lost) &&
    // no two workers hold the same row, claimed or being claimed
    (forall w, v :: 0 <= w < v < |s.pc| && Held(s.pc[w]).Some? ==> Held(s.pc[w]) != Held(s.pc[v])) &&
    // a running row has an owner or was lost
    (forall id :: IsRunning(s.rows, id) && id !in s.lost ==> exists w :: 0 <= w < |s.pc| && Owns(s.pc[w], id)) &&
    (forall id :: id in s.lost ==> IsRunning(s.rows, id))
  }

  predicate HandoverOf(s: State, w: nat)
    requires w < |s.pc|
  {
    (s.pc[w].Claimed? ==> s.pc[w].id !in s.started) &&
    (s.pc[w].Executing? || s.pc[w].Persisting? ==> s.pc[w].id in s.started) &&
    (s.pc[w].Persisting? ==> WellFormed(s.pc[w].result))
  }

  // Which executions the workers have handed to the runner so far.
  ghost predicate Handover(s: State) {
    forall w :: 0 <= w < |s.pc| ==> HandoverOf(s, w)
  }

  // Go never buffers a value while a receiver is blocked, and the SQLite claim has no visible sub-steps.
  ghost predicate Channel(s: State) {
    (!s.cancelled && s.token ==> !AnyParked(s.pc)) &&
    s.silent <= s.unsignalled <= s.rows.Keys &&
    (forall w :: 0 <= w < |s.pc| && s.pc[w].Exited? ==> s.cancelled) &&
    (forall w :: 0 <= w < |s.pc| && (s.pc[w].Scanning? || s.pc[w].Locked? || s.pc[w].Updated?) ==> s.backend.Postgres?)
  }

  // Worker `p` will, on its own, look at the table in a way that cannot miss row `id`.
  predicate Covers(p: Pc, id: Id) {
    match p
    case Scanning(visible) => id in visible
    case AtSelect => false
    case Parked => false
    case Exited => false
    case _ => true
  }

  ghost predicate Attended(s: State, id: Id) {
    s.token || exists w :: 0 <= w < |s.pc| && Covers(s.pc[w], id)
  }

  ghost predicate Wakeup(s: State) {
    !s.cancelled && !s.missed ==>
      forall id :: IsPending(s.rows, id) && id !in s.unsignalled ==> Attended(s, id)
  }

  ghost predicate Inv(s: State) {
    |s.pc| >= 1 && Ownership(s) && Handover(s) && Channel(s) && Wakeup(s)
    && TableConsistent(s.rows, s.outputs) && HistoryConsistent(s.rows, s.started)
  }

  // The existing row an event writes.
  function Touched(s: State, e: Event): Option<Id>
    requires Enabled(s, e)
  {
    if e.Persist? then Some(s.pc[e.w].id) else ClaimedRow(s, e)
  }

  lemma PcKept(s: State, e: Event, v: nat)
    requires Enabled(s, e) && v < |s.pc|
    ensures |Next(s, e).pc| == |s.pc|
    ensures Mover(e) != Some(v) ==> Next(s, e).pc[v] == s.pc[v]
  {
  }

  lemma RowKept(s: State, e: Event, id: Id)
    requires Enabled(s, e) && id in s.rows
    ensures id in Next(s, e).rows && Next(s, e).rows[id].createdAt == s.rows[id].createdAt
    ensures Touched(s, e) != Some(id) ==> Next(s, e).rows[id] == s.rows[id]
  {
  }

  lemma HeldStatus(s: State, v: nat)
    requires Inv(s) && v < |s.pc| && Held(s.pc[v]).Some?
    ensures var id := Held(s.pc[v]).value;
            || (HoldsLock(s.pc[v], id) && IsPending(s.rows, id) && s.backend.Postgres?)
            || (Owns(s.pc[v], id) && IsRunning(s.rows, id) && id !in s.lost)
  {
    var id := Held(s.pc[v]).value;
    assert HoldsLock(s.pc[v], id) || Owns(s.pc[v], id);
  }

  // The only writes to existing rows: a claim takes a pending row, the final update a row its worker owns.
  lemma TouchedRow(s: State, e: Event)
    requires Inv(s) && Enabled(s, e) && Touched(s, e).Some?
    ensures var id := Touched(s, e).value;
            if e.Persist? then Owns(s.pc[e.w], id) && IsRunning(s.rows, id) && id !in s.lost
                               && Next(s, e).rows[id].status == s.pc[e.w].result.status
            else IsPending(s.rows, id) && Next(s, e).rows[id] == s.rows[id].(status := Running)
  {
    if Held(s.pc[e.w]).Some? {
      HeldStatus(s, e.w);
    }
  }

  // No worker's row is written by anybody else.
  lemma TouchedApart(s: State, e: Event, v: nat)
    requires Inv(s) && Enabled(s, e) && v < |s.pc| && WorkerOf(e) != Some(v) && Held(s.pc[v]).Some?
    ensures Touched(s, e) != Held(s.pc[v])
  {
    HeldStatus(s, v);
    if Touched(s, e).Some? {
      TouchedRow(s, e);
      var w: nat := e.w;
      assert w < v || v < w;
      if Held(s.pc[w]).Some? {
        assert Held(s.pc[w]) != Held(s.pc[v]);
      }
    }
  }

  lemma LockKept(s: State, e: Event, w: nat, id: Id)
    requires Inv(s) && Enabled(s, e) && w < |s.pc| && HoldsLock(Next(s, e).pc[w], id)
    ensures IsPending(Next(s, e).rows, id)
  {
    PcKept(s, e, w);
    if Held(s.pc[w]).Some? {
      HeldStatus(s, w);
      RowKept(s, e, id);
      if WorkerOf(e) != Some(w) {
        TouchedApart(s, e, w);
      }
    }
  }

  lemma ClaimKept(s: State, e: Event, w: nat, id: Id)
    requires Inv(s) && Enabled(s, e) && w < |s.pc| && Owns(Next(s, e).pc[w], id)
    ensures IsRunning(Next(s, e).rows, id) && id !in Next(s, e).lost
  {
    PcKept(s, e, w);
    if Held(s.pc[w]).Some? {
      HeldStatus(s, w);
      if WorkerOf(e) != Some(w) {
        RowKept(s, e, id);
        TouchedApart(s, e, w);
        if e.PersistError? {
          assert Held(s.pc[e.w]).Some?;
          assert e.w < w || w < e.w;
        }
      }
    }
  }

  // A row newly taken was pending and unlocked, so no other worker holds it.
  lemma HeldApart(s: State, e: Event, w: nat, v: nat)
    requires Inv(s) && Enabled(s, e) && w < |s.pc| && v < |s.pc| && v != w && Mover(e) != Some(v)
    requires Held(Next(s, e).pc[w]).Some?
    ensures Held(Next(s, e).pc[w]) != Held(Next(s, e).pc[v])
  {
    PcKept(s, e, w);
    PcKept(s, e, v);
    var id := Held(Next(s, e).pc[w]).value;
    assert w < v || v < w;
    if Held(s.pc[v]).Some? {
      HeldStatus(s, v);
      assert HoldsLock(s.pc[v], Held(s.pc[v]).value) ==> IsLocked(s.pc, Held(s.pc[v]).value);
    }
  }

  lemma OwnerKept(s: State, e: Event, id: Id)
    requires Inv(s) && Enabled(s, e) && IsRunning(Next(s, e).rows, id) && id !in Next(s, e).lost
    ensures exists w :: 0 <= w < |Next(s, e).pc| && Owns(Next(s, e).pc[w], id)
  {
    var s' := Next(s, e);
    if IsRunning(s.rows, id) {
      var w :| 0 <= w < |s.pc| && Owns(s.pc[w], id);
      PcKept(s, e, w);
      if e.Persist? {
        TouchedRow(s, e);
        assert HandoverOf(s, e.w);
      }
      assert Owns(s'.pc[w], id);
    } else {
      assert Touched(s, e) == Some(id);
      assert Owns(s'.pc[e.w], id);
    }
  }

  lemma OwnershipKept(s: State, e: Event)
    requires Inv(s) && Enabled(s, e)
    ensures Ownership(Next(s, e))
  {
    var s' := Next(s, e);
    PcKept(s, e, 0);
    forall w: int, id | 0 <= w < |s'.pc| && HoldsLock(s'.pc[w], id)
      ensures IsPending(s'.rows, id)
    {
      LockKept(s, e, w, id);
    }
    forall w: int, id | 0 <= w < |s'.pc| && Owns(s'.pc[w], id)
      ensures IsRunning(s'.rows, id) && id !in s'.lost
    {
      ClaimKept(s, e, w, id);
    }
    forall w: int, v: int | 0 <= w < v < |s'.pc| && Held(s'.pc[w]).Some?
      ensures Held(s'.pc[w]) != Held(s'.pc[v])
    {
      if Mover(e) != Some(v) {
        HeldApart(s, e, w, v);
      } else if Held(s'.pc[v]).Some? {
        HeldApart(s, e, v, w);
      }
    }
    forall id | IsRunning(s'.rows, id) && id !in s'.lost
      ensures exists w :: 0 <= w < |s'.pc| && Owns(s'.pc[w], id)
    {
      OwnerKept(s, e, id);
    }
    forall id | id in s'.lost
      ensures IsRunning(s'.rows, id)
    {
      LostKept(s, e, id);
    }
  }

  lemma LostKept(s: State, e: Event, id: Id)
    requires Inv(s) && Enabled(s, e) && id in Next(s, e).lost
    ensures IsRunning(Next(s, e).rows, id)
  {
    if Touched(s, e).Some? {
      TouchedRow(s, e);
    }
    if id in s.lost {
      RowKept(s, e, id);
    } else if e.PersistError? {
      HeldStatus(s, e.w);
    }
  }

  lemma HandoverKept(s: State, e: Event, w: nat)
    requires Inv(s) && Enabled(s, e) && w < |s.pc|
    ensures HandoverOf(Next(s, e), w)
  {
    PcKept(s, e, w);
    assert HandoverOf(s, w);
    if e.Start? && w != e.w && Held(s.pc[w]).Some? {
      assert Held(s.pc[e.w]).Some? && (w < e.w || e.w < w);
    } else if e.ClaimCommit? || e.SqliteClaim? {
      if Touched(s, e).Some? {
        TouchedRow(s, e);
      }
    }
  }

  lemma HistoryKept(s: State, e: Event)
    requires Inv(s) && Enabled(s, e)
    ensures HistoryConsistent(Next(s, e).rows, Next(s, e).started)
  {
    var s' := Next(s, e);
    if e.Start? {
      assert HandoverOf(s, e.w);
      HeldStatus(s, e.w);
    } else {
      if Touched(s, e).Some? {
        TouchedRow(s, e);
      }
      if e.Persist? {
        assert HandoverOf(s, e.w);
      }
      forall id | id in s.started
        ensures id in s'.rows && !s'.rows[id].status.Pending?
      {
        RowKept(s, e, id);
      }
    }
  }

  // A value is buffered only when nobody is blocked, and a worker blocks only when nothing is buffered.
  lemma TokenKept(s: State, e: Event)
    requires Channel(s) && Enabled(s, e)
    ensures !Next(s, e).cancelled && Next(s, e).token ==> !AnyParked(Next(s, e).pc)
  {
    var s' := Next(s, e);
    if !s'.cancelled && s'.token {
      forall v: nat | v < |s'.pc|
        ensures !s'.pc[v].Parked?
      {
        PcKept(s, e, v);
        assert s.token ==> !AnyParked(s.pc);
      }
    }
  }

  lemma ChannelKept(s: State, e: Event)
    requires Inv(s) && Enabled(s, e)
    ensures Channel(Next(s, e))
  {
    TokenKept(s, e);
    var s' := Next(s, e);
    assert s'.silent <= s'.unsignalled <= s'.rows.Keys;
    forall v: nat | v < |s'.pc|
      ensures s'.pc[v].Exited? ==> s'.cancelled
      ensures s'.pc[v].Scanning? || s'.pc[v].Locked? || s'.pc[v].Updated? ==> s'.backend.Postgres?
    {
      PcKept(s, e, v);
    }
  }

  lemma TableKept(s: State, e: Event)
    requires Inv(s) && Enabled(s, e)
    ensures TableConsistent(Next(s, e).rows, Next(s, e).outputs)
  {
    if Touched(s, e).Some? {
      TouchedRow(s, e);
    }
    if e.Persist? {
      assert HandoverOf(s, e.w);
      forall id {
        CountReplaced(s.outputs, s.pc[e.w].id, s.pc[e.w].result.output, id);
      }
    }
  }

  // The heart of the wakeup argument. A claim that returns no row did so because every row its snapshot saw is
  // taken or locked by another open claim, whose worker will be back at the loop top.
  lemma ScanMissesNothing(s: State, w: nat, id: Id)
    requires Inv(s) && w < |s.pc| && s.pc[w].Scanning? && id in s.pc[w].visible
    requires IsPending(s.rows, id) && id !in Eligible(s, s.pc[w].visible)
    ensures exists v :: 0 <= v < |s.pc| && v != w && HoldsLock(s.pc[v], id)
  {
    assert IsLocked(s.pc, id);
  }

  // Outside failed claims and shutdown, notified pending work that is attended stays attended, and work that becomes
  // notified is attended from then on.
  lemma AttendedKept(s: State, e: Event, id: Id)
    requires Inv(s) && Enabled(s, e) && !Next(s, e).cancelled && !ClaimFails(e)
    requires IsPending(s.rows, id) && id !in s.unsignalled ==> Attended(s, id)
    requires IsPending(Next(s, e).rows, id) && id !in Next(s, e).unsignalled
    ensures Attended(Next(s, e), id)
  {
    var s' := Next(s, e);
    if exists w :: 0 <= w < |s'.pc| && s'.pc[w].Top? {
      var w :| 0 <= w < |s'.pc| && s'.pc[w].Top?;
      assert Covers(s'.pc[w], id);
    } else if !s'.token {
      assert Mover(e).Some? ==> !s'.pc[Mover(e).value].Top?;
      assert IsPending(s.rows, id) && id !in s.unsignalled && !s.token;
      var w :| 0 <= w < |s.pc| && Covers(s.pc[w], id);
      CoverKept(s, e, w, id);
    }
  }

  // A worker that covers a row hands that over when it stops.
  lemma CoverKept(s: State, e: Event, w: nat, id: Id)
    requires Inv(s) && Enabled(s, e) && !Next(s, e).cancelled && !ClaimFails(e)
    requires IsPending(s.rows, id) && IsPending(Next(s, e).rows, id)
    requires w < |s.pc| && Covers(s.pc[w], id)
    ensures exists v :: 0 <= v < |Next(s, e).pc| && Covers(Next(s, e).pc[v], id)
  {
    var s' := Next(s, e);
    PcKept(s, e, w);
    if !Covers(s'.pc[w], id) {
      assert id in PendingIds(s.rows);
      if e.ClaimSelect? {
        ScanMissesNothing(s, w, id);
        var v :| 0 <= v < |s.pc| && v != w && HoldsLock(s.pc[v], id);
        PcKept(s, e, v);
        assert Covers(s'.pc[v], id);
      }
    }
  }

  lemma WakeupKept(s: State, e: Event)
    requires Inv(s) && Enabled(s, e)
    ensures Wakeup(Next(s, e))
  {
    var s' := Next(s, e);
    forall id | !s'.cancelled && !s'.missed && IsPending(s'.rows, id) && id !in s'.unsignalled
      ensures Attended(s', id)
    {
      if Mover(e).Some? && Moved(s, e).Top? {
        assert Covers(s'.pc[Mover(e).value], id);
      } else {
        AttendedKept(s, e, id);
      }
    }
  }

  lemma InvKept(s: State, e: Event)
    requires Inv(s) && Enabled(s, e)
    ensures Inv(Next(s, e))
  {
    PcKept(s, e, 0);
    OwnershipKept(s, e);
    forall w: nat | w < |s.pc|
      ensures HandoverOf(Next(s, e), w)
    {
      HandoverKept(s, e, w);
    }
    HistoryKept(s, e);
    ChannelKept(s, e);
    TableKept(s, e);
    WakeupKept(s, e);
  }

  lemma InvInit(s: State)
    requires Init(s)
    ensures Inv(s)
  {
    assert s.pc[0].Top?;
    assert forall id :: Covers(s.pc[0], id);
  }

  // The invariant holds in every state of every run.
  lemma {:induction false} InvAlways(states: seq<State>, events: seq<Event>, i: nat)
    requires IsRun(states, events) && i < |states|
    ensures Inv(states[i])
  {
    if i == 0 {
      InvInit(states[0]);
    } else {
      InvAlways(states, events, i - 1);
      InvKept(states[i - 1], events[i - 1]);
    }
  }
}
