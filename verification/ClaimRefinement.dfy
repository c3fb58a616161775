/**
 The two ways of claiming, related: the SQLite transaction takes the oldest pending row in one step; the Postgres
 transaction takes a snapshot, locks a row past the locked ones, updates it and commits. Seen through
 `Abs`, which counts a locked row as already taken, the second is a queue whose claim looks, and then takes the oldest
 row it saw that is still there, plus the undoing of a claim that rolled back. When nothing was inserted between
 the look and the lock, that is the one-step claim.
 */
module ClaimRefinement {
  import opened Basics
  import opened ExecutionTable
  import opened PoolModel
  import opened PoolSafety
  import opened PoolTheorems

  // ---------------------------------------------------------------- overtaking

  // The rows that a claim locking `id` overtakes.
  function Overtaken(s: State, visible: set<Id>, id: Id): set<Id>
    requires id in s.rows
  {
    set r | r in visible && IsPending(s.rows, r) && Older(s.rows, r, id)
  }

  // When a claim locks a row, every strictly older pending row its snapshot saw is locked by a different open
  // claim; hence with N workers at most N - 1 rows are overtaken.
  lemma BoundedOvertaking(s: State, w: nat, id: Id)
    requires Inv(s) && Enabled(s, ClaimSelect(w, Some(id)))
    ensures forall r :: r in Overtaken(s, s.pc[w].visible, id) ==>
              exists v :: 0 <= v < |s.pc| && v != w && HoldsLock(s.pc[v], r)
    ensures |Overtaken(s, s.pc[w].visible, id)| <= |s.pc| - 1
  {
    var visible := s.pc[w].visible;
    forall r | r in Eligible(s, visible)
      ensures !Older(s.rows, r, id)
    {
      assert r == id || Older(s.rows, id, r);
    }
    forall r | r in Overtaken(s, visible, id)
      ensures exists v :: 0 <= v < |s.pc| && v != w && HoldsLock(s.pc[v], r)
    {
      assert r !in Eligible(s, visible);
      assert IsLocked(s.pc, r);
    }
    var others := s.pc[..w] + s.pc[w + 1..];
    forall r | r in Overtaken(s, visible, id)
      ensures exists v :: 0 <= v < |others| && HoldsLock(others[v], r)
    {
      var v :| 0 <= v < |s.pc| && v != w && HoldsLock(s.pc[v], r);
      assert HoldsLock(others[if v < w then v else v - 1], r);
    }
    LockedRowsBound(others, Overtaken(s, visible, id));
  }

  // A strictly older pending row that such a claim passes over is locked by another worker, or else it is not in the
  // claim's snapshot.
  lemma OvertakingSplit(s: State, w: nat, id: Id, r: Id)
    requires Inv(s) && Enabled(s, ClaimSelect(w, Some(id)))
    requires IsPending(s.rows, r) && r != id
    ensures Older(s.rows, r, id) ==>
              r !in s.pc[w].visible || exists v :: 0 <= v < |s.pc| && v != w && HoldsLock(s.pc[v], r)
    ensures r in s.pc[w].visible && !Older(s.rows, id, r) ==>
              exists v :: 0 <= v < |s.pc| && v != w && HoldsLock(s.pc[v], r)
  {
    if r in s.pc[w].visible && !Older(s.rows, id, r) {
      assert r !in Eligible(s, s.pc[w].visible);
      assert IsLocked(s.pc, r);
    }
  }

  // A list of workers holds at most one row each.
  lemma {:induction false} LockedRowsBound(pc: seq<Pc>, ids: set<Id>)
    requires forall r :: r in ids ==> exists v :: 0 <= v < |pc| && HoldsLock(pc[v], r)
    ensures |ids| <= |pc|
  {
    if pc == [] {
      if ids != {} {
        var r := AnyMember(ids);
        assert false;
      }
    } else {
      var n := |pc| - 1;
      var rest := ids - if Held(pc[n]).Some? then {Held(pc[n]).value} else {};
      forall r | r in rest
        ensures exists v :: 0 <= v < n && HoldsLock(pc[..n][v], r)
      {
        var v :| 0 <= v < |pc| && HoldsLock(pc[v], r);
        assert HoldsLock(pc[..n][v], r);
      }
      LockedRowsBound(pc[..n], rest);
    }
  }

  // With SQLite nothing is overtaken: two claims of one run take rows in (created_at, id) order, whenever the row
  // taken second was already there for the first.
  lemma SqliteClaimsInOrder(states: seq<State>, events: seq<Event>, i: nat, j: nat, a: Id, b: Id)
    requires IsRun(states, events) && i < j < |events|
    requires events[i].SqliteClaim? && events[i].choice == Some(a)
    requires events[j].SqliteClaim? && events[j].choice == Some(b)
    requires b in states[i].rows
    ensures a in states[i].rows && a != b && states[i].rows[a].createdAt <= states[i].rows[b].createdAt
    ensures states[i].rows[a].createdAt == states[i].rows[b].createdAt ==> a < b
  {
    assert Enabled(states[i], events[i]) && Enabled(states[j], events[j]);
    assert states[i + 1] == Next(states[i], events[i]);
    assert IsPending(states[j].rows, b);
    StatusAdvances(states, events, i, j, b);
    StatusAdvances(states, events, i + 1, j, a);
    assert IsPending(states[i].rows, b);
    assert b in PendingIds(states[i].rows);
  }

  // ---------------------------------------------------------------- the snapshot

  // The claim that worker w has under way at state i began at step j.
  ghost predicate BegunAt(states: seq<State>, events: seq<Event>, w: nat, j: nat, i: nat)
    requires i <= |events| < |states|
  {
    j < i && events[j] == ClaimBegin(w) && w < |states[j + 1].pc|
    && forall k :: j < k <= i ==> w < |states[k].pc| && states[k].pc[w] == states[j + 1].pc[w]
  }

  // A snapshot is the set of pending rows at the moment its claim began.
  lemma {:induction false} SnapshotOfClaim(states: seq<State>, events: seq<Event>, i: nat, w: nat) returns (j: nat)
    requires IsRun(states, events) && i < |states| && w < |states[i].pc| && states[i].pc[w].Scanning?
    ensures j < i && BegunAt(states, events, w, j, i) && states[i].pc[w] == Scanning(PendingIds(states[j].rows))
  {
    var s, e := states[i - 1], events[i - 1];
    assert Enabled(s, e) && states[i - 1 + 1] == Next(s, e);
    PcKept(s, e, w);
    if Mover(e) == Some(w) {
      j := i - 1;
    } else {
      j := SnapshotOfClaim(states, events, i - 1, w);
    }
  }

  // So a row that existed when the claim began and is pending still is in the snapshot.
  lemma SnapshotComplete(states: seq<State>, events: seq<Event>, i: nat, w: nat, j: nat, r: Id)
    requires IsRun(states, events) && j < i < |states| && w < |states[i].pc| && BegunAt(states, events, w, j, i)
    requires states[i].pc[w] == Scanning(PendingIds(states[j].rows))
    requires IsPending(states[i].rows, r)
    ensures r in states[i].pc[w].visible <==> r in states[j].rows
  {
    if r in states[j].rows {
      StatusAdvances(states, events, j, i, r);
    }
  }

  // Over a run: what a claim overtakes is locked by other open claims, or was inserted after the claim began.
  lemma OvertakenInRun(states: seq<State>, events: seq<Event>, i: nat, w: nat, id: Id) returns (j: nat)
    requires IsRun(states, events) && i < |events| && events[i] == ClaimSelect(w, Some(id))
    ensures j < i && BegunAt(states, events, w, j, i)
    ensures forall r :: IsPending(states[i].rows, r) && r != id && !Older(states[i].rows, id, r) && r in states[j].rows ==>
              exists v :: 0 <= v < |states[i].pc| && v != w && HoldsLock(states[i].pc[v], r)
  {
    InvAlways(states, events, i);
    assert Enabled(states[i], events[i]);
    j := SnapshotOfClaim(states, events, i, w);
    forall r | IsPending(states[i].rows, r) && r != id && !Older(states[i].rows, id, r) && r in states[j].rows
      ensures exists v :: 0 <= v < |states[i].pc| && v != w && HoldsLock(states[i].pc[v], r)
    {
      SnapshotComplete(states, events, i, w, j, r);
      OvertakingSplit(states[i], w, id, r);
    }
  }

  // And such a row is overtaken. From every state in which a worker at the loop top would be given row `id`, an older
  // row inserted once its claim has begun is passed over, although it is pending and nobody has locked it.
  lemma InsertIsOvertaken(s: State, w: nat, id: Id, r: Id, at: int) returns (events: seq<Event>, t: State)
    requires Inv(s) && s.backend.Postgres? && !s.cancelled && w < |s.pc| && s.pc[w].Top?
    requires IsFirst(s.rows, Eligible(s, PendingIds(s.rows)), Some(id))
    requires r !in s.rows && at < s.rows[id].createdAt
    ensures Leads(s, events, t) && events == [CheckCtx(w), ClaimBegin(w), Insert(r, at)]
    ensures Enabled(t, ClaimSelect(w, Some(id)))
    ensures IsPending(t.rows, r) && Older(t.rows, r, id) && !IsLocked(t.pc, r)
  {
    var s1 := Next(s, CheckCtx(w));
    var s2 := Next(s1, ClaimBegin(w));
    t := Next(s2, Insert(r, at));
    events := [CheckCtx(w), ClaimBegin(w), Insert(r, at)];
    assert events[1..] == [ClaimBegin(w), Insert(r, at)] && events[1..][1..] == [Insert(r, at)];
    assert Leads(s2, [Insert(r, at)], t);
    assert Leads(s1, [ClaimBegin(w), Insert(r, at)], t);
    LocksUntouched(s, w, t, r);
    forall c | c in PendingIds(s.rows)
      ensures IsLocked(t.pc, c) <==> IsLocked(s.pc, c)
    {
      LocksUntouched(s, w, t, c);
    }
    LockedIsPending(s, r);
    StillFirst(s, t, w, id, r);
  }

  // Moving a worker that holds no lock, to where it holds none, leaves the locks alone.
  lemma LocksUntouched(s: State, w: nat, t: State, id: Id)
    requires w < |s.pc| && s.pc[w].Top? && |t.pc| == |s.pc| && t.pc == s.pc[w := t.pc[w]] && t.pc[w].Scanning?
    ensures IsLocked(t.pc, id) <==> IsLocked(s.pc, id)
  {
    LockedSame(s.pc, t.pc, id);
    LockedSame(t.pc, s.pc, id);
  }

  lemma StillFirst(s: State, t: State, w: nat, id: Id, r: Id)
    requires IsFirst(s.rows, Eligible(s, PendingIds(s.rows)), Some(id))
    requires r !in s.rows && r in t.rows && t.rows == s.rows[r := t.rows[r]]
    requires w < |t.pc| && t.pc[w] == Scanning(PendingIds(s.rows))
    requires forall c :: c in PendingIds(s.rows) ==> (IsLocked(t.pc, c) <==> IsLocked(s.pc, c))
    ensures Enabled(t, ClaimSelect(w, Some(id)))
  {
    var before, after := Eligible(s, PendingIds(s.rows)), Eligible(t, PendingIds(s.rows));
    forall c
      ensures c in after <==> c in before
    {
    }
    forall c | c in after && c != id
      ensures Older(t.rows, id, c)
    {
      assert Older(s.rows, id, c);
    }
    assert after <= t.rows.Keys;
  }

  // ---------------------------------------------------------------- refinement

  // A queue on which a claim first looks and then, in one step, takes the oldest row that it saw and that is still
  // pending; None exactly when no such row is left.
  datatype AtomicEvent =
    | Stutter
    | Look(w: nat, visible: set<Id>)
    | Take(w: nat, choice: Option<Id>)
    | Undo(w: nat)
    | Drop(w: nat)      // the claim stands, but its worker never learns of it
    | Same(e: Event)

  // A worker told that its claim failed: back to the select, or gone when ctx is done.
  function AfterFailure(a: State, w: nat): State
    requires w < |a.pc|
  {
    a.(pc := a.pc[w := if a.cancelled then Exited else AtSelect], missed := true)
  }

  function VisiblePending(rows: map<Id, Row>, visible: set<Id>): set<Id> {
    set id | id in visible && IsPending(rows, id)
  }

  // A look sees every pending row; it may also see rows that other claims have taken, in case they are undone.
  ghost predicate AtomicStep(a: State, e: AtomicEvent, a': State) {
    match e
    case Stutter => a' == a
    case Look(w, visible) =>
      w < |a.pc| && a.pc[w].Claiming? && PendingIds(a.rows) <= visible <= a.rows.Keys
      && a' == a.(pc := a.pc[w := Scanning(visible)])
    case Take(w, choice) =>
      w < |a.pc| && a.pc[w].Scanning?
      && IsFirst(a.rows, VisiblePending(a.rows, a.pc[w].visible), choice)
      && a' == (match choice
                case None => a.(pc := a.pc[w := AtSelect])
                case Some(id) =>
                  a.(pc := a.pc[w := Claimed(id)], rows := a.rows[id := a.rows[id].(status := Running)]))
    case Undo(w) =>
      w < |a.pc| && a.pc[w].Claimed? && a.pc[w].id in a.rows
      && a' == AfterFailure(a, w).(rows := a.rows[a.pc[w].id := a.rows[a.pc[w].id].(status := Pending)])
    case Drop(w) =>
      w < |a.pc| && a.pc[w].Claimed?
      && a' == AfterFailure(a, w).(lost := a.lost + {a.pc[w].id})
    case Same(e) => Enabled(a, e) && a' == Next(a, e)
  }

  function AbsPc(p: Pc): Pc {
    match p
    case Locked(id) => Claimed(id)
    case Updated(id) => Claimed(id)
    case _ => p
  }

  function AbsRows(rows: map<Id, Row>, pc: seq<Pc>): map<Id, Row> {
    map id | id in rows :: if IsLocked(pc, id) then rows[id].(status := Running) else rows[id]
  }

  function Abs(s: State): State {
    s.(rows := AbsRows(s.rows, s.pc), pc := seq(|s.pc|, i requires 0 <= i < |s.pc| => AbsPc(s.pc[i])))
  }

  function AbsEvent(s: State, e: Event): AtomicEvent
    requires Enabled(s, e)
  {
    match e
    case ClaimBegin(w) => Look(w, PendingIds(s.rows))
    case ClaimUpdate(_) => Stutter
    case ClaimCommit(_) => Stutter
    case ClaimSelect(w, choice) => Take(w, choice)
    case ClaimLost(w, _) => Drop(w)
    case ClaimError(w) => if Held(s.pc[w]).Some? then Undo(w) else Same(e)
    case _ => Same(e)
  }

  // Which rows are locked changes only at a claim's lock, commit and rollback.
  lemma LocksMove(s: State, e: Event, id: Id)
    requires Inv(s) && Enabled(s, e) && s.backend.Postgres?
    ensures IsLocked(Next(s, e).pc, id) ==
            if e.ClaimSelect? && e.choice == Some(id) then true
            else if (e.ClaimCommit? || e.ClaimLost? || e.ClaimError?) && Held(s.pc[e.w]) == Some(id) then false
            else IsLocked(s.pc, id)
  {
    var s' := Next(s, e);
    PcKept(s, e, 0);
    forall v: nat | v < |s.pc| && Mover(e) != Some(v)
      ensures s'.pc[v] == s.pc[v]
    {
      PcKept(s, e, v);
    }
    if e.ClaimSelect? && e.choice == Some(id) {
      assert HoldsLock(s'.pc[e.w], id);
    } else if (e.ClaimCommit? || e.ClaimLost? || e.ClaimError?) && Held(s.pc[e.w]) == Some(id) {
      forall v: nat | v < |s.pc|
        ensures !HoldsLock(s'.pc[v], id)
      {
        assert v == e.w || v < e.w || e.w < v;
      }
    } else if e.ClaimUpdate? {
      forall v: nat | v < |s.pc|
        ensures HoldsLock(s'.pc[v], id) <==> HoldsLock(s.pc[v], id)
      {
      }
      LockedSame(s.pc, s'.pc, id);
    } else {
      forall v: nat | v < |s.pc|
        ensures HoldsLock(s'.pc[v], id) <==> HoldsLock(s.pc[v], id)
      {
      }
      LockedSame(s.pc, s'.pc, id);
    }
  }

  lemma LockedSame(pc: seq<Pc>, pc': seq<Pc>, id: Id)
    requires |pc| == |pc'|
    requires forall v :: 0 <= v < |pc| ==> (HoldsLock(pc[v], id) <==> HoldsLock(pc'[v], id))
    ensures IsLocked(pc, id) == IsLocked(pc', id)
  {
    if IsLocked(pc, id) {
      var v :| 0 <= v < |pc| && HoldsLock(pc[v], id);
      assert HoldsLock(pc'[v], id);
    }
  }

  lemma AbsPcMoves(s: State, e: Event)
    requires Enabled(s, e)
    ensures Abs(Next(s, e)).pc == if Mover(e).Some? then Abs(s).pc[Mover(e).value := AbsPc(Next(s, e).pc[Mover(e).value])]
                                  else Abs(s).pc
  {
    var s' := Next(s, e);
    PcKeptAll(s, e);
    assert |Abs(s').pc| == |s.pc|;
    forall v: nat | v < |s.pc|
      ensures Abs(s').pc[v] == if Mover(e) == Some(v) then AbsPc(s'.pc[v]) else Abs(s).pc[v]
    {
    }
  }

  lemma PcKeptAll(s: State, e: Event)
    requires Enabled(s, e)
    ensures |Next(s, e).pc| == |s.pc|
    ensures forall v :: 0 <= v < |s.pc| && Mover(e) != Some(v) ==> Next(s, e).pc[v] == s.pc[v]
  {
    forall v: nat | v < |s.pc| && Mover(e) != Some(v)
      ensures Next(s, e).pc[v] == s.pc[v]
    {
      PcKept(s, e, v);
    }
  }

  lemma LockedIsPending(s: State, id: Id)
    requires Inv(s)
    ensures IsLocked(s.pc, id) ==> IsPending(s.rows, id)
  {
    if IsLocked(s.pc, id) {
      var v :| 0 <= v < |s.pc| && HoldsLock(s.pc[v], id);
    }
  }

  // The row of the abstract table after an event.
  lemma AbsRowMoves(s: State, e: Event, id: Id)
    requires Inv(s) && Enabled(s, e) && s.backend.Postgres? && id in s.rows
    ensures id in Next(s, e).rows
    ensures AbsRows(Next(s, e).rows, Next(s, e).pc)[id] ==
            if e.ClaimSelect? && e.choice == Some(id) then s.rows[id].(status := Running)
            else if e.ClaimError? && Held(s.pc[e.w]) == Some(id) then s.rows[id]
            else if e.Persist? && s.pc[e.w].id == id then Next(s, e).rows[id]
            else AbsRows(s.rows, s.pc)[id]
  {
    LocksMove(s, e, id);
    RowKept(s, e, id);
    if Touched(s, e) == Some(id) {
      TouchedRow(s, e);
      LockedIsPending(s, id);
      if e.ClaimCommit? || e.ClaimLost? {
        assert HoldsLock(s.pc[e.w], id);
      }
    }
  }

  // The one row of the abstract table that an event writes, and its new value.
  function AbsWrite(s: State, e: Event): Option<(Id, Row)>
    requires Enabled(s, e)
  {
    if e.Insert? then Some((e.id, Row(e.createdAt, Pending, None)))
    else if e.ClaimSelect? && e.choice.Some? then
      Some((e.choice.value, s.rows[e.choice.value].(status := Running)))
    else if e.ClaimError? && Held(s.pc[e.w]).Some? && Held(s.pc[e.w]).value in s.rows then
      Some((Held(s.pc[e.w]).value, s.rows[Held(s.pc[e.w]).value]))
    else if e.Persist? then Some((s.pc[e.w].id, Next(s, e).rows[s.pc[e.w].id]))
    else None
  }

  function Write(rows: map<Id, Row>, write: Option<(Id, Row)>): map<Id, Row> {
    if write.Some? then rows[write.value.0 := write.value.1] else rows
  }

  lemma AbsRowsMove(s: State, e: Event)
    requires Inv(s) && Enabled(s, e) && s.backend.Postgres?
    ensures Abs(Next(s, e)).rows == Write(Abs(s).rows, AbsWrite(s, e))
  {
    var rows, rows' := AbsRows(s.rows, s.pc), AbsRows(Next(s, e).rows, Next(s, e).pc);
    AbsKeysMove(s, e);
    forall id | id in rows'
      ensures rows'[id] == Write(rows, AbsWrite(s, e))[id]
    {
      if id in s.rows {
        AbsRowMoves(s, e, id);
      } else {
        LocksMove(s, e, id);
        LockedIsPending(s, id);
      }
    }
    MapEqual(rows', Write(rows, AbsWrite(s, e)));
  }

  lemma AbsKeysMove(s: State, e: Event)
    requires Inv(s) && Enabled(s, e) && s.backend.Postgres?
    ensures forall id :: id in Next(s, e).rows <==> id in Write(AbsRows(s.rows, s.pc), AbsWrite(s, e))
    ensures forall id :: id in Next(s, e).rows && id !in s.rows ==> AbsWrite(s, e) == Some((id, Next(s, e).rows[id]))
  {
  }

  lemma ParkedSame(s: State)
    ensures AnyParked(Abs(s).pc) == AnyParked(s.pc)
  {
    if AnyParked(s.pc) {
      var v :| 0 <= v < |s.pc| && s.pc[v].Parked?;
      assert Abs(s).pc[v].Parked?;
    }
  }

  lemma SelectIsTake(s: State, w: nat, choice: Option<Id>)
    requires Inv(s) && Enabled(s, ClaimSelect(w, choice)) && s.backend.Postgres?
    ensures AtomicStep(Abs(s), Take(w, choice), Abs(Next(s, ClaimSelect(w, choice))))
  {
    var e := ClaimSelect(w, choice);
    AbsPcMoves(s, e);
    AbsRowsMove(s, e);
    var eligible, candidates := Eligible(s, s.pc[w].visible), VisiblePending(Abs(s).rows, s.pc[w].visible);
    forall id
      ensures id in candidates <==> id in eligible
    {
    }
    assert candidates == eligible;
    if choice.Some? {
      forall c | c in candidates && c != choice.value
        ensures Older(Abs(s).rows, choice.value, c)
      {
        assert Older(s.rows, choice.value, c);
      }
      assert candidates <= Abs(s).rows.Keys;
    }
  }

  lemma ErrorIsUndo(s: State, w: nat)
    requires Inv(s) && Enabled(s, ClaimError(w)) && s.backend.Postgres?
    ensures AtomicStep(Abs(s), AbsEvent(s, ClaimError(w)), Abs(Next(s, ClaimError(w))))
  {
    var e := ClaimError(w);
    AbsPcMoves(s, e);
    AbsRowsMove(s, e);
    if Held(s.pc[w]).Some? {
      HeldStatus(s, w);
      var id := Held(s.pc[w]).value;
      assert IsLocked(s.pc, id);
      assert Abs(s).rows[id].(status := Pending) == s.rows[id];
    }
  }

  lemma PersistIsSame(s: State, w: nat, now: int)
    requires Inv(s) && Enabled(s, Persist(w, now)) && s.backend.Postgres?
    ensures AtomicStep(Abs(s), Same(Persist(w, now)), Abs(Next(s, Persist(w, now))))
  {
    AbsPcMoves(s, Persist(w, now));
    AbsRowsMove(s, Persist(w, now));
    HeldStatus(s, w);
    LockedIsPending(s, s.pc[w].id);
  }

  lemma NotifyIsSame(s: State, id: Id, to: Option<nat>)
    requires Inv(s) && Enabled(s, Notify(id, to)) && s.backend.Postgres?
    ensures AtomicStep(Abs(s), Same(Notify(id, to)), Abs(Next(s, Notify(id, to))))
  {
    AbsPcMoves(s, Notify(id, to));
    AbsRowsMove(s, Notify(id, to));
    ParkedSame(s);
  }

  lemma BeginIsLook(s: State, w: nat)
    requires Inv(s) && Enabled(s, ClaimBegin(w)) && s.backend.Postgres?
    ensures AtomicStep(Abs(s), Look(w, PendingIds(s.rows)), Abs(Next(s, ClaimBegin(w))))
  {
    AbsPcMoves(s, ClaimBegin(w));
    AbsRowsMove(s, ClaimBegin(w));
  }

  lemma ClaimTailIsHidden(s: State, e: Event)
    requires Inv(s) && Enabled(s, e) && s.backend.Postgres?
    requires e.ClaimUpdate? || e.ClaimCommit? || e.ClaimLost?
    ensures AtomicStep(Abs(s), AbsEvent(s, e), Abs(Next(s, e)))
  {
    AbsPcMoves(s, e);
    AbsRowsMove(s, e);
    assert !e.ClaimLost? ==> Abs(Next(s, e)).pc == Abs(s).pc;
  }

  lemma LocalStepIsSame(s: State, e: Event)
    requires Inv(s) && Enabled(s, e) && s.backend.Postgres?
    requires e.Insert? || e.CreatorFails? || e.Cancel? || e.CheckCtx? || e.Start? || e.Finish? || e.PersistError? || e.Receive? || e.Block?
    ensures AtomicStep(Abs(s), Same(e), Abs(Next(s, e)))
  {
    AbsPcMoves(s, e);
    AbsRowsMove(s, e);
  }

  // Every step of the Postgres store is a step of the atomic queue, or invisible in it.
  lemma PostgresRefinesAtomic(s: State, e: Event)
    requires Inv(s) && Enabled(s, e) && s.backend.Postgres?
    ensures AtomicStep(Abs(s), AbsEvent(s, e), Abs(Next(s, e)))
  {
    match e {
      case ClaimSelect(w, choice) => SelectIsTake(s, w, choice);
      case ClaimError(w) => ErrorIsUndo(s, w);
      case Persist(w, now) => PersistIsSame(s, w, now);
      case Notify(id, to) => NotifyIsSame(s, id, to);
      case ClaimBegin(w) => BeginIsLook(s, w);
      case ClaimUpdate(_) => ClaimTailIsHidden(s, e);
      case ClaimCommit(_) => ClaimTailIsHidden(s, e);
      case ClaimLost(_, _) => ClaimTailIsHidden(s, e);
      case _ => LocalStepIsSame(s, e);
    }
  }

  // Hence every run over Postgres is, seen through Abs, a run of the atomic queue; without store errors during
  // claims nothing is ever undone, so the committed claims are look-and-take claims in the order of their locks.
  lemma PostgresRunRefines(states: seq<State>, events: seq<Event>, i: nat)
    requires IsRun(states, events) && i < |events| && states[0].backend.Postgres?
    ensures Init(Abs(states[0]))
    ensures AtomicStep(Abs(states[i]), AbsEvent(states[i], events[i]), Abs(states[i + 1]))
    ensures AbsEvent(states[i], events[i]).Undo? ==> ClaimFails(events[i])
    ensures (forall id :: !IsLocked(states[i].pc, id)) ==> Abs(states[i]).rows == states[i].rows
  {
    InvAlways(states, events, i);
    BackendFixed(states, events, i);
    PostgresRefinesAtomic(states[i], events[i]);
    var s := states[0];
    InvAlways(states, events, 0);
    forall id | id in s.rows
      ensures Abs(s).rows[id] == s.rows[id]
    {
    }
    assert Abs(s).rows == s.rows;
  }

  // On the abstract queue a Postgres claim that began at step j is the one-step claim of SQLite, which takes the oldest
  // of all pending rows, exactly when every row inserted since that is pending is younger than the row it takes. So
  // it always is when nothing was inserted meanwhile.
  lemma ClaimIsOneStep(states: seq<State>, events: seq<Event>, i: nat, w: nat, choice: Option<Id>) returns (j: nat)
    requires IsRun(states, events) && i < |events| && states[0].backend.Postgres?
    requires events[i] == ClaimSelect(w, choice)
    ensures j < i && w < |states[i].pc| && BegunAt(states, events, w, j, i)
    ensures var rows := Abs(states[i]).rows;
            IsFirst(rows, PendingIds(rows), choice) <==>
            forall r :: IsPending(rows, r) && r !in states[j].rows ==>
              choice.Some? && choice.value in rows && Older(rows, choice.value, r)
  {
    var s := states[i];
    assert Enabled(s, events[i]);
    InvAlways(states, events, i);
    BackendFixed(states, events, i);
    SelectIsTake(s, w, choice);
    j := SnapshotOfClaim(states, events, i, w);
    var rows, visible := Abs(s).rows, s.pc[w].visible;
    forall r | IsPending(rows, r)
      ensures r in PendingIds(rows) && (r in VisiblePending(rows, visible) <==> r in states[j].rows)
    {
      SnapshotComplete(states, events, i, w, j, r);
    }
    FirstOfMore(rows, VisiblePending(rows, visible), PendingIds(rows), choice);
    assert forall r :: r in PendingIds(rows) ==> IsPending(rows, r);
  }

  // The first of some rows is the first of more rows exactly when it is older than those in addition.
  lemma FirstOfMore(rows: map<Id, Row>, some: set<Id>, more: set<Id>, choice: Option<Id>)
    requires IsFirst(rows, some, choice) && some <= more <= rows.Keys
    ensures IsFirst(rows, more, choice) <==>
            forall r :: r in more && r !in some ==> choice.Some? && choice.value in rows && Older(rows, choice.value, r)
  {
    if choice.None? && more != {} {
      var r := AnyMember(more);
      assert r in more && r !in some;
    }
  }

  lemma {:induction false} BackendFixed(states: seq<State>, events: seq<Event>, i: nat)
    requires IsRun(states, events) && i < |states|
    ensures states[i].backend == states[0].backend
  {
    if i > 0 {
      BackendFixed(states, events, i - 1);
      assert Enabled(states[i - 1], events[i - 1]) && states[i - 1 + 1] == Next(states[i - 1], events[i - 1]);
    }
  }
}
