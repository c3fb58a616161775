/** The promises of the worker pool over whole runs. */
module PoolTheorems {
  import opened Basics
  import opened ExecutionTable
  import opened PoolModel
  import opened PoolSafety

  // ---------------------------------------------------------------- wakeups

  // Work whose creator has returned is never left with every worker asleep and nothing in the channel.
  lemma NoLostWakeup(states: seq<State>, events: seq<Event>, i: nat, id: Id)
    requires IsRun(states, events) && i < |states|
    requires !states[i].cancelled && !states[i].missed
    requires IsPending(states[i].rows, id) && id !in states[i].unsignalled
    ensures Attended(states[i], id)
    ensures states[i].token || exists w :: 0 <= w < |states[i].pc| && !states[i].pc[w].Parked?
  {
    InvAlways(states, events, i);
  }

  // An event that brings a worker to the loop top: woken by Notify, through the select, or back from a run.
  predicate ReturnsToTop(s: State, e: Event) {
    Enabled(s, e) && Mover(e).Some? && Moved(s, e).Top?
  }

  // A claim failed at step j, and up to state i no worker has come back to the loop top since.
  ghost predicate FailedSince(states: seq<State>, events: seq<Event>, j: nat, i: nat)
    requires i <= |events| < |states|
  {
    j < i && ClaimFails(events[j]) && forall k :: j < k < i ==> !ReturnsToTop(states[k], events[k])
  }

  // The flag that the promises below exclude is exactly this: some claim has failed, and no worker has been back at
  // the loop top since.
  lemma {:induction false} MissedMeans(states: seq<State>, events: seq<Event>, i: nat)
    requires IsRun(states, events) && i < |states|
    ensures states[i].missed <==> exists j: nat :: FailedSince(states, events, j, i)
  {
    if i > 0 {
      MissedMeans(states, events, i - 1);
      var s, e := states[i - 1], events[i - 1];
      assert Enabled(s, e) && states[i - 1 + 1] == Next(s, e);
      if ClaimFails(e) {
        assert FailedSince(states, events, i - 1, i);
      } else if states[i].missed {
        var j: nat :| FailedSince(states, events, j, i - 1);
        assert FailedSince(states, events, j, i);
      }
      if exists j: nat :: FailedSince(states, events, j, i) {
        var j: nat :| FailedSince(states, events, j, i);
        if j < i - 1 {
          assert FailedSince(states, events, j, i - 1);
        }
      }
    }
  }

  // The polling fallback: whichever worker gets back to the loop top, by a tick or otherwise, repairs a missed
  // wakeup for every pending row.
  lemma TickRepairs(s: State, e: Event, w: nat, id: Id)
    requires Enabled(s, e) && w < |s.pc| && Next(s, e).pc[w].Top? && !s.pc[w].Top?
    ensures !Next(s, e).missed && Attended(Next(s, e), id)
  {
    assert Covers(Next(s, e).pc[w], id);
  }

  // The condition on failed claims is needed. From every idle state, one request whose first claim fails with a
  // store error leaves all workers parked on top of notified work, with nothing in the channel; the work then
  // waits for a ticker.
  lemma ErrorLosesWakeup(s: State, id: Id, at: int) returns (events: seq<Event>, t: State)
    requires Idle(s) && !s.cancelled && id !in s.rows
    ensures Leads(s, events, t) && |events| == 5
    ensures t.rows == s.rows[id := Row(at, Pending, None)] && t.unsignalled == s.unsignalled - {id}
    ensures Idle(t) && !t.cancelled && !Attended(t, id)
  {
    var s2 := WokenBy(s, id, at);
    var s3, s4, s5 := FailsAndParks(s2);
    events := [Insert(id, at), Notify(id, Some(0)), CheckCtx(0), ClaimError(0), Block(0)];
    assert s5.pc == s.pc;
    assert events[1..] == [Notify(id, Some(0)), CheckCtx(0), ClaimError(0), Block(0)];
    assert events[1..][1..] == [CheckCtx(0), ClaimError(0), Block(0)];
    assert events[1..][1..][1..] == [ClaimError(0), Block(0)];
    assert events[1..][1..][1..][1..] == [Block(0)];
    assert Leads(s4, [Block(0)], s5);
    assert Leads(s3, [ClaimError(0), Block(0)], s5);
    assert Leads(s2, [CheckCtx(0), ClaimError(0), Block(0)], s5);
    t := s5;
  }

  // What a failed claim at step i does to notified work, exactly: it stays attended if and only if the channel holds a
  // value or some other worker is going to look at the table.
  lemma ClaimErrorExact(states: seq<State>, events: seq<Event>, i: nat, id: Id)
    requires IsRun(states, events) && i < |events| && !states[i].cancelled && ClaimFails(events[i])
    ensures Attended(states[i + 1], id)
       <==> states[i].token || exists v :: 0 <= v < |states[i].pc| && v != events[i].w && Covers(states[i].pc[v], id)
  {
    var s, s', w := states[i], states[i + 1], events[i].w;
    assert Enabled(s, events[i]) && s' == Next(s, events[i]);
    assert s'.pc == s.pc[w := AtSelect];
    if exists v :: 0 <= v < |s.pc| && v != w && Covers(s.pc[v], id) {
      var v :| 0 <= v < |s.pc| && v != w && Covers(s.pc[v], id);
      assert Covers(s'.pc[v], id);
    }
    if exists v :: 0 <= v < |s'.pc| && Covers(s'.pc[v], id) {
      var v :| 0 <= v < |s'.pc| && Covers(s'.pc[v], id);
      assert v != w && Covers(s.pc[v], id);
    }
  }

  // An event that ends the neglect of stranded work: a Notify, a worker's return to the loop top, or a claim that is
  // still under way and takes a row.
  predicate Rescues(s: State, e: Event) {
    e.Notify? || ReturnsToTop(s, e) || (e.ClaimSelect? && e.choice.Some?)
  }

  ghost predicate Stranded(s: State, id: Id) {
    IsPending(s.rows, id) && !Attended(s, id)
  }

  // Work that is stranded stays so, pending and unattended, until one of those events: nothing else wakes a worker.
  lemma StrandedStays(states: seq<State>, events: seq<Event>, i: nat, j: nat, id: Id)
    requires IsRun(states, events) && i <= j < |states| && Stranded(states[i], id)
    requires forall k :: i <= k < j ==> !Rescues(states[k], events[k])
    ensures Stranded(states[j], id)
  {
    forall k: nat | i <= k < j
      ensures Stranded(states[k], id) ==> Stranded(states[k + 1], id)
    {
      StrandedInRun(states, events, k, id);
    }
    StrandedTelescopes(states, i, j, id);
  }

  lemma {:induction false} StrandedTelescopes(states: seq<State>, i: nat, j: nat, id: Id)
    requires i <= j < |states| && Stranded(states[i], id)
    requires forall k :: i <= k < j ==> (Stranded(states[k], id) ==> Stranded(states[k + 1], id))
    ensures Stranded(states[j], id)
    decreases j
  {
    if i < j {
      StrandedTelescopes(states, i, j - 1, id);
      assert Stranded(states[j - 1], id) ==> Stranded(states[j - 1 + 1], id);
    }
  }

  lemma StrandedInRun(states: seq<State>, events: seq<Event>, k: nat, id: Id)
    requires IsRun(states, events) && k < |events| && !Rescues(states[k], events[k])
    ensures Stranded(states[k], id) ==> Stranded(states[k + 1], id)
  {
    InvAlways(states, events, k);
    assert Enabled(states[k], events[k]) && states[k + 1] == Next(states[k], events[k]);
    if Stranded(states[k], id) {
      StrandedStep(states[k], events[k], id);
    }
  }

  lemma StrandedStep(s: State, e: Event, id: Id)
    requires Enabled(s, e) && !Rescues(s, e) && Stranded(s, id)
    ensures Stranded(Next(s, e), id)
  {
    var s' := Next(s, e);
    RowKept(s, e, id);
    forall v: nat | v < |s'.pc|
      ensures !Covers(s'.pc[v], id)
    {
      PcKept(s, e, v);
      assert !Covers(s.pc[v], id);
    }
  }

  // A claim failed at step j and left the row stranded, and no event since has rescued it.
  ghost predicate StrandedSince(states: seq<State>, events: seq<Event>, j: nat, i: nat, id: Id)
    requires i <= |events| < |states|
  {
    j < i && ClaimFails(events[j]) && Stranded(states[j + 1], id)
    && forall k :: j < k < i ==> !Rescues(states[k], events[k])
  }

  // Over whole runs, exactly: before shutdown, notified pending work is unattended if and only if some failed claim
  // stranded it and none of the events since then was a Notify, a return to the loop top, or a claim taking a row.
  lemma UnattendedExactly(states: seq<State>, events: seq<Event>, i: nat, id: Id)
    requires IsRun(states, events) && i < |states| && !states[i].cancelled
    requires IsPending(states[i].rows, id) && id !in states[i].unsignalled
    ensures !Attended(states[i], id) <==> exists j: nat :: StrandedSince(states, events, j, i, id)
  {
    if exists j: nat :: StrandedSince(states, events, j, i, id) {
      var j: nat :| StrandedSince(states, events, j, i, id);
      StrandedStays(states, events, j + 1, i, id);
    }
    if !Attended(states[i], id) {
      assert Covers(states[0].pc[0], id);
      forall k: nat | k < i
        ensures TracesBack(states, events, k, id)
      {
        UnattendedInRun(states, events, k, id);
      }
      UnattendedTelescopes(states, events, i, id);
    }
  }

  ghost predicate Unattended(s: State, id: Id) {
    !s.cancelled && Stranded(s, id) && id !in s.unsignalled
  }

  // Work that is unattended after an event that is no failed claim was so before, and the event was no rescue.
  ghost predicate TracesBack(states: seq<State>, events: seq<Event>, k: nat, id: Id)
    requires k < |events| < |states|
  {
    Unattended(states[k + 1], id) && !ClaimFails(events[k]) ==> Unattended(states[k], id) && !Rescues(states[k], events[k])
  }

  lemma {:induction false} UnattendedTelescopes(states: seq<State>, events: seq<Event>, i: nat, id: Id)
    requires i <= |events| < |states| && Attended(states[0], id) && Unattended(states[i], id)
    requires forall k :: 0 <= k < i ==> TracesBack(states, events, k, id)
    ensures exists j: nat :: StrandedSince(states, events, j, i, id)
  {
    assert TracesBack(states, events, i - 1, id);
    if ClaimFails(events[i - 1]) {
      assert StrandedSince(states, events, i - 1, i, id);
    } else {
      UnattendedTelescopes(states, events, i - 1, id);
      var j: nat :| StrandedSince(states, events, j, i - 1, id);
      assert StrandedSince(states, events, j, i, id);
    }
  }

  lemma UnattendedInRun(states: seq<State>, events: seq<Event>, k: nat, id: Id)
    requires IsRun(states, events) && k < |events|
    ensures TracesBack(states, events, k, id)
  {
    InvAlways(states, events, k);
    assert Enabled(states[k], events[k]) && states[k + 1] == Next(states[k], events[k]);
    if Unattended(states[k + 1], id) && !ClaimFails(events[k]) {
      UnattendedStep(states[k], events[k], id);
    }
  }

  lemma UnattendedStep(s: State, e: Event, id: Id)
    requires Inv(s) && Enabled(s, e) && !ClaimFails(e) && Unattended(Next(s, e), id)
    ensures Unattended(s, id) && !Rescues(s, e)
  {
    var s' := Next(s, e);
    if !(Stranded(s, id) && id !in s.unsignalled) {
      AttendedKept(s, e, id);
    }
    if Rescues(s, e) {
      RescueAttends(s, e, id);
    }
  }

  lemma RescueAttends(s: State, e: Event, id: Id)
    requires Enabled(s, e) && Rescues(s, e)
    ensures Attended(Next(s, e), id)
  {
    if Mover(e).Some? {
      var w := Mover(e).value;
      assert Next(s, e).pc[w] == Moved(s, e);
      assert Covers(Next(s, e).pc[w], id);
    }
  }

  ghost predicate Idle(s: State) {
    |s.pc| >= 1 && Channel(s) && !s.token && forall w :: 0 <= w < |s.pc| ==> s.pc[w].Parked?
  }

  // `events` can happen one after the other from `s`, and end in `t`.
  predicate Leads(s: State, events: seq<Event>, t: State)
    decreases |events|
  {
    if events == [] then s == t
    else Enabled(s, events[0]) && Leads(Next(s, events[0]), events[1..], t)
  }

  lemma WokenBy(s: State, id: Id, at: int) returns (s': State)
    requires Idle(s) && !s.cancelled && id !in s.rows
    ensures var s1 := Next(s, Insert(id, at)); Enabled(s1, Notify(id, Some(0))) && s' == Next(s1, Notify(id, Some(0)))
    ensures s'.rows == s.rows[id := Row(at, Pending, None)] && s'.unsignalled == s.unsignalled - {id}
    ensures s'.pc == s.pc[0 := Top] && !s'.token && !s'.cancelled
  {
    var s1 := Next(s, Insert(id, at));
    s' := Next(s1, Notify(id, Some(0)));
  }

  lemma FailsAndParks(s: State) returns (s1: State, s2: State, s3: State)
    requires |s.pc| >= 1 && s.pc[0].Top? && !s.token && !s.cancelled
    ensures Enabled(s, CheckCtx(0)) && s1 == Next(s, CheckCtx(0))
    ensures Enabled(s1, ClaimError(0)) && s2 == Next(s1, ClaimError(0))
    ensures Enabled(s2, Block(0)) && s3 == Next(s2, Block(0))
    ensures s3.rows == s.rows && s3.unsignalled == s.unsignalled && s3.pc == s.pc[0 := Parked]
    ensures !s3.token && !s3.cancelled
  {
    s1 := Next(s, CheckCtx(0));
    s2 := Next(s1, ClaimError(0));
    s3 := Next(s2, Block(0));
  }

  predicate Buffers(e: Event) {
    e.Notify? && e.to.None?
  }

  predicate TakesToken(e: Event) {
    e.Receive? && e.via.Token?
  }

  // One send wakes one worker: between two workers that take a value from the notify channel, a creator has put one in.
  lemma TokensAreSent(states: seq<State>, events: seq<Event>, i: nat, j: nat) returns (k: nat)
    requires IsRun(states, events) && i < j < |events| && TakesToken(events[i]) && TakesToken(events[j])
    ensures i < k < j && Buffers(events[k])
  {
    assert Enabled(states[i], events[i]) && states[i + 1] == Next(states[i], events[i]);
    assert Enabled(states[j], events[j]);
    k := SentBefore(states, events, i + 1, j);
  }

  lemma {:induction false} SentBefore(states: seq<State>, events: seq<Event>, i: nat, j: nat) returns (k: nat)
    requires IsRun(states, events) && i <= j < |states| && !states[i].token && states[j].token
    ensures i <= k < j && Buffers(events[k])
    decreases j
  {
    var s, e := states[j - 1], events[j - 1];
    assert Enabled(s, e) && states[j - 1 + 1] == Next(s, e);
    if s.token {
      k := SentBefore(states, events, i, j - 1);
    } else {
      k := j - 1;
    }
  }

  // ---------------------------------------------------------------- life cycle

  // Each execution is handed to a runner at most once, over all workers and the whole run, it is owned by at most
  // one worker at any time, and whatever finished was handed over.
  lemma RunAtMostOnce(states: seq<State>, events: seq<Event>, i: nat)
    requires IsRun(states, events) && i < |states|
    ensures Distinct(states[i].started)
    ensures forall v, w, id :: 0 <= v < w < |states[i].pc| && Owns(states[i].pc[v], id) ==> !Owns(states[i].pc[w], id)
    ensures forall id :: id in states[i].rows && Terminal(states[i].rows[id].status) ==> id in states[i].started
    ensures TableConsistent(states[i].rows, states[i].outputs)
  {
    InvAlways(states, events, i);
    var s := states[i];
    forall v: nat, w: nat | v < w < |s.pc|
      ensures Held(s.pc[v]).Some? ==> Held(s.pc[v]) != Held(s.pc[w])
    {
    }
  }

  // pending, then running, then one terminal status; a terminal row never changes again.
  predicate Advances(old_: Row, new_: Row) {
    match old_.status
    case Pending => new_ == old_ || !new_.status.Pending?
    case Running => new_ == old_ || Terminal(new_.status)
    case _ => new_ == old_
  }

  lemma {:induction false} StatusAdvances(states: seq<State>, events: seq<Event>, i: nat, j: nat, id: Id)
    requires IsRun(states, events) && i <= j < |states| && id in states[i].rows
    ensures id in states[j].rows && Advances(states[i].rows[id], states[j].rows[id])
    ensures states[j].rows[id].createdAt == states[i].rows[id].createdAt
    decreases j
  {
    if i < j {
      StatusAdvances(states, events, i, j - 1, id);
      var s, e := states[j - 1], events[j - 1];
      InvAlways(states, events, j - 1);
      RowKept(s, e, id);
      if Touched(s, e) == Some(id) {
        TouchedRow(s, e);
        assert e.Persist? ==> HandoverOf(s, e.w);
      }
    }
  }

  // ---------------------------------------------------------------- drain

  function Work(rows: map<Id, Row>): nat {
    2 * |PendingIds(rows)| + |RunningIds(rows)|
  }

  // The claim and the final update a row is still worth.
  function Units(status: Status): nat {
    match status
    case Pending => 2
    case Running => 1
    case _ => 0
  }

  predicate IsClaim(e: Event) { e.ClaimCommit? || e.ClaimLost? || (e.SqliteClaim? && e.choice.Some?) }

  function Yield(e: Event): nat { if e.Insert? then 2 else 0 }

  function Cost(e: Event): nat { if IsClaim(e) || e.Persist? then 1 else 0 }

  // Creations, each worth two units of work, among the events from `i` on and before `j`.
  function Produced(events: seq<Event>, i: nat, j: nat): nat
    requires i <= j <= |events|
  {
    if i == j then 0 else Produced(events, i, j - 1) + Yield(events[j - 1])
  }

  // Claims and final updates, each worth one.
  function Consumed(events: seq<Event>, i: nat, j: nat): nat
    requires i <= j <= |events|
  {
    if i == j then 0 else Consumed(events, i, j - 1) + Cost(events[j - 1])
  }

  function UnitsAt(rows: map<Id, Row>, id: Id): nat {
    if id in rows then Units(rows[id].status) else 0
  }

  lemma WorkOfRow(rows: map<Id, Row>, id: Id, row: Row)
    ensures Work(rows[id := row]) == Work(rows) - UnitsAt(rows, id) + UnitsAt(rows[id := row], id)
  {
    var rows' := rows[id := row];
    MembershipMoves(id, PendingIds(rows), PendingIds(rows'));
    MembershipMoves(id, RunningIds(rows), RunningIds(rows'));
    var p, r := |PendingIds(rows)|, |RunningIds(rows)|;
    var p', r' := |PendingIds(rows')|, |RunningIds(rows')|;
    var wasP, wasR := if IsPending(rows, id) then 1 else 0, if IsRunning(rows, id) then 1 else 0;
    var isP, isR := if IsPending(rows', id) then 1 else 0, if IsRunning(rows', id) then 1 else 0;
    assert p' == p - wasP + isP && r' == r - wasR + isR;
    assert UnitsAt(rows, id) == 2 * wasP + wasR;
    assert UnitsAt(rows', id) == 2 * isP + isR;
    assert Work(rows') == 2 * p' + r';
    assert Work(rows) == 2 * p + r;
  }

  // Two sets that agree but for one element.
  lemma MembershipMoves<T>(x: T, s: set<T>, s': set<T>)
    requires forall y :: y != x ==> (y in s <==> y in s')
    ensures |s'| == |s| - (if x in s then 1 else 0) + (if x in s' then 1 else 0)
  {
    SetEqual(s - {x}, s' - {x});
    assert |s| == |s - {x}| + (if x in s then 1 else 0);
    assert |s'| == |s' - {x}| + (if x in s' then 1 else 0);
  }

  lemma WorkStep(s: State, e: Event)
    requires Inv(s) && Enabled(s, e)
    ensures Work(Next(s, e).rows) + Cost(e) == Work(s.rows) + Yield(e)
  {
    var rows' := Next(s, e).rows;
    if Touched(s, e).Some? {
      var id := Touched(s, e).value;
      TouchedRow(s, e);
      if e.Persist? {
        assert HandoverOf(s, e.w);
      }
      WorkOfRow(s.rows, id, rows'[id]);
      assert rows' == s.rows[id := rows'[id]];
    } else if e.Insert? {
      WorkOfRow(s.rows, e.id, rows'[e.id]);
    }
  }

  ghost predicate Balanced(states: seq<State>, events: seq<Event>, i: nat)
    requires i < |events| < |states|
  {
    Work(states[i + 1].rows) + Cost(events[i]) == Work(states[i].rows) + Yield(events[i])
  }

  lemma RunBalanced(states: seq<State>, events: seq<Event>, i: nat)
    requires IsRun(states, events) && i < |events|
    ensures Balanced(states, events, i)
  {
    InvAlways(states, events, i);
    assert states[i + 1] == Next(states[i], events[i]);
    WorkStep(states[i], events[i]);
  }

  lemma {:induction false} BalanceTelescopes(states: seq<State>, events: seq<Event>, i: nat, j: nat)
    requires i <= j <= |events| < |states|
    requires forall k :: i <= k < j ==> Balanced(states, events, k)
    ensures Work(states[j].rows) + Consumed(events, i, j) == Work(states[i].rows) + Produced(events, i, j)
    decreases j
  {
    if i < j {
      BalanceTelescopes(states, events, i, j - 1);
      assert Balanced(states, events, j - 1);
    }
  }

  // Conservation over any stretch of a run: every created execution is worth one claim and one finish. With
  // creation stopped, at most 2 * pending + running of them can still happen.
  lemma WorkConserved(states: seq<State>, events: seq<Event>, i: nat, j: nat)
    requires IsRun(states, events) && i <= j < |states|
    ensures Work(states[j].rows) + Consumed(events, i, j) == Work(states[i].rows) + Produced(events, i, j)
  {
    forall k: nat | i <= k < j
      ensures Balanced(states, events, k)
    {
      RunBalanced(states, events, k);
    }
    BalanceTelescopes(states, events, i, j);
  }

  // Steps that only the environment takes: new requests, the shutdown signal, timers and store failures.
  predicate External(e: Event) {
    e.Insert? || e.CreatorFails? || e.Cancel? || ClaimFails(e) || e.PersistError? || (e.Receive? && e.via.Tick?)
  }

  ghost predicate Quiescent(s: State) {
    forall e :: Enabled(s, e) ==> External(e)
  }

  lemma FirstExists(rows: map<Id, Row>, candidates: set<Id>) returns (choice: Option<Id>)
    requires candidates <= rows.Keys
    ensures IsFirst(rows, candidates, choice)
    decreases |candidates|
  {
    if candidates == {} {
      choice := None;
    } else {
      var c := AnyMember(candidates);
      choice := FirstExists(rows, candidates - {c});
      if choice.None? || Older(rows, c, choice.value) {
        choice := Some(c);
      }
      forall d | d in candidates && d != choice.value
        ensures Older(rows, choice.value, d)
      {
        assert d == c || d in candidates - {c};
      }
    }
  }

  // Only a worker that is parked or gone has nothing to do by itself.
  lemma BusyWorkerCanStep(s: State, w: nat) returns (e: Event)
    requires Inv(s) && w < |s.pc| && !s.pc[w].Parked? && !s.pc[w].Exited?
    ensures Enabled(s, e) && !External(e) && WorkerOf(e) == Some(w)
  {
    if Held(s.pc[w]).Some? {
      HeldStatus(s, w);
    }
    match s.pc[w] {
      case Top => e := CheckCtx(w);
      case Claiming =>
        if s.backend.Sqlite? {
          var choice := FirstExists(s.rows, PendingIds(s.rows));
          e := SqliteClaim(w, choice);
        } else {
          e := ClaimBegin(w);
        }
      case Scanning(visible) =>
        var choice := FirstExists(s.rows, Eligible(s, visible));
        e := ClaimSelect(w, choice);
      case Locked(_) => e := ClaimUpdate(w);
      case Updated(_) => e := ClaimCommit(w);
      case Claimed(_) => e := Start(w);
      case Executing(_) => e := Finish(w, RunResult(Failed, None));
      case Persisting(_, _) => e := Persist(w, 0);
      case AtSelect => e := if s.cancelled then Receive(w, Done) else if s.token then Receive(w, Token) else Block(w);
    }
  }

  lemma CreatorCanStep(s: State, id: Id) returns (e: Event)
    requires id in s.unsignalled && id !in s.silent
    ensures Enabled(s, e) && !External(e)
  {
    if AnyParked(s.pc) {
      var w :| 0 <= w < |s.pc| && s.pc[w].Parked?;
      e := Notify(id, Some(w));
    } else {
      e := Notify(id, None);
    }
  }

  lemma QuiescentWorkers(s: State)
    requires Inv(s) && Quiescent(s)
    ensures forall w :: 0 <= w < |s.pc| ==> s.pc[w].Parked? || s.pc[w].Exited?
  {
    forall w: nat | w < |s.pc|
      ensures s.pc[w].Parked? || s.pc[w].Exited?
    {
      if !s.pc[w].Parked? && !s.pc[w].Exited? {
        var e := BusyWorkerCanStep(s, w);
        assert false;
      }
    }
  }

  // When nothing but the environment can move, the queue is drained: no row is pending but those whose creator was
  // told that the insert failed, and no row is running except those a store failure left behind.
  lemma QuiescentIsDrained(states: seq<State>, events: seq<Event>, i: nat)
    requires IsRun(states, events) && i < |states|
    requires Quiescent(states[i]) && !states[i].cancelled && !states[i].missed
    ensures forall id :: IsPending(states[i].rows, id) ==> id in states[i].silent
    ensures forall id :: IsRunning(states[i].rows, id) <==> id in states[i].lost
    ensures forall id :: id in states[i].unsignalled <==> id in states[i].silent
  {
    var s := states[i];
    InvAlways(states, events, i);
    QuiescentWorkers(s);
    forall id | id in s.unsignalled
      ensures id in s.silent
    {
      if id !in s.silent {
        var e := CreatorCanStep(s, id);
        assert false;
      }
    }
    assert s.pc[0].Parked?;
    assert AnyParked(s.pc);
    forall id | !Attended(s, id)
      ensures IsPending(s.rows, id) ==> id in s.silent
    {
    }
  }

  // ---------------------------------------------------------------- shutdown

  // How many steps a worker can still take once ctx is done.
  function Rank(p: Pc): nat {
    match p
    case Claiming => 8
    case Scanning(_) => 7
    case Locked(_) => 6
    case Updated(_) => 5
    case Claimed(_) => 4
    case Executing(_) => 3
    case Persisting(_, _) => 2
    case AtSelect => 2
    case Parked => 2
    case Top => 1
    case Exited => 0
  }

  function RankSum(pc: seq<Pc>): nat {
    if pc == [] then 0 else RankSum(pc[..|pc| - 1]) + Rank(pc[|pc| - 1])
  }

  lemma {:induction false} RankSumUpdate(pc: seq<Pc>, w: nat, p: Pc)
    requires w < |pc|
    ensures RankSum(pc[w := p]) == RankSum(pc) - Rank(pc[w]) + Rank(p)
  {
    var n := |pc| - 1;
    if w < n {
      RankSumUpdate(pc[..n], w, p);
      assert pc[w := p][..n] == pc[..n][w := p];
    } else {
      assert pc[w := p][..n] == pc[..n];
    }
  }

  lemma {:induction false} RankSumBound(pc: seq<Pc>)
    ensures RankSum(pc) <= 8 * |pc|
  {
    if pc != [] {
      RankSumBound(pc[..|pc| - 1]);
    }
  }

  function WorkerSteps(events: seq<Event>, i: nat, j: nat): nat
    requires i <= j <= |events|
  {
    if i == j then 0 else WorkerSteps(events, i, j - 1) + if WorkerOf(events[j - 1]).Some? then 1 else 0
  }

  lemma RankStep(s: State, e: Event)
    requires Enabled(s, e) && s.cancelled
    ensures Next(s, e).cancelled
    ensures RankSum(Next(s, e).pc) + (if WorkerOf(e).Some? then 1 else 0) <= RankSum(s.pc)
  {
    if Mover(e).Some? {
      var w := Mover(e).value;
      RankSumUpdate(s.pc, w, Next(s, e).pc[w]);
      assert Next(s, e).pc == s.pc[w := Next(s, e).pc[w]];
    }
  }

  ghost predicate RankFalls(states: seq<State>, events: seq<Event>, i: nat)
    requires i < |events| < |states|
  {
    states[i].cancelled ==>
      && states[i + 1].cancelled
      && RankSum(states[i + 1].pc) + (if WorkerOf(events[i]).Some? then 1 else 0) <= RankSum(states[i].pc)
  }

  lemma RunRankFalls(states: seq<State>, events: seq<Event>, i: nat)
    requires IsRun(states, events) && i < |events|
    ensures RankFalls(states, events, i)
  {
    assert Enabled(states[i], events[i]) && states[i + 1] == Next(states[i], events[i]);
    if states[i].cancelled {
      RankStep(states[i], events[i]);
    }
  }

  lemma {:induction false} RankTelescopes(states: seq<State>, events: seq<Event>, i: nat, j: nat)
    requires i <= j <= |events| < |states| && states[i].cancelled
    requires forall k :: i <= k < j ==> RankFalls(states, events, k)
    ensures states[j].cancelled
    ensures WorkerSteps(events, i, j) + RankSum(states[j].pc) <= RankSum(states[i].pc)
    decreases j
  {
    if i < j {
      RankTelescopes(states, events, i, j - 1);
      assert RankFalls(states, events, j - 1);
    }
  }

  // After the shutdown signal the workers take at most eight steps each, whatever the stores and timers do.
  lemma ShutdownTerminates(states: seq<State>, events: seq<Event>, i: nat, j: nat)
    requires IsRun(states, events) && i <= j < |states| && states[i].cancelled
    ensures states[j].cancelled
    ensures WorkerSteps(events, i, j) + RankSum(states[j].pc) <= RankSum(states[i].pc) <= 8 * |states[i].pc|
  {
    RankSumBound(states[i].pc);
    forall k: nat | i <= k < j
      ensures RankFalls(states, events, k)
    {
      RunRankFalls(states, events, k);
    }
    RankTelescopes(states, events, i, j);
  }

  // ... and until a worker has exited it always has a step of its own to take.
  lemma CancelledWorkerCanStep(s: State, w: nat) returns (e: Event)
    requires Inv(s) && s.cancelled && w < |s.pc| && !s.pc[w].Exited?
    ensures Enabled(s, e) && !External(e) && WorkerOf(e) == Some(w)
  {
    if s.pc[w].Parked? {
      e := Receive(w, Done);
    } else {
      e := BusyWorkerCanStep(s, w);
    }
  }

  // When Wait returns, the running rows are exactly those whose final update or claim acknowledgement failed.
  lemma WaitLeavesNothingRunning(states: seq<State>, events: seq<Event>, i: nat)
    requires IsRun(states, events) && i < |states|
    requires forall w :: 0 <= w < |states[i].pc| ==> states[i].pc[w].Exited?
    ensures forall id :: IsRunning(states[i].rows, id) <==> id in states[i].lost
  {
    InvAlways(states, events, i);
  }

  // The event by which a row is lost: the final update of its own worker failed, or its claim was committed without
  // the worker learning of it.
  predicate Loses(s: State, e: Event, id: Id) {
    (e.PersistError? && e.w < |s.pc| && s.pc[e.w].Persisting? && s.pc[e.w].id == id) || (e.ClaimLost? && e.lostRow == id)
  }

  // A row is lost by such an event only, unless an earlier process left it; and once lost it stays running.
  lemma {:induction false} LostMeans(states: seq<State>, events: seq<Event>, i: nat, id: Id)
    requires IsRun(states, events) && i < |states|
    ensures id in states[i].lost <==> id in states[0].lost || exists j :: 0 <= j < i && Loses(states[j], events[j], id)
    ensures id in states[i].lost ==> IsRunning(states[i].rows, id)
  {
    InvAlways(states, events, i);
    if i > 0 {
      var s, e := states[i - 1], events[i - 1];
      assert Enabled(s, e) && states[i - 1 + 1] == Next(s, e);
      LostMeans(states, events, i - 1, id);
      assert id in states[i].lost <==> id in s.lost || Loses(s, e, id);
    }
  }
}
