/**
 internal/store/migrations.go: replicas that start together and apply the same sorted scripts to one database,
 and the sequential runner with its rollback.
 */
module Migrations {
  import opened Basics
  import opened Lexicographic

  // ---------------------------------------------------------------- concurrent replicas

  datatype Pc =
    | Waiting            // before or in pg_advisory_lock
    | Checking(i: nat)   // about to look up script i in schema_migrations
    | Applying(i: nat)   // transaction open: script i executed and its version inserted, not committed
    | Done               // returned nil
    | Gone               // returned an error, or crashed

  datatype State = State(
    lock: Option<nat>,      // the session holding the advisory lock
    recorded: set<string>,  // committed rows of schema_migrations
    applied: seq<string>,   // scripts whose effects were committed, in order
    pc: seq<Pc>             // one entry per replica
  )

  datatype Event =
    | Acquire(r: nat)
    | LoseLock(r: nat)    // the lock's dedicated connection drops while the replica lives on
    | Skip(r: nat)
    | Apply(r: nat)
    | Commit(r: nat)
    | Conflict(r: nat)    // the INSERT meets the primary key
    | Fail(r: nat)        // any error return, or a crash: the open transaction rolls back
    | Finish(r: nat)

  predicate Enabled(names: seq<string>, s: State, e: Event) {
    e.r < |s.pc| &&
    match e
    case Acquire(r) => s.pc[r].Waiting? && s.lock.None?
    case LoseLock(r) => s.lock == Some(r)
    case Skip(r) => s.pc[r].Checking? && s.pc[r].i < |names| && names[s.pc[r].i] in s.recorded
    case Apply(r) => s.pc[r].Checking? && s.pc[r].i < |names| && names[s.pc[r].i] !in s.recorded
    case Commit(r) => s.pc[r].Applying? && s.pc[r].i < |names| && names[s.pc[r].i] !in s.recorded
    case Conflict(r) => s.pc[r].Applying? && s.pc[r].i < |names| && names[s.pc[r].i] in s.recorded
    case Fail(r) => !s.pc[r].Done? && !s.pc[r].Gone?
    case Finish(r) => s.pc[r].Checking? && s.pc[r].i >= |names|
  }

  function Released(s: State, r: nat): Option<nat> {
    if s.lock == Some(r) then None else s.lock
  }

  function Next(names: seq<string>, s: State, e: Event): State
    requires Enabled(names, s, e)
  {
    match e
    case Acquire(r) => s.(lock := Some(r), pc := s.pc[r := Checking(0)])
    case LoseLock(r) => s.(lock := None)
    case Skip(r) => s.(pc := s.pc[r := Checking(s.pc[r].i + 1)])
    case Apply(r) => s.(pc := s.pc[r := Applying(s.pc[r].i)])
    case Commit(r) =>
      var version := names[s.pc[r].i];
      s.(pc := s.pc[r := Checking(s.pc[r].i + 1)], recorded := s.recorded + {version}, applied := s.applied + [version])
    case Conflict(r) => s.(pc := s.pc[r := Gone], lock := Released(s, r))
    case Fail(r) => s.(pc := s.pc[r := Gone], lock := Released(s, r))
    case Finish(r) => s.(pc := s.pc[r := Done], lock := Released(s, r))
  }

  // Replicas start over a database that earlier releases may have migrated in any way.
  predicate Init(s: State, before: set<string>) {
    s.lock.None? && s.recorded == before && s.applied == [] && forall r :: 0 <= r < |s.pc| ==> s.pc[r].Waiting?
  }

  ghost predicate IsRun(names: seq<string>, before: set<string>, states: seq<State>, events: seq<Event>) {
    |states| == |events| + 1 && Init(states[0], before) &&
    forall i :: 0 <= i < |events| ==>
      Enabled(names, states[i], events[i]) && states[i + 1] == Next(names, states[i], events[i])
  }

  // The scripts still to apply, in order.
  function Todo(names: seq<string>, before: set<string>): seq<string> {
    if names == [] then []
    else Todo(names[..|names| - 1], before) + if names[|names| - 1] in before then [] else [names[|names| - 1]]
  }

  // How many scripts a replica has behind it.
  function Position(p: Pc): Option<nat> {
    if p.Checking? || p.Applying? then Some(p.i) else None
  }

  // The effects so far are those of the first k scripts, less what was there before.
  ghost predicate Log(names: seq<string>, before: set<string>, s: State, k: nat) {
    k <= |names| && s.applied == Todo(names[..k], before)
    && forall v :: v in s.recorded <==> v in before || v in s.applied
  }

  predicate Passed(names: seq<string>, s: State, r: nat)
    requires r < |s.pc|
  {
    (Position(s.pc[r]).Some? ==>
       forall i :: 0 <= i < Position(s.pc[r]).value && i < |names| ==> names[i] in s.recorded) &&
    (s.pc[r].Done? ==> forall i :: 0 <= i < |names| ==> names[i] in s.recorded)
  }

  ghost predicate Inv(names: seq<string>, before: set<string>, s: State, k: nat) {
    Log(names, before, s, k) && forall r :: 0 <= r < |s.pc| ==> Passed(names, s, r)
  }

  lemma {:induction false} TodoMembers(names: seq<string>, before: set<string>)
    ensures forall v :: v in Todo(names, before) <==> v in names && v !in before
  {
    if names != [] {
      var init := names[..|names| - 1];
      TodoMembers(init, before);
      assert names == init + [names[|names| - 1]];
    }
  }

  lemma {:induction false} TodoDistinct(names: seq<string>, before: set<string>)
    requires Distinct(names)
    ensures Distinct(Todo(names, before))
  {
    if names != [] {
      var init := names[..|names| - 1];
      TodoDistinct(init, before);
      TodoMembers(init, before);
    }
  }

  // Nothing to do between j and k when all those scripts were recorded before.
  lemma {:induction false} TodoStretch(names: seq<string>, before: set<string>, j: nat, k: nat)
    requires j <= k <= |names|
    requires forall i :: j <= i < k ==> names[i] in before
    ensures Todo(names[..k], before) == Todo(names[..j], before)
    decreases k
  {
    if j < k {
      TodoStretch(names, before, j, k - 1);
      assert names[..k][..k - 1] == names[..k - 1];
    }
  }

  lemma PrefixMember(names: seq<string>, k: nat, j: nat)
    requires Distinct(names) && k <= |names| && j < |names|
    ensures names[j] in names[..k] <==> j < k
  {
    if j < k {
      assert names[..k][j] == names[j];
    } else {
      forall l | 0 <= l < k
        ensures names[..k][l] != names[j]
      {
      }
    }
  }

  // Scripts behind a replica, or behind one that is done, need no effect beyond those already logged.
  lemma PassedStretch(names: seq<string>, before: set<string>, s: State, k: nat, j: nat)
    requires Distinct(names) && Log(names, before, s, k) && k <= j <= |names|
    requires forall i :: 0 <= i < j ==> names[i] in s.recorded
    ensures s.applied == Todo(names[..j], before)
  {
    TodoMembers(names[..k], before);
    forall i | k <= i < j
      ensures names[i] in before
    {
      assert names[i] in s.recorded;
      PrefixMember(names, k, i);
    }
    TodoStretch(names, before, k, j);
  }

  // A committed script is the first one not yet recorded: the scripts before it are recorded because its replica
  // has passed them, and it is not itself, because of the primary key.
  lemma CommitExtends(names: seq<string>, before: set<string>, s: State, k: nat, r: nat)
    requires Distinct(names) && Inv(names, before, s, k) && Enabled(names, s, Commit(r))
    ensures Log(names, before, Next(names, s, Commit(r)), s.pc[r].i + 1)
  {
    var i := s.pc[r].i;
    assert Passed(names, s, r);
    TodoMembers(names[..k], before);
    PrefixMember(names, k, i);
    PassedStretch(names, before, s, k, i);
    assert names[..i + 1][..i] == names[..i];
  }

  lemma PassedKept(names: seq<string>, s: State, e: Event, r: nat)
    requires Enabled(names, s, e) && r < |s.pc| && Passed(names, s, r) && Passed(names, s, e.r)
    ensures |Next(names, s, e).pc| == |s.pc| && Passed(names, Next(names, s, e), r)
  {
  }

  lemma InvKept(names: seq<string>, before: set<string>, s: State, k: nat, e: Event) returns (k': nat)
    requires Distinct(names) && Inv(names, before, s, k) && Enabled(names, s, e)
    ensures Inv(names, before, Next(names, s, e), k')
  {
    k' := k;
    if e.Commit? {
      CommitExtends(names, before, s, k, e.r);
      k' := s.pc[e.r].i + 1;
    }
    forall r: nat | r < |Next(names, s, e).pc|
      ensures Passed(names, Next(names, s, e), r)
    {
      PassedKept(names, s, e, r);
    }
  }

  lemma {:induction false} InvAlways(names: seq<string>, before: set<string>, states: seq<State>, events: seq<Event>, i: nat)
    returns (k: nat)
    requires Distinct(names) && IsRun(names, before, states, events) && i < |states|
    ensures Inv(names, before, states[i], k)
  {
    if i == 0 {
      k := 0;
      assert names[..0] == [];
    } else {
      var j := InvAlways(names, before, states, events, i - 1);
      k := InvKept(names, before, states[i - 1], j, events[i - 1]);
    }
  }

  // Exactly once, under every interleaving, with failures, crashes and even lost locks: no script takes effect
  // twice, the record is what was there plus what took effect, and what took effect is always a prefix of
  // the sorted scripts that were missing.
  lemma ExactlyOnce(names: seq<string>, before: set<string>, states: seq<State>, events: seq<Event>, i: nat)
    requires Distinct(names) && IsRun(names, before, states, events) && i < |states|
    ensures Distinct(states[i].applied)
    ensures forall v :: v in states[i].recorded <==> v in before || v in states[i].applied
    ensures forall v :: v in states[i].applied ==> v !in before
    ensures states[i].applied <= Todo(names, before)
    ensures (exists r :: 0 <= r < |states[i].pc| && states[i].pc[r].Done?) ==>
              states[i].applied == Todo(names, before) && forall v :: v in names ==> v in states[i].recorded
  {
    var s := states[i];
    var k := InvAlways(names, before, states, events, i);
    TodoDistinct(names[..k], before);
    TodoMembers(names[..k], before);
    TodoPrefix(names, before, k);
    if r :| 0 <= r < |s.pc| && s.pc[r].Done? {
      assert Passed(names, s, r);
      PassedStretch(names, before, s, k, |names|);
      assert names[..|names|] == names;
    }
  }

  lemma {:induction false} TodoPrefix(names: seq<string>, before: set<string>, k: nat)
    requires k <= |names|
    ensures Todo(names[..k], before) <= Todo(names, before)
    decreases |names|
  {
    if k < |names| {
      TodoPrefix(names[..|names| - 1], before, k);
      assert names[..|names| - 1][..k] == names[..k];
    } else {
      assert names[..k] == names;
    }
  }

  // ---------------------------------------------------------------- what the lock is for

  // A replica past the lock and not yet back.
  predicate Inside(p: Pc) { p.Checking? || p.Applying? }

  ghost predicate Serialised(s: State, names: seq<string>) {
    (forall r :: 0 <= r < |s.pc| && Inside(s.pc[r]) ==> s.lock == Some(r)) &&
    (forall r :: 0 <= r < |s.pc| && s.pc[r].Applying? ==> s.pc[r].i < |names| && names[s.pc[r].i] !in s.recorded)
  }

  // As long as no lock is lost, the replicas run one after the other and none ever meets the primary key: starting
  // together makes nobody fail.
  lemma {:induction false} LockPreventsConflicts(names: seq<string>, before: set<string>, states: seq<State>, events: seq<Event>, i: nat)
    requires IsRun(names, before, states, events) && i < |states|
    requires forall j :: 0 <= j < i ==> !events[j].LoseLock?
    ensures Serialised(states[i], names)
    ensures i < |events| ==> !events[i].Conflict?
  {
    if i > 0 {
      LockPreventsConflicts(names, before, states, events, i - 1);
      var s, e := states[i - 1], events[i - 1];
      assert Enabled(names, s, e) && states[i - 1 + 1] == Next(names, s, e);
    }
    if i < |events| {
      assert Enabled(names, states[i], events[i]);
    }
  }

  // The lock is held only by a replica that is past it and not yet back.
  lemma {:induction false} LockIsReturned(names: seq<string>, before: set<string>, states: seq<State>, events: seq<Event>, i: nat)
    requires IsRun(names, before, states, events) && i < |states|
    ensures states[i].lock.Some? ==> states[i].lock.value < |states[i].pc| && Inside(states[i].pc[states[i].lock.value])
  {
    if i > 0 {
      LockIsReturned(names, before, states, events, i - 1);
      var s, e := states[i - 1], events[i - 1];
      assert Enabled(names, s, e) && states[i - 1 + 1] == Next(names, s, e);
    }
  }

  // So where no lock is lost, a replica that has not come to its end can go on, or the one it waits for can.
  lemma ReplicasProceed(names: seq<string>, before: set<string>, states: seq<State>, events: seq<Event>, i: nat, r: nat)
    returns (e: Event)
    requires IsRun(names, before, states, events) && i < |states|
    requires forall j :: 0 <= j < i ==> !events[j].LoseLock?
    requires r < |states[i].pc| && !states[i].pc[r].Done? && !states[i].pc[r].Gone?
    ensures Enabled(names, states[i], e) && !e.Fail? && !e.LoseLock? && !e.Conflict?
    ensures e.r == if states[i].lock.Some? then states[i].lock.value else r
  {
    var s := states[i];
    LockIsReturned(names, before, states, events, i);
    LockPreventsConflicts(names, before, states, events, i);
    if s.lock.None? {
      e := Acquire(r);
    } else {
      var h := s.lock.value;
      e := match s.pc[h]
        case Applying(_) => Commit(h)
        case Checking(j) => if j >= |names| then Finish(h) else if names[j] in s.recorded then Skip(h) else Apply(h)
        case _ => Acquire(h);
    }
  }

  // ---------------------------------------------------------------- one replica, and rollback

  // The effect of scripts on a schema, one after the other.
  function ApplyAll<S>(up: (string, S) -> S, scripts: seq<string>, schema: S): S {
    if scripts == [] then schema
    else up(scripts[|scripts| - 1], ApplyAll(up, scripts[..|scripts| - 1], schema))
  }

  function Elements(names: seq<string>): set<string> { set v | v in names }

  lemma ScriptStep<S>(up: (string, S) -> S, names: seq<string>, i: nat, before: set<string>, schema: S)
    requires Distinct(names) && i < |names|
    ensures names[i] in before + Elements(names[..i]) <==> names[i] in before
    ensures Elements(names[..i + 1]) == Elements(names[..i]) + {names[i]}
    ensures ApplyAll(up, Todo(names[..i + 1], before), schema) ==
            if names[i] in before then ApplyAll(up, Todo(names[..i], before), schema)
            else up(names[i], ApplyAll(up, Todo(names[..i], before), schema))
  {
    PrefixMember(names, i, i);
    assert names[i] in Elements(names[..i]) <==> names[i] in names[..i];
    assert names[..i + 1] == names[..i] + [names[i]];
    assert names[..i + 1][..i] == names[..i];
    var todo := Todo(names[..i], before);
    assert names[..i + 1][i] == names[i];
    assert Todo(names[..i + 1], before) == todo + if names[i] in before then [] else [names[i]];
    assert todo + [] == todo && (todo + [names[i]])[..|todo|] == todo;
    assert ApplyAll(up, todo + [names[i]], schema) == up(names[i], ApplyAll(up, todo, schema));
  }

  class Database<S> {
    var schema: S
    var recorded: set<string>

    constructor (schema: S)
      ensures this.schema == schema && recorded == {}
    {
      this.schema, recorded := schema, {};
    }

    // runMigrations past the lock. `fails(i)` says that some statement for script i returns an error, in which
    // case its transaction has no effect.
    method RunMigrations(names: seq<string>, up: (string, S) -> S, fails: nat -> bool) returns (reached: nat)
      requires Distinct(names)
      modifies this
      ensures reached <= |names| && (reached < |names| ==> fails(reached))
      ensures schema == ApplyAll(up, Todo(names[..reached], old(recorded)), old(schema))
      ensures recorded == old(recorded) + Elements(names[..reached])
    {
      reached := 0;
      while reached < |names|
        invariant reached <= |names|
        invariant schema == ApplyAll(up, Todo(names[..reached], old(recorded)), old(schema))
        invariant recorded == old(recorded) + Elements(names[..reached])
      {
        if fails(reached) {
          return;
        }
        var version := names[reached];
        ScriptStep(up, names, reached, old(recorded), old(schema));
        if version !in recorded {
          schema, recorded := up(version, schema), recorded + {version};
        }
        reached := reached + 1;
      }
    }

    // RollbackLastMigration: SELECT version ... ORDER BY version DESC LIMIT 1, then the down script and the DELETE in
    // one transaction. None when nothing is recorded, when the script is missing, or when a statement fails.
    method RollbackLast(down: (string, S) -> S, usable: string -> bool) returns (version: Option<string>)
      modifies this
      ensures version.None? ==> schema == old(schema) && recorded == old(recorded)
      ensures version.Some? ==> IsLast(version.value, old(recorded)) && usable(version.value)
                                && schema == down(version.value, old(schema))
                                && recorded == old(recorded) - {version.value}
      ensures version.None? <==> forall v :: IsLast(v, old(recorded)) ==> !usable(v)
    {
      var last := Last(recorded);
      version := None;
      if last.Some? {
        if usable(last.value) {
          schema, recorded := down(last.value, schema), recorded - {last.value};
          version := last;
        }
        forall v | IsLast(v, old(recorded))
          ensures v == last.value
        {
          LastUnique(v, last.value, old(recorded));
        }
      }
    }
  }

  ghost predicate IsLast(v: string, versions: set<string>) {
    v in versions && forall w :: w in versions && w != v ==> Less(w, v)
  }

  lemma LastUnique(v: string, w: string, versions: set<string>)
    requires IsLast(v, versions) && IsLast(w, versions)
    ensures v == w
  {
    if v != w {
      LessTransitive(v, w, v);
      LessIrreflexive(v);
    }
  }

  method Last(versions: set<string>) returns (last: Option<string>)
    ensures last.None? <==> versions == {}
    ensures last.Some? ==> IsLast(last.value, versions)
  {
    last := None;
    var rest := versions;
    ghost var seen: set<string> := {};
    while rest != {}
      invariant rest + seen == versions
      invariant last.None? <==> seen == {}
      invariant last.Some? ==> IsLast(last.value, seen)
      decreases |rest|
    {
      var v :| v in rest;
      if last.None? || Less(last.value, v) {
        forall w | w in seen && w != v
          ensures Less(w, v)
        {
          if w != last.value {
            LessTransitive(w, last.value, v);
          }
        }
        last := Some(v);
      } else {
        LessTotal(v, last.value);
      }
      rest, seen := rest - {v}, seen + {v};
    }
    assert seen == versions;
  }

  // A second run over a fully recorded list changes nothing.
  lemma SecondRunChangesNothing<S>(up: (string, S) -> S, names: seq<string>, recorded: set<string>, schema: S, reached: nat)
    requires reached <= |names| && forall v :: v in names ==> v in recorded
    ensures ApplyAll(up, Todo(names[..reached], recorded), schema) == schema
    ensures recorded + Elements(names[..reached]) == recorded
  {
    var todo := Todo(names[..reached], recorded);
    assert |todo| > 0 ==> todo[0] in todo;
    TodoMembers(names[..reached], recorded);
  }

  // Rolling back the last version of a fully migrated database and running again restores schema and record, when
  // that version was the last script applied and its down script inverts its up script.
  lemma RollbackThenRun<S>(up: (string, S) -> S, down: (string, S) -> S, names: seq<string>, recorded: set<string>,
                           schema: S, earlier: S, last: string)
    requires Distinct(names) && (forall v :: v in names ==> v in recorded) && last in names
    requires schema == up(last, earlier) && down(last, up(last, earlier)) == earlier
    ensures ApplyAll(up, Todo(names, recorded - {last}), down(last, schema)) == schema
    ensures recorded - {last} + Elements(names) == recorded
  {
    TodoDistinct(names, recorded - {last});
    var todo := Todo(names, recorded - {last});
    assert |todo| > 0 ==> todo[0] in todo;
    assert |todo| > 1 ==> todo[1] in todo && todo[0] != todo[1];
    TodoMembers(names, recorded - {last});
    assert last in todo && forall v :: v in todo ==> v == last;
    assert todo == [last];
    assert todo[..0] == [];
  }

  // ---------------------------------------------------------------- order of scripts

  const UP := ".up.sql"

  predicate IsUp(file: string) { |file| >= |UP| && file[|file| - |UP|..] == UP }

  function Matching(entries: seq<string>): seq<string> {
    if entries == [] then []
    else Matching(entries[..|entries| - 1]) + if IsUp(entries[|entries| - 1]) then [entries[|entries| - 1]] else []
  }

  // listMigrations and the TrimSuffix of runMigrations: the versions in the order they are applied.
  function Versions(entries: seq<string>): seq<string> {
    var files := Sort(Matching(entries));
    seq(|files|, i requires 0 <= i < |files| => if IsUp(files[i]) then files[i][..|files[i]| - |UP|] else files[i])
  }

  lemma {:induction false} MatchingDistinct(entries: seq<string>)
    requires Distinct(entries)
    ensures Distinct(Matching(entries)) && forall f :: f in Matching(entries) <==> f in entries && IsUp(f)
  {
    if entries != [] {
      var init := entries[..|entries| - 1];
      MatchingDistinct(init);
      assert entries == init + [entries[|entries| - 1]];
    }
  }

  // The directory's scripts, each once, in file-name order; so the versions a run walks are distinct.
  lemma VersionsDistinct(entries: seq<string>)
    requires Distinct(entries)
    ensures Distinct(Versions(entries))
    ensures forall v :: v in Versions(entries) <==> v + ".up.sql" in entries
    ensures forall i, j :: 0 <= i < j < |Versions(entries)| ==> Less(Versions(entries)[i] + UP, Versions(entries)[j] + UP)
  {
    MatchingDistinct(entries);
    SortIsSorted(Matching(entries));
    var files, versions := Sort(Matching(entries)), Versions(entries);
    forall i | 0 <= i < |files|
      ensures versions[i] + UP == files[i]
    {
      assert files[i] in Matching(entries);
    }
    forall i, j | 0 <= i < j < |versions|
      ensures versions[i] != versions[j]
    {
      LessIrreflexive(files[i]);
    }
    forall v
      ensures v in versions <==> v + UP in entries
    {
      if v + UP in entries {
        assert IsUp(v + UP);
        assert v + UP in files;
        var i :| 0 <= i < |files| && files[i] == v + UP;
        assert versions[i] == (v + UP)[..|v|] == v;
      }
    }
  }

  // runMigrations takes the scripts in file-name order, RollbackLastMigration takes the greatest version. The two
  // orders agree on versions of which neither is a prefix of the other ...
  lemma {:induction false} FileOrderIsVersionOrder(a: string, b: string)
    requires !(a <= b) && !(b <= a)
    ensures Less(a + UP, b + UP) <==> Less(a, b)
  {
    assert (a + UP)[0] == a[0] && (b + UP)[0] == b[0];
    if a[0] == b[0] {
      assert (a + UP)[1..] == a[1..] + UP && (b + UP)[1..] == b[1..] + UP;
      assert a == [a[0]] + a[1..] && b == [b[0]] + b[1..];
      FileOrderIsVersionOrder(a[1..], b[1..]);
    }
  }

  // ... and on a version extending another exactly when what it adds sorts after the suffix.
  lemma ExtendedVersionOrder(a: string, rest: string)
    requires rest != ""
    ensures Less(a, a + rest)
    ensures Less(a + UP, a + rest + UP) <==> Less(UP, rest + UP)
  {
    LessConcat(a, "", a, rest);
    assert a + "" == a;
    LessConcat(a, UP, a, rest + UP);
    assert a + rest + UP == a + (rest + UP);
    LessIrreflexive(a);
  }
}
