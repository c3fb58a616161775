/**
 Undoing and redoing a migration: RollbackLastMigration after runMigrations, and runMigrations again. The rollback
 picks the greatest version, the run applies scripts in file-name order, so it matters which version is both.
 */
module MigrationRestore {
  import opened Basics
  import opened Lexicographic
  import opened Migrations

  // A down script undoes its up script.
  ghost predicate Inverse<S(!new)>(up: (string, S) -> S, down: (string, S) -> S) {
    forall version, schema :: down(version, up(version, schema)) == schema
  }

  // What a run that meets no failure makes of a schema.
  function AfterRun<S>(up: (string, S) -> S, names: seq<string>, recorded: set<string>, schema: S): S {
    ApplyAll(up, Todo(names, recorded), schema)
  }

  // A full run over a database that had recorded `before`, the rollback of `last`, and a second full run end with the
  // schema and the record that the first run ended with.
  ghost predicate Restores<S>(up: (string, S) -> S, down: (string, S) -> S, names: seq<string>, before: set<string>,
                              schema: S, last: string)
  {
    var migrated, recorded := AfterRun(up, names, before, schema), before + Elements(names);
    && AfterRun(up, names, recorded - {last}, down(last, migrated)) == migrated
    && recorded - {last} + Elements(names) == recorded
  }

  predicate EndsWith(s: seq<string>, x: string) {
    s != [] && s[|s| - 1] == x
  }

  // The three calls on one database are what Restores speaks of.
  method RunRollbackRun<S(!new)>(db: Database<S>, names: seq<string>, up: (string, S) -> S, down: (string, S) -> S)
    returns (version: Option<string>)
    requires Distinct(names) && names != []
    modifies db
    ensures version.Some? && IsLast(version.value, old(db.recorded) + Elements(names))
    ensures Restores(up, down, names, old(db.recorded), old(db.schema), version.value) <==>
            db.schema == AfterRun(up, names, old(db.recorded), old(db.schema))
            && db.recorded == old(db.recorded) + Elements(names)
  {
    ghost var before := db.recorded;
    var reached := db.RunMigrations(names, up, _ => false);
    assert names[..reached] == names && names[0] in db.recorded;
    version := db.RollbackLast(down, _ => true);
    assert version.Some? by {
      var last := GreatestExists(before + Elements(names));
    }
    reached := db.RunMigrations(names, up, _ => false);
    assert names[..reached] == names;
  }

  lemma GreatestExists(versions: set<string>) returns (last: string)
    requires versions != {}
    ensures IsLast(last, versions)
    decreases |versions|
  {
    last :| last in versions;
    var rest := versions - {last};
    if rest != {} {
      var other := GreatestExists(rest);
      LessTotal(last, other);
      forall w | w in versions && w != last && Less(other, last)
        ensures Less(w, last)
      {
        if w != other {
          LessTransitive(w, other, last);
        }
      }
      if Less(last, other) {
        last := other;
      }
    }
  }

  // When the version rolled back is the script that the run applied last, every pair of inverse scripts restores.
  lemma RestoresIfLastApplied<S(!new)>(up: (string, S) -> S, down: (string, S) -> S, names: seq<string>,
                                       before: set<string>, schema: S, last: string)
    requires Distinct(names) && Inverse(up, down) && EndsWith(Todo(names, before), last)
    ensures Restores(up, down, names, before, schema, last)
  {
    var todo, recorded := Todo(names, before), before + Elements(names);
    TodoMembers(names, before);
    assert last in todo;
    var earlier := ApplyAll(up, todo[..|todo| - 1], schema);
    assert down(last, up(last, earlier)) == earlier;
    RollbackThenRun(up, down, names, recorded, up(last, earlier), earlier, last);
  }

  // ---------------------------------------------------------------- and only then

  // A schema that records what was done to it: up appends, down takes the end off.
  function Append(version: string, schema: seq<string>): seq<string> {
    schema + [version]
  }

  function TakeOff(version: string, schema: seq<string>): seq<string> {
    if schema == [] then [] else schema[..|schema| - 1]
  }

  lemma {:induction false} AppendsAll(scripts: seq<string>, schema: seq<string>)
    ensures ApplyAll(Append, scripts, schema) == schema + scripts
  {
    if scripts != [] {
      AppendsAll(scripts[..|scripts| - 1], schema);
      assert scripts == scripts[..|scripts| - 1] + [scripts[|scripts| - 1]];
    }
  }

  lemma LogInverse()
    ensures Inverse(Append, TakeOff)
  {
    forall version, schema
      ensures TakeOff(version, Append(version, schema)) == schema
    {
      assert (schema + [version])[..|schema|] == schema;
    }
  }

  // What is to do after the rollback is the rolled-back script, if it is one of these at all.
  lemma TodoAfterRollback(names: seq<string>, recorded: set<string>, last: string)
    requires Distinct(names) && forall v :: v in names ==> v in recorded
    ensures Todo(names, recorded - {last}) == if last in names then [last] else []
  {
    var todo := Todo(names, recorded - {last});
    TodoDistinct(names, recorded - {last});
    assert |todo| > 0 ==> todo[0] in todo;
    assert |todo| > 1 ==> todo[1] in todo && todo[0] != todo[1];
    TodoMembers(names, recorded - {last});
    assert forall v :: v in todo ==> v == last && last in names;
    assert last in names ==> last in todo;
  }

  lemma NotRestoredOtherwise(names: seq<string>, before: set<string>, last: string)
    requires Distinct(names) && last in before + Elements(names) && !EndsWith(Todo(names, before), last)
    ensures !Restores(Append, TakeOff, names, before, [], last)
  {
    var todo, recorded := Todo(names, before), before + Elements(names);
    AppendsAll(todo, []);
    assert [] + todo == todo;
    TodoAfterRollback(names, recorded, last);
    if last in names {
      AppendsAll([last], TakeOff(last, todo));
      var again := TakeOff(last, todo) + [last];
      assert again[|again| - 1] == last;
    } else {
      assert last in recorded && last !in recorded - {last} + Elements(names);
    }
  }

  // The exact condition, for any scripts and any earlier record: undoing and redoing the last migration restores the
  // database for all inverse scripts if and only if the greatest recorded version is the script applied last.
  lemma RestoreExactly(names: seq<string>, before: set<string>, last: string)
    requires Distinct(names) && IsLast(last, before + Elements(names))
    ensures (forall up, down, schema: seq<string> ::
               Inverse(up, down) ==> Restores(up, down, names, before, schema, last))
       <==> EndsWith(Todo(names, before), last)
  {
    if EndsWith(Todo(names, before), last) {
      forall up, down, schema: seq<string> | Inverse(up, down)
        ensures Restores(up, down, names, before, schema, last)
      {
        RestoresIfLastApplied(up, down, names, before, schema, last);
      }
    } else {
      LogInverse();
      NotRestoredOtherwise(names, before, last);
    }
  }

  // ---------------------------------------------------------------- in terms of the scripts' names

  // Of a directory, the greatest version is the last script applied exactly when every version that it extends sorts
  // before it as a file name too, which is a matter of what it adds.
  lemma GreatestIsLastFile(entries: seq<string>, last: string)
    requires Lexicographic.Distinct(entries) && IsLast(last, Elements(Versions(entries)))
    ensures EndsWith(Versions(entries), last)
       <==> forall v :: v in Versions(entries) && v != last && v <= last ==> Less(UP, last[|v|..] + UP)
  {
    var versions := Versions(entries);
    VersionsDistinct(entries);
    var n := |versions| - 1;
    if EndsWith(versions, last) {
      forall v | v in versions && v != last && v <= last
        ensures Less(UP, last[|v|..] + UP)
      {
        var i :| 0 <= i < |versions| && versions[i] == v;
        assert Less(versions[i] + UP, versions[n] + UP);
        assert last == v + last[|v|..];
        ExtendedVersionOrder(v, last[|v|..]);
      }
    } else {
      var f := versions[n];
      var i :| 0 <= i < |versions| && versions[i] == last;
      assert Less(versions[i] + UP, versions[n] + UP);
      assert f in Elements(versions) && Less(f, last);
      LaterFileExtended(f, last);
    }
  }

  lemma LessAsymmetric(a: string, b: string)
    requires Less(a, b)
    ensures !Less(b, a)
  {
    LessIrreflexive(a);
    if Less(b, a) {
      LessTransitive(a, b, a);
    }
  }

  lemma ExtendedFileFirst(v: string, rest: string)
    requires rest != "" && Less(v + rest + UP, v + UP)
    ensures !Less(UP, rest + UP)
  {
    ExtendedVersionOrder(v, rest);
    LessAsymmetric(v + rest + UP, v + UP);
  }

  lemma ExtensionIsGreater(v: string, w: string)
    requires v <= w
    ensures !Less(w, v)
  {
    LessIrreflexive(v);
    assert w == v + w[|v|..] && v + "" == v;
    if w[|v|..] != "" {
      ExtendedVersionOrder(v, w[|v|..]);
      LessAsymmetric(v, w);
    }
  }

  // A smaller version whose file comes later is extended by the greater one.
  lemma LaterFileExtended(f: string, last: string)
    requires Less(f, last) && Less(last + UP, f + UP)
    ensures f <= last && f != last && !Less(UP, last[|f|..] + UP)
  {
    LessIrreflexive(last);
    LessAsymmetric(last + UP, f + UP);
    if last <= f {
      ExtensionIsGreater(last, f);
    } else if f <= last {
      assert last == f + last[|f|..] && f + "" == f;
      ExtendedFileFirst(f, last[|f|..]);
    } else {
      FileOrderIsVersionOrder(f, last);
    }
  }

  // So for a directory of scripts and a fresh database: undo and redo restores for all inverse scripts if and only if
  // no version is extended, by the greatest one, with something that sorts its file before.
  lemma RestoreByNames(entries: seq<string>, last: string)
    requires Lexicographic.Distinct(entries) && IsLast(last, Elements(Versions(entries)))
    ensures (forall up, down, schema: seq<string> ::
               Inverse(up, down) ==> Restores(up, down, Versions(entries), {}, schema, last))
       <==> forall v :: v in Versions(entries) && v != last && v <= last ==> Less(UP, last[|v|..] + UP)
  {
    var versions := Versions(entries);
    VersionsDistinct(entries);
    TodoStart(versions);
    assert {} + Elements(versions) == Elements(versions);
    RestoreExactly(versions, {}, last);
    GreatestIsLastFile(entries, last);
  }

  lemma {:induction false} TodoStart(names: seq<string>)
    ensures Todo(names, {}) == names
  {
    if names != [] {
      TodoStart(names[..|names| - 1]);
      assert names == names[..|names| - 1] + [names[|names| - 1]];
    }
  }

  // Two scripts for which it fails, whatever the version: an extension that starts below the full stop, such as a
  // hyphen, is applied first, and is yet the one that is rolled back.
  lemma HyphenatedVersionNotRestored(v: string, rest: string)
    requires rest != "" && rest[0] < '.'
    ensures var names := Versions([v + UP, v + rest + UP]);
            IsLast(v + rest, Elements(names)) && !Restores(Append, TakeOff, names, {}, [], v + rest)
  {
    assert (rest + UP)[0] == rest[0];
    PairNotRestored(v, rest);
  }

  // The same for any extension that sorts before the suffix.
  lemma PairNotRestored(v: string, rest: string)
    requires rest != "" && !Less(UP, rest + UP)
    ensures var names := Versions([v + UP, v + rest + UP]);
            IsLast(v + rest, Elements(names)) && !Restores(Append, TakeOff, names, {}, [], v + rest)
  {
    var entries, last := [v + UP, v + rest + UP], v + rest;
    PairVersions(entries, v, last);
    PairGreatest(Versions(entries), v, rest);
    GreatestIsLastFile(entries, last);
    assert last[|v|..] == rest;
    VersionsDistinct(entries);
    FreshNotRestored(Versions(entries), last);
  }

  lemma PairGreatest(names: seq<string>, v: string, rest: string)
    requires rest != "" && forall x :: x in Elements(names) <==> x == v || x == v + rest
    ensures IsLast(v + rest, Elements(names)) && v in names && v != v + rest
  {
    ExtendedVersionOrder(v, rest);
    assert v in Elements(names) && v + rest in Elements(names);
  }

  lemma FreshNotRestored(names: seq<string>, last: string)
    requires Distinct(names) && last in Elements(names) && !EndsWith(names, last)
    ensures !Restores(Append, TakeOff, names, {}, [], last)
  {
    TodoStart(names);
    NotRestoredOtherwise(names, {}, last);
  }

  lemma PairVersions(entries: seq<string>, v: string, w: string)
    requires entries == [v + UP, w + UP] && |v| < |w|
    ensures Lexicographic.Distinct(entries)
    ensures forall x :: x in Elements(Versions(entries)) <==> x == v || x == w
  {
    assert |entries[0]| < |entries[1]|;
    VersionsDistinct(entries);
    assert entries[0] in entries && entries[1] in entries;
    forall x | x in Versions(entries)
      ensures x == v || x == w
    {
      SameStem(x, v);
      SameStem(x, w);
    }
  }

  lemma SameStem(x: string, y: string)
    ensures x + UP == y + UP ==> x == y
  {
    assert (x + UP)[..|x|] == x && (y + UP)[..|y|] == y;
    assert |x + UP| == |y + UP| ==> |x| == |y|;
  }
}
