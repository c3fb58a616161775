/** What parseAWSFilters promises: the shape of its result, when it fails, and that printing and reparsing is the identity. */
module FilterProperties {
  import opened Basics
  import opened Lexicographic
  import opened FilterParser

  // ---------------------------------------------------------------- trimming and splitting

  lemma {:induction false} TrimLeftSpec(s: string)
    ensures TrimLeft(s) != "" ==> !IsSpace(TrimLeft(s)[0])
    ensures forall c :: c in TrimLeft(s) ==> c in s
    ensures forall c :: c in s && !IsSpace(c) ==> c in TrimLeft(s)
  {
    if s != "" && IsSpace(s[0]) {
      TrimLeftSpec(s[1..]);
      assert s == [s[0]] + s[1..];
    }
  }

  lemma {:induction false} TrimRightSpec(s: string)
    ensures TrimRight(s) != "" ==> !IsSpace(TrimRight(s)[|TrimRight(s)| - 1]) && TrimRight(s)[0] == s[0]
    ensures forall c :: c in TrimRight(s) ==> c in s
    ensures forall c :: c in s && !IsSpace(c) ==> c in TrimRight(s)
  {
    if s != "" && IsSpace(s[|s| - 1]) {
      TrimRightSpec(s[..|s| - 1]);
      assert s == s[..|s| - 1] + [s[|s| - 1]];
    }
  }

  // Trim takes white space off both ends and nothing else.
  lemma TrimSpec(s: string)
    ensures Trimmed(Trim(s))
    ensures forall c :: c in Trim(s) ==> c in s
    ensures forall c :: c in s && !IsSpace(c) ==> c in Trim(s)
    ensures Trimmed(s) ==> Trim(s) == s
  {
    TrimLeftSpec(s);
    TrimRightSpec(TrimLeft(s));
  }

  ghost predicate AllSpace(s: string) {
    forall k :: 0 <= k < |s| ==> IsSpace(s[k])
  }

  lemma {:induction false} TrimLeftTakes(s: string) returns (i: nat)
    ensures i <= |s| && TrimLeft(s) == s[i..] && AllSpace(s[..i])
  {
    i := 0;
    if s != "" && IsSpace(s[0]) {
      var j := TrimLeftTakes(s[1..]);
      i := j + 1;
      assert s[..i] == [s[0]] + s[1..][..j];
    }
  }

  lemma {:induction false} TrimRightTakes(s: string) returns (j: nat)
    ensures j <= |s| && TrimRight(s) == s[..j] && AllSpace(s[j..])
  {
    j := |s|;
    if s != "" && IsSpace(s[|s| - 1]) {
      var init := s[..|s| - 1];
      j := TrimRightTakes(init);
      assert init[..j] == s[..j] && s[j..] == init[j..] + [s[|s| - 1]];
    }
  }

  // What Trim leaves is one piece of the input, with nothing but white space before and after it.
  lemma TrimIsSlice(s: string) returns (i: nat, j: nat)
    ensures i <= j <= |s| && Trim(s) == s[i..j] && AllSpace(s[..i]) && AllSpace(s[j..])
  {
    i := TrimLeftTakes(s);
    var n := TrimRightTakes(s[i..]);
    j := i + n;
    assert s[i..][..n] == s[i..j] && s[i..][n..] == s[j..];
  }

  lemma {:induction false} IndexOf(a: string, c: char, b: string)
    requires c !in a
    ensures Index(a + [c] + b, c) == |a|
    ensures Index(a, c) == |a|
  {
    if a == "" {
      assert a + [c] + b == [c] + b;
    } else {
      assert (a + [c] + b)[1..] == a[1..] + [c] + b;
      IndexOf(a[1..], c, b);
    }
  }

  lemma {:induction false} SplitHasNoSeparator(s: string, c: char)
    ensures forall k :: 0 <= k < |Split(s, c)| ==> c !in Split(s, c)[k]
    decreases |s|
  {
    var i := Index(s, c);
    if i == |s| {
      assert s[..i] == s;
    } else {
      SplitHasNoSeparator(s[i + 1..], c);
    }
  }

  lemma {:induction false} SplitOfJoin(parts: seq<string>, c: char)
    requires parts != [] && forall k :: 0 <= k < |parts| ==> c !in parts[k]
    ensures Split(Join(parts, c), c) == parts
  {
    if |parts| == 1 {
      IndexOf(parts[0], c, "");
    } else {
      var rest := Join(parts[1..], c);
      SplitOfJoin(parts[1..], c);
      IndexOf(parts[0], c, rest);
      var s := parts[0] + [c] + rest;
      assert s[..|parts[0]|] == parts[0] && s[|parts[0]| + 1..] == rest;
    }
  }

  // ---------------------------------------------------------------- pairs

  // What a parsed pair looks like. The value may contain '=': only the first one separates.
  ghost predicate CleanPair(p: Pair) {
    p.name != "" && Trimmed(p.name) && Trimmed(p.value) && '=' !in p.name && ',' !in p.name && ',' !in p.value
  }

  function Text(p: Pair): string { p.name + ['='] + p.value }

  lemma PairIsClean(part: string)
    requires ',' !in part && ParsePart(part).Good?
    ensures CleanPair(ParsePart(part).pair)
  {
    var text := Trim(part);
    TrimSpec(part);
    var i := Index(text, '=');
    TrimSpec(text[..i]);
    TrimSpec(text[i + 1..]);
  }

  lemma TextTrimmed(p: Pair)
    requires CleanPair(p)
    ensures Text(p) != "" && Trim(Text(p)) == Text(p) && ',' !in Text(p)
  {
    var text := Text(p);
    assert text[0] == p.name[0];
    assert text[|text| - 1] == if p.value == "" then '=' else p.value[|p.value| - 1];
    TrimSpec(text);
  }

  lemma TextParts(p: Pair)
    requires CleanPair(p)
    ensures var text := Text(p);
            Index(text, '=') == |p.name| < |text| && text[..|p.name|] == p.name && text[|p.name| + 1..] == p.value
  {
    IndexOf(p.name, '=', p.value);
  }

  lemma TextParses(p: Pair)
    requires CleanPair(p)
    ensures ParsePart(Text(p)) == Good(p)
  {
    TextTrimmed(p);
    TextParts(p);
    TrimSpec(p.name);
    TrimSpec(p.value);
  }

  lemma {:induction false} PairsAreClean(parts: seq<string>)
    requires forall k :: 0 <= k < |parts| ==> ',' !in parts[k]
    ensures ParseParts(parts).Ok? ==> forall k :: 0 <= k < |ParseParts(parts).value| ==> CleanPair(ParseParts(parts).value[k])
  {
    if parts != [] {
      PairsAreClean(parts[1..]);
      if ParsePart(parts[0]).Good? {
        PairIsClean(parts[0]);
      }
    }
  }

  predicate AnyBad(parts: seq<string>) { exists k :: 0 <= k < |parts| && ParsePart(parts[k]).Bad? }

  predicate AllBlank(parts: seq<string>) { forall k :: 0 <= k < |parts| ==> ParsePart(parts[k]).Blank? }

  predicate HasFilter(fs: seq<Filter>, name: string) { exists i :: 0 <= i < |fs| && fs[i].name == name }

  // The parse of the parts fails exactly when some entry is neither blank nor a pair, and finds no pair exactly when
  // all entries are blank.
  lemma {:induction false} PartsOutcome(parts: seq<string>)
    ensures ParseParts(parts).Err? <==> AnyBad(parts)
    ensures ParseParts(parts) == Ok([]) <==> AllBlank(parts)
  {
    if parts != [] {
      PartsOutcome(parts[1..]);
      assert forall k :: 1 <= k < |parts| ==> parts[1..][k - 1] == parts[k];
      if k :| 0 <= k < |parts[1..]| && ParsePart(parts[1..][k]).Bad? {
        assert ParsePart(parts[k + 1]).Bad?;
      }
    }
  }

  // ---------------------------------------------------------------- the result

  ghost predicate NamesSorted(fs: seq<Filter>) {
    forall i, j :: 0 <= i < j < |fs| ==> Less(fs[i].name, fs[j].name)
  }

  // Names come out non-empty, clean, distinct and sorted, each with at least one value.
  ghost predicate WellFormed(fs: seq<Filter>) {
    NamesSorted(fs) &&
    (forall i :: 0 <= i < |fs| ==> fs[i].values != []) &&
    (forall i, k :: 0 <= i < |fs| && 0 <= k < |fs[i].values| ==> CleanPair(Pair(fs[i].name, fs[i].values[k])))
  }

  lemma {:induction false} ValuesAreClean(pairs: seq<Pair>, name: string)
    requires forall k :: 0 <= k < |pairs| ==> CleanPair(pairs[k])
    ensures forall k :: 0 <= k < |ValuesOf(pairs, name)| ==> CleanPair(Pair(name, ValuesOf(pairs, name)[k]))
    ensures ValuesOf(pairs, name) != [] <==> Occurs(pairs, name)
  {
    if pairs != [] {
      var n := |pairs| - 1;
      ValuesAreClean(pairs[..n], name);
      if k :| 0 <= k < |pairs[..n]| && pairs[..n][k].name == name {
        assert pairs[k].name == name;
      }
      if pairs[n].name != name {
        forall k | 0 <= k < |pairs| && pairs[k].name == name
          ensures Occurs(pairs[..n], name)
        {
          assert pairs[..n][k].name == name;
        }
      }
    }
  }

  lemma GroupWellFormed(pairs: seq<Pair>)
    requires forall k :: 0 <= k < |pairs| ==> CleanPair(pairs[k])
    ensures WellFormed(Group(pairs)) && (pairs != [] ==> Group(pairs) != [])
    ensures forall name :: Occurs(pairs, name) <==> HasFilter(Group(pairs), name)
  {
    NamesMembers(pairs);
    SortIsSorted(NamesOf(pairs));
    var names, fs := Sort(NamesOf(pairs)), Group(pairs);
    forall i | 0 <= i < |fs|
      ensures fs[i].values != []
      ensures forall k :: 0 <= k < |fs[i].values| ==> CleanPair(Pair(fs[i].name, fs[i].values[k]))
    {
      assert Occurs(pairs, names[i]);
      assert names[i] in NamesOf(pairs);
      ValuesAreClean(pairs, names[i]);
    }
    forall name
      ensures Occurs(pairs, name) <==> HasFilter(fs, name)
    {
      assert Occurs(pairs, name) <==> name in names;
      if name in names {
        var i :| 0 <= i < |names| && names[i] == name;
        assert fs[i].name == name;
      }
    }
    if pairs != [] {
      assert NamesOf(pairs)[0] in names;
    }
  }

  // The result of a parse, in terms of the comma-separated entries: every name that occurs has one filter holding
  // the trimmed values of its pairs in input order, and a non-blank input never means "no filters".
  lemma ParseResult(raw: string)
    requires Parse(raw).Ok? && Trim(raw) != ""
    ensures WellFormed(Parse(raw).value) && Parse(raw).value != []
    ensures ParseParts(Split(raw, ',')).Ok?
    ensures var pairs, fs := ParseParts(Split(raw, ',')).value, Parse(raw).value;
            && (forall i :: 0 <= i < |fs| ==> fs[i].values == ValuesOf(pairs, fs[i].name))
            && (forall name :: Occurs(pairs, name) <==> HasFilter(fs, name))
  {
    SplitHasNoSeparator(raw, ',');
    PairsAreClean(Split(raw, ','));
    GroupWellFormed(ParseParts(Split(raw, ',')).value);
  }

  // It is refused exactly when it is not blank and some entry is no pair, or no entry is one.
  lemma ParseFails(raw: string)
    ensures Parse(raw).Err? <==> Trim(raw) != "" && (AnyBad(Split(raw, ',')) || AllBlank(Split(raw, ',')))
  {
    PartsOutcome(Split(raw, ','));
  }

  // ---------------------------------------------------------------- round trip

  function PairsOf(name: string, values: seq<string>): seq<Pair> {
    seq(|values|, i requires 0 <= i < |values| => Pair(name, values[i]))
  }

  function Flatten(fs: seq<Filter>): seq<Pair> {
    if fs == [] then [] else Flatten(fs[..|fs| - 1]) + PairsOf(fs[|fs| - 1].name, fs[|fs| - 1].values)
  }

  function Texts(pairs: seq<Pair>): seq<string> {
    seq(|pairs|, i requires 0 <= i < |pairs| => Text(pairs[i]))
  }

  // Filters written back as Name=Value pairs joined by commas.
  function Print(fs: seq<Filter>): string { Join(Texts(Flatten(fs)), ',') }

  lemma {:induction false} TextsParse(pairs: seq<Pair>)
    requires forall k :: 0 <= k < |pairs| ==> CleanPair(pairs[k])
    ensures ParseParts(Texts(pairs)) == Ok(pairs)
  {
    if pairs != [] {
      TextParses(pairs[0]);
      TextsParse(pairs[1..]);
      PartParsed(Text(pairs[0]), pairs[0], Texts(pairs[1..]), pairs[1..]);
      assert Texts(pairs) == [Text(pairs[0])] + Texts(pairs[1..]);
      assert pairs == [pairs[0]] + pairs[1..];
    }
  }

  lemma PartParsed(part: string, pair: Pair, parts: seq<string>, pairs: seq<Pair>)
    requires ParsePart(part) == Good(pair) && ParseParts(parts) == Ok(pairs)
    ensures ParseParts([part] + parts) == Ok([pair] + pairs)
  {
    assert ([part] + parts)[1..] == parts;
  }

  lemma TextsHaveNoComma(pairs: seq<Pair>)
    requires forall k :: 0 <= k < |pairs| ==> CleanPair(pairs[k])
    ensures forall k :: 0 <= k < |pairs| ==> ',' !in Texts(pairs)[k]
  {
    forall k | 0 <= k < |pairs|
      ensures ',' !in Texts(pairs)[k]
    {
      TextTrimmed(pairs[k]);
    }
  }

  lemma {:induction false} ValuesConcat(a: seq<Pair>, b: seq<Pair>, name: string)
    ensures ValuesOf(a + b, name) == ValuesOf(a, name) + ValuesOf(b, name)
  {
    if b == [] {
      assert a + b == a;
    } else {
      ValuesConcat(a, b[..|b| - 1], name);
      assert (a + b)[..|a + b| - 1] == a + b[..|b| - 1];
    }
  }

  lemma {:induction false} ValuesOfPairs(name: string, values: seq<string>, other: string)
    ensures ValuesOf(PairsOf(name, values), other) == if other == name then values else []
  {
    if values != [] {
      var n := |values| - 1;
      ValuesOfPairs(name, values[..n], other);
      assert PairsOf(name, values)[..n] == PairsOf(name, values[..n]);
      assert values == values[..n] + [values[n]];
    }
  }

  // The last filter's pairs come last, and pairs under other names add nothing to a name's values.
  lemma FlattenStep(fs: seq<Filter>, name: string)
    requires fs != []
    ensures var n := |fs| - 1;
            ValuesOf(Flatten(fs), name) == ValuesOf(Flatten(fs[..n]), name) + if fs[n].name == name then fs[n].values else []
  {
    var n := |fs| - 1;
    ValuesConcat(Flatten(fs[..n]), PairsOf(fs[n].name, fs[n].values), name);
    ValuesOfPairs(fs[n].name, fs[n].values, name);
  }

  lemma {:induction false} FlattenValues(fs: seq<Filter>, i: nat)
    requires NamesSorted(fs) && i < |fs|
    ensures ValuesOf(Flatten(fs), fs[i].name) == fs[i].values
  {
    var n := |fs| - 1;
    FlattenStep(fs, fs[i].name);
    LessIrreflexive(fs[i].name);
    if i < n {
      assert fs[..n][i] == fs[i] && fs[i].name != fs[n].name;
      FlattenValues(fs[..n], i);
    } else {
      FlattenForeign(fs[..n], fs[n].name);
    }
  }

  lemma {:induction false} FlattenForeign(fs: seq<Filter>, name: string)
    requires forall i :: 0 <= i < |fs| ==> Less(fs[i].name, name)
    ensures ValuesOf(Flatten(fs), name) == []
  {
    if fs != [] {
      FlattenForeign(fs[..|fs| - 1], name);
      FlattenStep(fs, name);
      LessIrreflexive(name);
    }
  }

  ghost predicate FromFilter(f: Filter, p: Pair) {
    p.name == f.name && exists k :: 0 <= k < |f.values| && f.values[k] == p.value
  }

  lemma {:induction false} FlattenMember(fs: seq<Filter>, k: nat) returns (i: nat)
    requires k < |Flatten(fs)|
    ensures i < |fs| && FromFilter(fs[i], Flatten(fs)[k])
  {
    var n := |fs| - 1;
    if k < |Flatten(fs[..n])| {
      i := FlattenMember(fs[..n], k);
    } else {
      i := n;
      assert Flatten(fs)[k] == Pair(fs[n].name, fs[n].values[k - |Flatten(fs[..n])|]);
    }
  }

  lemma FlattenPairs(fs: seq<Filter>)
    requires WellFormed(fs)
    ensures forall k :: 0 <= k < |Flatten(fs)| ==> CleanPair(Flatten(fs)[k])
    ensures forall k :: 0 <= k < |Flatten(fs)| ==> HasFilter(fs, Flatten(fs)[k].name)
  {
    forall k: nat | k < |Flatten(fs)|
      ensures CleanPair(Flatten(fs)[k]) && HasFilter(fs, Flatten(fs)[k].name)
    {
      var i := FlattenMember(fs, k);
    }
  }

  function Names(fs: seq<Filter>): seq<string> { seq(|fs|, i requires 0 <= i < |fs| => fs[i].name) }

  // Grouping the flattened filters gives them back.
  lemma GroupOfFlatten(fs: seq<Filter>)
    requires WellFormed(fs)
    ensures Group(Flatten(fs)) == fs
  {
    var pairs, names := Flatten(fs), Names(fs);
    FlattenPairs(fs);
    NamesMembers(pairs);
    SortIsSorted(NamesOf(pairs));
    forall name
      ensures name in NamesOf(pairs) <==> name in names
    {
      if name in NamesOf(pairs) {
        var k :| 0 <= k < |pairs| && pairs[k].name == name;
        assert HasFilter(fs, pairs[k].name);
        var i :| 0 <= i < |fs| && fs[i].name == name;
        assert names[i] == name;
      } else if name in names {
        var i :| 0 <= i < |names| && names[i] == name;
        FlattenValues(fs, i);
        ValuesAreClean(pairs, name);
      }
    }
    SortedUnique(Sort(NamesOf(pairs)), names);
    forall i | 0 <= i < |fs|
      ensures Group(pairs)[i] == fs[i]
    {
      FlattenValues(fs, i);
    }
  }

  // Printing a parse result and parsing it again gives the same result, for every input that parses.
  lemma PrintThenParse(raw: string)
    requires Parse(raw).Ok?
    ensures Parse(Print(Parse(raw).value)) == Parse(raw)
  {
    var fs := Parse(raw).value;
    if Trim(raw) != "" {
      ParseResult(raw);
      var pairs := Flatten(fs);
      FlattenPairs(fs);
      FlattenValues(fs, 0);
      assert pairs != [];
      TextsParse(pairs);
      TextsHaveNoComma(pairs);
      SplitOfJoin(Texts(pairs), ',');
      GroupOfFlatten(fs);
      NotBlank(pairs);
    }
  }

  lemma NotBlank(pairs: seq<Pair>)
    requires pairs != [] && CleanPair(pairs[0])
    ensures Trim(Join(Texts(pairs), ',')) != ""
  {
    var s := Join(Texts(pairs), ',');
    assert s[0] == Text(pairs[0])[0] == pairs[0].name[0];
    assert s[0] in s;
    TrimSpec(s);
  }
}
