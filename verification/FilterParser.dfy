/** parseAWSFilters of internal/actions/aws_get.go: comma-separated Name=Value pairs, grouped and sorted by name. */
module FilterParser {
  import opened Basics
  import opened Lexicographic

  datatype Pair = Pair(name: string, value: string)

  datatype Filter = Filter(name: string, values: seq<string>)

  datatype Error = BadPair(text: string) | NoPairs

  // ---------------------------------------------------------------- string functions of the Go library

  // unicode.IsSpace
  predicate IsSpace(c: char) {
    var code := c as int;
    9 <= code <= 13 || code in {0x20, 0x85, 0xA0, 0x1680, 0x2028, 0x2029, 0x202F, 0x205F, 0x3000}
    || 0x2000 <= code <= 0x200A
  }

  function TrimLeft(s: string): string {
    if s != "" && IsSpace(s[0]) then TrimLeft(s[1..]) else s
  }

  function TrimRight(s: string): string {
    if s != "" && IsSpace(s[|s| - 1]) then TrimRight(s[..|s| - 1]) else s
  }

  function Trim(s: string): string { TrimRight(TrimLeft(s)) }

  // No white space at either end: what Trim leaves.
  predicate Trimmed(s: string) {
    s != "" ==> !IsSpace(s[0]) && !IsSpace(s[|s| - 1])
  }

  // The position of the first `c`, or the length.
  function Index(s: string, c: char): (i: nat)
    ensures i <= |s| && c !in s[..i] && (i < |s| ==> s[i] == c)
  {
    if s == "" then 0
    else if s[0] == c then 0
    else
      var j := Index(s[1..], c);
      assert s[..j + 1] == [s[0]] + s[1..][..j];
      j + 1
  }

  function Split(s: string, c: char): (parts: seq<string>)
    ensures |parts| >= 1
    decreases |s|
  {
    var i := Index(s, c);
    if i == |s| then [s] else [s[..i]] + Split(s[i + 1..], c)
  }

  function Join(parts: seq<string>, c: char): string {
    if parts == [] then "" else if |parts| == 1 then parts[0] else parts[0] + [c] + Join(parts[1..], c)
  }

  // ---------------------------------------------------------------- the parse

  // One entry between commas: nothing, a pair, or an error.
  datatype Part = Blank | Good(pair: Pair) | Bad(text: string)

  function ParsePart(part: string): Part {
    var text := Trim(part);
    if text == "" then Blank
    else
      var i := Index(text, '=');
      var name := Trim(text[..i]);
      if i == |text| || name == "" then Bad(text) else Good(Pair(name, Trim(text[i + 1..])))
  }

  // The pairs of the entries in input order, up to the first entry that is neither blank nor a pair.
  function ParseParts(parts: seq<string>): Result<seq<Pair>, Error> {
    if parts == [] then Ok([])
    else match ParsePart(parts[0])
      case Bad(text) => Err(BadPair(text))
      case Blank => ParseParts(parts[1..])
      case Good(pair) =>
        var rest := ParseParts(parts[1..]);
        if rest.Err? then rest else Ok([pair] + rest.value)
  }

  // The values given for a name, in input order.
  function ValuesOf(pairs: seq<Pair>, name: string): seq<string> {
    if pairs == [] then []
    else ValuesOf(pairs[..|pairs| - 1], name) + if pairs[|pairs| - 1].name == name then [pairs[|pairs| - 1].value] else []
  }

  // Each name once, in order of first occurrence.
  function NamesOf(pairs: seq<Pair>): seq<string> {
    if pairs == [] then []
    else
      var names, name := NamesOf(pairs[..|pairs| - 1]), pairs[|pairs| - 1].name;
      if name in names then names else names + [name]
  }

  function Group(pairs: seq<Pair>): seq<Filter> {
    var names := Sort(NamesOf(pairs));
    seq(|names|, i requires 0 <= i < |names| => Filter(names[i], ValuesOf(pairs, names[i])))
  }

  function Parse(raw: string): Result<seq<Filter>, Error> {
    if Trim(raw) == "" then Ok([])
    else
      var pairs := ParseParts(Split(raw, ','));
      if pairs.Err? then Err(pairs.error)
      else if pairs.value == [] then Err(NoPairs)
      else Ok(Group(pairs.value))
  }

  // The state of the source's loop: values by name, and the names in order of first occurrence.
  function Given(values: map<string, seq<string>>, name: string): seq<string> {
    if name in values then values[name] else []
  }

  ghost predicate Collected(values: map<string, seq<string>>, names: seq<string>, pairs: seq<Pair>) {
    names == NamesOf(pairs)
    && (forall name :: name in values <==> name in names)
    && (forall name :: Given(values, name) == ValuesOf(pairs, name))
  }

  lemma NothingCollected()
    ensures Collected(map[], [], [])
  {
  }

  lemma CollectedStep(values: map<string, seq<string>>, names: seq<string>, pairs: seq<Pair>, pair: Pair)
    requires Collected(values, names, pairs)
    ensures Collected(values[pair.name := Given(values, pair.name) + [pair.value]],
                      if pair.name in values then names else names + [pair.name], pairs + [pair])
  {
    var all, values' := pairs + [pair], values[pair.name := Given(values, pair.name) + [pair.value]];
    assert all[..|pairs|] == pairs;
    assert all[|all| - 1] == pair && |all| - 1 == |pairs|;
    assert NamesOf(all) == if pair.name in NamesOf(pairs) then NamesOf(pairs) else NamesOf(pairs) + [pair.name];
    forall name
      ensures Given(values', name) == ValuesOf(all, name)
    {
      assert ValuesOf(all, name) == ValuesOf(pairs, name) + if pair.name == name then [pair.value] else [];
    }
  }

  // One pair added to the map and to the list of names.
  method AddPair(values: map<string, seq<string>>, names: seq<string>, pair: Pair, ghost pairs: seq<Pair>)
    returns (values': map<string, seq<string>>, names': seq<string>)
    requires Collected(values, names, pairs)
    ensures Collected(values', names', pairs + [pair])
  {
    CollectedStep(values, names, pairs, pair);
    names' := names;
    if pair.name !in values {
      names' := names + [pair.name];
    }
    values' := values[pair.name := Given(values, pair.name) + [pair.value]];
  }

  method CollectPairs(parts: seq<string>) returns (bad: Option<string>, values: map<string, seq<string>>, names: seq<string>)
    ensures bad.Some? ==> ParseParts(parts) == Err(BadPair(bad.value))
    ensures bad.None? ==> ParseParts(parts).Ok? && Collected(values, names, ParseParts(parts).value)
  {
    bad, values, names := None, map[], [];
    ghost var pairs: seq<Pair> := [];
    NothingCollected();
    var i := 0;
    StartOfParts(parts);
    while i < |parts|
      invariant i <= |parts|
      invariant bad.None?
      invariant Collected(values, names, pairs)
      invariant ParseParts(parts) == After(pairs, ParseParts(parts[i..]))
    {
      PartStep(pairs, parts, i);
      var part := ParsePart(parts[i]);
      if part.Bad? {
        bad := Some(part.text);
        return;
      }
      if part.Good? {
        values, names := AddPair(values, names, part.pair, pairs);
        pairs := pairs + [part.pair];
      }
      i := i + 1;
    }
    EndOfParts(pairs, parts);
  }

  lemma StartOfParts(parts: seq<string>)
    ensures ParseParts(parts) == After([], ParseParts(parts[0..]))
  {
    assert parts[0..] == parts;
    assert ParseParts(parts).Ok? ==> [] + ParseParts(parts).value == ParseParts(parts).value;
  }

  lemma EndOfParts(pairs: seq<Pair>, parts: seq<string>)
    ensures After(pairs, ParseParts(parts[|parts|..])) == Ok(pairs)
  {
    assert parts[|parts|..] == [] && pairs + [] == pairs;
  }

  function After(pairs: seq<Pair>, rest: Result<seq<Pair>, Error>): Result<seq<Pair>, Error> {
    if rest.Err? then rest else Ok(pairs + rest.value)
  }

  lemma PartStep(pairs: seq<Pair>, parts: seq<string>, i: nat)
    requires i < |parts|
    ensures var rest := ParseParts(parts[i + 1..]);
            After(pairs, ParseParts(parts[i..])) == match ParsePart(parts[i])
                                                    case Bad(text) => Err(BadPair(text))
                                                    case Blank => After(pairs, rest)
                                                    case Good(pair) => After(pairs + [pair], rest)
  {
    assert parts[i..][1..] == parts[i + 1..];
    var rest := ParseParts(parts[i + 1..]);
    if ParsePart(parts[i]).Good? && rest.Ok? {
      assert pairs + ([ParsePart(parts[i]).pair] + rest.value) == pairs + [ParsePart(parts[i]).pair] + rest.value;
    }
  }

  predicate IsFilterOf(f: Filter, pairs: seq<Pair>, name: string) {
    f == Filter(name, ValuesOf(pairs, name))
  }

  lemma FiltersAreGroup(filters: seq<Filter>, pairs: seq<Pair>)
    requires |filters| == |Sort(NamesOf(pairs))|
    requires forall j :: 0 <= j < |filters| ==> IsFilterOf(filters[j], pairs, Sort(NamesOf(pairs))[j])
    ensures filters == Group(pairs)
  {
    var names, group := Sort(NamesOf(pairs)), Group(pairs);
    forall j | 0 <= j < |filters|
      ensures filters[j] == group[j]
    {
      assert IsFilterOf(filters[j], pairs, names[j]);
    }
  }

  method BuildFilters(values: map<string, seq<string>>, names: seq<string>, ghost pairs: seq<Pair>) returns (filters: seq<Filter>)
    requires Collected(values, names, pairs)
    ensures filters == Group(pairs)
  {
    var sorted := Sort(names);
    SortMembers(names);
    filters := [];
    var i := 0;
    while i < |sorted|
      invariant i <= |sorted| && |filters| == i
      invariant forall j :: 0 <= j < i ==> IsFilterOf(filters[j], pairs, sorted[j])
    {
      assert sorted[i] in names && Given(values, sorted[i]) == ValuesOf(pairs, sorted[i]);
      var next := Filter(sorted[i], values[sorted[i]]);
      assert IsFilterOf(next, pairs, sorted[i]);
      filters := filters + [next];
      i := i + 1;
    }
    FiltersAreGroup(filters, pairs);
  }

  method ParseAWSFilters(raw: string) returns (r: Result<seq<Filter>, Error>)
    ensures r == Parse(raw)
  {
    if Trim(raw) == "" {
      return Ok([]);
    }
    var parts := Split(raw, ',');
    var bad, values, names := CollectPairs(parts);
    if bad.Some? {
      return Err(BadPair(bad.value));
    }
    ghost var pairs := ParseParts(parts).value;
    NamesMembers(pairs);
    if |names| == 0 {
      return Err(NoPairs);
    }
    var filters := BuildFilters(values, names, pairs);
    return Ok(filters);
  }

  predicate Occurs(pairs: seq<Pair>, name: string) { exists k :: 0 <= k < |pairs| && pairs[k].name == name }

  lemma {:induction false} NamesMembers(pairs: seq<Pair>)
    ensures Distinct(NamesOf(pairs))
    ensures forall name :: name in NamesOf(pairs) <==> Occurs(pairs, name)
    ensures pairs != [] ==> NamesOf(pairs) != []
  {
    if pairs != [] {
      var n := |pairs| - 1;
      NamesMembers(pairs[..n]);
      forall name
        ensures name in NamesOf(pairs) <==> Occurs(pairs, name)
      {
        if name == pairs[n].name {
        } else if name in NamesOf(pairs[..n]) {
          var k :| 0 <= k < n && pairs[..n][k].name == name;
          assert pairs[k].name == name;
        } else {
          forall k | 0 <= k < n
            ensures pairs[k].name != name
          {
            assert pairs[..n][k] == pairs[k];
          }
        }
      }
    }
  }
}
