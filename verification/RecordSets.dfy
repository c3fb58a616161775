/**
 describeRecordSets of internal/actions/aws_route53.go: Route 53 resumes a listing from a record's name, type and
 identifier, so the loop that follows its pages is written out.
 */
module RecordSets {
  import opened Basics

  // A record set and the key Route 53 resumes at; the identifier is unset for simple records.
  datatype Key = Key(name: string, type_: string, identifier: Option<string>)

  datatype Record = Record(key: Key, value: string)

  // The three Start fields of the request, unset on the first call.
  datatype Input = Input(startName: Option<string>, startType: Option<string>, startIdentifier: Option<string>)

  datatype Output = Output(records: seq<Record>, isTruncated: bool, nextName: Option<string>, nextType: Option<string>,
                           nextIdentifier: Option<string>)

  // ---------------------------------------------------------------- the server

  // A zone lists each key once.
  ghost predicate IsZone(zone: seq<Record>) {
    forall i, j :: 0 <= i < j < |zone| ==> zone[i].key != zone[j].key
  }

  // The input with which a listing goes on at a record.
  function InputAt(key: Key): Input {
    Input(Some(key.name), Some(key.type_), key.identifier)
  }

  // The input that asks for the zone from position `from` onward.
  predicate Asks(zone: seq<Record>, input: Input, from: nat) {
    if from == 0 then input == Input(None, None, None)
    else from < |zone| && input == InputAt(zone[from].key)
  }

  // A server may fail, and may truncate anywhere; a truncated page moves the cursor and names the record it stopped at.
  predicate Answers(zone: seq<Record>, from: nat, answer: Option<Output>) {
    match answer
    case None => true
    case Some(out) =>
      if out.isTruncated then
        var stop := from + |out.records|;
        && from < stop < |zone| && out.records == zone[from..stop]
        && out.nextName == Some(zone[stop].key.name) && out.nextType == Some(zone[stop].key.type_)
        && out.nextIdentifier == zone[stop].key.identifier
      else
        from <= |zone| && out.records == zone[from..]
  }

  // One behaviour of the server: how it answers the call made after `calls` others.
  type Server = (nat, Input) -> Option<Output>

  ghost predicate Serves(server: Server, zone: seq<Record>) {
    forall calls: nat, input, from: nat :: Asks(zone, input, from) ==> Answers(zone, from, server(calls, input))
  }

  // ---------------------------------------------------------------- the loop

  // The answer to the n-th call, when each call resumes where the one before stopped: None once a call has failed, or
  // when the listing has ended before.
  ghost function Cursor(server: Server, n: nat): Option<Input> {
    if n == 0 then Some(Input(None, None, None))
    else
      var before := Cursor(server, n - 1);
      if before.None? then None
      else match server(n - 1, before.value)
        case None => None
        case Some(out) =>
          if out.isTruncated then Some(Input(out.nextName, out.nextType, out.nextIdentifier)) else None
  }

  // Some call the loop makes fails.
  ghost predicate SomeCallFails(server: Server) {
    exists n: nat :: CallFails(server, n)
  }

  ghost predicate CallFails(server: Server, n: nat) {
    Cursor(server, n).Some? && server(n, Cursor(server, n).value).None?
  }

  // The calls end at the first that is not truncated or fails.
  lemma {:induction false} CursorEnds(server: Server, last: nat, n: nat)
    requires Cursor(server, last).Some? && last < n
    requires var answer := server(last, Cursor(server, last).value); answer.None? || !answer.value.isTruncated
    ensures Cursor(server, n).None?
  {
    if n > last + 1 {
      CursorEnds(server, last, n - 1);
    }
  }

  lemma {:induction false} NoCallFailed(server: Server, last: nat, n: nat)
    requires Cursor(server, last).Some? && n < last
    ensures Cursor(server, n).Some? && server(n, Cursor(server, n).value).Some?
    decreases last
  {
    if n < last - 1 {
      NoCallFailed(server, last - 1, n);
    }
  }

  // Success returns the zone, every record once and in order; it fails exactly when one of its calls does. The
  // records from the cursor onward are the measure by which the loop ends.
  method DescribeRecordSets(server: Server, ghost zone: seq<Record>) returns (r: Option<seq<Record>>)
    requires IsZone(zone) && Serves(server, zone)
    ensures r.Some? ==> r.value == zone
    ensures r.None? <==> SomeCallFails(server)
  {
    var input := Input(None, None, None);
    var records: seq<Record> := [];
    var calls := 0;
    while true
      invariant |records| <= |zone| && records == zone[..|records|]
      invariant Asks(zone, input, |records|)
      invariant Cursor(server, calls) == Some(input)
      decreases |zone| - |records|
    {
      var answer := server(calls, input);
      assert Answers(zone, |records|, answer);
      if answer.None? {
        assert CallFails(server, calls);
        return None;
      }
      var out := answer.value;
      ghost var from := |records|;
      records := records + out.records;
      if !out.isTruncated {
        assert records == zone;
        forall n: nat
          ensures !CallFails(server, n)
        {
          if n < calls {
            NoCallFailed(server, calls, n);
          } else if n > calls {
            CursorEnds(server, calls, n);
          }
        }
        return Some(records);
      }
      assert records == zone[..from + |out.records|];
      input := Input(out.nextName, out.nextType, out.nextIdentifier);
      calls := calls + 1;
    }
  }

  // The condition that a truncated page moves the cursor cannot be dropped: a server that returns empty truncated
  // pages never lets the loop end, however many calls are made.
  lemma {:induction false} StuckServer(key: Key, n: nat)
    ensures var stuck: Server := (_, _) => Some(Output([], true, Some(key.name), Some(key.type_), key.identifier));
            Cursor(stuck, n).Some? && !SomeCallFails(stuck)
  {
    var stuck: Server := (_, _) => Some(Output([], true, Some(key.name), Some(key.type_), key.identifier));
    if n > 0 {
      StuckServer(key, n - 1);
    }
  }
}
