/**
 The join in describe-nodes (internal/actions/describe_nodes.go): pods, events and leases are indexed by node name in
 one pass each, and every node picks up its own. Proved equal to filtering the full lists node by node.
 */
module NodeJoin {
  import opened Basics

  // The parts of a pod, an event and a lease that the join reads; a missing or ill-typed field is None. `body` is
  // what the entry is reshaped to.
  datatype Pod = Pod(nodeName: Option<string>, body: string)

  datatype Involved = Involved(kind: string, name: Option<string>)

  datatype Event = Event(involved: Option<Involved>, body: string)

  // The spec of a lease may be missing, and is then indexed as nil.
  datatype Lease = Lease(name: string, spec: Option<string>)

  datatype Described = Described(name: string, pods: seq<string>, events: seq<string>, lease: Option<string>)

  // ---------------------------------------------------------------- the independent definition: a nested filter

  function PodNode(pod: Pod): Option<string> {
    if pod.nodeName == Some("") then None else pod.nodeName
  }

  function EventNode(event: Event): Option<string> {
    if event.involved.None? || event.involved.value.kind != "Node" || event.involved.value.name == Some("") then None
    else event.involved.value.name
  }

  function PodsOn(pods: seq<Pod>, node: string): seq<string> {
    if pods == [] then []
    else (if PodNode(pods[0]) == Some(node) then [pods[0].body] else []) + PodsOn(pods[1..], node)
  }

  function EventsOn(events: seq<Event>, node: string): seq<string> {
    if events == [] then []
    else (if EventNode(events[0]) == Some(node) then [events[0].body] else []) + EventsOn(events[1..], node)
  }

  // The last lease of that name; the empty name is never looked up.
  ghost predicate IsLeaseOf(leases: seq<Lease>, node: string, spec: Option<string>) {
    (exists i :: 0 <= i < |leases| && IsLastNamed(leases, node, i) && spec == leases[i].spec)
    || (spec.None? && (node == "" || forall i :: 0 <= i < |leases| ==> leases[i].name != node))
  }

  predicate IsLastNamed(leases: seq<Lease>, node: string, i: nat)
    requires i < |leases|
  {
    node != "" && leases[i].name == node && forall j :: i < j < |leases| ==> leases[j].name != node
  }

  // ---------------------------------------------------------------- the source's three passes

  // A missing key reads as the empty list.
  function Under(index: map<string, seq<string>>, key: string): seq<string> {
    if key in index then index[key] else []
  }

  lemma {:induction false} PodsOnConcat(a: seq<Pod>, b: seq<Pod>, node: string)
    ensures PodsOn(a + b, node) == PodsOn(a, node) + PodsOn(b, node)
  {
    if a == [] {
      assert a + b == b;
    } else {
      assert (a + b)[1..] == a[1..] + b;
      PodsOnConcat(a[1..], b, node);
    }
  }

  lemma PodsOnAppend(pods: seq<Pod>, pod: Pod, node: string)
    ensures PodsOn(pods + [pod], node) == PodsOn(pods, node) + if PodNode(pod) == Some(node) then [pod.body] else []
  {
    PodsOnConcat(pods, [pod], node);
    assert [pod][1..] == [];
  }

  lemma {:induction false} EventsOnConcat(a: seq<Event>, b: seq<Event>, node: string)
    ensures EventsOn(a + b, node) == EventsOn(a, node) + EventsOn(b, node)
  {
    if a == [] {
      assert a + b == b;
    } else {
      assert (a + b)[1..] == a[1..] + b;
      EventsOnConcat(a[1..], b, node);
    }
  }

  lemma EventsOnAppend(events: seq<Event>, event: Event, node: string)
    ensures EventsOn(events + [event], node)
         == EventsOn(events, node) + if EventNode(event) == Some(node) then [event.body] else []
  {
    EventsOnConcat(events, [event], node);
    assert [event][1..] == [];
  }

  ghost predicate PodsIndexed(result: map<string, seq<string>>, pods: seq<Pod>) {
    && (forall node :: Under(result, node) == PodsOn(pods, node))
    && (forall node :: node in result ==> node != "" && result[node] != [])
  }

  ghost predicate EventsIndexed(result: map<string, seq<string>>, events: seq<Event>) {
    && (forall node :: Under(result, node) == EventsOn(events, node))
    && (forall node :: node in result ==> node != "" && result[node] != [])
  }

  method AddPod(index: map<string, seq<string>>, pod: Pod, ghost pods: seq<Pod>) returns (result: map<string, seq<string>>)
    requires PodsIndexed(index, pods)
    ensures PodsIndexed(result, pods + [pod])
  {
    result := index;
    if pod.nodeName.Some? && pod.nodeName.value != "" {
      result := index[pod.nodeName.value := Under(index, pod.nodeName.value) + [pod.body]];
    }
    forall node
      ensures Under(result, node) == PodsOn(pods + [pod], node)
    {
      PodsOnAppend(pods, pod, node);
    }
  }

  method GroupPodsByNode(pods: seq<Pod>) returns (result: map<string, seq<string>>)
    ensures forall node :: Under(result, node) == PodsOn(pods, node)
    ensures forall node :: node in result ==> node != "" && result[node] != []
  {
    result := map[];
    var i := 0;
    while i < |pods|
      invariant 0 <= i <= |pods| && PodsIndexed(result, pods[..i])
    {
      assert pods[..i + 1] == pods[..i] + [pods[i]];
      result := AddPod(result, pods[i], pods[..i]);
      i := i + 1;
    }
    assert pods[..|pods|] == pods;
  }

  method AddEvent(index: map<string, seq<string>>, event: Event, ghost events: seq<Event>)
    returns (result: map<string, seq<string>>)
    requires EventsIndexed(index, events)
    ensures EventsIndexed(result, events + [event])
  {
    result := index;
    if event.involved.Some? && event.involved.value.kind == "Node" {
      var name := event.involved.value.name;
      if name.Some? && name.value != "" {
        result := index[name.value := Under(index, name.value) + [event.body]];
      }
    }
    forall node
      ensures Under(result, node) == EventsOn(events + [event], node)
    {
      EventsOnAppend(events, event, node);
    }
  }

  method GroupEventsByNode(events: seq<Event>) returns (result: map<string, seq<string>>)
    ensures forall node :: Under(result, node) == EventsOn(events, node)
    ensures forall node :: node in result ==> node != "" && result[node] != []
  {
    result := map[];
    var i := 0;
    while i < |events|
      invariant 0 <= i <= |events| && EventsIndexed(result, events[..i])
    {
      assert events[..i + 1] == events[..i] + [events[i]];
      result := AddEvent(result, events[i], events[..i]);
      i := i + 1;
    }
    assert events[..|events|] == events;
  }

  function LastLease(leases: seq<Lease>, node: string): Option<Lease> {
    if leases == [] then None
    else if node != "" && leases[|leases| - 1].name == node then Some(leases[|leases| - 1])
    else LastLease(leases[..|leases| - 1], node)
  }

  predicate Named(leases: seq<Lease>, node: string) {
    exists i :: 0 <= i < |leases| && leases[i].name == node
  }

  lemma {:induction false} LastLeaseIs(leases: seq<Lease>, node: string)
    ensures var last := LastLease(leases, node);
            && (last.Some? <==> node != "" && Named(leases, node))
            && (last.Some? ==> exists i :: 0 <= i < |leases| && IsLastNamed(leases, node, i) && leases[i] == last.value)
  {
    if leases != [] {
      var n := |leases| - 1;
      if node != "" && leases[n].name == node {
        assert IsLastNamed(leases, node, n);
      } else {
        LastLeaseIs(leases[..n], node);
        if LastLease(leases[..n], node).Some? {
          var i :| 0 <= i < n && IsLastNamed(leases[..n], node, i) && leases[..n][i] == LastLease(leases, node).value;
          assert IsLastNamed(leases, node, i);
        }
        if Named(leases, node) && node != "" {
          var i :| 0 <= i < |leases| && leases[i].name == node;
          assert leases[..n][i].name == node;
        }
      }
    }
  }

  ghost predicate LeasesIndexed(result: map<string, Option<string>>, leases: seq<Lease>) {
    forall node :: (node in result <==> LastLease(leases, node).Some?)
                   && (node in result ==> result[node] == LastLease(leases, node).value.spec)
  }

  method AddLease(index: map<string, Option<string>>, lease: Lease, ghost leases: seq<Lease>)
    returns (result: map<string, Option<string>>)
    requires LeasesIndexed(index, leases)
    ensures LeasesIndexed(result, leases + [lease])
  {
    result := if lease.name != "" then index[lease.name := lease.spec] else index;
    ghost var all := leases + [lease];
    assert all[..|all| - 1] == leases && all[|all| - 1] == lease;
    assert forall node :: LastLease(all, node) == if node != "" && lease.name == node then Some(lease) else LastLease(leases, node);
  }

  method IndexLeasesByNode(leases: seq<Lease>) returns (result: map<string, Option<string>>)
    ensures forall node :: node in result <==> node != "" && Named(leases, node)
    ensures forall node :: IsLeaseOf(leases, node, if node in result then result[node] else None)
  {
    result := map[];
    var i := 0;
    while i < |leases|
      invariant 0 <= i <= |leases| && LeasesIndexed(result, leases[..i])
    {
      assert leases[..i + 1] == leases[..i] + [leases[i]];
      result := AddLease(result, leases[i], leases[..i]);
      i := i + 1;
    }
    assert leases[..|leases|] == leases;
    forall node
      ensures node in result <==> node != "" && Named(leases, node)
      ensures IsLeaseOf(leases, node, if node in result then result[node] else None)
    {
      LastLeaseIs(leases, node);
      assert !Named(leases, node) ==> forall k :: 0 <= k < |leases| ==> leases[k].name != node;
    }
  }

  ghost predicate IsDescribed(d: Described, node: string, pods: seq<Pod>, events: seq<Event>, leases: seq<Lease>) {
    d.name == node && d.pods == PodsOn(pods, node) && d.events == EventsOn(events, node) && IsLeaseOf(leases, node, d.lease)
  }

  // One node with what the indices hold for it.
  method Correlate(name: string, podsByNode: map<string, seq<string>>, eventsByNode: map<string, seq<string>>,
                   leaseByNode: map<string, Option<string>>, ghost pods: seq<Pod>, ghost events: seq<Event>,
                   ghost leases: seq<Lease>)
    returns (d: Described)
    requires Under(podsByNode, name) == PodsOn(pods, name) && Under(eventsByNode, name) == EventsOn(events, name)
    requires IsLeaseOf(leases, name, if name in leaseByNode then leaseByNode[name] else None)
    ensures IsDescribed(d, name, pods, events, leases)
  {
    var lease := if name in leaseByNode then leaseByNode[name] else None;
    d := Described(name, Under(podsByNode, name), Under(eventsByNode, name), lease);
  }

  // One object for each node, in the order of the node list.
  method DescribeNodes(nodes: seq<string>, pods: seq<Pod>, events: seq<Event>, leases: seq<Lease>)
    returns (resources: seq<Described>)
    ensures |resources| == |nodes|
    ensures forall i :: 0 <= i < |nodes| ==> IsDescribed(resources[i], nodes[i], pods, events, leases)
  {
    var leaseByNode := IndexLeasesByNode(leases);
    var podsByNode := GroupPodsByNode(pods);
    var eventsByNode := GroupEventsByNode(events);
    resources := [];
    var i := 0;
    while i < |nodes|
      invariant 0 <= i <= |nodes| && |resources| == i
      invariant forall j :: 0 <= j < i ==> IsDescribed(resources[j], nodes[j], pods, events, leases)
    {
      var name := nodes[i];
      var described := Correlate(name, podsByNode, eventsByNode, leaseByNode, pods, events, leases);
      resources := resources + [described];
      i := i + 1;
    }
  }

  // ---------------------------------------------------------------- the filter loses and repeats nothing

  // Each pod contributes its own entry, once, to the list of its own node, after those of the pods before it and ahead
  // of those after it, and nothing to the list of any other name.
  lemma EachPodOnce(pods: seq<Pod>, i: nat, key: string)
    requires i < |pods|
    ensures PodsOn(pods, key) == PodsOn(pods[..i], key) + (if pods[i].nodeName == Some(key) && key != "" then [pods[i].body] else [])
                                 + PodsOn(pods[i + 1..], key)
  {
    var before, pod, after := pods[..i], [pods[i]], pods[i + 1..];
    assert pods == before + (pod + after);
    PodsOnConcat(before, pod + after, key);
    PodsOnConcat(pod, after, key);
    OnePod(pods[i], key);
  }

  lemma OnePod(pod: Pod, key: string)
    ensures PodsOn([pod], key) == if pod.nodeName == Some(key) && key != "" then [pod.body] else []
  {
    assert PodsOn([pod][1..], key) == [];
  }

  lemma OneEvent(event: Event, key: string)
    ensures EventsOn([event], key)
         == if event.involved == Some(Involved("Node", Some(key))) && key != "" then [event.body] else []
  {
    assert EventsOn([event][1..], key) == [];
  }

  // And each event, when the object it involves is a node with a name.
  lemma EachEventOnce(events: seq<Event>, i: nat, key: string)
    requires i < |events|
    ensures EventsOn(events, key)
         == EventsOn(events[..i], key)
            + (if events[i].involved == Some(Involved("Node", Some(key))) && key != "" then [events[i].body] else [])
            + EventsOn(events[i + 1..], key)
  {
    var before, event, after := events[..i], [events[i]], events[i + 1..];
    assert events == before + (event + after);
    EventsOnConcat(before, event + after, key);
    EventsOnConcat(event, after, key);
    OneEvent(events[i], key);
  }

  // How many of the pods have a node at all.
  function Placed(pods: seq<Pod>): nat {
    if pods == [] then 0 else (if PodNode(pods[0]).Some? then 1 else 0) + Placed(pods[1..])
  }

  // How many entries the nodes receive together.
  function Received(pods: seq<Pod>, nodes: seq<string>): nat {
    if nodes == [] then 0 else |PodsOn(pods, nodes[0])| + Received(pods, nodes[1..])
  }

  ghost predicate Distinct(nodes: seq<string>) {
    forall i, j :: 0 <= i < j < |nodes| ==> nodes[i] != nodes[j]
  }

  lemma {:induction false} ReceivedStep(pod: Pod, pods: seq<Pod>, nodes: seq<string>)
    requires Distinct(nodes)
    ensures Received([pod] + pods, nodes)
         == Received(pods, nodes) + if PodNode(pod).Some? && PodNode(pod).value in nodes then 1 else 0
  {
    if nodes != [] {
      assert ([pod] + pods)[1..] == pods;
      assert forall i :: 0 <= i < |nodes[1..]| ==> nodes[1..][i] == nodes[i + 1];
      ReceivedStep(pod, pods, nodes[1..]);
      assert nodes == [nodes[0]] + nodes[1..];
    }
  }

  // Over distinct nodes that include every pod's node, as many entries arrive as pods are placed.
  lemma {:induction false} AllPodsReceived(pods: seq<Pod>, nodes: seq<string>)
    requires Distinct(nodes)
    requires forall i :: 0 <= i < |pods| && PodNode(pods[i]).Some? ==> PodNode(pods[i]).value in nodes
    ensures Received(pods, nodes) == Placed(pods)
  {
    if pods == [] {
      NoneReceived(nodes);
    } else {
      assert pods == [pods[0]] + pods[1..];
      ReceivedStep(pods[0], pods[1..], nodes);
      AllPodsReceived(pods[1..], nodes);
    }
  }

  lemma {:induction false} NoneReceived(nodes: seq<string>)
    ensures Received([], nodes) == 0
  {
    if nodes != [] {
      NoneReceived(nodes[1..]);
    }
  }
}
