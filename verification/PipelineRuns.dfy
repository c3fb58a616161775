/** What the pipeline promises over interleaved executions, over runs of the worker pool and of the cluster cache. */
module PipelineRuns {
  import opened Basics
  import opened KubeActions
  import opened ExecutionTable
  import opened PipelineModel
  import opened Pipeline
  import opened Executor
  import opened PipelineTheorems
  import opened KubeOutcomes
  import ClusterCache
  import PoolModel
  import PoolTheorems

  // ---------------------------------------------------------------- interleaved executions

  // Workers run executions at the same time, so their calls interleave; each call belongs to one execution.
  datatype Step = Step(run: nat, event: Event)

  function Project(trace: seq<Step>, run: nat): seq<Event> {
    if trace == [] then []
    else
      var last := trace[|trace| - 1];
      Project(trace[..|trace| - 1], run) + if last.run == run then [last.event] else []
  }

  // A call's place in its own execution: right after what the execution did before.
  lemma {:induction false} ProjectAt(trace: seq<Step>, k: nat)
    requires k < |trace|
    ensures Project(trace[..k], trace[k].run) + [trace[k].event] <= Project(trace, trace[k].run)
  {
    var last := |trace| - 1;
    if k < last {
      ProjectAt(trace[..last], k);
      assert trace[..last][..k] == trace[..k];
    }
  }

  // And back: what an execution did, it did somewhere in the interleaving.
  lemma {:induction false} ProjectFrom(trace: seq<Step>, run: nat, n: nat)
    requires n < |Project(trace, run)|
    ensures exists k: nat :: k < |trace| && trace[k] == Step(run, Project(trace, run)[n])
  {
    var last := |trace| - 1;
    if n < |Project(trace[..last], run)| {
      ProjectFrom(trace[..last], run, n);
      var k: nat :| k < last && trace[..last][k] == Step(run, Project(trace[..last], run)[n]);
      assert trace[k] == Step(run, Project(trace, run)[n]);
    } else {
      assert trace[last] == Step(run, Project(trace, run)[n]);
    }
  }

  // ---------------------------------------------------------------- what a write rests on

  lemma RunnerWritesOnce(scopes: seq<Scope>, exec: Claimed, trace: seq<Event>)
    requires TraceOf(scopes, exec, trace)
    ensures AtMostOneWrite(trace)
  {
    if RequestOf(exec).Some? {
      var api, lookups, ran, rec, r :|
        Completed(scopes, RequestOf(exec).value, api, lookups, ran, rec, r) && trace == lookups + ran;
      WriteTraceSafety(scopes, RequestOf(exec).value, api, lookups, ran, rec, r);
    }
  }

  ghost predicate IsProof(e: Event, cluster: string, region: string, id: string, infraId: string) {
    && e.Describe? && e.found.Some? && e == Describe(cluster, region, id, e.found)
    && ShowsOwned(e.found.value, id, infraId)
  }

  // A mutating call, given what its own execution did before it: the action's own call on the id of the params,
  // permitted by a policy, in the region that was looked up for the cluster, after a Describe that showed the instance
  // as owned by the infrastructure ID that was looked up for the cluster, and the first of its kind.
  ghost predicate Explained(scopes: seq<Scope>, req: ExecRequest, w: Event, before: seq<Event>) {
    && w.Write? && w.cluster == req.cluster && w.id == Param(req.params, "id") != ""
    && (exists i :: 0 <= i < |scopes| && scopes[i].AwsScope? && w.region in scopes[i].awsPolicy.regions
                    && IsPermitted(w.call, req.action, scopes[i].awsPolicy))
    && RegionLookup(req.cluster, Some(w.region)) in before
    && (exists infraId :: ProvenBy(w, infraId, before))
    && NoWrite(before)
  }

  ghost predicate ProvenBy(w: Event, infraId: string, before: seq<Event>)
    requires w.Write?
  {
    infraId != "" && InfraLookup(w.cluster, Some(infraId)) in before
    && exists e :: e in before && IsProof(e, w.cluster, w.region, w.id, infraId)
  }

  // In the calls of one run of the runner, every write is explained by those before it.
  lemma RunnerExplains(scopes: seq<Scope>, exec: Claimed, mine: seq<Event>, n: nat)
    requires TraceOf(scopes, exec, mine) && n < |mine| && mine[n].Write?
    ensures RequestOf(exec).Some? && Explained(scopes, RequestOf(exec).value, mine[n], mine[..n])
  {
    var req := RequestOf(exec).value;
    var api, lookups, ran, rec, r :| Completed(scopes, req, api, lookups, ran, rec, r) && mine == lookups + ran;
    CompletedExplains(scopes, req, api, lookups, ran, rec, r, n);
  }

  lemma CompletedExplains(scopes: seq<Scope>, req: ExecRequest, api: Cluster, lookups: seq<Event>, ran: seq<Event>,
                          rec: Record, r: ExecResult, n: nat)
    requires Completed(scopes, req, api, lookups, ran, rec, r) && req.target.None?
    requires n < |lookups + ran| && (lookups + ran)[n].Write?
    ensures Explained(scopes, req, (lookups + ran)[n], (lookups + ran)[..n])
  {
    WriteTraceSafety(scopes, req, api, lookups, ran, rec, r);
    WritesExplained(scopes, req, lookups, ran, n);
  }

  lemma WritesExplained(scopes: seq<Scope>, req: ExecRequest, lookups: seq<Event>, ran: seq<Event>, n: nat)
    requires NoWrite(lookups) && AtMostOneWrite(ran) && n < |lookups + ran| && (lookups + ran)[n].Write?
    requires forall k: nat :: k < |ran| && ran[k].Write? ==> WrittenSafely(scopes, req, lookups, ran, k)
    ensures Explained(scopes, req, (lookups + ran)[n], (lookups + ran)[..n])
  {
    assert n >= |lookups| && (lookups + ran)[n] == ran[n - |lookups|];
    LookupsExplain(scopes, req, lookups, ran, n - |lookups|);
  }

  lemma LookupsExplain(scopes: seq<Scope>, req: ExecRequest, lookups: seq<Event>, ran: seq<Event>, k: nat)
    requires WrittenSafely(scopes, req, lookups, ran, k)
    requires NoWrite(lookups) && AtMostOneWrite(ran)
    ensures Explained(scopes, req, (lookups + ran)[|lookups| + k], (lookups + ran)[..|lookups| + k])
  {
    var all, n := lookups + ran, |lookups| + k;
    var before, infraId := all[..n], lookups[1].answer.value;
    assert all[n] == ran[k];
    assert before[0] == lookups[0] && before[1] == lookups[1];
    var target := AwsTarget(ran[k].region, INSTANCES, ran[k].id, infraId);
    var j :| 0 <= j < k && ran[j].Describe? && ran[j].found.Some?
             && ran[j] == Describe(req.cluster, target.region, target.id, ran[j].found)
             && ShowsOwned(ran[j].found.value, target.id, target.infraId);
    assert before[|lookups| + j] == ran[j];
    assert IsProof(ran[j], req.cluster, ran[k].region, ran[k].id, infraId);
    assert ProvenBy(ran[k], infraId, before);
    forall m | 0 <= m < n
      ensures !before[m].Write?
    {
      assert before[m] == all[m];
    }
  }

  // A mutating call and the row whose execution made it: the action and the instance that the row names.
  predicate AskedFor(exec: Claimed, w: Event) {
    && w.Write?
    && exec.action == (match w.call case RebootInstances => "aws-reboot" case TerminateInstances => "aws-terminate")
    && exec.params.Decoded? && "id" in exec.params.params && w.id == exec.params.params["id"] != ""
  }

  // What a claimed row names is what its execution acts on, in the row's own fields: every call is for the row's
  // cluster, every mutating call is the one that the row asks for, and a Kubernetes object is deleted or patched only
  // when the row says so.
  lemma RowDecidesCalls(scopes: seq<Scope>, exec: Claimed, trace: seq<Event>, n: nat)
    requires TraceOf(scopes, exec, trace) && n < |trace|
    ensures trace[n].cluster == exec.cluster
    ensures trace[n].Write? ==> AskedFor(exec, trace[n])
    ensures trace[n].KubeCall? && trace[n].access.verb == "delete" ==> exec.action == "delete"
    ensures trace[n].KubeCall? && trace[n].access.verb == "patch" ==> exec.action == "patch"
  {
    CallForRow(scopes, exec, trace, n);
    if trace[n].Write? {
      WriteAskedFor(scopes, exec, trace, n);
    } else if trace[n].KubeCall? && Changes(trace[n].access) {
      ChangeAskedFor(scopes, exec, trace, n);
    }
  }

  lemma CallForRow(scopes: seq<Scope>, exec: Claimed, trace: seq<Event>, n: nat)
    requires TraceOf(scopes, exec, trace) && n < |trace|
    ensures trace[n].cluster == exec.cluster
  {
    var req := RequestOf(exec).value;
    var api, lookups, ran, rec, r :| Completed(scopes, req, api, lookups, ran, rec, r) && trace == lookups + ran;
    CallsForCluster(scopes, req, api, lookups, ran, rec, r, n);
  }

  lemma ChangeAskedFor(scopes: seq<Scope>, exec: Claimed, trace: seq<Event>, n: nat)
    requires TraceOf(scopes, exec, trace) && n < |trace| && trace[n].KubeCall? && Changes(trace[n].access)
    ensures exec.action == if trace[n].access.verb == "delete" then "delete" else "patch"
  {
    ChangeByAction(scopes, exec, trace, n);
    RegistryRoundTrip(exec.action, RequestOf(exec).value.action);
  }

  lemma ChangeByAction(scopes: seq<Scope>, exec: Claimed, trace: seq<Event>, n: nat)
    requires TraceOf(scopes, exec, trace) && n < |trace| && trace[n].KubeCall? && Changes(trace[n].access)
    ensures RequestOf(exec).Some?
    ensures RequestOf(exec).value.action == KubeAct(if trace[n].access.verb == "delete" then Delete else Patch)
  {
    var req := RequestOf(exec).value;
    var api, lookups, ran, rec, r :| Completed(scopes, req, api, lookups, ran, rec, r) && trace == lookups + ran;
    ChangesNamed(scopes, req, api, lookups, ran, rec, r, n);
  }

  lemma WriteAskedFor(scopes: seq<Scope>, exec: Claimed, trace: seq<Event>, n: nat)
    requires TraceOf(scopes, exec, trace) && n < |trace| && trace[n].Write?
    ensures AskedFor(exec, trace[n])
  {
    RunnerExplains(scopes, exec, trace, n);
    ExplainedIsAsked(scopes, exec, RequestOf(exec).value, trace[n], trace[..n]);
  }

  lemma ExplainedIsAsked(scopes: seq<Scope>, exec: Claimed, req: ExecRequest, w: Event, before: seq<Event>)
    requires RequestOf(exec) == Some(req) && Explained(scopes, req, w, before)
    ensures AskedFor(exec, w)
  {
    RegistryRoundTrip(exec.action, req.action);
    assert w.id == Param(req.params, "id");
  }

  lemma CallsForCluster(scopes: seq<Scope>, req: ExecRequest, api: Cluster, lookups: seq<Event>, ran: seq<Event>,
                        rec: Record, r: ExecResult, n: nat)
    requires Completed(scopes, req, api, lookups, ran, rec, r) && n < |lookups + ran|
    ensures (lookups + ran)[n].cluster == req.cluster
  {
    if n >= |lookups| {
      var k := n - |lookups|;
      if rec.target.value.KubeTarget? {
        var request :| KubeCallsOn(ran, req.cluster, request);
        assert ran[k].cluster == req.cluster;
      } else {
        var t := rec.target.value.aws;
        assert AwsCallsOn(ran, req.cluster, t.region, RequiredServices(req.action, t));
        assert ran[k].cluster == req.cluster;
      }
    }
  }

  function RowParams(exec: Claimed): map<string, string> {
    if exec.params.Decoded? then exec.params.params else map[]
  }

  // The audit record of a row's execution is about that row, in its own fields, and so is the target that was judged.
  lemma RowDecidesRecord(scopes: seq<Scope>, exec: Claimed, api: Cluster, lookups: seq<Event>, ran: seq<Event>,
                         rec: Record, r: ExecResult)
    requires RequestOf(exec).Some? && Completed(scopes, RequestOf(exec).value, api, lookups, ran, rec, r)
    ensures rec.cluster == exec.cluster && ActionName(rec.action) == exec.action
    ensures rec.caller == if exec.username.Some? then exec.username.value else ""
    ensures rec.target.Some? ==>
              match rec.target.value
              case KubeTarget(t) => rec.action.KubeAct? && NamedBy(t, RowParams(exec))
              case AwsObject(t) =>
                && !rec.action.KubeAct? && RegionLookup(exec.cluster, Some(t.region)) in lookups
                && t.id == Param(RowParams(exec), "id")
                && (if rec.action.AwsRead? then t.resource == Param(RowParams(exec), "resource")
                    else t.resource == "ec2-instances" && InfraLookup(exec.cluster, Some(t.infraId)) in lookups)
  {
    var req := RequestOf(exec).value;
    RegistryRoundTrip(exec.action, req.action);
    ScopeSupports(scopes, req.action);
    if rec.target.Some? && rec.target.value.AwsObject? {
      assert lookups[0] == RegionLookup(exec.cluster, Some(rec.target.value.aws.region));
      if !rec.action.AwsRead? {
        assert lookups[1] == InfraLookup(exec.cluster, Some(rec.target.value.aws.infraId));
      }
    }
  }

  // A request that changes an object is that of a delete or a patch.
  lemma ChangesNamed(scopes: seq<Scope>, req: ExecRequest, api: Cluster, lookups: seq<Event>, ran: seq<Event>,
                     rec: Record, r: ExecResult, n: nat)
    requires Completed(scopes, req, api, lookups, ran, rec, r) && req.target.None?
    requires n < |lookups + ran| && (lookups + ran)[n].KubeCall? && Changes((lookups + ran)[n].access)
    ensures req.action == KubeAct(if (lookups + ran)[n].access.verb == "delete" then Delete else Patch)
  {
    TouchedIffAllowed(scopes, req, api, lookups, ran, rec, r);
    ScopeSupports(scopes, req.action);
    assert n >= |lookups| && (lookups + ran)[n] == ran[n - |lookups|];
    ChangeMade(req, rec.target.value.resource, api, ran, Returned(r), n - |lookups|);
  }

  lemma ChangeMade(req: ExecRequest, t: ResourceTarget, api: Cluster, ran: seq<Event>, r: Result<Output, Error>, k: nat)
    requires KubeRan(req, t, api, ran, r) && k < |ran| && ran[k].KubeCall? && Changes(ran[k].access)
    ensures req.action == KubeAct(if ran[k].access.verb == "delete" then Delete else Patch)
  {
    KubeCallMade(req, t, api, ran, r, k);
    ActsOnTarget(req.action.kube, api, UsesPodExec(req.action.kube), t, req.params);
  }

  // A Kubernetes call of an execution is one of the requests its action sends.
  lemma KubeCallMade(req: ExecRequest, t: ResourceTarget, api: Cluster, ran: seq<Event>, r: Result<Output, Error>, k: nat)
    requires KubeRan(req, t, api, ran, r) && k < |ran| && ran[k].KubeCall?
    ensures ran[k].access in KubeActions.Execute(req.action.kube, api, UsesPodExec(req.action.kube), t, req.params).made
  {
    var request, ok, podOk :| KubeSent(req, t, api, ran, r, Sessions(req, request, ok, podOk), ok && podOk);
    CallIsMade(req, t, api, ran, r, Sessions(req, request, ok, podOk), ok && podOk, k);
  }

  lemma CallIsMade(req: ExecRequest, t: ResourceTarget, api: Cluster, ran: seq<Event>, r: Result<Output, Error>,
                   sessions: seq<Event>, connected: bool, k: nat)
    requires req.action.KubeAct? && KubeSent(req, t, api, ran, r, sessions, connected)
    requires forall i :: 0 <= i < |sessions| ==> !sessions[i].KubeCall?
    requires k < |ran| && ran[k].KubeCall?
    ensures ran[k].access in KubeActions.Execute(req.action.kube, api, UsesPodExec(req.action.kube), t, req.params).made
  {
    var made := KubeActions.Execute(req.action.kube, api, UsesPodExec(req.action.kube), t, req.params).made;
    assert ran[k] == KubeCalls(req.cluster, made)[k - |sessions|];
  }

  // Each of the executions took its steps of the trace as the runner does.
  ghost predicate Interleaves(scopes: seq<Scope>, execs: seq<Claimed>, trace: seq<Step>) {
    forall run: nat :: run < |execs| ==> TraceOf(scopes, execs[run], Project(trace, run))
  }

  // However any number of executions interleave, every write in the whole trace is explained by what its own
  // execution did earlier in the trace; Project gives these events, and each of them happened at an earlier step.
  lemma InterleavedWritesJustified(scopes: seq<Scope>, execs: seq<Claimed>, trace: seq<Step>, k: nat, run: nat)
    requires Interleaves(scopes, execs, trace)
    requires k < |trace| && run < |execs| && trace[k].run == run && trace[k].event.Write?
    ensures RequestOf(execs[run]).Some?
            && Explained(scopes, RequestOf(execs[run]).value, trace[k].event, Project(trace[..k], run))
    ensures forall e :: e in Project(trace[..k], run) ==> Earlier(trace, k, e)
    ensures forall j: nat :: j < k && trace[j].run == run ==> !trace[j].event.Write?
  {
    assert TraceOf(scopes, execs[run], Project(trace, run));
    WriteInTrace(scopes, execs[run], trace, k);
  }

  lemma WriteInTrace(scopes: seq<Scope>, exec: Claimed, trace: seq<Step>, k: nat)
    requires k < |trace| && trace[k].event.Write? && TraceOf(scopes, exec, Project(trace, trace[k].run))
    ensures RequestOf(exec).Some?
            && Explained(scopes, RequestOf(exec).value, trace[k].event, Project(trace[..k], trace[k].run))
    ensures forall e :: e in Project(trace[..k], trace[k].run) ==> Earlier(trace, k, e)
    ensures forall j: nat :: j < k && trace[j].run == trace[k].run ==> !trace[j].event.Write?
  {
    var mine, before := Project(trace, trace[k].run), Project(trace[..k], trace[k].run);
    ProjectAt(trace, k);
    ExplainedAt(scopes, exec, mine, trace[k].event, before);
    forall e | e in before
      ensures Earlier(trace, k, e)
    {
      HappenedEarlier(trace, k, e);
    }
    forall j: nat | j < k && trace[j].run == trace[k].run
      ensures !trace[j].event.Write?
    {
      WasBefore(trace, j, k);
    }
  }

  lemma ExplainedAt(scopes: seq<Scope>, exec: Claimed, mine: seq<Event>, w: Event, before: seq<Event>)
    requires TraceOf(scopes, exec, mine) && before + [w] <= mine && w.Write?
    ensures RequestOf(exec).Some? && Explained(scopes, RequestOf(exec).value, w, before)
  {
    assert mine[|before|] == (before + [w])[|before|] == w;
    assert mine[..|before|] == before;
    RunnerExplains(scopes, exec, mine, |before|);
  }

  lemma HappenedEarlier(trace: seq<Step>, k: nat, e: Event)
    requires k < |trace| && e in Project(trace[..k], trace[k].run)
    ensures Earlier(trace, k, e)
  {
    var m :| 0 <= m < |Project(trace[..k], trace[k].run)| && Project(trace[..k], trace[k].run)[m] == e;
    ProjectFrom(trace[..k], trace[k].run, m);
    var j: nat :| j < k && trace[..k][j] == Step(trace[k].run, e);
    assert trace[j] == trace[..k][j];
  }

  lemma WasBefore(trace: seq<Step>, j: nat, k: nat)
    requires j < k < |trace| && trace[j].run == trace[k].run
    ensures trace[j].event in Project(trace[..k], trace[k].run)
  {
    assert trace[..k][j] == trace[j];
    ProjectAt(trace[..k], j);
    LastOfPrefix(Project(trace[..k][..j], trace[k].run), trace[j].event, Project(trace[..k], trace[k].run));
  }

  lemma LastOfPrefix(a: seq<Event>, e: Event, b: seq<Event>)
    requires a + [e] <= b
    ensures e in b
  {
    assert b[|a|] == (a + [e])[|a|] == e;
  }

  ghost predicate Earlier(trace: seq<Step>, k: nat, e: Event)
    requires k < |trace|
  {
    exists j: nat :: j < k && trace[j] == Step(trace[k].run, e)
  }

  // ---------------------------------------------------------------- over runs of the pool

  function CountWrites(events: seq<Event>): nat {
    if events == [] then 0 else CountWrites(events[1..]) + if events[0].Write? then 1 else 0
  }

  lemma {:induction false} CountNone(events: seq<Event>)
    requires NoWrite(events)
    ensures CountWrites(events) == 0
  {
    if events != [] {
      CountNone(events[1..]);
    }
  }

  lemma {:induction false} CountAtMostOne(events: seq<Event>)
    requires AtMostOneWrite(events)
    ensures CountWrites(events) <= 1
  {
    if events != [] {
      if events[0].Write? {
        CountNone(events[1..]);
      } else {
        CountAtMostOne(events[1..]);
      }
    }
  }

  // The mutating calls made for one row, when the n-th run handed out made the calls traces[n].
  function WritesFor(started: seq<Id>, traces: seq<seq<Event>>, id: Id): nat
    requires |started| == |traces|
  {
    if started == [] then 0
    else (if started[0] == id then CountWrites(traces[0]) else 0) + WritesFor(started[1..], traces[1..], id)
  }

  lemma {:induction false} WritesForAbsent(started: seq<Id>, traces: seq<seq<Event>>, id: Id)
    requires |started| == |traces| && id !in started
    ensures WritesFor(started, traces, id) == 0
  {
    if started != [] {
      WritesForAbsent(started[1..], traces[1..], id);
    }
  }

  lemma {:induction false} WritesForOnce(started: seq<Id>, traces: seq<seq<Event>>, id: Id)
    requires |started| == |traces| && PoolModel.Distinct(started)
    requires forall n :: 0 <= n < |traces| ==> AtMostOneWrite(traces[n])
    ensures WritesFor(started, traces, id) <= 1
  {
    if started != [] {
      CountAtMostOne(traces[0]);
      if started[0] == id {
        assert forall n :: 0 <= n < |started[1..]| ==> started[1..][n] == started[n + 1];
        WritesForAbsent(started[1..], traces[1..], id);
      } else {
        WritesForOnce(started[1..], traces[1..], id);
      }
    }
  }

  // Queue and pipeline together: over any run of the pool, with any workers, claims, rollbacks and store errors, each
  // execution row leads to at most one mutating cloud call, ever. `traces[n]` are the calls of the n-th run handed out.
  lemma AtMostOneWritePerRow(states: seq<PoolModel.State>, events: seq<PoolModel.Event>, i: nat, scopes: seq<Scope>,
                             execs: seq<Claimed>, traces: seq<seq<Event>>, id: Id)
    requires PoolModel.IsRun(states, events) && i < |states|
    requires |traces| == |execs| == |states[i].started|
    requires forall n :: 0 <= n < |traces| ==> TraceOf(scopes, execs[n], traces[n])
    ensures WritesFor(states[i].started, traces, id) <= 1
  {
    forall n | 0 <= n < |traces|
      ensures AtMostOneWrite(traces[n])
    {
      RunnerWritesOnce(scopes, execs[n], traces[n]);
    }
    PoolTheorems.RunAtMostOnce(states, events, i);
    WritesForOnce(states[i].started, traces, id);
  }

  // ---------------------------------------------------------------- over runs of the cluster cache

  // A lookup that the caching provider answered: some call of the cache returned a record for this cluster, and the
  // answer is that record's field. A lookup may also fail.
  ghost predicate AnsweredByCache(s: ClusterCache.State, e: Event) {
    match e
    case RegionLookup(cluster, answer) =>
      answer.None? || exists c: nat :: Answers(s, c, cluster) && answer == ClusterCache.DefaultRegion(Some(s.calls[c].record))
    case InfraLookup(cluster, answer) =>
      answer.None? || exists c: nat :: Answers(s, c, cluster) && answer == ClusterCache.ClusterInfraId(Some(s.calls[c].record))
    case _ => true
  }

  predicate Answers(s: ClusterCache.State, c: nat, cluster: string) {
    c < |s.calls| && s.calls[c].Returned? && s.calls[c].key == cluster
  }

  // OCM said so of this cluster: to call c itself, or to a call that stored the record less than the lifetime before
  // the clock reading at which call c was served.
  ghost predicate SaidOfCluster(s: ClusterCache.State, c: nat, cluster: string) {
    && Answers(s, c, cluster)
    && var r := s.calls[c];
       && ClusterCache.Genuine(s, cluster, r.record)
       && (r.origin.Fetched? ==> (c, cluster, r.record) in s.answers)
       && (r.origin.Served? ==> (cluster, r.record, r.origin.storedAt) in s.stores
                                && r.origin.storedAt <= r.origin.readAt < r.origin.storedAt + s.ttl)
  }

  // The region a write goes to, and the infrastructure ID its instance was checked against, are what OCM said of the
  // very cluster the request names, to this execution or less than the lifetime before, however lookups of other
  // executions overlap with it.
  lemma WriteUsesOcmAnswers(states: seq<ClusterCache.State>, events: seq<ClusterCache.Event>, i: nat,
                            scopes: seq<Scope>, req: ExecRequest, w: Event, before: seq<Event>)
    returns (regionCall: nat, infraCall: nat)
    requires ClusterCache.IsRun(states, events) && i < |states|
    requires Explained(scopes, req, w, before) && forall e :: e in before ==> AnsweredByCache(states[i], e)
    ensures SaidOfCluster(states[i], regionCall, req.cluster) && SaidOfCluster(states[i], infraCall, req.cluster)
    ensures states[i].calls[regionCall].record.region == w.region != ""
    ensures ProvenBy(w, states[i].calls[infraCall].record.infraId, before)
  {
    var s := states[i];
    var infraId :| ProvenBy(w, infraId, before);
    assert AnsweredByCache(s, RegionLookup(req.cluster, Some(w.region)));
    assert AnsweredByCache(s, InfraLookup(req.cluster, Some(infraId)));
    regionCall :| Answers(s, regionCall, req.cluster)
                  && Some(w.region) == ClusterCache.DefaultRegion(Some(s.calls[regionCall].record));
    infraCall :| Answers(s, infraCall, req.cluster)
                 && Some(infraId) == ClusterCache.ClusterInfraId(Some(s.calls[infraCall].record));
    ClusterCache.ReturnsAreGenuine(states, events, i, regionCall);
    ClusterCache.ReturnsAreGenuine(states, events, i, infraCall);
  }

  // When OCM's record of a cluster never changes, a lookup that succeeds answers what asking OCM would.
  lemma LookupAsUncached(states: seq<ClusterCache.State>, events: seq<ClusterCache.Event>, i: nat, e: Event,
                         truth: ClusterCache.Record)
    requires ClusterCache.IsRun(states, events) && i < |states| && AnsweredByCache(states[i], e) && IsLookup(e)
    requires forall d, record :: (d, e.cluster, record) in states[i].answers ==> record == truth
    ensures e.answer.Some? ==>
              e.answer == if e.RegionLookup? then ClusterCache.DefaultRegion(Some(truth))
                          else ClusterCache.ClusterInfraId(Some(truth))
  {
    var s := states[i];
    if e.answer.Some? {
      var c: nat :| Answers(s, c, e.cluster)
                    && e.answer == if e.RegionLookup? then ClusterCache.DefaultRegion(Some(s.calls[c].record))
                                   else ClusterCache.ClusterInfraId(Some(s.calls[c].record));
      ClusterCache.ReturnsAreGenuine(states, events, i, c);
    }
  }
}
