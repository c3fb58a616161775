/**
 The execution pipeline: Executor.Execute and the two scopes (internal/executor), the write actions
 (internal/actions/aws_write.go) and the runner that the worker pool calls (internal/worker/executor_runner.go).
 What the outside answers is arbitrary; each method returns the calls it made together with the answers.
 */
module Pipeline {
  import opened Basics
  import opened Authorization
  import opened Rbac
  import opened KubeActions
  import opened ExecutionTable
  import opened PipelineModel
  import AwsGet

  // An arbitrary answer from outside.
  method Answer<T(0)>() returns (t: T) {
    t := *;
  }

  // ---------------------------------------------------------------- requireClusterInstance

  // The first instance of a reservation with the id.
  function FirstIn(instances: seq<Instance>, id: string): Option<Instance> {
    if instances == [] then None
    else if instances[0].id == id then Some(instances[0])
    else FirstIn(instances[1..], id)
  }

  // The source's `break` leaves the inner loop only, so a later reservation that has the id takes over.
  function LastIn(found: seq<seq<Instance>>, id: string): Option<Instance> {
    if found == [] then None
    else
      var here := FirstIn(found[|found| - 1], id);
      if here.Some? then here else LastIn(found[..|found| - 1], id)
  }

  // What one answer to DescribeInstances says about the target.
  function Ownership(target: AwsTarget, found: Option<seq<seq<Instance>>>): Result<Instance, Problem> {
    if found.None? then Err(DescribeFailed)
    else match LastIn(found.value, target.id)
      case None => Err(InstanceNotFound)
      case Some(instance) => if Tagged(instance, target.infraId) then Ok(instance) else Err(NotOwned)
  }

  method Find(found: seq<seq<Instance>>, id: string) returns (instance: Option<Instance>)
    ensures instance == LastIn(found, id)
  {
    instance := None;
    var i := 0;
    while i < |found|
      invariant 0 <= i <= |found|
      invariant instance == LastIn(found[..i], id)
    {
      var j := 0;
      ghost var before := instance;
      while j < |found[i]|
        invariant 0 <= j <= |found[i]|
        invariant instance == before
        invariant FirstIn(found[i][j..], id) == FirstIn(found[i], id)
      {
        assert found[i][j..][1..] == found[i][j + 1..];
        if found[i][j].id == id {
          instance := Some(found[i][j]);
          break;
        }
        j := j + 1;
      }
      assert found[..i + 1][..i] == found[..i];
      i := i + 1;
    }
    assert found[..|found|] == found;
  }

  method HasTag(tags: seq<Tag>, tag: Tag) returns (has: bool)
    ensures has <==> tag in tags
  {
    var i := 0;
    while i < |tags|
      invariant 0 <= i <= |tags|
      invariant tag !in tags[..i]
    {
      if tags[i].key == tag.key && tags[i].value == tag.value {
        return true;
      }
      i := i + 1;
    }
    return false;
  }

  method RequireClusterInstance(cluster: string, target: AwsTarget)
    returns (events: seq<Event>, r: Result<Instance, Problem>)
    ensures target.id == "" ==> events == [] && r == Err(IdRequired)
    ensures target.id != "" && target.infraId == "" ==> events == [] && r == Err(NoInfraId)
    ensures target.id != "" && target.infraId != "" ==>
              && |events| == 1 && events[0].Describe?
              && events[0] == Describe(cluster, target.region, target.id, events[0].found)
              && r == Ownership(target, events[0].found)
  {
    events := [];
    if target.id == "" {
      return events, Err(IdRequired);
    }
    if target.infraId == "" {
      return events, Err(NoInfraId);
    }
    var found: Option<seq<seq<Instance>>> := Answer();
    events := [Describe(cluster, target.region, target.id, found)];
    if found.None? {
      return events, Err(DescribeFailed);
    }
    var instance := Find(found.value, target.id);
    if instance.None? {
      return events, Err(InstanceNotFound);
    }
    var owned := HasTag(instance.value.tags, ClusterOwnershipTag(target.infraId));
    r := if owned then Ok(instance.value) else Err(NotOwned);
  }

  lemma {:induction false} FirstInMeans(instances: seq<Instance>, id: string)
    ensures FirstIn(instances, id).None? <==> forall j :: 0 <= j < |instances| ==> instances[j].id != id
    ensures FirstIn(instances, id).Some? ==> FirstIn(instances, id).value in instances && FirstIn(instances, id).value.id == id
  {
    if instances != [] && instances[0].id != id {
      FirstInMeans(instances[1..], id);
      assert forall j :: 0 < j < |instances| ==> instances[j] == instances[1..][j - 1];
    }
  }

  lemma {:induction false} LastInMeans(found: seq<seq<Instance>>, id: string)
    ensures LastIn(found, id).None? <==> forall i, j :: 0 <= i < |found| && 0 <= j < |found[i]| ==> found[i][j].id != id
    ensures LastIn(found, id).Some? ==>
              exists i, j :: 0 <= i < |found| && 0 <= j < |found[i]| && found[i][j] == LastIn(found, id).value && found[i][j].id == id
  {
    if found != [] {
      var n := |found| - 1;
      FirstInMeans(found[n], id);
      LastInMeans(found[..n], id);
      if FirstIn(found[n], id).Some? {
        var j :| 0 <= j < |found[n]| && found[n][j] == FirstIn(found[n], id).value;
        assert found[n][j].id == id;
      } else if LastIn(found[..n], id).Some? {
        var i, j :| 0 <= i < n && 0 <= j < |found[..n][i]| && found[..n][i][j] == LastIn(found[..n], id).value && found[..n][i][j].id == id;
        assert found[i][j] == LastIn(found, id).value;
      }
      assert forall i :: 0 <= i < n ==> found[..n][i] == found[i];
    }
  }

  ghost predicate IdsUnique(found: seq<seq<Instance>>) {
    forall i, j, k, l ::
      0 <= i < |found| && 0 <= j < |found[i]| && 0 <= k < |found| && 0 <= l < |found[k]| ==>
        found[i][j].id == found[k][l].id ==> found[i][j] == found[k][l]
  }

  // An accepted instance was answered, has the id and is tagged. A refusal for its tags says that the id was there.
  // Where an id names one instance, the check passes exactly when the answer shows the instance tagged.
  lemma OwnershipMeans(target: AwsTarget, found: seq<seq<Instance>>)
    ensures Ownership(target, Some(found)).Ok? ==> ShowsOwned(found, target.id, target.infraId)
    ensures Ownership(target, Some(found)) == Err(InstanceNotFound) <==>
            forall i, j :: 0 <= i < |found| && 0 <= j < |found[i]| ==> found[i][j].id != target.id
    ensures IdsUnique(found) ==> (Ownership(target, Some(found)).Ok? <==> ShowsOwned(found, target.id, target.infraId))
  {
    LastInMeans(found, target.id);
    var last := LastIn(found, target.id);
    if last.Some? {
      var i, j :| 0 <= i < |found| && 0 <= j < |found[i]| && found[i][j] == last.value && found[i][j].id == target.id;
      if Tagged(last.value, target.infraId) {
        assert found[i][j].id == target.id && Tagged(found[i][j], target.infraId);
      }
    }
  }

  // ---------------------------------------------------------------- the write and read actions

  // Whether the write is made: not without a Describe, and after it exactly when its answer says the instance is the
  // cluster's.
  ghost predicate WriteDecided(calls: seq<Event>, target: AwsTarget) {
    if target.id == "" || target.infraId == "" then calls == []
    else
      && |calls| >= 1 && calls[0].Describe? && calls[0].id == target.id
      && if Ownership(target, calls[0].found).Ok? then |calls| == 2 && calls[1].Write? else |calls| == 1
  }

  method WriteExecute(cluster: string, action: Action, target: AwsTarget)
    returns (events: seq<Event>, r: Result<Output, Problem>)
    requires IsWrite(action)
    ensures WritesJustified(events, cluster, action, target) && AtMostOneWrite(events)
    ensures AwsCallsOn(events, cluster, target.region, [AwsGet.Ec2])
    ensures forall k :: 0 <= k < |events| ==> events[k].Describe? || events[k].Write?
    ensures WriteDecided(events, target)
    ensures forall k :: 0 <= k < |events| && events[k].Write? ==>
              if action.AwsReboot? then events[k].call.RebootInstances? else events[k].call.TerminateInstances?
    ensures r.Ok? ==> Write(cluster, target.region, CallOf(action), target.id, true) in events
    ensures Write(cluster, target.region, CallOf(action), target.id, true) in events ==> r.Ok? || r == Err(NotSerializable)
  {
    var described, instance := RequireClusterInstance(cluster, target);
    events := described;
    if instance.Err? {
      return events, Err(instance.error);
    }
    OwnershipMeans(target, described[0].found.value);
    var ok: bool := Answer();
    var call := if action.AwsReboot? then RebootInstances else TerminateInstances;
    events := described + [Write(cluster, target.region, call, target.id, ok)];
    assert OwnershipShownBefore(events, 1, cluster, target) by {
      assert events[0] == described[0];
    }
    if !ok {
      return events, Err(WriteFailed);
    }
    assert events[1] == Write(cluster, target.region, CallOf(action), target.id, true);
    var output: Option<Output> := Answer();
    r := if output.Some? then Ok(output.value) else Err(NotSerializable);
  }

  // aws-get: what it does not accept makes no call; what its describe functions send are reads of one service.
  method ReadExecute(cluster: string, target: AwsTarget, params: map<string, string>)
    returns (events: seq<Event>, r: Result<Output, Problem>)
    ensures AwsCallsOn(events, cluster, target.region, RequiredServices(AwsRead, target))
    ensures forall k :: 0 <= k < |events| ==> events[k].Read?
    ensures !AwsGet.Accepts(target.resource, target.id, params) ==> events == [] && r == Err(RequestRefused)
    ensures r == Err(RequestRefused) ==> !AwsGet.Accepts(target.resource, target.id, params)
  {
    events := [];
    var descriptor := AwsGet.Lookup(target.resource);
    if descriptor.None? {
      return events, Err(RequestRefused);
    }
    var refused := AwsGet.Validate(descriptor.value, target.id, params);
    if refused.Some? {
      return events, Err(RequestRefused);
    }
    var more: bool := Answer();
    var pages: nat := Answer();
    while more && pages > 0
      invariant AwsCallsOn(events, cluster, target.region, RequiredServices(AwsRead, target))
      invariant forall k :: 0 <= k < |events| ==> events[k].Read?
      decreases pages
    {
      var ok: bool := Answer();
      events := events + [Read(cluster, target.region, descriptor.value.service, ok)];
      if !ok {
        return events, Err(ReadFailed);
      }
      more := Answer();
      pages := pages - 1;
    }
    var output: Option<Output> := Answer();
    r := if output.Some? then Ok(output.value) else Err(ActionFailed);
  }

  // ---------------------------------------------------------------- AWSScope and KubeScope

  ghost predicate AwsTargetDerived(req: ExecRequest, events: seq<Event>, t: AwsTarget) {
    && events == [RegionLookup(req.cluster, Some(t.region))]
                 + (if IsWrite(req.action) then [InfraLookup(req.cluster, Some(t.infraId))] else [])
    && t.id == Param(req.params, "id")
    && (if IsWrite(req.action) then t.resource == INSTANCES && Param(req.params, "resource") in ["", INSTANCES]
        else t.resource == Param(req.params, "resource") && t.infraId == "")
  }

  // The three ways AWSScope.DeriveTarget fails; a resource the action does not act on is refused, not overridden.
  ghost predicate AwsTargetRefused(req: ExecRequest, events: seq<Event>, e: Error) {
    var regionFailed := RegionLookup(req.cluster, None);
    var mismatch := IsWrite(req.action) && Param(req.params, "resource") !in ["", INSTANCES];
    match e
    case Failure(ResolvingRegion, cause) => events == [regionFailed] && cause == Some(RegionLookupFailed)
    case Plain(problem) => problem == ResourceMismatch && mismatch && |events| == 1 && events[0].RegionLookup?
                           && events[0].cluster == req.cluster && events[0].answer.Some?
    case Failure(ResolvingInfraId, cause) =>
      && cause == Some(InfraLookupFailed) && IsWrite(req.action) && !mismatch && |events| == 2
      && events[0].RegionLookup? && events[0].cluster == req.cluster && events[0].answer.Some?
      && events[1] == InfraLookup(req.cluster, None)
    case _ => false
  }

  method DeriveAwsTarget(req: ExecRequest) returns (events: seq<Event>, r: Result<Target, Error>)
    ensures r.Ok? ==> r.value.AwsObject? && AwsTargetDerived(req, events, r.value.aws)
    ensures r.Err? ==> AwsTargetRefused(req, events, r.error)
  {
    var region: Option<string> := Answer();
    events := [RegionLookup(req.cluster, region)];
    if region.None? {
      return events, Err(Failure(ResolvingRegion, Some(RegionLookupFailed)));
    }
    var target := AwsTarget(region.value, Param(req.params, "resource"), Param(req.params, "id"), "");
    if !IsWrite(req.action) {
      return events, Ok(AwsObject(target));
    }
    if target.resource != "" && target.resource != INSTANCES {
      return events, Err(Plain(ResourceMismatch));
    }
    target := target.(resource := INSTANCES);
    var infraId: Option<string> := Answer();
    events := events + [InfraLookup(req.cluster, infraId)];
    if infraId.None? {
      return events, Err(Failure(ResolvingInfraId, Some(InfraLookupFailed)));
    }
    target := target.(infraId := infraId.value);
    return events, Ok(AwsObject(target));
  }

  function DeriveKubeTarget(req: ExecRequest): ResourceTarget {
    ResourceTarget(Param(req.params, "group"), Param(req.params, "version"), Param(req.params, "resource"),
                   Param(req.params, "namespace"), Param(req.params, "name"), false)
  }

  // What deriving a target in a scope does, whether it succeeds or not.
  ghost predicate Derived(scope: Scope, req: ExecRequest, events: seq<Event>, r: Result<Target, Error>) {
    match scope
    case KubeScope(_) => events == [] && r == Ok(KubeTarget(DeriveKubeTarget(req)))
    case AwsScope(_) =>
      match r
      case Ok(target) => target.AwsObject? && AwsTargetDerived(req, events, target.aws)
      case Err(e) => AwsTargetRefused(req, events, e)
  }

  method DeriveTarget(scope: Scope, req: ExecRequest) returns (events: seq<Event>, r: Result<Target, Error>)
    ensures Derived(scope, req, events, r)
  {
    if scope.KubeScope? {
      events, r := [], Ok(KubeTarget(DeriveKubeTarget(req)));
    } else {
      events, r := DeriveAwsTarget(req);
    }
  }

  // What Run may do with the target: nothing outside it, and what it reports is what happened.
  ghost predicate AwsRan(req: ExecRequest, t: AwsTarget, events: seq<Event>, r: Result<Output, Error>) {
    && |events| > 0 && events[0].AwsClients?
    && AwsCallsOn(events, req.cluster, t.region, RequiredServices(req.action, t))
    && (IsWrite(req.action) && events[0].ok ==> WriteDecided(events[1..], t))
    && (forall k :: 0 < k < |events| ==> if IsWrite(req.action) then events[k].Describe? || events[k].Write? else events[k].Read?)
    && WritesJustified(events, req.cluster, req.action, t) && AtMostOneWrite(events)
    && (r.Err? ==> r.error.Failure? && r.error.cause.Some?)
    && (!events[0].ok ==> |events| == 1 && r == Err(Failure(GettingClients, Some(ClientsUnavailable))))
    && (IsWrite(req.action) && r.Ok? ==>
          Write(req.cluster, t.region, CallOf(req.action), t.id, true) in events)
    && (IsWrite(req.action) && Write(req.cluster, t.region, CallOf(req.action), t.id, true) in events ==>
          r.Ok? || r == Err(Failure(RunningAction, Some(NotSerializable))))
    && (req.action.AwsRead? && events[0].ok ==>
          (r == Err(Failure(RunningAction, Some(RequestRefused))) <==> !AwsGet.Accepts(t.resource, t.id, req.params))
          && (!AwsGet.Accepts(t.resource, t.id, req.params) ==> |events| == 1))
  }

  lemma JustifiedAfter(head: Event, events: seq<Event>, cluster: string, action: Action, target: AwsTarget)
    requires WritesJustified(events, cluster, action, target) && AtMostOneWrite(events) && !head.Write?
    ensures WritesJustified([head] + events, cluster, action, target) && AtMostOneWrite([head] + events)
  {
    var all := [head] + events;
    forall k | 0 <= k < |all| && all[k].Write?
      ensures OwnershipShownBefore(all, k, cluster, target)
      ensures all[k] == events[k - 1]
    {
      assert OwnershipShownBefore(events, k - 1, cluster, target);
      var j :| 0 <= j < k - 1 && events[j].Describe? && events[j].found.Some?
               && events[j] == Describe(cluster, target.region, target.id, events[j].found)
               && ShowsOwned(events[j].found.value, target.id, target.infraId);
      assert all[j + 1] == events[j];
    }
  }

  method RunAws(req: ExecRequest, t: AwsTarget) returns (events: seq<Event>, r: Result<Output, Error>)
    requires !req.action.KubeAct?
    ensures AwsRan(req, t, events, r)
  {
    var services := RequiredServices(req.action, t);
    var ok: bool := Answer();
    var clients := AwsClients(req.cluster, t.region, services, ok);
    events := [clients];
    if !ok {
      return events, Err(Failure(GettingClients, Some(ClientsUnavailable)));
    }
    var calls: seq<Event>, done: Result<Output, Problem>;
    if IsWrite(req.action) {
      calls, done := WriteExecute(req.cluster, req.action, t);
    } else {
      calls, done := ReadExecute(req.cluster, t, req.params);
    }
    JustifiedAfter(clients, calls, req.cluster, req.action, t);
    events := [clients] + calls;
    assert events[1..] == calls;
    r := if done.Ok? then Ok(done.value) else Err(Failure(RunningAction, Some(done.error)));
  }

  function KubeCalls(cluster: string, made: seq<Access>): seq<Event> {
    seq(|made|, i requires 0 <= i < |made| => KubeCall(cluster, made[i]))
  }

  // The sessions an action needs: one for its requests and, when it runs commands in pods, a second.
  function Sessions(req: ExecRequest, request: Request, ok: bool, podOk: bool): seq<Event>
    requires req.action.KubeAct?
  {
    [KubeSession(req.cluster, request, ok)]
    + if ok && UsesPodExec(req.action.kube) then [PodSession(req.cluster, request, podOk)] else []
  }

  ghost predicate KubeRan(req: ExecRequest, t: ResourceTarget, api: Cluster, events: seq<Event>, r: Result<Output, Error>) {
    && req.action.KubeAct?
    && exists request, ok, podOk ::
         && Regroups(request, KubeName(req.action.kube), RequiredRbac(req.action.kube, t))
         && KubeCallsOn(events, req.cluster, request)
         && KubeSent(req, t, api, events, r, Sessions(req, request, ok, podOk), ok && podOk)
         && (podOk || UsesPodExec(req.action.kube))
  }

  // Without its sessions nothing is sent; with them, exactly what the action sends, and it decides the result.
  ghost predicate KubeSent(req: ExecRequest, t: ResourceTarget, api: Cluster, events: seq<Event>, r: Result<Output, Error>,
                           sessions: seq<Event>, connected: bool)
    requires req.action.KubeAct?
  {
    var done := KubeActions.Execute(req.action.kube, api, UsesPodExec(req.action.kube), t, req.params);
    && events == sessions + (if connected then KubeCalls(req.cluster, done.made) else [])
    && (r.Ok? <==> connected && done.ok)
    && (r.Err? ==> r.error.Failure? && r.error.cause.Some? && (r.error.stage.RunningAction? <==> connected))
  }

  function KubeName(action: KubeAction): string {
    match action
    case Get => "get"
    case Delete => "delete"
    case Patch => "patch"
    case ListAlerts => "list-alerts"
    case DescribeNodes => "describe-nodes"
    case GetPullSecretEmail => "get-pull-secret-email"
  }

  method OpenSessions(req: ExecRequest, request: Request)
    returns (events: seq<Event>, ok: bool, podOk: bool, refused: Option<Stage>)
    requires req.action.KubeAct?
    ensures events == Sessions(req, request, ok, podOk)
    ensures refused.None? <==> ok && podOk
    ensures podOk || UsesPodExec(req.action.kube)
    ensures refused.Some? ==> !refused.value.RunningAction?
  {
    ok := Answer();
    podOk, refused := true, None;
    events := [KubeSession(req.cluster, request, ok)];
    if !ok {
      refused := Some(GettingClients);
    } else if UsesPodExec(req.action.kube) {
      podOk := Answer();
      events := events + [PodSession(req.cluster, request, podOk)];
      refused := if podOk then None else Some(GettingPodExecutor);
    }
  }

  lemma SentOn(req: ExecRequest, request: Request, ok: bool, podOk: bool, made: seq<Access>)
    requires req.action.KubeAct?
    requires forall i :: 0 <= i < |made| ==> RequestGrants(request, made[i])
    ensures KubeCallsOn(Sessions(req, request, ok, podOk) + KubeCalls(req.cluster, made), req.cluster, request)
  {
    var sessions, calls := Sessions(req, request, ok, podOk), KubeCalls(req.cluster, made);
    assert KubeCallsOn(sessions, req.cluster, request);
    forall k | 0 <= k < |calls|
      ensures (sessions + calls)[|sessions| + k] == KubeCall(req.cluster, made[k])
    {
    }
  }

  method RunKube(req: ExecRequest, t: ResourceTarget, api: Cluster) returns (events: seq<Event>, r: Result<Output, Error>)
    requires req.action.KubeAct?
    ensures KubeRan(req, t, api, events, r)
  {
    var action := req.action.kube;
    var request := BuildCreateRequest(KubeName(action), RequiredRbac(action, t));
    var sessions, ok, podOk, refused := OpenSessions(req, request);
    if refused.Some? {
      SentOn(req, request, ok, podOk, []);
      events, r := sessions + [], Err(Failure(refused.value, Some(ClientsUnavailable)));
    } else {
      var done := KubeActions.Execute(action, api, UsesPodExec(action), t, req.params);
      RbacIsSufficient(action, api, UsesPodExec(action), t, req.params, request, KubeName(action));
      SentOn(req, request, ok, podOk, done.made);
      events := sessions + KubeCalls(req.cluster, done.made);
      var output: Output := Answer();
      r := if done.ok then Ok(output) else Err(Failure(RunningAction, Some(ActionFailed)));
    }
    assert KubeSent(req, t, api, events, r, Sessions(req, request, ok, podOk), ok && podOk);
  }

  ghost predicate Ran(req: ExecRequest, target: Target, api: Cluster, events: seq<Event>, r: Result<Output, Error>) {
    match target
    case AwsObject(t) => AwsRan(req, t, events, r)
    case KubeTarget(t) => KubeRan(req, t, api, events, r)
  }

  method Run(scope: Scope, req: ExecRequest, target: Target, api: Cluster)
    returns (events: seq<Event>, r: Result<Output, Error>)
    requires Supports(scope, req.action)
    ensures scope.KubeScope? == target.KubeTarget? ==> Ran(req, target, api, events, r)
    ensures scope.KubeScope? != target.KubeTarget? ==> events == [] && r == Err(Plain(NotOfThisScope))
  {
    if scope.KubeScope? && target.KubeTarget? {
      events, r := RunKube(req, target.resource, api);
    } else if scope.AwsScope? && target.AwsObject? {
      events, r := RunAws(req, target.aws);
    } else {
      events, r := [], Err(Plain(NotOfThisScope));
    }
  }
}
