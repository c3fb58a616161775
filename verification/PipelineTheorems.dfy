/** What the pipeline promises over every whole execution. */
module PipelineTheorems {
  import opened Basics
  import opened Authorization
  import opened Rbac
  import opened KubeActions
  import opened ExecutionTable
  import opened PipelineModel
  import opened Pipeline
  import opened Executor
  import AwsGet

  // ---------------------------------------------------------------- one execution

  // Beyond the lookups that find the target, nothing outside is touched unless the audit record says "allowed", and
  // then something is.
  lemma TouchedIffAllowed(scopes: seq<Scope>, req: ExecRequest, api: Cluster, lookups: seq<Event>, ran: seq<Event>,
                          rec: Record, result: ExecResult)
    requires Completed(scopes, req, api, lookups, ran, rec, result)
    ensures forall k :: 0 <= k < |lookups| ==> IsLookup(lookups[k])
    ensures ran != [] <==> rec.decision.Allowed?
    ensures forall k :: 0 <= k < |ran| ==> !IsLookup(ran[k])
    ensures rec.decision.Allowed? ==>
              rec.target.Some? && exists i :: 0 <= i < |scopes| && Supports(scopes[i], req.action)
                                              && Authorize(scopes[i], req.action, rec.target.value) == Allow
  {
    var scope := ScopeFor(scopes, req.action);
    if scope.Some? {
      ScopeIsListed(scopes, req.action);
      if rec.decision.Allowed? {
        if rec.target.value.KubeTarget? {
          KubeTouches(req, rec.target.value.resource, api, ran, Returned(result));
        }
      }
    }
  }

  lemma {:induction false} ScopeIsListed(scopes: seq<Scope>, action: Action)
    requires ScopeFor(scopes, action).Some?
    ensures exists i :: 0 <= i < |scopes| && scopes[i] == ScopeFor(scopes, action).value && Supports(scopes[i], action)
                        && forall j :: 0 <= j < i ==> !Supports(scopes[j], action)
  {
    if !Supports(scopes[0], action) {
      ScopeIsListed(scopes[1..], action);
      var i :| 0 <= i < |scopes[1..]| && scopes[1..][i] == ScopeFor(scopes, action).value && Supports(scopes[1..][i], action)
               && forall j :: 0 <= j < i ==> !Supports(scopes[1..][j], action);
      assert scopes[i + 1] == scopes[1..][i];
      assert forall j :: 0 < j < i + 1 ==> scopes[j] == scopes[1..][j - 1];
    }
  }

  lemma KubeTouches(req: ExecRequest, t: ResourceTarget, api: Cluster, ran: seq<Event>, r: Result<Output, Error>)
    requires KubeRan(req, t, api, ran, r)
    ensures |ran| > 0 && ran[0].KubeSession? && forall k :: 0 <= k < |ran| ==> !IsLookup(ran[k])
    ensures forall k :: 0 <= k < |ran| && ran[k].KubeCall? ==>
              ran[k].cluster == req.cluster && RequestGrants(ran[0].request, ran[k].access)
    ensures NoWrite(ran)
  {
    var request, ok, podOk :|
      && Regroups(request, KubeName(req.action.kube), RequiredRbac(req.action.kube, t))
      && KubeCallsOn(ran, req.cluster, request)
      && KubeSent(req, t, api, ran, r, Sessions(req, request, ok, podOk), ok && podOk);
    assert ran[0] == KubeSession(req.cluster, request, ok);
    forall k | 0 <= k < |ran|
      ensures ran[k].KubeSession? || ran[k].PodSession? || ran[k].KubeCall?
    {
    }
  }

  // A Kubernetes call made in any execution is granted by the access requested first in that execution, and that
  // access is for the same cluster.
  lemma KubeCallsGranted(scopes: seq<Scope>, req: ExecRequest, api: Cluster, lookups: seq<Event>, ran: seq<Event>,
                         rec: Record, result: ExecResult, k: nat)
    requires Completed(scopes, req, api, lookups, ran, rec, result)
    requires k < |ran| && ran[k].KubeCall?
    ensures ran[0].KubeSession? && ran[0].cluster == ran[k].cluster == req.cluster
    ensures RequestGrants(ran[0].request, ran[k].access)
  {
    if rec.target.value.AwsObject? {
      assert false;
    }
    KubeTouches(req, rec.target.value.resource, api, ran, Returned(result));
    var request :| KubeCallsOn(ran, req.cluster, request);
    assert ran[0].cluster == req.cluster;
  }

  // The Kubernetes requests of an execution, in order.
  function CallsOf(events: seq<Event>): seq<Access> {
    if events == [] then []
    else
      var last := events[|events| - 1];
      CallsOf(events[..|events| - 1]) + if last.KubeCall? then [last.access] else []
  }

  lemma {:induction false} CallsOfMade(sessions: seq<Event>, cluster: string, made: seq<Access>)
    requires CallsOf(sessions) == []
    ensures CallsOf(sessions + KubeCalls(cluster, made)) == made
  {
    var calls := KubeCalls(cluster, made);
    if made == [] {
      assert sessions + calls == sessions;
    } else {
      var n := |made| - 1;
      CallsOfMade(sessions, cluster, made[..n]);
      assert KubeCalls(cluster, made[..n]) == calls[..n];
      assert (sessions + calls)[..|sessions| + n] == sessions + calls[..n];
      assert made == made[..n] + [made[n]];
    }
  }

  lemma SessionsCallNothing(req: ExecRequest, request: Request, ok: bool, podOk: bool)
    requires req.action.KubeAct?
    ensures CallsOf(Sessions(req, request, ok, podOk)) == []
  {
    var sessions := Sessions(req, request, ok, podOk);
    assert sessions[..1][..0] == [] && (|sessions| == 1 ==> sessions == sessions[..1]);
    assert CallsOf(sessions[..1]) == [];
  }

  lemma KubeCallsAreMade(req: ExecRequest, t: ResourceTarget, api: Cluster, ran: seq<Event>, r: Result<Output, Error>)
    requires KubeRan(req, t, api, ran, r)
    ensures CallsOf(ran) == []
         || CallsOf(ran) == KubeActions.Execute(req.action.kube, api, UsesPodExec(req.action.kube), t, req.params).made
  {
    var request, ok, podOk :|
      && Regroups(request, KubeName(req.action.kube), RequiredRbac(req.action.kube, t))
      && KubeCallsOn(ran, req.cluster, request)
      && KubeSent(req, t, api, ran, r, Sessions(req, request, ok, podOk), ok && podOk);
    var sessions := Sessions(req, request, ok, podOk);
    var made := KubeActions.Execute(req.action.kube, api, UsesPodExec(req.action.kube), t, req.params).made;
    SessionsCallNothing(req, request, ok, podOk);
    CallsOfMade(sessions, req.cluster, made);
    assert sessions + [] == sessions;
  }

  // On a server that lists namespaces, whatever params the caller sends: an action runs only with a listed namespace,
  // and under the condition of StaysInside, which the caller can check beforehand, what it requests stays inside the
  // lists. Where the condition fails, get-pull-secret-email is outside whenever it requests anything, and so is
  // describe-nodes when the empty namespace is not listed.
  lemma NamespaceAllowlistHolds(scopes: seq<Scope>, req: ExecRequest, api: Cluster, lookups: seq<Event>, ran: seq<Event>,
                                rec: Record, result: ExecResult, policy: KubePolicy)
    requires Completed(scopes, req, api, lookups, ran, rec, result) && req.target.None?
    requires ScopeFor(scopes, req.action) == Some(KubeScope(policy)) && policy.namespaces != {} && req.action.KubeAct?
    ensures rec.decision.Allowed? ==> Param(req.params, "namespace") in policy.namespaces
    ensures StaysInside(policy, req.action.kube) ==> AllInside(policy, CallsOf(ran))
    ensures !StaysInside(policy, req.action.kube) && (req.action.kube.DescribeNodes? ==> "" !in policy.namespaces) ==>
              CallsOf(ran) == [] || !AllInside(policy, CallsOf(ran))
  {
    if rec.decision.Allowed? {
      var t, action := DeriveKubeTarget(req), req.action.kube;
      KubeCallsAreMade(req, t, api, ran, Returned(result));
      if StaysInside(policy, action) {
        InsideWhenAllowed(policy, action, api, UsesPodExec(action), t, req.params);
      } else if action.GetPullSecretEmail? {
        SecretOutside(policy, api, false, t, req.params);
      } else if "" !in policy.namespaces {
        NodesOutside(policy, api, false, t, req.params);
      }
    }
  }

  predicate Authorized(policy: KubePolicy, req: ExecRequest) {
    var t := DeriveKubeTarget(req);
    KubeAuthorize(policy, KubeQuestion(t.namespace, t.resource, t.name, t.clusterScoped)) == Allow
  }

  // So for an authorized request: all its possible executions stay inside the lists if and only if StaysInside holds.
  lemma NamespaceAllowlistExact(scopes: seq<Scope>, req: ExecRequest, policy: KubePolicy)
    requires req.target.None? && req.action.KubeAct? && Authorized(policy, req)
    requires ScopeFor(scopes, req.action) == Some(KubeScope(policy)) && policy.namespaces != {}
    ensures (forall api, ran, rec, result ::
               Completed(scopes, req, api, [], ran, rec, result) ==> AllInside(policy, CallsOf(ran)))
       <==> StaysInside(policy, req.action.kube)
  {
    if StaysInside(policy, req.action.kube) {
      forall api, ran, rec, result | Completed(scopes, req, api, [], ran, rec, result)
        ensures AllInside(policy, CallsOf(ran))
      {
        NamespaceAllowlistHolds(scopes, req, api, [], ran, rec, result, policy);
      }
    } else {
      var ran, rec, result := OutsideExecution(scopes, req, policy);
    }
  }

  // A successful execution, given the access request the backplane accepted and a cluster that answers.
  lemma KubeExecution(scopes: seq<Scope>, req: ExecRequest, policy: KubePolicy, request: Request, api: Cluster)
    returns (ran: seq<Event>, rec: Record, result: ExecResult)
    requires req.target.None? && req.action.KubeAct? && !UsesPodExec(req.action.kube) && Authorized(policy, req)
    requires ScopeFor(scopes, req.action) == Some(KubeScope(policy))
    requires Regroups(request, KubeName(req.action.kube), RequiredRbac(req.action.kube, DeriveKubeTarget(req)))
    requires KubeActions.Execute(req.action.kube, api, false, DeriveKubeTarget(req), req.params).ok
    ensures Completed(scopes, req, api, [], ran, rec, result) && rec.outcome.Success?
    ensures CallsOf(ran) == KubeActions.Execute(req.action.kube, api, false, DeriveKubeTarget(req), req.params).made
  {
    var t, action := DeriveKubeTarget(req), req.action.kube;
    var made := KubeActions.Execute(action, api, false, t, req.params).made;
    var output := Output("", []);
    ran := Sessions(req, request, true, true) + KubeCalls(req.cluster, made);
    rec := Record(req.caller, req.action, req.cluster, Some(KubeTarget(t)), Allowed, None, Success, None);
    result := ExecResult(true, None, Some(output), None);
    RbacIsSufficient(action, api, false, t, req.params, request, KubeName(action));
    SentOn(req, request, true, true, made);
    KubeRanWith(req, t, api, ran, output, request);
    SessionsCallNothing(req, request, true, true);
    CallsOfMade(Sessions(req, request, true, true), req.cluster, made);
  }

  lemma KubeRanWith(req: ExecRequest, t: ResourceTarget, api: Cluster, ran: seq<Event>, output: Output, request: Request)
    requires req.action.KubeAct? && !UsesPodExec(req.action.kube)
    requires Regroups(request, KubeName(req.action.kube), RequiredRbac(req.action.kube, t))
    requires KubeCallsOn(ran, req.cluster, request)
    requires KubeActions.Execute(req.action.kube, api, false, t, req.params).ok
    requires ran == Sessions(req, request, true, true)
                    + KubeCalls(req.cluster, KubeActions.Execute(req.action.kube, api, false, t, req.params).made)
    ensures KubeRan(req, t, api, ran, Ok(output))
  {
    assert KubeSent(req, t, api, ran, Ok(output), Sessions(req, request, true, true), true && true);
  }

  // Where the condition fails there is an execution, authorized, audited and successful, that leaves the lists.
  lemma OutsideExecution(scopes: seq<Scope>, req: ExecRequest, policy: KubePolicy)
    returns (ran: seq<Event>, rec: Record, result: ExecResult)
    requires req.target.None? && req.action.KubeAct? && Authorized(policy, req)
    requires ScopeFor(scopes, req.action) == Some(KubeScope(policy)) && !StaysInside(policy, req.action.kube)
    ensures Completed(scopes, req, Answering(), [], ran, rec, result) && rec.outcome.Success?
    ensures !AllInside(policy, CallsOf(ran))
  {
    var t := DeriveKubeTarget(req);
    var request: Request;
    if req.action.kube.GetPullSecretEmail? {
      request := PullSecretRequest(t);
      AnsweredSecret(t, req.params);
      SecretOutside(policy, Answering(), false, t, req.params);
    } else {
      request := NodesRequest(t);
      AnsweredNodes(false, t, req.params);
      PlanOutside(policy, t);
    }
    ran, rec, result := KubeExecution(scopes, req, policy, request, Answering());
  }

  lemma AnsweredSecret(t: ResourceTarget, params: map<string, string>)
    ensures KubeActions.Execute(GetPullSecretEmail, Answering(), false, t, params).ok
  {
    var secret := Access(PULL_SECRET_NAMESPACE, "", "secrets", PULL_SECRET_NAME, "get");
    assert [secret][1..] == [] && [] + [secret] == [secret];
    assert AskAll(Answering(), [], [secret]) == Outcome([secret], true);
  }

  lemma PullSecretRequest(t: ResourceTarget) returns (request: Request)
    ensures Regroups(request, "get-pull-secret-email", RequiredRbac(GetPullSecretEmail, t))
  {
    var rules := RequiredRbac(GetPullSecretEmail, t);
    var policies := [ToPolicyRule(rules[0])];
    request := Request("get-pull-secret-email", false, [], [Role(PULL_SECRET_NAMESPACE, policies)]);
    assert |rules| == 1 && rules[..|rules| - 1] == [] && rules[0].namespace == PULL_SECRET_NAMESPACE != "";
    assert PoliciesOf(rules[..0], "") == PoliciesOf(rules[..0], PULL_SECRET_NAMESPACE) == [];
    assert PoliciesOf(rules, PULL_SECRET_NAMESPACE) == policies;
    assert PoliciesOf(rules, "") == [];
    assert NamespacesOf(request.roles) == [PULL_SECRET_NAMESPACE];
    assert Declares(rules, PULL_SECRET_NAMESPACE) by {
      assert rules[0].namespace == PULL_SECRET_NAMESPACE;
    }
  }

  lemma NodesRequest(t: ResourceTarget) returns (request: Request)
    ensures Regroups(request, "describe-nodes", RequiredRbac(DescribeNodes, t))
  {
    var rules := RequiredRbac(DescribeNodes, t);
    request := Request("describe-nodes", false, PoliciesOf(rules, ""), []);
    assert forall i :: 0 <= i < |rules| ==> rules[i].namespace == "";
    assert NamespacesOf(request.roles) == [];
  }

  // Two such requests: any listed namespace in the params is enough. get-pull-secret-email then reads its secret,
  // listed or not, and describe-nodes reads the whole cluster.
  lemma FixedTargetsReadOutside(policy: KubePolicy, namespace: string, cluster: string, action: KubeAction)
    returns (req: ExecRequest, ran: seq<Event>, rec: Record, result: ExecResult)
    requires namespace != "" && namespace in policy.namespaces && !StaysInside(policy, action)
    ensures req == ExecRequest("", cluster, KubeAct(action), None, map["namespace" := namespace])
    ensures Completed([KubeScope(policy)], req, Answering(), [], ran, rec, result)
    ensures rec.outcome.Success? && !AllInside(policy, CallsOf(ran))
  {
    req := ExecRequest("", cluster, KubeAct(action), None, map["namespace" := namespace]);
    var t := DeriveKubeTarget(req);
    assert t.namespace == namespace && t.resource == "" && Authorized(policy, req);
    ran, rec, result := OutsideExecution([KubeScope(policy)], req, policy);
  }

  // A read the resource does not accept is refused before any read is sent.
  lemma RefusedReadsNothing(scopes: seq<Scope>, req: ExecRequest, api: Cluster, lookups: seq<Event>, ran: seq<Event>,
                            rec: Record, result: ExecResult)
    requires Completed(scopes, req, api, lookups, ran, rec, result) && req.target.None? && req.action.AwsRead?
    requires !AwsGet.Accepts(Param(req.params, "resource"), Param(req.params, "id"), req.params)
    ensures !rec.outcome.Success?
    ensures forall k :: 0 <= k < |ran| ==> ran[k].AwsClients?
  {
    if rec.decision.Allowed? {
      ScopeSupports(scopes, req.action);
      assert AwsRan(req, rec.target.value.aws, ran, Returned(result));
    }
  }

  // The decision in an audit record, read off the policy and the target that was judged.
  lemma AllowedIff(scopes: seq<Scope>, req: ExecRequest, api: Cluster, lookups: seq<Event>, ran: seq<Event>, rec: Record,
                   result: ExecResult)
    requires Completed(scopes, req, api, lookups, ran, rec, result) && req.target.None? && rec.target.Some?
    ensures ScopeFor(scopes, req.action).Some?
    ensures rec.decision.Allowed? <==>
              match (ScopeFor(scopes, req.action).value, rec.target.value)
              case (AwsScope(policy), AwsObject(t)) =>
                && t.resource != "" && t.region != "" && t.region in policy.regions
                && (req.action.AwsReboot? ==> "reboot" in policy.operations)
                && (req.action.AwsTerminate? ==> "terminate" in policy.operations)
              case (KubeScope(policy), KubeTarget(t)) =>
                || policy.namespaces == {}
                || (t.namespace in policy.namespaces && t.namespace != ""
                    && (t.resource == "secrets" ==> t.name != "" && t.namespace + "/" + t.name in policy.secrets))
              case _ => false
    ensures !rec.decision.Allowed? ==> rec.decision.Denied? && rec.outcome.Skipped?
  {
    ScopeSupports(scopes, req.action);
  }

  // The write actions act on EC2 instances only: any other resource in the params stops them after the region lookup.
  lemma MismatchRefused(scopes: seq<Scope>, req: ExecRequest, api: Cluster, lookups: seq<Event>, ran: seq<Event>,
                        rec: Record, result: ExecResult)
    requires Completed(scopes, req, api, lookups, ran, rec, result) && req.target.None?
    requires req.action.AwsReboot? || req.action.AwsTerminate?
    requires Param(req.params, "resource") != "" && Param(req.params, "resource") != "ec2-instances"
    ensures ran == [] && rec.target.None? && !rec.outcome.Success?
    ensures forall k :: 0 <= k < |lookups| ==> lookups[k].RegionLookup?
  {
    ScopeSupports(scopes, req.action);
  }

  // When an allowed write action makes its call: with clients, an id and an infrastructure ID it asks EC2 about the
  // instance first, and then, where ids are unique, writes exactly when the answer shows the instance tagged as the
  // cluster's.
  lemma WriteMadeIff(scopes: seq<Scope>, req: ExecRequest, api: Cluster, lookups: seq<Event>, ran: seq<Event>,
                     rec: Record, result: ExecResult)
    requires Completed(scopes, req, api, lookups, ran, rec, result) && req.target.None?
    requires rec.decision.Allowed? && (req.action.AwsReboot? || req.action.AwsTerminate?)
    ensures |ran| >= 1 && ran[0].AwsClients? && |lookups| == 2 && lookups[1].InfraLookup? && lookups[1].answer.Some?
    ensures |ran| > 1 <==> ran[0].ok && Param(req.params, "id") != "" && lookups[1].answer.value != ""
    ensures |ran| > 1 ==> ran[1].Describe? && ran[1].id == Param(req.params, "id")
    ensures |ran| > 1 && ran[1].found.None? ==> NoWrite(ran)
    ensures |ran| > 1 && ran[1].found.Some? && IdsUnique(ran[1].found.value) ==>
              (NoWrite(ran) <==> !ShowsOwned(ran[1].found.value, ran[1].id, lookups[1].answer.value))
  {
    ScopeSupports(scopes, req.action);
    var t := rec.target.value.aws;
    WriteCalls(req, t, ran, Returned(result));
    if |ran| > 1 && ran[1].found.Some? {
      OwnershipMeans(t, ran[1].found.value);
    }
  }

  lemma WriteCalls(req: ExecRequest, t: AwsTarget, ran: seq<Event>, r: Result<Output, Error>)
    requires AwsRan(req, t, ran, r) && IsWrite(req.action)
    ensures |ran| >= 1 && ran[0].AwsClients?
    ensures |ran| > 1 <==> ran[0].ok && t.id != "" && t.infraId != ""
    ensures |ran| > 1 ==> ran[1].Describe? && ran[1].id == t.id && (NoWrite(ran) <==> !Ownership(t, ran[1].found).Ok?)
  {
    if ran[0].ok {
      assert WriteDecided(ran[1..], t);
      assert |ran| > 1 ==> ran[1] == ran[1..][0];
      if |ran| > 2 {
        assert ran[2] == ran[1..][1] && ran[2].Write?;
      }
    }
  }

  // An AWS action calls one region only: the one that was looked up for the cluster, and the policy lists it. It reads
  // only a service that the named resource belongs to.
  lemma AwsCallsInListedRegion(scopes: seq<Scope>, req: ExecRequest, api: Cluster, lookups: seq<Event>, ran: seq<Event>,
                               rec: Record, result: ExecResult, k: nat)
    requires Completed(scopes, req, api, lookups, ran, rec, result) && req.target.None? && !req.action.KubeAct?
    requires k < |ran|
    ensures req.action.AwsRead? ==> Param(req.params, "resource") != ""
    ensures ran[k].AwsClients? || ran[k].Describe? || ran[k].Write? || ran[k].Read?
    ensures ran[k].cluster == req.cluster && RegionLookup(req.cluster, Some(ran[k].region)) in lookups
    ensures ran[k].region != "" && exists i :: 0 <= i < |scopes| && scopes[i].AwsScope? && ran[k].region in scopes[i].awsPolicy.regions
    ensures ran[k].Read? ==> req.action.AwsRead? && AwsGet.Lookup(Param(req.params, "resource")).Some?
                             && ran[k].service == AwsGet.Lookup(Param(req.params, "resource")).value.service
  {
    ScopeSupports(scopes, req.action);
    ScopeIsListed(scopes, req.action);
    var t := rec.target.value.aws;
    assert lookups[0] == RegionLookup(req.cluster, Some(t.region));
    AwsCallAt(req, t, ran, Returned(result), k);
  }

  lemma AwsCallAt(req: ExecRequest, t: AwsTarget, ran: seq<Event>, r: Result<Output, Error>, k: nat)
    requires AwsRan(req, t, ran, r) && !req.action.KubeAct? && k < |ran|
    ensures ran[k].AwsClients? || ran[k].Describe? || ran[k].Write? || ran[k].Read?
    ensures ran[k].cluster == req.cluster && ran[k].region == t.region
    ensures ran[k].Read? ==> req.action.AwsRead? && ran[k].service in RequiredServices(req.action, t)
  {
    assert k == 0 ==> ran[k].AwsClients?;
  }

  // Which action makes the call, and which operation the policy has to list for it.
  ghost predicate IsPermitted(call: WriteCall, action: Action, policy: AwsPolicy) {
    match call
    case RebootInstances => action.AwsReboot? && "reboot" in policy.operations
    case TerminateInstances => action.AwsTerminate? && "terminate" in policy.operations
  }

  // Where the write of an execution comes from, when its target is derived.
  ghost predicate WrittenSafely(scopes: seq<Scope>, req: ExecRequest, lookups: seq<Event>, ran: seq<Event>, k: nat) {
    && k < |ran| && ran[k].Write?
    && ran[k].cluster == req.cluster && ran[k].id == Param(req.params, "id") != ""
    && (exists i :: 0 <= i < |scopes| && scopes[i].AwsScope? && ran[k].region in scopes[i].awsPolicy.regions
                    && IsPermitted(ran[k].call, req.action, scopes[i].awsPolicy))
    && |lookups| == 2 && lookups[0] == RegionLookup(req.cluster, Some(ran[k].region))
    && lookups[1].InfraLookup? && lookups[1].cluster == req.cluster && lookups[1].answer.Some? && lookups[1].answer.value != ""
    && OwnershipShownBefore(ran, k, req.cluster, AwsTarget(ran[k].region, INSTANCES, ran[k].id, lookups[1].answer.value))
  }

  // Every mutating call is the action's own, permitted by the policy, in the region that was looked up for
  // the cluster and is permitted, on the instance named by the caller, after a Describe in the same execution returned
  // that instance tagged as owned by the infrastructure ID that was looked up for the cluster. There is at most one,
  // and one that the execution reports as succeeded did take place.
  lemma WriteTraceSafety(scopes: seq<Scope>, req: ExecRequest, api: Cluster, lookups: seq<Event>, ran: seq<Event>,
                         rec: Record, result: ExecResult)
    requires Completed(scopes, req, api, lookups, ran, rec, result) && req.target.None?
    ensures NoWrite(lookups) && AtMostOneWrite(ran)
    ensures forall k: nat :: k < |ran| && ran[k].Write? ==> WrittenSafely(scopes, req, lookups, ran, k)
    ensures IsWrite(req.action) && rec.outcome.Success? ==> exists k :: 0 <= k < |ran| && ran[k].Write? && ran[k].ok
    ensures forall k: nat :: k < |ran| && ran[k].Write? && ran[k].ok ==>
              rec.outcome.Success? || (rec.outcome.Failed? && rec.error == Some(Plain(NotSerializable)))
  {
    TouchedIffAllowed(scopes, req, api, lookups, ran, rec, result);
    if rec.decision.Allowed? {
      ScopeIsListed(scopes, req.action);
      match rec.target.value {
        case KubeTarget(t) => KubeTouches(req, t, api, ran, Returned(result));
        case AwsObject(t) => AwsWritesSafe(scopes, req, lookups, ran, t, Returned(result));
      }
    }
  }

  lemma AwsWritesSafe(scopes: seq<Scope>, req: ExecRequest, lookups: seq<Event>, ran: seq<Event>, t: AwsTarget,
                      r: Result<Output, Error>)
    requires ScopeFor(scopes, req.action).Some? && ScopeFor(scopes, req.action).value.AwsScope?
    requires Authorize(ScopeFor(scopes, req.action).value, req.action, AwsObject(t)) == Allow
    requires AwsTargetDerived(req, lookups, t) && AwsRan(req, t, ran, r)
    ensures forall k: nat :: k < |ran| && ran[k].Write? ==> WrittenSafely(scopes, req, lookups, ran, k)
    ensures IsWrite(req.action) && r.Ok? ==> exists k :: 0 <= k < |ran| && ran[k].Write? && ran[k].ok
    ensures forall k: nat :: k < |ran| && ran[k].Write? && ran[k].ok ==>
              r.Ok? || r == Err(Failure(RunningAction, Some(NotSerializable)))
  {
    ScopeIsListed(scopes, req.action);
    var i :| 0 <= i < |scopes| && scopes[i] == ScopeFor(scopes, req.action).value;
    forall k: nat | k < |ran| && ran[k].Write?
      ensures WrittenSafely(scopes, req, lookups, ran, k)
    {
      assert ran[k] == Write(req.cluster, t.region, CallOf(req.action), t.id, ran[k].ok);
      assert t == AwsTarget(ran[k].region, INSTANCES, ran[k].id, lookups[1].answer.value);
      assert scopes[i].AwsScope? && ran[k].region in scopes[i].awsPolicy.regions;
    }
  }
}
