/**
 When the Kubernetes actions of internal/actions send their requests and when they succeed, for every behaviour of the
 cluster; the same over whole executions, and what the requested access grants beyond what is sent.
 */
module KubeOutcomes {
  import opened Basics
  import opened Authorization
  import opened Rbac
  import opened KubeActions
  import opened PipelineModel
  import opened Pipeline
  import opened Executor
  import opened PipelineTheorems
  import opened ExecutionTable

  predicate OnObject(action: KubeAction) {
    action.Get? || action.Delete? || action.Patch?
  }

  // ---------------------------------------------------------------- success

  // The whole of what an action sent, when it succeeded: every request was answered, and what the action had to
  // understand was readable. get, delete and patch send one request, for the target.
  predicate Fulfilled(action: KubeAction, cluster: Cluster, target: ResourceTarget, params: map<string, string>,
                      made: seq<Access>) {
    match action
    case Get =>
      made == [Access(target.namespace, target.group, target.resource, target.name, if target.name == "" then "list" else "get")]
      && cluster.answer(made).Some?
    case Delete =>
      made == [Access(target.namespace, target.group, target.resource, target.name, "delete")] && cluster.answer(made).Some?
    case Patch =>
      made == [Access(target.namespace, target.group, target.resource, target.name, "patch")] && cluster.answer(made).Some?
    case GetPullSecretEmail =>
      made == [Access("openshift-config", "", "secrets", "pull-secret", "get")]
      && cluster.answer(made).Some? && cluster.readable(made)
    case DescribeNodes =>
      made == [ Access("", "", "nodes", target.name, if target.name == "" then "list" else "get"),
                Access("", "", "pods", "", "list"),
                Access("", "", "events", "", "list"),
                Access("kube-node-lease", "coordination.k8s.io", "leases", "", "list") ]
      && forall n :: 0 < n <= |made| ==> cluster.answer(made[..n]).Some?
    case ListAlerts =>
      var ns := if target.namespace == "" then "openshift-monitoring" else target.namespace;
      var silences := "silences" in params && params["silences"] == "true";
      |made| == (if silences then 4 else 2) && Queried(cluster, made, 0, ns) && (silences ==> Queried(cluster, made, 2, ns))
  }

  // An action succeeds exactly when what it sent is fulfilled.
  lemma SucceedsIff(action: KubeAction, cluster: Cluster, target: ResourceTarget, params: map<string, string>)
    ensures var o := Execute(action, cluster, UsesPodExec(action), target, params);
            o.ok <==> Fulfilled(action, cluster, target, params, o.made)
  {
    match action {
      case ListAlerts => AlertsIff(cluster, target, params);
      case DescribeNodes => NodesIff(cluster, target, params);
      case GetPullSecretEmail =>
        OneAsked(cluster, Access("openshift-config", "", "secrets", "pull-secret", "get"));
      case _ =>
        var verb := if action.Delete? then "delete" else if action.Patch? then "patch" else if target.name == "" then "list" else "get";
        OneAsked(cluster, Access(target.namespace, target.group, target.resource, target.name, verb));
    }
  }

  lemma OneAsked(cluster: Cluster, access: Access)
    ensures var o := AskAll(cluster, [], [access]);
            o.made == [access] && (o.ok <==> cluster.answer([access]).Some?)
  {
    assert [] + [access] == [access] && [access][1..] == [];
  }

  lemma NodesIff(cluster: Cluster, target: ResourceTarget, params: map<string, string>)
    ensures var o := Execute(DescribeNodes, cluster, false, target, params);
            o.ok <==> Fulfilled(DescribeNodes, cluster, target, params, o.made)
  {
    AskAllFollowsPlan(cluster, [], NodesPlan(target));
    assert [] + NodesPlan(target) == NodesPlan(target);
  }

  lemma AlertsIff(cluster: Cluster, target: ResourceTarget, params: map<string, string>)
    ensures var o := Execute(ListAlerts, cluster, true, target, params);
            o.ok <==> Fulfilled(ListAlerts, cluster, target, params, o.made)
  {
    AlertsSucceed(cluster, true, target, params);
    var o, ns := Execute(ListAlerts, cluster, true, target, params), MonitoringNamespace(target);
    if Fulfilled(ListAlerts, cluster, target, params, o.made) {
      var alerts := QueryPod(cluster, [], ns);
      QueryIff(cluster, [], ns);
      QueryIff(cluster, alerts.made, ns);
      if alerts.ok && Param(params, "silences") == "true" {
        assert o == QueryPod(cluster, alerts.made, ns);
      } else {
        assert o == alerts;
      }
    }
  }

  // A query that got as far as running its command is decided by the answer to it.
  lemma QueryIff(cluster: Cluster, made: seq<Access>, namespace: string)
    ensures var o := QueryPod(cluster, made, namespace);
            && |made| < |o.made| <= |made| + 2
            && (o.ok <==> Queried(cluster, o.made, |made|, namespace))
  {
    QuerySucceeds(cluster, made, namespace);
    var o := QueryPod(cluster, made, namespace);
    assert o.made[..|o.made|] == o.made;
  }

  // Whether get, delete and patch send their one request does not depend on the cluster: the namespace has to fit the
  // scope, delete and patch have to name their object, and patch has to come with a patch.
  lemma SendsIff(action: KubeAction, cluster: Cluster, target: ResourceTarget, params: map<string, string>)
    requires OnObject(action)
    ensures Execute(action, cluster, false, target, params).made != []
       <==> && (target.clusterScoped <==> target.namespace == "")
            && (target.name == "" ==> action.Get?)
            && (action.Patch? ==> "patch" in params && params["patch"] != "")
  {
    var verb := if action.Delete? then "delete" else if action.Patch? then "patch" else if target.name == "" then "list" else "get";
    OneAsked(cluster, Access(target.namespace, target.group, target.resource, target.name, verb));
  }

  // ---------------------------------------------------------------- over whole executions

  // The object that the caller's params name.
  predicate NamedBy(t: ResourceTarget, params: map<string, string>) {
    && t.group == Param(params, "group") && t.version == Param(params, "version") && t.resource == Param(params, "resource")
    && t.namespace == Param(params, "namespace") && t.name == Param(params, "name") && !t.clusterScoped
  }

  ghost predicate Connected(events: seq<Event>, action: KubeAction) {
    && |events| > 0 && events[0].KubeSession? && events[0].ok
    && (action.ListAlerts? ==> |events| > 1 && events[1].PodSession? && events[1].ok)
  }

  // For every execution of a Kubernetes action whose target is derived: the audit record names the object of the
  // params; it says success exactly when every request that was sent was answered and nothing is missing, with the
  // requests and the object read off the params; and get, delete and patch send exactly when the params allow it.
  lemma KubeExecutions(scopes: seq<Scope>, req: ExecRequest, api: Cluster, lookups: seq<Event>, ran: seq<Event>,
                       rec: Record, result: ExecResult)
    requires Completed(scopes, req, api, lookups, ran, rec, result) && req.target.None? && req.action.KubeAct?
    ensures lookups == []
    ensures rec.target.Some? ==> rec.target.value.KubeTarget? && NamedBy(rec.target.value.resource, req.params)
    ensures rec.outcome.Success? <==>
              && rec.decision.Allowed? && rec.target.Some? && rec.target.value.KubeTarget?
              && Fulfilled(req.action.kube, api, rec.target.value.resource, req.params, CallsOf(ran))
    ensures rec.decision.Allowed? && OnObject(req.action.kube) ==>
              (CallsOf(ran) != [] <==>
                && Connected(ran, req.action.kube) && Param(req.params, "namespace") != ""
                && (Param(req.params, "name") == "" ==> req.action.kube.Get?)
                && (req.action.kube.Patch? ==> Param(req.params, "patch") != ""))
  {
    ScopeSupports(scopes, req.action);
    if rec.decision.Allowed? {
      var t, action := rec.target.value.resource, req.action.kube;
      assert rec.outcome.Success? <==> Returned(result).Ok?;
      KubeRunOutcome(req, t, api, ran, Returned(result));
      if OnObject(action) {
        SendsIff(action, api, t, req.params);
      }
    }
  }

  lemma KubeRunOutcome(req: ExecRequest, t: ResourceTarget, api: Cluster, ran: seq<Event>, r: Result<Output, Error>)
    requires KubeRan(req, t, api, ran, r)
    ensures r.Ok? <==> Fulfilled(req.action.kube, api, t, req.params, CallsOf(ran))
    ensures CallsOf(ran) == if Connected(ran, req.action.kube)
                            then Execute(req.action.kube, api, UsesPodExec(req.action.kube), t, req.params).made else []
  {
    var request, ok, podOk :|
      && Regroups(request, KubeName(req.action.kube), RequiredRbac(req.action.kube, t))
      && KubeCallsOn(ran, req.cluster, request)
      && KubeSent(req, t, api, ran, r, Sessions(req, request, ok, podOk), ok && podOk)
      && (podOk || UsesPodExec(req.action.kube));
    SentOutcome(req, t, api, ran, r, request, ok, podOk);
    SucceedsIff(req.action.kube, api, t, req.params);
    assert !Fulfilled(req.action.kube, api, t, req.params, []);
  }

  lemma SentOutcome(req: ExecRequest, t: ResourceTarget, api: Cluster, ran: seq<Event>, r: Result<Output, Error>,
                    request: Request, ok: bool, podOk: bool)
    requires req.action.KubeAct? && (podOk || UsesPodExec(req.action.kube))
    requires KubeSent(req, t, api, ran, r, Sessions(req, request, ok, podOk), ok && podOk)
    ensures var done := Execute(req.action.kube, api, UsesPodExec(req.action.kube), t, req.params);
            && (r.Ok? <==> ok && podOk && done.ok)
            && CallsOf(ran) == (if ok && podOk then done.made else [])
            && (ok && podOk <==> Connected(ran, req.action.kube))
  {
    var sessions := Sessions(req, request, ok, podOk);
    var made := Execute(req.action.kube, api, UsesPodExec(req.action.kube), t, req.params).made;
    SessionsCallNothing(req, request, ok, podOk);
    CallsOfMade(sessions, req.cluster, made);
    assert sessions + [] == sessions;
    assert ran[0] == KubeSession(req.cluster, request, ok);
  }

  // ---------------------------------------------------------------- what is asked for beyond what is sent

  // The access that get, delete and patch ask for on a named, namespaced object grants their one request and nothing
  // else, unless the caller names every group or resource with a star.
  lemma ObjectAccessIsTight(action: KubeAction, target: ResourceTarget, a: Access)
    requires OnObject(action) && target.namespace != "" && target.name != "" && target.group != "*" && target.resource != "*"
    ensures RulesGrant(RequiredRbac(action, target), a)
       <==> a == Access(target.namespace, target.group, target.resource, target.name,
                        if action.Delete? then "delete" else if action.Patch? then "patch" else "get")
  {
    var rules := RequiredRbac(action, target);
    assert RulesGrant(rules, a) <==> RulePermits(rules[0], a);
  }

  // What the other three actions ask for: one secret; pods to list and to run commands in, of one namespace; nodes, or
  // the one named, and pods, events and leases to list, of the whole cluster.
  lemma FixedAccess(action: KubeAction, target: ResourceTarget, a: Access)
    requires !OnObject(action)
    ensures RulesGrant(RequiredRbac(action, target), a) <==>
              match action
              case GetPullSecretEmail => a == Access("openshift-config", "", "secrets", "pull-secret", "get")
              case ListAlerts =>
                && a.namespace == (if target.namespace == "" then "openshift-monitoring" else target.namespace)
                && a.group == ""
                && ((a.resource == "pods" && a.verb == "list") || (a.resource == "pods/exec" && a.verb == "create"))
              case _ =>
                || (a.group == "" && (a.resource == "pods" || a.resource == "events") && a.verb == "list")
                || (a.group == "" && a.resource == "nodes"
                    && (if target.name == "" then a.verb == "list" else a.verb == "get" && a.name == target.name))
                || (a.group == "coordination.k8s.io" && a.resource == "leases" && a.verb == "list")
  {
    var rules := RequiredRbac(action, target);
    match action {
      case GetPullSecretEmail => assert RulesGrant(rules, a) <==> RulePermits(rules[0], a);
      case ListAlerts => assert RulesGrant(rules, a) <==> RulePermits(rules[0], a) || RulePermits(rules[1], a);
      case DescribeNodes =>
        assert RulesGrant(rules, a) <==> RulePermits(rules[0], a) || RulePermits(rules[1], a) || RulePermits(rules[2], a)
                                         || RulePermits(rules[3], a);
      case _ =>
    }
  }

  // describe-nodes asks for more than it sends: leases of every namespace, although it lists those of one.
  lemma LeasesGrantedEverywhere(target: ResourceTarget, a: Access)
    requires a.group == "coordination.k8s.io"
    ensures RulesGrant(RequiredRbac(DescribeNodes, target), a) <==> a.resource == "leases" && a.verb == "list"
    ensures a in NodesPlan(target) <==> a == Access("kube-node-lease", "coordination.k8s.io", "leases", "", "list")
  {
    var rules := RequiredRbac(DescribeNodes, target);
    assert RulesGrant(rules, a) <==> RulePermits(rules[3], a);
  }
}
