/**
 The Kubernetes actions of internal/actions: the rules each declares (RequiredRBAC) and the requests its Execute
 sends. The cluster is an oracle that answers each request, given the requests before it.
 */
module KubeActions {
  import opened Basics
  import opened Authorization
  import opened Rbac

  datatype KubeAction = Get | Delete | Patch | ListAlerts | DescribeNodes | GetPullSecretEmail

  datatype ResourceTarget = ResourceTarget(group: string, version: string, resource: string, namespace: string,
                                           name: string, clusterScoped: bool)

  const DEFAULT_MONITORING_NAMESPACE := "openshift-monitoring"
  const KUBE_NODE_LEASE_NAMESPACE := "kube-node-lease"
  const PULL_SECRET_NAMESPACE := "openshift-config"
  const PULL_SECRET_NAME := "pull-secret"

  predicate UsesPodExec(action: KubeAction) {
    action.ListAlerts?
  }

  // ---------------------------------------------------------------- RequiredRBAC

  function MonitoringNamespace(target: ResourceTarget): string {
    if target.namespace == "" then DEFAULT_MONITORING_NAMESPACE else target.namespace
  }

  function TargetRule(target: ResourceTarget, verb: string): Rule {
    Rule(target.namespace, [target.group], [target.resource], if target.name == "" then [] else [target.name], [verb])
  }

  function RequiredRbac(action: KubeAction, target: ResourceTarget): seq<Rule> {
    match action
    case Get => [TargetRule(target, if target.name == "" then "list" else "get")]
    case Delete => [TargetRule(target, "delete")]
    case Patch => [TargetRule(target, "patch")]
    case ListAlerts =>
      var ns := MonitoringNamespace(target);
      [Rule(ns, [""], ["pods"], [], ["list"]), Rule(ns, [""], ["pods/exec"], [], ["create"])]
    case DescribeNodes =>
      [ if target.name != "" then Rule("", [""], ["nodes"], [target.name], ["get"])
        else Rule("", [""], ["nodes"], [], ["list"]),
        Rule("", [""], ["pods"], [], ["list"]),
        Rule("", [""], ["events"], [], ["list"]),
        Rule("", ["coordination.k8s.io"], ["leases"], [], ["list"])
      ]
    case GetPullSecretEmail => [Rule(PULL_SECRET_NAMESPACE, [""], ["secrets"], [PULL_SECRET_NAME], ["get"])]
  }

  // ---------------------------------------------------------------- Execute

  // `answer` gives the names of the objects a request returned, or None for an error, from all requests up to and
  // including it; `readable` says whether that response could be decoded.
  datatype Cluster = Cluster(answer: seq<Access> -> Option<seq<string>>, readable: seq<Access> -> bool)

  datatype Outcome = Outcome(made: seq<Access>, ok: bool)

  function Ask(cluster: Cluster, made: seq<Access>, access: Access): (seq<Access>, Option<seq<string>>) {
    (made + [access], cluster.answer(made + [access]))
  }

  // Requests whose responses are only passed on, one after another until one fails.
  function AskAll(cluster: Cluster, made: seq<Access>, plan: seq<Access>): Outcome
    decreases |plan|
  {
    if plan == [] then Outcome(made, true)
    else
      var (next, answer) := Ask(cluster, made, plan[0]);
      if answer.None? then Outcome(next, false) else AskAll(cluster, next, plan[1..])
  }

  // The namespace resourceClient selects, None when it refuses the target.
  function ResourceClient(target: ResourceTarget): Option<string> {
    if target.clusterScoped then if target.namespace != "" then None else Some("")
    else if target.namespace == "" then None
    else Some(target.namespace)
  }

  function OnTarget(cluster: Cluster, target: ResourceTarget, verb: string): Outcome {
    var client := ResourceClient(target);
    if client.None? then Outcome([], false)
    else AskAll(cluster, [], [Access(client.value, target.group, target.resource, target.name, verb)])
  }

  // discoverPod, then the query run inside the pod it found.
  function QueryPod(cluster: Cluster, made: seq<Access>, namespace: string): Outcome {
    var (listed, pods) := Ask(cluster, made, Access(namespace, "", "pods", "", "list"));
    if pods.None? || pods.value == [] then Outcome(listed, false)
    else
      var (queried, output) := Ask(cluster, listed, Access(namespace, "", "pods/exec", pods.value[0], "create"));
      Outcome(queried, output.Some? && cluster.readable(queried))
  }

  function Param(params: map<string, string>, name: string): string {
    if name in params then params[name] else ""
  }

  function ListAlertsExecute(cluster: Cluster, podExecutor: bool, target: ResourceTarget, params: map<string, string>): Outcome {
    var state := Param(params, "state");
    if !podExecutor || Param(params, "severity") !in ["", "critical", "warning"]
       || state !in ["", "firing", "pending", "all"] then Outcome([], false)
    else
      var alerts := QueryPod(cluster, [], MonitoringNamespace(target));
      if !alerts.ok || Param(params, "silences") != "true" then alerts
      else QueryPod(cluster, alerts.made, MonitoringNamespace(target))
  }

  // The four listings of describe-nodes; the first is a read of the one node when the target names one.
  function NodesPlan(target: ResourceTarget): seq<Access> {
    [ Access("", "", "nodes", target.name, if target.name != "" then "get" else "list"),
      Access("", "", "pods", "", "list"),
      Access("", "", "events", "", "list"),
      Access(KUBE_NODE_LEASE_NAMESPACE, "coordination.k8s.io", "leases", "", "list")
    ]
  }

  function Execute(action: KubeAction, cluster: Cluster, podExecutor: bool, target: ResourceTarget,
                   params: map<string, string>): Outcome {
    match action
    case Get => OnTarget(cluster, target, if target.name == "" then "list" else "get")
    case Delete => if target.name == "" then Outcome([], false) else OnTarget(cluster, target, "delete")
    case Patch =>
      if target.name == "" || Param(params, "patch") == "" then Outcome([], false)
      else OnTarget(cluster, target, "patch")
    case ListAlerts => ListAlertsExecute(cluster, podExecutor, target, params)
    case DescribeNodes => AskAll(cluster, [], NodesPlan(target))
    case GetPullSecretEmail =>
      var o := AskAll(cluster, [], [Access(PULL_SECRET_NAMESPACE, "", "secrets", PULL_SECRET_NAME, "get")]);
      o.(ok := o.ok && cluster.readable(o.made))
  }

  // ---------------------------------------------------------------- sufficiency

  predicate AllGranted(rules: seq<Rule>, made: seq<Access>) {
    forall i :: 0 <= i < |made| ==> RulesGrant(rules, made[i])
  }

  // Whatever the answers, what was made is a prefix of the plan, the whole plan on success.
  lemma {:induction false} AskAllFollowsPlan(cluster: Cluster, made: seq<Access>, plan: seq<Access>)
    ensures var o := AskAll(cluster, made, plan);
            && made <= o.made <= made + plan
            && (o.ok <==> forall n :: |made| < n <= |o.made| ==> cluster.answer(o.made[..n]).Some?)
            && (o.ok ==> o.made == made + plan)
    decreases |plan|
  {
    if plan != [] {
      var next := made + [plan[0]];
      var o := AskAll(cluster, made, plan);
      AskAllFollowsPlan(cluster, next, plan[1..]);
      assert next + plan[1..] == made + plan;
      assert next <= o.made;
      assert o.made[..|made| + 1] == next;
    }
  }

  // Every request any action can send, whatever the cluster answers, is granted by the access the executor asks for.
  lemma RbacIsSufficient(action: KubeAction, cluster: Cluster, podExecutor: bool, target: ResourceTarget,
                         params: map<string, string>, request: Request, name: string)
    requires Regroups(request, name, RequiredRbac(action, target))
    ensures var made := Execute(action, cluster, podExecutor, target, params).made;
            forall i :: 0 <= i < |made| ==> RequestGrants(request, made[i])
  {
    var rules, made := RequiredRbac(action, target), Execute(action, cluster, podExecutor, target, params).made;
    match action {
      case Get | Delete | Patch => OnTargetGranted(action, cluster, podExecutor, target, params);
      case ListAlerts => AlertsGranted(cluster, podExecutor, target, params);
      case DescribeNodes => NodesGranted(cluster, podExecutor, target, params);
      case GetPullSecretEmail => SecretGranted(cluster, podExecutor, target, params);
    }
    forall i | 0 <= i < |made|
      ensures RequestGrants(request, made[i])
    {
      SameGrants(request, name, rules, made[i]);
    }
  }

  lemma OnTargetGranted(action: KubeAction, cluster: Cluster, podExecutor: bool, target: ResourceTarget,
                        params: map<string, string>)
    requires action.Get? || action.Delete? || action.Patch?
    ensures AllGranted(RequiredRbac(action, target), Execute(action, cluster, podExecutor, target, params).made)
  {
    var verb := match action case Get => (if target.name == "" then "list" else "get") case Delete => "delete" case _ => "patch";
    if ResourceClient(target).Some? {
      var access := Access(ResourceClient(target).value, target.group, target.resource, target.name, verb);
      AskAllFollowsPlan(cluster, [], [access]);
      assert RulePermits(RequiredRbac(action, target)[0], access);
    }
  }

  lemma NodesGranted(cluster: Cluster, podExecutor: bool, target: ResourceTarget, params: map<string, string>)
    ensures AllGranted(RequiredRbac(DescribeNodes, target), Execute(DescribeNodes, cluster, podExecutor, target, params).made)
  {
    var rules := RequiredRbac(DescribeNodes, target);
    var plan := NodesPlan(target);
    AskAllFollowsPlan(cluster, [], plan);
    forall i | 0 <= i < |plan|
      ensures RulesGrant(rules, plan[i])
    {
      assert RulePermits(rules[i], plan[i]);
    }
  }

  lemma SecretGranted(cluster: Cluster, podExecutor: bool, target: ResourceTarget, params: map<string, string>)
    ensures AllGranted(RequiredRbac(GetPullSecretEmail, target),
                       Execute(GetPullSecretEmail, cluster, podExecutor, target, params).made)
  {
    var access := Access(PULL_SECRET_NAMESPACE, "", "secrets", PULL_SECRET_NAME, "get");
    AskAllFollowsPlan(cluster, [], [access]);
    assert RulePermits(RequiredRbac(GetPullSecretEmail, target)[0], access);
  }

  lemma AlertsGranted(cluster: Cluster, podExecutor: bool, target: ResourceTarget, params: map<string, string>)
    ensures AllGranted(RequiredRbac(ListAlerts, target), Execute(ListAlerts, cluster, podExecutor, target, params).made)
  {
    var alerts := QueryPod(cluster, [], MonitoringNamespace(target));
    QueryGranted(cluster, [], target);
    QueryGranted(cluster, alerts.made, target);
  }

  lemma QueryGranted(cluster: Cluster, made: seq<Access>, target: ResourceTarget)
    requires AllGranted(RequiredRbac(ListAlerts, target), made)
    ensures AllGranted(RequiredRbac(ListAlerts, target), QueryPod(cluster, made, MonitoringNamespace(target)).made)
  {
    var rules, ns := RequiredRbac(ListAlerts, target), MonitoringNamespace(target);
    assert RulePermits(rules[0], Access(ns, "", "pods", "", "list"));
    forall pod
      ensures RulesGrant(rules, Access(ns, "", "pods/exec", pod, "create"))
    {
      assert RulePermits(rules[1], Access(ns, "", "pods/exec", pod, "create"));
    }
  }

  // ---------------------------------------------------------------- what an authorized request can reach

  predicate Changes(a: Access) {
    a.verb == "delete" || a.verb == "patch"
  }

  // get, delete and patch send at most one request, and it is for the target itself; they succeed exactly when it was
  // sent and answered; delete and patch never send it without a name. No other action changes an object.
  lemma ActsOnTarget(action: KubeAction, cluster: Cluster, podExecutor: bool, target: ResourceTarget,
                     params: map<string, string>)
    ensures var o := Execute(action, cluster, podExecutor, target, params);
            && (action.Get? || action.Delete? || action.Patch? ==>
                  |o.made| <= 1 && (o.ok <==> |o.made| == 1 && cluster.answer(o.made).Some?)
                  && forall i :: 0 <= i < |o.made| ==>
                       && o.made[i].(verb := "") == Access(target.namespace, target.group, target.resource, target.name, "")
                       && (target.clusterScoped <==> o.made[i].namespace == "")
                       && o.made[i].verb == (if action.Delete? then "delete" else if action.Patch? then "patch"
                                             else if target.name == "" then "list" else "get"))
            && (action.Delete? || action.Patch? ==> target.name == "" ==> o.made == [])
            && (forall i :: 0 <= i < |o.made| && Changes(o.made[i]) ==> action.Delete? || action.Patch?)
  {
    if action.Get? || action.Delete? || action.Patch? {
      OneRequest(action, cluster, podExecutor, target, params);
    } else {
      ChangesNothing(action, cluster, podExecutor, target, params);
    }
  }

  lemma OneRequest(action: KubeAction, cluster: Cluster, podExecutor: bool, target: ResourceTarget, params: map<string, string>)
    requires action.Get? || action.Delete? || action.Patch?
    ensures var o := Execute(action, cluster, podExecutor, target, params);
            && (o.ok <==> |o.made| == 1 && cluster.answer(o.made).Some?)
            && (o.made == [] || (ResourceClient(target).Some? && o.made == [TargetAccess(action, target)]))
            && (action.Delete? || action.Patch? ==> target.name == "" ==> o.made == [])
  {
    if ResourceClient(target).Some? {
      var access := TargetAccess(action, target);
      AskAllFollowsPlan(cluster, [], [access]);
      assert [] + [access] == [access];
    }
  }

  function TargetAccess(action: KubeAction, target: ResourceTarget): Access {
    Access(target.namespace, target.group, target.resource, target.name,
           if action.Delete? then "delete" else if action.Patch? then "patch" else if target.name == "" then "list" else "get")
  }

  lemma ChangesNothing(action: KubeAction, cluster: Cluster, podExecutor: bool, target: ResourceTarget,
                       params: map<string, string>)
    requires action.ListAlerts? || action.DescribeNodes? || action.GetPullSecretEmail?
    ensures var made := Execute(action, cluster, podExecutor, target, params).made;
            forall i :: 0 <= i < |made| ==> !Changes(made[i])
  {
    match action {
      case DescribeNodes => AskAllFollowsPlan(cluster, [], NodesPlan(target));
      case GetPullSecretEmail =>
        AskAllFollowsPlan(cluster, [], [Access(PULL_SECRET_NAMESPACE, "", "secrets", PULL_SECRET_NAME, "get")]);
      case _ =>
    }
  }

  // One query of a pod, as it shows in the requests: the pod that was listed first is the one the command runs in.
  predicate Queried(cluster: Cluster, made: seq<Access>, from: nat, namespace: string) {
    && from + 2 <= |made|
    && made[from] == Access(namespace, "", "pods", "", "list")
    && cluster.answer(made[..from + 1]).Some? && cluster.answer(made[..from + 1]).value != []
    && made[from + 1] == Access(namespace, "", "pods/exec", cluster.answer(made[..from + 1]).value[0], "create")
    && cluster.answer(made[..from + 2]).Some? && cluster.readable(made[..from + 2])
  }

  predicate AlertParamsValid(params: map<string, string>) {
    Param(params, "severity") in ["", "critical", "warning"] && Param(params, "state") in ["", "firing", "pending", "all"]
  }

  // list-alerts succeeds only after querying the Prometheus pod and, exactly when silences are asked for, the
  // Alertmanager pod, all in the monitoring namespace; a param it does not understand is refused before any request.
  lemma AlertsSucceed(cluster: Cluster, podExecutor: bool, target: ResourceTarget, params: map<string, string>)
    ensures var o, ns := Execute(ListAlerts, cluster, podExecutor, target, params), MonitoringNamespace(target);
            && (o.ok ==> |o.made| == (if Param(params, "silences") == "true" then 4 else 2) && Queried(cluster, o.made, 0, ns)
                         && (Param(params, "silences") == "true" ==> Queried(cluster, o.made, 2, ns)))
            && (!podExecutor || !AlertParamsValid(params) ==> o == Outcome([], false))
            && (podExecutor && AlertParamsValid(params) ==> |o.made| > 0)
  {
    var ns := MonitoringNamespace(target);
    var alerts := QueryPod(cluster, [], ns);
    QuerySucceeds(cluster, [], ns);
    QuerySucceeds(cluster, alerts.made, ns);
    var silences := QueryPod(cluster, alerts.made, ns);
    if alerts.ok && silences.ok {
      assert silences.made[..1] == alerts.made[..1] && silences.made[..2] == alerts.made[..2];
    }
  }

  lemma QuerySucceeds(cluster: Cluster, made: seq<Access>, namespace: string)
    ensures var o := QueryPod(cluster, made, namespace);
            && made < o.made
            && (o.ok ==> |o.made| == |made| + 2 && Queried(cluster, o.made, |made|, namespace))
  {
    var o := QueryPod(cluster, made, namespace);
    var listed := made + [Access(namespace, "", "pods", "", "list")];
    if o.ok {
      assert o.made[..|made| + 1] == listed && o.made[..|made| + 2] == o.made;
    }
  }

  // describe-nodes reads nodes, pods, events and leases in this order, and succeeds exactly when each read does;
  // get-pull-secret-email makes its one request whatever the target.
  lemma FixedPlans(action: KubeAction, cluster: Cluster, podExecutor: bool, target: ResourceTarget, params: map<string, string>)
    requires action.DescribeNodes? || action.GetPullSecretEmail?
    ensures var o := Execute(action, cluster, podExecutor, target, params);
            && (o.ok ==> forall n :: 0 < n <= |o.made| ==> cluster.answer(o.made[..n]).Some?)
            && (action.GetPullSecretEmail? ==> o.made == [Access(PULL_SECRET_NAMESPACE, "", "secrets", PULL_SECRET_NAME, "get")])
            && (action.DescribeNodes? ==>
                  && (o.ok <==> forall n :: 0 < n <= |o.made| ==> cluster.answer(o.made[..n]).Some?)
                  && 1 <= |o.made| <= 4 && (o.ok ==> |o.made| == 4)
                  && forall i :: 0 <= i < |o.made| ==> o.made[i].resource == ["nodes", "pods", "events", "leases"][i])
  {
    if action.DescribeNodes? {
      var plan := NodesPlan(target);
      AskAllFollowsPlan(cluster, [], plan);
    } else {
      AskAllFollowsPlan(cluster, [], [Access(PULL_SECRET_NAMESPACE, "", "secrets", PULL_SECRET_NAME, "get")]);
    }
  }

  // A request that the policy's lists cover: a listed namespace and, for a secret, a listed secret.
  predicate Inside(policy: KubePolicy, a: Access) {
    a.namespace in policy.namespaces && (a.resource == "secrets" ==> a.namespace + "/" + a.name in policy.secrets)
  }

  predicate AllInside(policy: KubePolicy, made: seq<Access>) {
    forall i :: 0 <= i < |made| ==> Inside(policy, made[i])
  }

  // What it takes for an action to stay inside once its target is authorized. The policy judges the target, which
  // get-pull-secret-email does not use and describe-nodes uses for the node's name only.
  predicate StaysInside(policy: KubePolicy, action: KubeAction) {
    match action
    case GetPullSecretEmail =>
      PULL_SECRET_NAMESPACE in policy.namespaces && PULL_SECRET_NAMESPACE + "/" + PULL_SECRET_NAME in policy.secrets
    case DescribeNodes => "" in policy.namespaces && KUBE_NODE_LEASE_NAMESPACE in policy.namespaces
    case _ => true
  }

  // A cluster that answers everything.
  function Answering(): Cluster {
    Cluster(_ => Some([]), _ => true)
  }

  // On a server that lists namespaces, after a derived target was authorized, an action's requests stay inside the
  // lists whatever the cluster answers exactly under the condition of StaysInside: always for get, delete, patch and
  // list-alerts; for get-pull-secret-email, when its one secret is listed; for describe-nodes, whose requests are for
  // the whole cluster, when the empty namespace is, which no namespace has as its name.
  lemma StaysInAllowedNamespaces(policy: KubePolicy, action: KubeAction, podExecutor: bool, target: ResourceTarget,
                                 params: map<string, string>)
    requires policy.namespaces != {} && !target.clusterScoped
    requires KubeAuthorize(policy, KubeQuestion(target.namespace, target.resource, target.name, false)) == Allow
    ensures (forall cluster :: AllInside(policy, Execute(action, cluster, podExecutor, target, params).made))
       <==> StaysInside(policy, action)
  {
    if StaysInside(policy, action) {
      forall cluster
        ensures AllInside(policy, Execute(action, cluster, podExecutor, target, params).made)
      {
        InsideWhenAllowed(policy, action, cluster, podExecutor, target, params);
      }
    } else if action.GetPullSecretEmail? {
      SecretOutside(policy, Answering(), podExecutor, target, params);
    } else {
      AnsweredNodes(podExecutor, target, params);
      PlanOutside(policy, target);
    }
  }

  lemma InsideWhenAllowed(policy: KubePolicy, action: KubeAction, cluster: Cluster, podExecutor: bool,
                          target: ResourceTarget, params: map<string, string>)
    requires policy.namespaces != {} && !target.clusterScoped && StaysInside(policy, action)
    requires KubeAuthorize(policy, KubeQuestion(target.namespace, target.resource, target.name, false)) == Allow
    ensures AllInside(policy, Execute(action, cluster, podExecutor, target, params).made)
  {
    match action {
      case GetPullSecretEmail => SecretOutside(policy, cluster, podExecutor, target, params);
      case DescribeNodes =>
        AskAllFollowsPlan(cluster, [], NodesPlan(target));
        PlanInside(policy, target);
      case ListAlerts => AlertsInside(policy, cluster, podExecutor, target, params);
      case _ => ActsOnTarget(action, cluster, podExecutor, target, params);
    }
  }

  lemma PlanInside(policy: KubePolicy, target: ResourceTarget)
    requires StaysInside(policy, DescribeNodes)
    ensures AllInside(policy, [] + NodesPlan(target))
  {
  }

  lemma PlanOutside(policy: KubePolicy, target: ResourceTarget)
    requires !StaysInside(policy, DescribeNodes)
    ensures !AllInside(policy, NodesPlan(target))
  {
    assert !Inside(policy, NodesPlan(target)[0]) || !Inside(policy, NodesPlan(target)[3]);
  }

  lemma AlertsInside(policy: KubePolicy, cluster: Cluster, podExecutor: bool, target: ResourceTarget,
                     params: map<string, string>)
    requires target.namespace in policy.namespaces && target.namespace != ""
    ensures AllInside(policy, Execute(ListAlerts, cluster, podExecutor, target, params).made)
  {
  }

  // The read of get-pull-secret-email is inside or outside whatever the cluster answers.
  lemma SecretOutside(policy: KubePolicy, cluster: Cluster, podExecutor: bool, target: ResourceTarget,
                      params: map<string, string>)
    ensures AllInside(policy, Execute(GetPullSecretEmail, cluster, podExecutor, target, params).made)
       <==> StaysInside(policy, GetPullSecretEmail)
  {
    FixedPlans(GetPullSecretEmail, cluster, podExecutor, target, params);
    var secret := Access(PULL_SECRET_NAMESPACE, "", "secrets", PULL_SECRET_NAME, "get");
    var made := [secret];
    assert made[0] == secret;
    assert Inside(policy, secret) <==> StaysInside(policy, GetPullSecretEmail);
  }

  // The first request of describe-nodes is outside whatever the cluster answers, unless the empty namespace is listed.
  lemma NodesOutside(policy: KubePolicy, cluster: Cluster, podExecutor: bool, target: ResourceTarget,
                     params: map<string, string>)
    requires "" !in policy.namespaces
    ensures !AllInside(policy, Execute(DescribeNodes, cluster, podExecutor, target, params).made)
  {
    var plan, made := NodesPlan(target), Execute(DescribeNodes, cluster, podExecutor, target, params).made;
    AskAllFollowsPlan(cluster, [], plan);
    FixedPlans(DescribeNodes, cluster, podExecutor, target, params);
    assert made[0] == ([] + plan)[0] == plan[0];
    assert !Inside(policy, plan[0]);
  }

  lemma AnsweredNodes(podExecutor: bool, target: ResourceTarget, params: map<string, string>)
    ensures Execute(DescribeNodes, Answering(), podExecutor, target, params) == Outcome(NodesPlan(target), true)
  {
    AskAllFollowsPlan(Answering(), [], NodesPlan(target));
    assert [] + NodesPlan(target) == NodesPlan(target);
  }
}
