/**
 The vocabulary of the execution pipeline (internal/executor, internal/audit, internal/worker/executor_runner.go):
 requests, targets, audit records, results, and the trace of calls one execution makes to the outside.
 */
module PipelineModel {
  import opened Basics
  import opened Authorization
  import opened Rbac
  import opened KubeActions
  import opened ExecutionTable
  import AwsGet

  datatype Action = KubeAct(kube: KubeAction) | AwsRead | AwsReboot | AwsTerminate

  datatype AwsTarget = AwsTarget(region: string, resource: string, id: string, infraId: string)

  datatype Target = KubeTarget(resource: ResourceTarget) | AwsObject(aws: AwsTarget)

  datatype ExecRequest = ExecRequest(caller: string, cluster: string, action: Action, target: Option<Target>,
                                     params: map<string, string>)

  datatype Scope = KubeScope(kubePolicy: KubePolicy) | AwsScope(awsPolicy: AwsPolicy)

  // Unset fields of the SDK's structs read as "", as aws.ToString reads them.
  datatype Tag = Tag(key: string, value: string)

  datatype Instance = Instance(id: string, tags: seq<Tag>)

  // ---------------------------------------------------------------- errors

  datatype Problem =
    | RegionLookupFailed
    | InfraLookupFailed
    | ResourceMismatch
    | ClientsUnavailable
    | NotOfThisScope
    | IdRequired
    | NoInfraId
    | DescribeFailed
    | InstanceNotFound
    | NotOwned
    | WriteFailed
    | NotSerializable
    | RequestRefused
    | ReadFailed
    | ActionFailed

  datatype Stage = ResolvingRegion | ResolvingInfraId | GettingClients | GettingPodExecutor | RunningAction

  // A Failure frames a cause for the caller; a plain error is its own cause.
  datatype Error = Plain(problem: Problem) | Failure(stage: Stage, cause: Option<Problem>)

  // What the audit trail records of an error.
  function AuditedCause(e: Error): Error {
    if e.Failure? && e.cause.Some? then Plain(e.cause.value) else e
  }

  // ---------------------------------------------------------------- audit record and result

  datatype Decision = Undecided | Allowed | Denied

  datatype AuditOutcome = Success | Failed | Skipped

  datatype Reason = NoScope | Judged(denial: Denial)

  datatype Record = Record(caller: string, action: Action, cluster: string, target: Option<Target>, decision: Decision,
                           denyReason: Option<Reason>, outcome: AuditOutcome, error: Option<Error>)

  datatype ExecResult = ExecResult(allowed: bool, reason: Option<Reason>, output: Option<Output>, error: Option<Error>)

  // ---------------------------------------------------------------- the calls one execution makes

  // The two mutating calls to EC2.
  datatype WriteCall = RebootInstances | TerminateInstances

  // Each call with what it was asked and what came back.
  datatype Event =
    | RegionLookup(cluster: string, answer: Option<string>)
    | InfraLookup(cluster: string, answer: Option<string>)
    | AwsClients(cluster: string, region: string, services: seq<AwsGet.Service>, ok: bool)
    | Describe(cluster: string, region: string, id: string, found: Option<seq<seq<Instance>>>)
    | Write(cluster: string, region: string, call: WriteCall, id: string, ok: bool)
    | Read(cluster: string, region: string, service: AwsGet.Service, ok: bool)
    | KubeSession(cluster: string, request: Request, ok: bool)
    | PodSession(cluster: string, request: Request, ok: bool)
    | KubeCall(cluster: string, access: Access)

  predicate IsLookup(e: Event) {
    e.RegionLookup? || e.InfraLookup?
  }

  // ---------------------------------------------------------------- the static facts of an action

  const INSTANCES := "ec2-instances"
  const OWNED := "owned"

  predicate IsWrite(action: Action) {
    action.AwsReboot? || action.AwsTerminate?
  }

  // Declared by the action; empty for what is not a write.
  function Operation(action: Action): string {
    match action
    case AwsReboot => "reboot"
    case AwsTerminate => "terminate"
    case _ => ""
  }

  // What its Execute asks EC2 to do.
  function CallOf(action: Action): WriteCall
    requires IsWrite(action)
  {
    if action.AwsReboot? then RebootInstances else TerminateInstances
  }

  predicate Supports(scope: Scope, action: Action) {
    scope.KubeScope? == action.KubeAct?
  }

  function ClusterOwnershipTag(infraId: string): Tag {
    Tag("kubernetes.io/cluster/" + infraId, OWNED)
  }

  function RequiredServices(action: Action, target: AwsTarget): seq<AwsGet.Service> {
    if IsWrite(action) then [AwsGet.Ec2]
    else if AwsGet.Lookup(target.resource).Some? then [AwsGet.Lookup(target.resource).value.service]
    else []
  }

  // Scope.Authorize: a target of the other scope's kind is denied, the operation is the action's own.
  function Authorize(scope: Scope, action: Action, target: Target): Verdict {
    match (scope, target)
    case (KubeScope(policy), KubeTarget(t)) =>
      KubeAuthorize(policy, KubeQuestion(t.namespace, t.resource, t.name, t.clusterScoped))
    case (AwsScope(policy), AwsObject(t)) => AwsAuthorize(policy, AwsQuestion(t.region, t.resource, Operation(action)))
    case _ => Deny(WrongTarget)
  }

  // ---------------------------------------------------------------- properties of a trace

  predicate Tagged(instance: Instance, infraId: string) {
    ClusterOwnershipTag(infraId) in instance.tags
  }

  // Some answered instance has this id and carries the cluster's ownership tag.
  ghost predicate ShowsOwned(found: seq<seq<Instance>>, id: string, infraId: string) {
    exists i, j :: 0 <= i < |found| && 0 <= j < |found[i]| && found[i][j].id == id
                   && Tag("kubernetes.io/cluster/" + infraId, "owned") in found[i][j].tags
  }

  ghost predicate OwnershipShownBefore(events: seq<Event>, k: nat, cluster: string, target: AwsTarget) {
    exists j :: 0 <= j < k <= |events| && events[j].Describe? && events[j].found.Some?
                && events[j] == Describe(cluster, target.region, target.id, events[j].found)
                && ShowsOwned(events[j].found.value, target.id, target.infraId)
  }

  // Every mutating call is the action's own, on the target, after a Describe in the same execution showed
  // that the target belongs to the cluster.
  ghost predicate WritesJustified(events: seq<Event>, cluster: string, action: Action, target: AwsTarget) {
    forall k :: 0 <= k < |events| && events[k].Write? ==>
      && IsWrite(action) && events[k] == Write(cluster, target.region, CallOf(action), target.id, events[k].ok)
      && target.id != "" && target.infraId != ""
      && OwnershipShownBefore(events, k, cluster, target)
  }

  predicate AtMostOneWrite(events: seq<Event>) {
    forall j, k :: 0 <= j < k < |events| ==> !(events[j].Write? && events[k].Write?)
  }

  predicate NoWrite(events: seq<Event>) {
    forall k :: 0 <= k < |events| ==> !events[k].Write?
  }

  // Every AWS call goes to the cluster's account, in the target's region, on a service whose client was provisioned.
  predicate AwsCallsOn(events: seq<Event>, cluster: string, region: string, services: seq<AwsGet.Service>) {
    forall k :: 0 <= k < |events| ==>
      match events[k]
      case AwsClients(c, r, s, _) => c == cluster && r == region && s == services
      case Describe(c, r, _, _) => c == cluster && r == region && AwsGet.Ec2 in services
      case Write(c, r, _, _, _) => c == cluster && r == region && AwsGet.Ec2 in services
      case Read(c, r, s, _) => c == cluster && r == region && s in services
      case _ => false
  }

  // Every Kubernetes call goes to the cluster and is granted by the session that was requested for it.
  ghost predicate KubeCallsOn(events: seq<Event>, cluster: string, request: Request) {
    forall k :: 0 <= k < |events| ==>
      match events[k]
      case KubeSession(c, r, _) => c == cluster && r == request
      case PodSession(c, r, _) => c == cluster && r == request
      case KubeCall(c, access) => c == cluster && RequestGrants(request, access)
      case _ => false
  }
}
