/**
 Executor.Execute with its deferred audit record (internal/executor/executor.go) and the runner above it
 (internal/worker/executor_runner.go), as the objects the source has.
 */
module Executor {
  import opened Basics
  import opened Authorization
  import opened KubeActions
  import opened ExecutionTable
  import opened PipelineModel
  import opened Pipeline

  // ---------------------------------------------------------------- what one Execute amounts to

  function ScopeFor(scopes: seq<Scope>, action: Action): Option<Scope> {
    if scopes == [] then None
    else if Supports(scopes[0], action) then Some(scopes[0])
    else ScopeFor(scopes[1..], action)
  }

  // The four pairs of decision and outcome, each with the result it goes with.
  predicate Agrees(rec: Record, result: ExecResult) {
    match (rec.decision, rec.outcome)
    case (Denied, Skipped) =>
      !result.allowed && result.error.None? && result.output.None? && rec.error.None?
      && rec.denyReason.Some? && result.reason == rec.denyReason
    case (Undecided, Failed) =>
      !result.allowed && result.error.Some? && result.output.None? && rec.error == Some(AuditedCause(result.error.value))
      && rec.denyReason.None? && rec.target.None?
    case (Allowed, Failed) =>
      result.allowed && result.error.Some? && result.output.None? && rec.error == Some(AuditedCause(result.error.value))
      && rec.denyReason.None?
    case (Allowed, Success) =>
      result.allowed && result.error.None? && result.output.Some? && rec.error.None? && rec.denyReason.None?
    case _ => false
  }

  function Returned(result: ExecResult): Result<Output, Error>
    requires result.error.Some? || result.output.Some?
  {
    if result.error.Some? then Err(result.error.value) else Ok(result.output.value)
  }

  // The target that was judged and recorded: the given one, or what the scope derived with the calls `lookups`.
  ghost predicate Targeted(scope: Scope, req: ExecRequest, lookups: seq<Event>, rec: Record, result: ExecResult) {
    if req.target.Some? then rec.target == req.target && lookups == []
    else if rec.target.Some? then Derived(scope, req, lookups, Ok(rec.target.value))
    else result.error.Some? && Derived(scope, req, lookups, Err(result.error.value))
  }

  // `lookups` are the calls made before the decision, `ran` those made by the scope's Run.
  ghost predicate Completed(scopes: seq<Scope>, req: ExecRequest, api: Cluster, lookups: seq<Event>, ran: seq<Event>,
                            rec: Record, result: ExecResult) {
    && rec.caller == req.caller && rec.action == req.action && rec.cluster == req.cluster
    && Agrees(rec, result)
    && match ScopeFor(scopes, req.action)
       case None => rec.denyReason == Some(NoScope) && rec.target.None? && lookups == [] && ran == []
       case Some(scope) =>
         && Targeted(scope, req, lookups, rec, result)
         && if rec.target.None? then rec.decision.Undecided? && ran == []
            else match Authorize(scope, req.action, rec.target.value)
              case Deny(denial) => rec.denyReason == Some(Judged(denial)) && ran == []
              case Allow => rec.decision.Allowed? && Ran(req, rec.target.value, api, ran, Returned(result))
  }

  lemma ScopeSupports(scopes: seq<Scope>, action: Action)
    ensures ScopeFor(scopes, action).Some? ==> Supports(ScopeFor(scopes, action).value, action)
  {
  }

  // An authorized target is of the scope's own kind, so Run's own checks of it never fail.
  lemma AllowedFits(scope: Scope, action: Action, target: Target)
    requires Authorize(scope, action, target) == Allow
    ensures scope.KubeScope? == target.KubeTarget?
  {
  }

  class Executor {
    const scopes: seq<Scope>
    // The auditor's log.
    var records: seq<Record>

    constructor (scopes: seq<Scope>)
      ensures this.scopes == scopes && records == []
    {
      this.scopes, records := scopes, [];
    }

    method FindScope(action: Action) returns (scope: Option<Scope>)
      ensures scope == ScopeFor(scopes, action)
    {
      var i := 0;
      while i < |scopes|
        invariant 0 <= i <= |scopes|
        invariant ScopeFor(scopes, action) == ScopeFor(scopes[i..], action)
      {
        assert scopes[i..][1..] == scopes[i + 1..];
        if Supports(scopes[i], action) {
          return Some(scopes[i]);
        }
        i := i + 1;
      }
      return None;
    }

    // The deferred call: whatever way Execute ends, it logs the record as it then is.
    method Log(rec: Record)
      modifies this`records
      ensures records == old(records) + [rec]
    {
      records := records + [rec];
    }

    method Execute(request: ExecRequest, api: Cluster)
      returns (result: ExecResult, lookups: seq<Event>, ran: seq<Event>)
      modifies this`records
      ensures |records| == |old(records)| + 1 && records[..|old(records)|] == old(records)
      ensures Completed(scopes, request, api, lookups, ran, records[|old(records)|], result)
    {
      var req := request;
      var rec := Record(req.caller, req.action, req.cluster, None, Undecided, None, Skipped, None);
      lookups, ran := [], [];
      var scope := FindScope(req.action);
      if scope.None? {
        rec := rec.(decision := Denied, denyReason := Some(NoScope), outcome := Skipped);
        Log(rec);
        return ExecResult(false, Some(NoScope), None, None), lookups, ran;
      }
      if req.target.None? {
        var derived: Result<Target, Error>;
        lookups, derived := DeriveTarget(scope.value, req);
        if derived.Err? {
          rec := rec.(outcome := AuditOutcome.Failed, error := Some(AuditedCause(derived.error)));
          Log(rec);
          return ExecResult(false, None, None, Some(derived.error)), lookups, ran;
        }
        req := req.(target := Some(derived.value));
      }
      rec := rec.(target := req.target);
      var verdict := Authorize(scope.value, req.action, req.target.value);
      if verdict.Deny? {
        rec := rec.(decision := Denied, denyReason := Some(Judged(verdict.reason)), outcome := Skipped);
        Log(rec);
        return ExecResult(false, Some(Judged(verdict.reason)), None, None), lookups, ran;
      }
      rec := rec.(decision := Allowed);
      ScopeSupports(scopes, req.action);
      AllowedFits(scope.value, req.action, req.target.value);
      var output: Result<Output, Error>;
      ran, output := Run(scope.value, request, req.target.value, api);
      if output.Err? {
        rec := rec.(outcome := AuditOutcome.Failed, error := Some(AuditedCause(output.error)));
        Log(rec);
        return ExecResult(true, None, None, Some(output.error)), lookups, ran;
      }
      rec := rec.(outcome := Success);
      Log(rec);
      return ExecResult(true, None, Some(output.value), None), lookups, ran;
    }
  }

  // ---------------------------------------------------------------- the runner

  // The params column: absent, not a JSON object of strings, or one.
  datatype RawParams = NoParams | Malformed | Decoded(params: map<string, string>)

  datatype Claimed = Claimed(action: string, cluster: string, username: Option<string>, params: RawParams)

  const REGISTERED: seq<Action> :=
    [ KubeAct(Get), KubeAct(Delete), KubeAct(Patch), KubeAct(ListAlerts), KubeAct(DescribeNodes),
      KubeAct(GetPullSecretEmail), AwsRead, AwsReboot, AwsTerminate ]

  function ActionName(action: Action): string {
    match action
    case KubeAct(kube) => KubeName(kube)
    case AwsRead => "aws-get"
    case AwsReboot => "aws-reboot"
    case AwsTerminate => "aws-terminate"
  }

  // CreateAction: the registry maps each action's name to the action.
  function ResolveAction(name: string): Option<Action> {
    Lookup(REGISTERED, name)
  }

  function Lookup(actions: seq<Action>, name: string): Option<Action> {
    if actions == [] then None
    else if ActionName(actions[0]) == name then Some(actions[0])
    else Lookup(actions[1..], name)
  }

  lemma {:induction false} LookupFinds(actions: seq<Action>, name: string)
    ensures Lookup(actions, name).Some? ==> ActionName(Lookup(actions, name).value) == name
    ensures Lookup(actions, name).None? ==> forall i :: 0 <= i < |actions| ==> ActionName(actions[i]) != name
  {
    if actions != [] && ActionName(actions[0]) != name {
      LookupFinds(actions[1..], name);
      assert forall i :: 0 < i < |actions| ==> actions[i] == actions[1..][i - 1];
    }
  }

  lemma NamesDiffer(a: Action, b: Action)
    requires ActionName(a) == ActionName(b)
    ensures a == b
  {
    assert |ActionName(a)| == |ActionName(b)|;
    assert ActionName(a)[0] == ActionName(b)[0];
  }

  // A name resolves exactly when some action has it, and then to that action.
  lemma RegistryRoundTrip(name: string, action: Action)
    ensures ResolveAction(name) == Some(action) <==> ActionName(action) == name
  {
    LookupFinds(REGISTERED, name);
    assert exists i :: 0 <= i < |REGISTERED| && REGISTERED[i] == action by {
      match action {
        case AwsRead => assert REGISTERED[6] == action;
        case AwsReboot => assert REGISTERED[7] == action;
        case AwsTerminate => assert REGISTERED[8] == action;
        case KubeAct(kube) =>
          match kube {
            case Get => assert REGISTERED[0] == action;
            case Delete => assert REGISTERED[1] == action;
            case Patch => assert REGISTERED[2] == action;
            case ListAlerts => assert REGISTERED[3] == action;
            case DescribeNodes => assert REGISTERED[4] == action;
            case GetPullSecretEmail => assert REGISTERED[5] == action;
          }
      }
    }
    if ActionName(action) == name && ResolveAction(name).Some? {
      NamesDiffer(ResolveAction(name).value, action);
    }
  }

  // The registered names. Any other name is refused: RegistryRoundTrip gives each action its one name.
  lemma RegisteredNames()
    ensures ResolveAction("get") == Some(KubeAct(Get)) && ResolveAction("delete") == Some(KubeAct(Delete))
    ensures ResolveAction("patch") == Some(KubeAct(Patch)) && ResolveAction("list-alerts") == Some(KubeAct(ListAlerts))
    ensures ResolveAction("describe-nodes") == Some(KubeAct(DescribeNodes))
    ensures ResolveAction("get-pull-secret-email") == Some(KubeAct(GetPullSecretEmail))
    ensures ResolveAction("aws-get") == Some(AwsRead) && ResolveAction("aws-reboot") == Some(AwsReboot)
    ensures ResolveAction("aws-terminate") == Some(AwsTerminate)
  {
    forall action: Action
      ensures ResolveAction(ActionName(action)) == Some(action)
    {
      RegistryRoundTrip(ActionName(action), action);
    }
    assert ActionName(KubeAct(Get)) == "get" && ActionName(KubeAct(Delete)) == "delete";
    assert ActionName(KubeAct(Patch)) == "patch" && ActionName(KubeAct(ListAlerts)) == "list-alerts";
    assert ActionName(KubeAct(DescribeNodes)) == "describe-nodes";
    assert ActionName(KubeAct(GetPullSecretEmail)) == "get-pull-secret-email";
    assert ActionName(AwsRead) == "aws-get" && ActionName(AwsReboot) == "aws-reboot";
    assert ActionName(AwsTerminate) == "aws-terminate";
  }

  // The request the runner makes of a claimed row: no target, so that the scope derives it. None when the row names
  // no action or its params cannot be decoded.
  function RequestOf(exec: Claimed): Option<ExecRequest> {
    var action := ResolveAction(exec.action);
    if action.None? || exec.params.Malformed? then None
    else
      Some(ExecRequest(if exec.username.Some? then exec.username.value else "", exec.cluster, action.value, None,
                       if exec.params.Decoded? then exec.params.params else map[]))
  }

  // The calls that running a claimed row may have made.
  ghost predicate TraceOf(scopes: seq<Scope>, exec: Claimed, trace: seq<Event>) {
    if RequestOf(exec).None? then trace == []
    else exists api, lookups, ran, rec, r ::
           Completed(scopes, RequestOf(exec).value, api, lookups, ran, rec, r) && trace == lookups + ran
  }

  class ExecutorRunner {
    const executor: Executor

    constructor (executor: Executor)
      ensures this.executor == executor
    {
      this.executor := executor;
    }

    method Run(exec: Claimed, api: Cluster) returns (result: RunResult, lookups: seq<Event>, ran: seq<Event>)
      modifies executor`records
      ensures WellFormed(result)
      ensures ResolveAction(exec.action).None? || exec.params.Malformed? <==> RequestOf(exec).None?
      ensures RequestOf(exec).None? ==>
                result.status.Failed? && executor.records == old(executor.records) && lookups == [] && ran == []
      ensures RequestOf(exec).Some? ==>
                && |executor.records| == |old(executor.records)| + 1
                && executor.records[..|old(executor.records)|] == old(executor.records)
                && var rec := executor.records[|old(executor.records)|];
                   && (result.status.Succeeded? <==> rec.outcome.Success?)
                   && rec.cluster == exec.cluster && ResolveAction(exec.action) == Some(rec.action)
                   && rec.caller == (if exec.username.Some? then exec.username.value else "")
                   && exists r :: Completed(executor.scopes, RequestOf(exec).value, api, lookups, ran, rec, r)
                                  && result.output == r.output
      ensures TraceOf(executor.scopes, exec, lookups + ran)
    {
      lookups, ran := [], [];
      var action := ResolveAction(exec.action);
      if action.None? || exec.params.Malformed? {
        return RunResult(Status.Failed, None), lookups, ran;
      }
      var caller := if exec.username.Some? then exec.username.value else "";
      var params := if exec.params.Decoded? then exec.params.params else map[];
      var r: ExecResult;
      r, lookups, ran := executor.Execute(ExecRequest(caller, exec.cluster, action.value, None, params), api);
      // The error before the verdict: a run that never reached the authorizer has no verdict.
      if r.error.Some? || !r.allowed {
        result := RunResult(Status.Failed, None);
      } else {
        result := RunResult(Succeeded, r.output);
      }
    }
  }
}
