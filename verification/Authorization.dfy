/** The two server-side policies of internal/authorization, built from configured lists and consulted per request. */
module Authorization {
  datatype Denial =
    | WrongTarget
    | NamespaceRequired
    | NamespaceNotAllowed
    | SecretNotAllowed
    | ResourceRequired
    | NoRegionsConfigured
    | RegionRequired
    | RegionNotAllowed
    | OperationNotPermitted

  datatype Verdict = Allow | Deny(reason: Denial)

  // ---------------------------------------------------------------- the Kubernetes policy

  datatype KubePolicy = KubePolicy(namespaces: set<string>, secrets: set<string>)

  datatype KubeQuestion = KubeQuestion(namespace: string, resource: string, name: string, clusterScoped: bool)

  function SecretKey(q: KubeQuestion): string {
    q.namespace + "/" + q.name
  }

  function KubeAuthorize(policy: KubePolicy, q: KubeQuestion): Verdict {
    if policy.namespaces == {} then Allow
    else if q.namespace == "" && !q.clusterScoped then Deny(NamespaceRequired)
    else if q.namespace != "" && q.namespace !in policy.namespaces then Deny(NamespaceNotAllowed)
    else if q.resource == "secrets" && (q.name == "" || SecretKey(q) !in policy.secrets) then Deny(SecretNotAllowed)
    else Allow
  }

  // ---------------------------------------------------------------- the AWS policy

  datatype AwsPolicy = AwsPolicy(regions: set<string>, operations: set<string>)

  // An empty operation is a read.
  datatype AwsQuestion = AwsQuestion(region: string, resource: string, operation: string)

  function AwsAuthorize(policy: AwsPolicy, q: AwsQuestion): Verdict {
    if q.resource == "" then Deny(ResourceRequired)
    else if policy.regions == {} then Deny(NoRegionsConfigured)
    else if q.region == "" then Deny(RegionRequired)
    else if q.region !in policy.regions then Deny(RegionNotAllowed)
    else if q.operation != "" && q.operation !in policy.operations then Deny(OperationNotPermitted)
    else Allow
  }

  // Listing more never turns an allowed Kubernetes request into a denied one, exactly unless the narrower policy lists
  // no namespace, which makes it permissive, and the wider one does.
  lemma KubeMonotone(narrow: KubePolicy, wide: KubePolicy)
    requires narrow.namespaces <= wide.namespaces && narrow.secrets <= wide.secrets
    ensures (forall q :: KubeAuthorize(narrow, q) == Allow ==> KubeAuthorize(wide, q) == Allow)
            <==> (narrow.namespaces == {} ==> wide.namespaces == {})
  {
    if narrow.namespaces == {} && wide.namespaces != {} {
      var unscoped := KubeQuestion("", "pods", "", false);
      assert KubeAuthorize(narrow, unscoped) == Allow && KubeAuthorize(wide, unscoped) == Deny(NamespaceRequired);
    }
  }

  // The source's sets are maps to true: absent keys read as false.
  method StringSet(values: seq<string>) returns (members: map<string, bool>)
    ensures forall v :: v in members <==> v in values
    ensures forall v :: v in members ==> members[v]
  {
    members := map[];
    var i := 0;
    while i < |values|
      invariant 0 <= i <= |values|
      invariant forall v :: v in members <==> v in values[..i]
      invariant forall v :: v in members ==> members[v]
    {
      members := members[values[i] := true];
      i := i + 1;
    }
  }
}
