/**
 The backplane access request: buildCreateRequest of internal/backplane/client.go regroups the rules an action
 declares by namespace. Grants are read as Kubernetes RBAC reads them.
 */
module Rbac {
  import opened Basics
  import opened Lexicographic

  // RBACRule of internal/backplane/backplane.go; an empty namespace means the whole cluster.
  datatype Rule = Rule(namespace: string, groups: seq<string>, resources: seq<string>, names: seq<string>,
                       verbs: seq<string>)

  datatype PolicyRule = PolicyRule(groups: seq<string>, resources: seq<string>, names: Option<seq<string>>,
                                   verbs: seq<string>)

  datatype Role = Role(namespace: string, rules: seq<PolicyRule>)

  datatype Request = Request(name: string, customerDataAccess: bool, clusterRoleRules: seq<PolicyRule>, roles: seq<Role>)

  // One request to the cluster's API; an empty namespace means a cluster-scoped or all-namespaces request.
  datatype Access = Access(namespace: string, group: string, resource: string, name: string, verb: string)

  // ---------------------------------------------------------------- what rules grant

  predicate Listed(list: seq<string>, value: string) {
    value in list || "*" in list
  }

  predicate RulePermits(rule: Rule, a: Access) {
    && (rule.namespace == "" || rule.namespace == a.namespace)
    && Listed(rule.groups, a.group) && Listed(rule.resources, a.resource) && Listed(rule.verbs, a.verb)
    && (rule.names == [] || a.name in rule.names)
  }

  predicate PolicyPermits(rule: PolicyRule, a: Access) {
    && Listed(rule.groups, a.group) && Listed(rule.resources, a.resource) && Listed(rule.verbs, a.verb)
    && (rule.names.None? || rule.names.value == [] || a.name in rule.names.value)
  }

  predicate RulesGrant(rules: seq<Rule>, a: Access) {
    exists i :: 0 <= i < |rules| && RulePermits(rules[i], a)
  }

  predicate PoliciesPermit(rules: seq<PolicyRule>, a: Access) {
    exists i :: 0 <= i < |rules| && PolicyPermits(rules[i], a)
  }

  // A cluster role holds everywhere, a role in its own namespace.
  predicate RequestGrants(request: Request, a: Access) {
    PoliciesPermit(request.clusterRoleRules, a)
    || exists i :: 0 <= i < |request.roles|
                   && request.roles[i].namespace == a.namespace && PoliciesPermit(request.roles[i].rules, a)
  }

  // ---------------------------------------------------------------- the regrouping

  function ToPolicyRule(rule: Rule): PolicyRule {
    PolicyRule(rule.groups, rule.resources, if |rule.names| > 0 then Some(rule.names) else None, rule.verbs)
  }

  // The rules of one namespace, in input order and as often as they occur.
  function PoliciesOf(rules: seq<Rule>, namespace: string): seq<PolicyRule> {
    if rules == [] then []
    else
      var last := rules[|rules| - 1];
      PoliciesOf(rules[..|rules| - 1], namespace) + if last.namespace == namespace then [ToPolicyRule(last)] else []
  }

  predicate Declares(rules: seq<Rule>, namespace: string) {
    exists i :: 0 <= i < |rules| && rules[i].namespace == namespace
  }

  function NamespacesOf(roles: seq<Role>): seq<string> {
    seq(|roles|, i requires 0 <= i < |roles| => roles[i].namespace)
  }

  // What the request has to be: by SortedUnique no other request satisfies this.
  ghost predicate Regroups(request: Request, name: string, rules: seq<Rule>) {
    && request.name == name && !request.customerDataAccess
    && request.clusterRoleRules == PoliciesOf(rules, "")
    && Sorted(NamespacesOf(request.roles))
    && (forall namespace :: namespace in NamespacesOf(request.roles) <==> namespace != "" && Declares(rules, namespace))
    && (forall i :: 0 <= i < |request.roles| ==> request.roles[i].rules == PoliciesOf(rules, request.roles[i].namespace))
  }

  // The loop's map from namespace to rules.
  ghost predicate GroupedBy(byNamespace: map<string, seq<PolicyRule>>, rules: seq<Rule>) {
    forall namespace :: (namespace in byNamespace <==> namespace != "" && Declares(rules, namespace))
                        && (namespace in byNamespace ==> byNamespace[namespace] == PoliciesOf(rules, namespace))
  }

  lemma {:induction false} UndeclaredHasNone(rules: seq<Rule>, namespace: string)
    requires !Declares(rules, namespace)
    ensures PoliciesOf(rules, namespace) == []
  {
    if rules != [] {
      assert rules[|rules| - 1].namespace != namespace;
      assert !Declares(rules[..|rules| - 1], namespace);
      UndeclaredHasNone(rules[..|rules| - 1], namespace);
    }
  }

  lemma DeclaresStep(rules: seq<Rule>, rule: Rule)
    ensures (rules + [rule])[..|rules|] == rules
    ensures forall namespace :: Declares(rules + [rule], namespace) <==> Declares(rules, namespace) || rule.namespace == namespace
  {
    forall namespace
      ensures Declares(rules + [rule], namespace) <==> Declares(rules, namespace) || rule.namespace == namespace
    {
      if rule.namespace == namespace {
        assert (rules + [rule])[|rules|].namespace == namespace;
      }
      if Declares(rules, namespace) {
        var i :| 0 <= i < |rules| && rules[i].namespace == namespace;
        assert (rules + [rule])[i].namespace == namespace;
      }
    }
  }

  method AppendRule(byNamespace: map<string, seq<PolicyRule>>, ghost rules: seq<Rule>, rule: Rule)
    returns (grouped: map<string, seq<PolicyRule>>)
    requires GroupedBy(byNamespace, rules) && rule.namespace != ""
    ensures GroupedBy(grouped, rules + [rule])
  {
    var sofar := if rule.namespace in byNamespace then byNamespace[rule.namespace] else [];
    if rule.namespace !in byNamespace {
      UndeclaredHasNone(rules, rule.namespace);
    }
    grouped := byNamespace[rule.namespace := sofar + [ToPolicyRule(rule)]];
    DeclaresStep(rules, rule);
  }

  method GroupRules(rules: seq<Rule>)
    returns (clusterRoleRules: seq<PolicyRule>, byNamespace: map<string, seq<PolicyRule>>)
    ensures clusterRoleRules == PoliciesOf(rules, "") && GroupedBy(byNamespace, rules)
  {
    clusterRoleRules, byNamespace := [], map[];
    var i := 0;
    while i < |rules|
      invariant 0 <= i <= |rules|
      invariant clusterRoleRules == PoliciesOf(rules[..i], "")
      invariant GroupedBy(byNamespace, rules[..i])
    {
      assert rules[..i + 1] == rules[..i] + [rules[i]];
      DeclaresStep(rules[..i], rules[i]);
      if rules[i].namespace == "" {
        clusterRoleRules := clusterRoleRules + [ToPolicyRule(rules[i])];
      } else {
        byNamespace := AppendRule(byNamespace, rules[..i], rules[i]);
      }
      i := i + 1;
    }
    assert rules[..|rules|] == rules;
  }

  // The keys of a map in whatever order the iteration yields them, then sort.Strings.
  method SortedKeys<V>(m: map<string, V>) returns (keys: seq<string>)
    ensures Sorted(keys) && forall k :: k in keys <==> k in m
  {
    keys := [];
    var rest := m.Keys;
    while rest != {}
      invariant Lexicographic.Distinct(keys)
      invariant rest <= m.Keys
      invariant forall k :: k in keys <==> k in m && k !in rest
      decreases |rest|
    {
      var k :| k in rest;
      keys, rest := keys + [k], rest - {k};
    }
    SortIsSorted(keys);
    keys := Sort(keys);
  }

  method BuildCreateRequest(name: string, rules: seq<Rule>) returns (request: Request)
    ensures Regroups(request, name, rules)
  {
    var clusterRoleRules, byNamespace := GroupRules(rules);
    var namespaces := SortedKeys(byNamespace);
    var roles: seq<Role> := [];
    var i := 0;
    while i < |namespaces|
      invariant 0 <= i <= |namespaces|
      invariant NamespacesOf(roles) == namespaces[..i]
      invariant forall j :: 0 <= j < |roles| ==> roles[j].rules == PoliciesOf(rules, roles[j].namespace)
    {
      assert namespaces[i] in namespaces;
      roles := roles + [Role(namespaces[i], byNamespace[namespaces[i]])];
      i := i + 1;
    }
    assert namespaces[..|namespaces|] == namespaces;
    request := Request(name, false, clusterRoleRules, roles);
  }

  // ---------------------------------------------------------------- what the regrouping keeps

  // The rules of a namespace permit what the declared rules of exactly that namespace permit.
  lemma {:induction false} PoliciesMean(rules: seq<Rule>, namespace: string, a: Access)
    requires namespace == "" || namespace == a.namespace
    ensures PoliciesPermit(PoliciesOf(rules, namespace), a)
       <==> exists i :: 0 <= i < |rules| && rules[i].namespace == namespace && RulePermits(rules[i], a)
  {
    if rules != [] {
      var n := |rules| - 1;
      var init, last := PoliciesOf(rules[..n], namespace), ToPolicyRule(rules[n]);
      PoliciesMean(rules[..n], namespace, a);
      assert PolicyPermits(last, a) && rules[n].namespace == namespace
        <==> RulePermits(rules[n], a) && rules[n].namespace == namespace;
      AppendPermits(init, last, a);
      assert forall i :: 0 <= i < n ==> rules[..n][i] == rules[i];
    }
  }

  lemma AppendPermits(rules: seq<PolicyRule>, rule: PolicyRule, a: Access)
    ensures PoliciesPermit(rules + [rule], a) <==> PoliciesPermit(rules, a) || PolicyPermits(rule, a)
    ensures rules + [] == rules
  {
    if PoliciesPermit(rules, a) {
      var i :| 0 <= i < |rules| && PolicyPermits(rules[i], a);
      assert PolicyPermits((rules + [rule])[i], a);
    }
    if PolicyPermits(rule, a) {
      assert PolicyPermits((rules + [rule])[|rules|], a);
    }
  }

  // The request grants an access exactly when the rules it was built from do.
  lemma SameGrants(request: Request, name: string, rules: seq<Rule>, a: Access)
    requires Regroups(request, name, rules)
    ensures RequestGrants(request, a) <==> RulesGrant(rules, a)
  {
    var roles := request.roles;
    PoliciesMean(rules, "", a);
    PoliciesMean(rules, a.namespace, a);
    if RequestGrants(request, a) && !PoliciesPermit(request.clusterRoleRules, a) {
      var i :| 0 <= i < |roles| && roles[i].namespace == a.namespace && PoliciesPermit(roles[i].rules, a);
      assert roles[i].rules == PoliciesOf(rules, a.namespace);
    }
    if RulesGrant(rules, a) {
      var i :| 0 <= i < |rules| && RulePermits(rules[i], a);
      if rules[i].namespace != "" {
        assert Declares(rules, a.namespace);
        assert a.namespace in NamespacesOf(roles);
        var j :| 0 <= j < |roles| && NamespacesOf(roles)[j] == a.namespace;
        assert roles[j].namespace == a.namespace;
      }
    }
  }

  // How often a rule occurs for a namespace, in the declared rules and in the request.
  function Declared(rules: seq<Rule>, namespace: string, rule: PolicyRule): nat {
    if rules == [] then 0
    else
      var last := rules[|rules| - 1];
      Declared(rules[..|rules| - 1], namespace, rule)
      + if last.namespace == namespace && ToPolicyRule(last) == rule then 1 else 0
  }

  function Requested(roles: seq<Role>, namespace: string, rule: PolicyRule): nat {
    if roles == [] then 0
    else
      var last := roles[|roles| - 1];
      Requested(roles[..|roles| - 1], namespace, rule) + if last.namespace == namespace then multiset(last.rules)[rule] else 0
  }

  lemma {:induction false} PoliciesCount(rules: seq<Rule>, namespace: string, rule: PolicyRule)
    ensures multiset(PoliciesOf(rules, namespace))[rule] == Declared(rules, namespace, rule)
  {
    if rules != [] {
      PoliciesCount(rules[..|rules| - 1], namespace, rule);
    }
  }

  // Where the namespaces are distinct, a namespace's rules are counted once.
  lemma {:induction false} RequestedIn(roles: seq<Role>, namespace: string, rule: PolicyRule)
    requires Sorted(NamespacesOf(roles))
    ensures namespace !in NamespacesOf(roles) ==> Requested(roles, namespace, rule) == 0
    ensures forall i :: 0 <= i < |roles| && roles[i].namespace == namespace ==>
              Requested(roles, namespace, rule) == multiset(roles[i].rules)[rule]
  {
    if roles != [] {
      var n := |roles| - 1;
      assert NamespacesOf(roles)[..n] == NamespacesOf(roles[..n]);
      RequestedIn(roles[..n], namespace, rule);
      assert forall i :: 0 <= i < n ==> NamespacesOf(roles)[i] == roles[i].namespace == roles[..n][i].namespace;
      assert NamespacesOf(roles)[n] == roles[n].namespace;
      LessIrreflexive(roles[n].namespace);
      if namespace in NamespacesOf(roles[..n]) {
        var i :| 0 <= i < n && roles[i].namespace == namespace;
        assert Less(NamespacesOf(roles)[i], NamespacesOf(roles)[n]);
        assert roles[n].namespace != namespace;
      }
    }
  }

  // Every rule arrives as often as it was declared, with its own namespace.
  lemma MultiplicityKept(request: Request, name: string, rules: seq<Rule>, namespace: string, rule: PolicyRule)
    requires Regroups(request, name, rules)
    ensures Declared(rules, namespace, rule)
         == if namespace == "" then multiset(request.clusterRoleRules)[rule] else Requested(request.roles, namespace, rule)
  {
    PoliciesCount(rules, namespace, rule);
    if namespace != "" {
      RequestedIn(request.roles, namespace, rule);
      if Declares(rules, namespace) {
        assert namespace in NamespacesOf(request.roles);
        var i :| 0 <= i < |request.roles| && NamespacesOf(request.roles)[i] == namespace;
        assert request.roles[i].namespace == namespace;
      } else {
        UndeclaredHasNone(rules, namespace);
      }
    }
  }

  // The order in which the map was iterated does not show: the request is determined by the rules.
  lemma RequestDetermined(a: Request, b: Request, name: string, rules: seq<Rule>)
    requires Regroups(a, name, rules) && Regroups(b, name, rules)
    ensures a == b
  {
    SortedUnique(NamespacesOf(a.roles), NamespacesOf(b.roles));
    assert |a.roles| == |NamespacesOf(a.roles)| == |b.roles|;
    forall i | 0 <= i < |a.roles|
      ensures a.roles[i] == b.roles[i]
    {
      assert NamespacesOf(a.roles)[i] == NamespacesOf(b.roles)[i];
    }
  }
}
