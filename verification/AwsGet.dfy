/**
 The resources that aws-get reads (internal/actions/aws_get.go) and validate: what it refuses before it makes any
 call, and with which error.
 */
module AwsGet {
  import opened Basics
  import opened Lexicographic
  import FilterParser
  import FilterProperties

  datatype IdSupport = IdOptional | IdRequired | IdUnsupported

  datatype Service = Ec2 | Elb | ElbV2 | CloudTrail | Route53

  datatype Descriptor = Descriptor(service: Service, id: IdSupport, params: seq<string>)

  // awsResources, None for a resource it does not list.
  function Lookup(resource: string): Option<Descriptor> {
    if resource in ["ec2-instances", "ec2-security-groups", "ec2-subnets", "ec2-route-tables", "ec2-vpcs", "ec2-dhcp-options"] then
      Some(Descriptor(Ec2, IdOptional, ["filters"]))
    else if resource in ["load-balancers", "target-groups"] then Some(Descriptor(ElbV2, IdOptional, []))
    else if resource == "load-balancers-classic" then Some(Descriptor(Elb, IdOptional, []))
    else if resource == "target-health" then Some(Descriptor(ElbV2, IdRequired, []))
    else if resource == "cloudtrail-events" then Some(Descriptor(CloudTrail, IdUnsupported, ["filters", "since"]))
    else if resource == "route53-hosted-zones" then Some(Descriptor(Route53, IdUnsupported, []))
    else if resource == "route53-record-sets" then Some(Descriptor(Route53, IdRequired, []))
    else None
  }

  // The table by what the names say: the service, and the params and ids that go with it.
  lemma ResourcesByName(resource: string)
    requires Lookup(resource).Some?
    ensures var d := Lookup(resource).value;
            && (d.service.Ec2? <==> "ec2-" <= resource) && (d.service.Route53? <==> "route53-" <= resource)
            && (d.service.CloudTrail? <==> resource == "cloudtrail-events")
            && (d.service.Elb? <==> resource == "load-balancers-classic")
            && ("filters" in d.params <==> d.service.Ec2? || d.service.CloudTrail?)
            && ("since" in d.params <==> d.service.CloudTrail?)
            && (d.id.IdRequired? <==> resource in ["target-health", "route53-record-sets"])
            && (d.id.IdUnsupported? <==> resource in ["cloudtrail-events", "route53-hosted-zones"])
  {
    var f, s := "filters", "since";
    assert |f| == 7 && |s| == 5;
    assert ("ec2-" <= resource) <==> |resource| >= 4 && resource[..4] == "ec2-";
    assert resource[0] == 'e' ==> "ec2-" <= resource;
  }

  datatype Error = IdMissing | IdNotSupported | UnknownParam(name: string)

  const TARGET_PARAMS: seq<string> := ["resource", "id"]

  predicate Blank(value: string) {
    FilterParser.Trim(value) == ""
  }

  // A param that says something the resource does not understand; a blank one says nothing.
  predicate Refused(d: Descriptor, params: map<string, string>, name: string) {
    name in params && !Blank(params[name]) && name !in TARGET_PARAMS && name !in d.params
  }

  predicate IdFits(d: Descriptor, id: string) {
    !(d.id.IdRequired? && id == "") && !(d.id.IdUnsupported? && id != "")
  }

  // What aws-get is willing to read.
  ghost predicate Accepts(resource: string, id: string, params: map<string, string>) {
    Lookup(resource).Some? && IdFits(Lookup(resource).value, id) && forall n :: !Refused(Lookup(resource).value, params, n)
  }

  lemma BlankIsAllSpace(value: string)
    ensures Blank(value) <==> FilterProperties.AllSpace(value)
  {
    var i, j := FilterProperties.TrimIsSlice(value);
    if Blank(value) {
      assert value == value[..i] + value[j..];
    } else {
      FilterProperties.TrimSpec(value);
      assert !FilterParser.IsSpace(value[i]);
    }
  }

  // The resource understands the param, or it says nothing.
  ghost predicate Understood(resource: string, name: string, value: string) {
    || FilterProperties.AllSpace(value) || name == "resource" || name == "id"
    || (name == "filters" && ("ec2-" <= resource || resource == "cloudtrail-events"))
    || (name == "since" && resource == "cloudtrail-events")
  }

  // What aws-get is willing to read, by the names of resource and params.
  lemma AcceptsByName(resource: string, id: string, params: map<string, string>)
    ensures Accepts(resource, id, params) <==>
              && Lookup(resource).Some?
              && (id == "" ==> resource != "target-health" && resource != "route53-record-sets")
              && (id != "" ==> resource != "cloudtrail-events" && resource != "route53-hosted-zones")
              && forall n :: n in params ==> Understood(resource, n, params[n])
  {
    if Lookup(resource).Some? {
      var d := Lookup(resource).value;
      forall n | n in params
        ensures Refused(d, params, n) <==> !Understood(resource, n, params[n])
      {
        RefusedByName(resource, params, n);
      }
      ResourcesByName(resource);
    }
  }

  lemma RefusedByName(resource: string, params: map<string, string>, n: string)
    requires Lookup(resource).Some? && n in params
    ensures Refused(Lookup(resource).value, params, n) <==> !Understood(resource, n, params[n])
  {
    var d := Lookup(resource).value;
    ResourcesByName(resource);
    BlankIsAllSpace(params[n]);
    assert n in d.params ==> n == "filters" || n == "since";
  }

  // The names of the params that are not blank, in byte order however the map is iterated.
  method GivenNames(params: map<string, string>) returns (names: seq<string>)
    ensures Sorted(names) && forall n :: n in names <==> n in params && !Blank(params[n])
  {
    names := [];
    var rest := params.Keys;
    while rest != {}
      invariant Lexicographic.Distinct(names)
      invariant rest <= params.Keys
      invariant forall n :: n in names <==> n in params && n !in rest && !Blank(params[n])
      decreases |rest|
    {
      var n :| n in rest;
      if FilterParser.Trim(params[n]) != "" {
        names := names + [n];
      }
      rest := rest - {n};
    }
    SortIsSorted(names);
    names := Sort(names);
  }

  // Accepted exactly when the id is one the resource can use and nothing is refused; among several refused params the
  // error names the least, so that the same request always fails the same way.
  method Validate(d: Descriptor, id: string, params: map<string, string>) returns (error: Option<Error>)
    ensures error.None? <==> IdFits(d, id) && forall n :: !Refused(d, params, n)
    ensures error == Some(IdMissing) <==> d.id.IdRequired? && id == ""
    ensures error == Some(IdNotSupported) <==> d.id.IdUnsupported? && id != ""
    ensures error.Some? && error.value.UnknownParam? ==>
              && IdFits(d, id) && Refused(d, params, error.value.name)
              && forall n :: Refused(d, params, n) && n != error.value.name ==> Less(error.value.name, n)
  {
    if d.id.IdRequired? && id == "" {
      return Some(IdMissing);
    }
    if d.id.IdUnsupported? && id != "" {
      return Some(IdNotSupported);
    }
    var names := GivenNames(params);
    var i := 0;
    while i < |names|
      invariant 0 <= i <= |names|
      invariant forall j :: 0 <= j < i ==> !Refused(d, params, names[j])
    {
      assert names[i] in names;
      if names[i] !in TARGET_PARAMS && names[i] !in d.params {
        assert Refused(d, params, names[i]);
        return Some(UnknownParam(names[i]));
      }
      i := i + 1;
    }
    return None;
  }
}
