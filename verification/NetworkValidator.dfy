/** Checking the network a cluster refers to: which issues are reported, and what a clean report means. */
module NetworkValidator {
  import opened Options
  import opened Cidr

  const MAX_ENI_SUBNETS := 20

  datatype Mode = Overlay | VpcRouter | Eni

  datatype Input = Input(
    vpcId: string, subnetIds: seq<string>, mode: Mode, container: CidrText, service: CidrText, eniSubnetIds: seq<string>)

  datatype ListedSubnet = ListedSubnet(id: string, neutronId: string, cidr: CidrText)

  /** What the cloud says: the VPC's CIDR, absent when there is no such VPC, and subnet CIDRs by ID. */
  datatype Facts = Facts(vpc: CidrText, subnets: map<string, CidrText>)

  datatype Issue =
    | InvalidServiceCidr
    | InvalidContainerCidr
    | NoEniSubnet
    | NoVpc
    | ServiceOverlapsVpc
    | NoSuchSubnet(id: string)
    | NoSuchEniSubnet(id: string)
    | ServiceOverlapsSubnet(id: string)
    | ContainerOverlapsService
    | ContainerOverlapsVpc
    | ContainerOverlapsSubnet(id: string)
    | TooManyEniSubnets
    | SharedSubnet(id: string)

  predicate IsWarning(i: Issue) { i.SharedSubnet? }

  predicate ValidFacts(f: Facts) {
    ValidText(f.vpc) && forall id :: id in f.subnets ==> ValidText(f.subnets[id])
  }

  predicate ValidInput(input: Input) { ValidText(input.container) && ValidText(input.service) }

  /** cidrsOverlap on text: whatever does not parse overlaps nothing. */
  predicate CidrsOverlap(a: CidrText, b: CidrText)
    requires ValidText(a) && ValidText(b)
  {
    a.Parsed? && b.Parsed? && Overlap(a.prefix, b.prefix)
  }

  /** The container CIDR is checked only where pods do not take addresses of the VPC. */
  predicate ContainerChecked(input: Input) { input.mode != Eni && input.container != Absent }

  predicate Reports(input: Input, f: Facts, issue: Issue)
    requires ValidInput(input) && ValidFacts(f)
  {
    match issue
    case InvalidServiceCidr => input.service == Malformed
    case InvalidContainerCidr => input.container == Malformed
    case NoEniSubnet => input.mode == Eni && input.eniSubnetIds == []
    case NoVpc => f.vpc == Absent
    case ServiceOverlapsVpc => CidrsOverlap(input.service, f.vpc)
    case NoSuchSubnet(id) => id in input.subnetIds && id !in f.subnets
    case NoSuchEniSubnet(id) => id in input.eniSubnetIds && id !in f.subnets
    case ServiceOverlapsSubnet(id) => id in f.subnets && CidrsOverlap(input.service, f.subnets[id])
    case ContainerOverlapsService => ContainerChecked(input) && CidrsOverlap(input.container, input.service)
    case ContainerOverlapsVpc => ContainerChecked(input) && CidrsOverlap(input.container, f.vpc)
    case ContainerOverlapsSubnet(id) =>
      ContainerChecked(input) && id in f.subnets && CidrsOverlap(input.container, f.subnets[id])
    case TooManyEniSubnets => input.mode == Eni && |input.eniSubnetIds| > MAX_ENI_SUBNETS
    case SharedSubnet(id) => input.mode == Eni && id in input.eniSubnetIds && id in input.subnetIds
  }

  // ---------------------------------------------------------------- the code

  predicate Names(s: ListedSubnet, id: string) { s.id == id || (s.neutronId == id && id != "") }

  /** fetchNetwork: a failed listing is an error; a subnet is known by both of its IDs. */
  method FetchNetwork(vpcId: string, vpcs: Option<seq<CidrText>>, listed: Option<seq<ListedSubnet>>)
    returns (facts: Option<Facts>)
    ensures facts == None <==> (vpcId != "" && vpcs == None) || listed == None
    ensures facts.Some? ==>
      && facts.value.vpc == (if vpcId != "" && vpcs.value != [] then vpcs.value[0] else Absent)
      && (forall id :: id in facts.value.subnets <==> exists s :: s in listed.value && Names(s, id))
      && (forall id :: id in facts.value.subnets ==>
            exists s :: s in listed.value && Names(s, id) && s.cidr == facts.value.subnets[id])
  {
    var vpc := Absent;
    if vpcId != "" {
      if vpcs == None { return None; }
      if |vpcs.value| > 0 { vpc := vpcs.value[0]; }
    }
    if listed == None { return None; }
    var subnets: map<string, CidrText> := map[];
    for i := 0 to |listed.value|
      invariant forall id :: id in subnets <==> exists s :: s in listed.value[..i] && Names(s, id)
      invariant forall id :: id in subnets ==>
                  exists s :: s in listed.value[..i] && Names(s, id) && s.cidr == subnets[id]
    {
      var s := listed.value[i];
      assert forall t :: t in listed.value[..i + 1] <==> t in listed.value[..i] || t == s;
      assert Names(s, s.id) && (s.neutronId != "" ==> Names(s, s.neutronId));
      assert forall id | Names(s, id) :: id == s.id || id == s.neutronId;
      subnets := subnets[s.id := s.cidr];
      if s.neutronId != "" { subnets := subnets[s.neutronId := s.cidr]; }
      forall id ensures id in subnets <==> exists t :: t in listed.value[..i + 1] && Names(t, id) {
        assert Names(s, id) ==> s in listed.value[..i + 1];
      }
    }
    assert listed.value[..|listed.value|] == listed.value;
    return Some(Facts(vpc, subnets));
  }

  method MissingSubnets(ids: seq<string>, f: Facts) returns (missing: seq<string>)
    ensures forall id :: id in missing <==> id in ids && id !in f.subnets
  {
    missing := [];
    for i := 0 to |ids|
      invariant forall id :: id in missing <==> id in ids[..i] && id !in f.subnets
    {
      if ids[i] !in f.subnets { missing := missing + [ids[i]]; }
    }
    assert ids[..|ids|] == ids;
  }

  method OverlappingSubnets(cidr: CidrText, f: Facts) returns (ids: seq<string>)
    requires ValidText(cidr) && ValidFacts(f)
    ensures forall id :: id in ids <==> id in f.subnets && CidrsOverlap(cidr, f.subnets[id])
  {
    hide CidrsOverlap;
    ids := [];
    var left := f.subnets.Keys;
    while left != {}
      invariant left <= f.subnets.Keys
      invariant forall id :: id in ids <==> id in f.subnets && id !in left && CidrsOverlap(cidr, f.subnets[id])
    {
      var id :| id in left;
      left := left - {id};
      if CidrsOverlap(cidr, f.subnets[id]) { ids := ids + [id]; }
    }
  }

  method SharedSubnets(eni: seq<string>, node: seq<string>) returns (shared: seq<string>)
    ensures forall id :: id in shared <==> id in eni && id in node
  {
    shared := [];
    for i := 0 to |eni|
      invariant forall id :: id in shared <==> id in eni[..i] && id in node
    {
      for j := 0 to |node|
        invariant forall id :: id in shared <==> (id in eni[..i] && id in node) || (id == eni[i] && id in node[..j])
      {
        if eni[i] == node[j] { shared := shared + [eni[i]]; }
      }
      assert node[..|node|] == node;
    }
    assert eni[..|eni|] == eni;
  }

  function Tagged(ids: seq<string>, tag: string -> Issue): (issues: seq<Issue>)
    ensures forall i :: i in issues <==> exists id :: id in ids && i == tag(id)
  {
    if ids == [] then [] else [tag(ids[0])] + Tagged(ids[1..], tag)
  }

  method FormatIssues(input: Input, f: Facts) returns (issues: seq<Issue>)
    requires ValidInput(input) && ValidFacts(f)
    ensures forall i :: i in issues <==>
      Reports(input, f, i) && i in {InvalidServiceCidr, InvalidContainerCidr, NoEniSubnet, NoVpc, ServiceOverlapsVpc}
  {
    issues := [];
    if input.service == Malformed { issues := issues + [InvalidServiceCidr]; }
    if input.container == Malformed { issues := issues + [InvalidContainerCidr]; }
    if input.mode == Eni && |input.eniSubnetIds| == 0 { issues := issues + [NoEniSubnet]; }
    if f.vpc == Absent {
      issues := issues + [NoVpc];
    } else if input.service != Absent && CidrsOverlap(input.service, f.vpc) {
      issues := issues + [ServiceOverlapsVpc];
    }
  }

  method SubnetIssues(input: Input, f: Facts) returns (issues: seq<Issue>)
    requires ValidInput(input) && ValidFacts(f)
    ensures forall i :: i in issues <==>
      Reports(input, f, i) && (i.NoSuchSubnet? || i.NoSuchEniSubnet? || i.ServiceOverlapsSubnet?)
  {
    hide CidrsOverlap;
    var ids := MissingSubnets(input.subnetIds, f);
    issues := Tagged(ids, id => NoSuchSubnet(id));
    ids := MissingSubnets(input.eniSubnetIds, f);
    issues := issues + Tagged(ids, id => NoSuchEniSubnet(id));
    AbsentOverlapsNothing(f);
    if input.service != Absent {
      ids := OverlappingSubnets(input.service, f);
      issues := issues + Tagged(ids, id => ServiceOverlapsSubnet(id));
    }
  }

  method ContainerIssues(input: Input, f: Facts) returns (issues: seq<Issue>)
    requires ValidInput(input) && ValidFacts(f)
    ensures forall i :: i in issues <==>
      Reports(input, f, i) && (i in {ContainerOverlapsService, ContainerOverlapsVpc} || i.ContainerOverlapsSubnet?)
  {
    issues := [];
    if input.mode != Eni && input.container != Absent && input.service != Absent && CidrsOverlap(input.container, input.service) {
      issues := issues + [ContainerOverlapsService];
    }
    if input.mode != Eni && input.container != Absent {
      if f.vpc != Absent && CidrsOverlap(input.container, f.vpc) { issues := issues + [ContainerOverlapsVpc]; }
      hide CidrsOverlap;
      var ids := OverlappingSubnets(input.container, f);
      issues := issues + Tagged(ids, id => ContainerOverlapsSubnet(id));
    }
  }

  method EniIssues(input: Input, f: Facts) returns (issues: seq<Issue>)
    requires ValidInput(input) && ValidFacts(f)
    ensures forall i :: i in issues <==> Reports(input, f, i) && (i == TooManyEniSubnets || i.SharedSubnet?)
  {
    issues := [];
    if input.mode == Eni {
      if |input.eniSubnetIds| > MAX_ENI_SUBNETS { issues := issues + [TooManyEniSubnets]; }
      var ids := SharedSubnets(input.eniSubnetIds, input.subnetIds);
      issues := issues + Tagged(ids, id => SharedSubnet(id));
    }
  }

  /** The report holds an issue exactly when the issue is there. */
  method Validate(input: Input, f: Facts) returns (issues: seq<Issue>)
    requires ValidInput(input) && ValidFacts(f)
    ensures forall issue :: issue in issues <==> Reports(input, f, issue)
  {
    hide Reports;
    var format := FormatIssues(input, f);
    var subnets := SubnetIssues(input, f);
    var container := ContainerIssues(input, f);
    var eni := EniIssues(input, f);
    issues := format + subnets + container + eni;
  }

  lemma AbsentOverlapsNothing(f: Facts)
    requires ValidFacts(f)
    ensures forall id :: id in f.subnets ==> !CidrsOverlap(Absent, f.subnets[id])
  {
  }

  // ---------------------------------------------------------------- what a clean report means

  /** The address is one of those the text stands for. */
  predicate Covers(c: CidrText, x: Address)
    requires ValidText(c)
  {
    c.Parsed? && Contains(c.prefix, x)
  }

  ghost predicate Apart(a: CidrText, b: CidrText)
    requires ValidText(a) && ValidText(b)
  {
    forall x :: ValidAddress(x) && Covers(a, x) ==> !Covers(b, x)
  }

  ghost predicate Sound(input: Input, f: Facts)
    requires ValidInput(input) && ValidFacts(f)
  {
    && input.service != Malformed && input.container != Malformed
    && f.vpc != Absent
    && (forall id :: id in input.subnetIds || id in input.eniSubnetIds ==> id in f.subnets)
    && (input.mode == Eni ==> 1 <= |input.eniSubnetIds| <= MAX_ENI_SUBNETS)
    && Apart(input.service, f.vpc)
    && (forall id :: id in f.subnets ==> Apart(input.service, f.subnets[id]))
    && (input.mode != Eni ==>
          && Apart(input.container, input.service)
          && Apart(input.container, f.vpc)
          && (forall id :: id in f.subnets ==> Apart(input.container, f.subnets[id])))
  }

  lemma ApartIff(a: CidrText, b: CidrText)
    requires ValidText(a) && ValidText(b)
    ensures Apart(a, b) <==> !CidrsOverlap(a, b)
  {
    if a.Parsed? && b.Parsed? {
      OverlapIff(a.prefix, b.prefix);
      if Overlap(a.prefix, b.prefix) {
        var x :| ValidAddress(x) && Contains(a.prefix, x) && Contains(b.prefix, x);
        assert Covers(a, x) && Covers(b, x);
      }
    }
  }

  /** Each issue by what it says about the input and about single addresses. */
  lemma ReportedIff(input: Input, f: Facts, id: string)
    requires ValidInput(input) && ValidFacts(f)
    ensures Reports(input, f, ServiceOverlapsVpc) <==> !Apart(input.service, f.vpc)
    ensures Reports(input, f, ServiceOverlapsSubnet(id)) <==> id in f.subnets && !Apart(input.service, f.subnets[id])
    ensures Reports(input, f, ContainerOverlapsService) <==> input.mode != Eni && !Apart(input.container, input.service)
    ensures Reports(input, f, ContainerOverlapsVpc) <==> input.mode != Eni && !Apart(input.container, f.vpc)
    ensures Reports(input, f, ContainerOverlapsSubnet(id))
            <==> input.mode != Eni && id in f.subnets && !Apart(input.container, f.subnets[id])
    ensures Reports(input, f, NoSuchSubnet(id)) || Reports(input, f, NoSuchEniSubnet(id))
            <==> id in input.subnetIds + input.eniSubnetIds && id !in f.subnets
    ensures Reports(input, f, NoSuchEniSubnet(id)) ==> id in input.eniSubnetIds
    ensures Reports(input, f, NoSuchSubnet(id)) ==> id in input.subnetIds
    ensures Reports(input, f, NoEniSubnet) || Reports(input, f, TooManyEniSubnets)
            <==> input.mode == Eni && !(1 <= |input.eniSubnetIds| <= 20)
    ensures Reports(input, f, NoEniSubnet) ==> input.eniSubnetIds == []
    ensures Reports(input, f, TooManyEniSubnets) ==> input.eniSubnetIds != []
    ensures Reports(input, f, InvalidServiceCidr) <==> input.service == Malformed
    ensures Reports(input, f, InvalidContainerCidr) <==> input.container == Malformed
    ensures Reports(input, f, NoVpc) <==> f.vpc == Absent
    ensures Reports(input, f, SharedSubnet(id))
            <==> input.mode == Eni && id in multiset(input.eniSubnetIds) * multiset(input.subnetIds)
  {
    hide CidrsOverlap, Apart;
    ApartIff(input.service, f.vpc);
    ApartIff(input.container, input.service);
    ApartIff(input.container, f.vpc);
    if id in f.subnets {
      ApartIff(input.service, f.subnets[id]);
      ApartIff(input.container, f.subnets[id]);
    }
    AbsentContainer(input, f);
  }

  /**
   No hard issue is reported if and only if everything named exists, the counts are within limits, and
   no address is shared between ranges that must be apart.
   */
  lemma NoHardIssueIffSound(input: Input, f: Facts)
    requires ValidInput(input) && ValidFacts(f)
    ensures (forall issue :: Reports(input, f, issue) ==> IsWarning(issue)) <==> Sound(input, f)
  {
    hide CidrsOverlap, Apart;
    ApartIff(input.service, f.vpc);
    ApartIff(input.container, input.service);
    ApartIff(input.container, f.vpc);
    forall id | id in f.subnets
      ensures Apart(input.service, f.subnets[id]) <==> !CidrsOverlap(input.service, f.subnets[id])
      ensures Apart(input.container, f.subnets[id]) <==> !CidrsOverlap(input.container, f.subnets[id])
    {
      ApartIff(input.service, f.subnets[id]);
      ApartIff(input.container, f.subnets[id]);
    }
    AbsentContainer(input, f);
    if forall issue :: Reports(input, f, issue) ==> IsWarning(issue) {
      CleanReportIsSound(input, f);
    }
  }

  lemma AbsentContainer(input: Input, f: Facts)
    requires ValidInput(input) && ValidFacts(f)
    ensures input.container == Absent ==>
      && !CidrsOverlap(input.container, input.service) && !CidrsOverlap(input.container, f.vpc)
      && forall id :: id in f.subnets ==> !CidrsOverlap(input.container, f.subnets[id])
  {
  }

  lemma CleanReportIsSound(input: Input, f: Facts)
    requires ValidInput(input) && ValidFacts(f)
    requires forall issue :: Reports(input, f, issue) ==> IsWarning(issue)
    requires input.container == Absent ==>
      && !CidrsOverlap(input.container, input.service) && !CidrsOverlap(input.container, f.vpc)
      && forall id :: id in f.subnets ==> !CidrsOverlap(input.container, f.subnets[id])
    ensures input.service != Malformed && input.container != Malformed && f.vpc != Absent
    ensures forall id :: id in input.subnetIds || id in input.eniSubnetIds ==> id in f.subnets
    ensures input.mode == Eni ==> 1 <= |input.eniSubnetIds| <= MAX_ENI_SUBNETS
    ensures !CidrsOverlap(input.service, f.vpc)
    ensures forall id :: id in f.subnets ==> !CidrsOverlap(input.service, f.subnets[id])
    ensures input.mode != Eni ==>
      && !CidrsOverlap(input.container, input.service) && !CidrsOverlap(input.container, f.vpc)
      && forall id :: id in f.subnets ==> !CidrsOverlap(input.container, f.subnets[id])
  {
    hide CidrsOverlap;
    assert !Reports(input, f, InvalidServiceCidr) && !Reports(input, f, InvalidContainerCidr) && !Reports(input, f, NoVpc);
    assert !Reports(input, f, NoEniSubnet) && !Reports(input, f, TooManyEniSubnets);
    assert !Reports(input, f, ServiceOverlapsVpc) && !Reports(input, f, ContainerOverlapsVpc);
    assert !Reports(input, f, ContainerOverlapsService);
    forall id | id in input.subnetIds || id in input.eniSubnetIds ensures id in f.subnets {
      assert !Reports(input, f, NoSuchSubnet(id)) && !Reports(input, f, NoSuchEniSubnet(id));
    }
    forall id | id in f.subnets
      ensures !CidrsOverlap(input.service, f.subnets[id])
      ensures input.mode != Eni ==> !CidrsOverlap(input.container, f.subnets[id])
    {
      assert !Reports(input, f, ServiceOverlapsSubnet(id)) && !Reports(input, f, ContainerOverlapsSubnet(id));
    }
  }
}
