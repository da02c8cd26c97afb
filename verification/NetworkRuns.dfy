/**
 What whole passes, teardown attempts and runs of the managed-network service leave, as relations between clouds.
 */
module NetworkRuns {
  import opened Options
  import opened ManagedNetwork
  import opened NetworkPasses

  // ---------------------------------------------------------------- what a teardown may remove

  /** The gateways DeleteNetwork may delete: the recorded one, or, when only an EIP is recorded, one of that name. */
  ghost function GatewayTargets(c: Cloud, s: Spec, cluster: string): set<Id> {
    if NatResource(s).Some? then Opt(NatResource(s))
    else if NatEip(s).Some? then GatewaysNamed(c.gateways, cluster)
    else {}
  }

  /** The EIPs DeleteNetwork may release: the recorded one, or one on a SNAT rule of the recorded gateway. */
  ghost function EipTargets(c: Cloud, s: Spec): set<Id> {
    if NatEip(s).Some? then Opt(NatEip(s))
    else set k | k in c.rules && NatResource(s) == Some(c.rules[k].gateway) && c.rules[k].eip.Some? :: c.rules[k].eip.value
  }

  /** `b` is `a` without some of DeleteNetwork's targets. */
  ghost predicate DeletesOnlyTargets(a: Cloud, b: Cloud, s: Spec, cluster: string) {
    && a.next == b.next
    && Only(a.vpcs, b.vpcs, Opt(EffectiveVpc(s)))
    && Only(a.subnets, b.subnets, RecordedSubnets(s.subnets))
    && Only(a.gateways, b.gateways, GatewayTargets(a, s, cluster))
    && Only(a.rules, b.rules, RulesOn(a.rules, GatewayTargets(a, s, cluster)))
    && b.eips <= a.eips && a.eips - b.eips <= EipTargets(a, s)
    && Only(a.groups, b.groups, Opt(GroupResource(s)))
  }

  lemma TargetsAreOurs(a: Cloud, s: Spec, cluster: string, made: Ids, adopted: Ids, k: Id)
    requires Provenance(s, Join(made, adopted)) && AdoptedOwned(a, adopted) && NoForeignGateway(a, cluster)
    requires k in GatewayTargets(a, s, cluster) && k in a.gateways
    ensures OurGateway(a, made, k)
  {
  }

  /** Whatever a teardown removes was made by the manager, carries the owned tag, is the VPC the user referenced, or
      hangs on a gateway of ours, as long as no other tenant's gateway has the managed name. */
  lemma TeardownStaysWithinOurs(a: Cloud, b: Cloud, s: Spec, cluster: string, made: Ids, adopted: Ids)
    requires DeletesOnlyTargets(a, b, s, cluster) && Provenance(s, Join(made, adopted))
    requires WellFormed(a) && AdoptedOwned(a, adopted) && NoForeignGateway(a, cluster)
    ensures RemovesOnlyOurs(a, b, made, adopted.eips, s.vpcID)
  {
    forall k | k in a.gateways && k !in b.gateways ensures OurGateway(a, made, k) {
      TargetsAreOurs(a, s, cluster, made, adopted, k);
    }
    forall k | k in a.rules && k !in b.rules ensures OurGateway(a, made, a.rules[k].gateway) {
      TargetsAreOurs(a, s, cluster, made, adopted, a.rules[k].gateway);
    }
    forall k | k in a.eips && k !in b.eips ensures k in made.eips || k in adopted.eips || OnOurRule(a, made, k) {
      assert k in a.eips - b.eips;
      if NatEip(s).None? {
        var r :| r in a.rules && NatResource(s) == Some(a.rules[r].gateway) && a.rules[r].eip == Some(k);
        TargetsAreOurs(a, s, cluster, made, adopted, a.rules[r].gateway);
      }
    }
  }

  // ---------------------------------------------------------------- logs of whole runs

  /** Before and after of a pass or of a teardown attempt. */
  type Act = (Cloud, Cloud)

  /** The state an act is preceded by: other tenants take it from there to the act's own start. */
  function StateBefore(log: seq<Act>, start: Cloud, i: nat): Cloud
    requires i <= |log|
  {
    if i == 0 then start else log[i - 1].1
  }

  ghost predicate Chained(log: seq<Act>, start: Cloud, others: (nat, Cloud) -> Cloud) {
    forall i | 0 <= i < |log| :: log[i].0 == others(i, StateBefore(log, start, i))
  }

  lemma ChainGrows(log: seq<Act>, start: Cloud, others: (nat, Cloud) -> Cloud, act: Act)
    requires Chained(log, start, others) && act.0 == others(|log|, StateBefore(log, start, |log|))
    ensures Chained(log + [act], start, others)
    ensures StateBefore(log + [act], start, |log| + 1) == act.1
  {
    var longer := log + [act];
    forall i | 0 <= i < |longer| ensures longer[i].0 == others(i, StateBefore(longer, start, i)) {
      assert i < |log| ==> longer[i] == log[i];
      assert StateBefore(longer, start, i) == StateBefore(log, start, i);
    }
  }

  /** The act adds what the manager made, or removes only what is ours. */
  ghost predicate TouchesOnlyOurs(act: Act, made: Ids, learned: set<Id>, referenced: Option<Id>) {
    OnlyAdds(act.0, act.1, made) || RemovesOnlyOurs(act.0, act.1, made, learned, referenced)
  }

  ghost predicate AllTouchOnlyOurs(log: seq<Act>, made: Ids, learned: set<Id>, referenced: Option<Id>) {
    forall i | 0 <= i < |log| :: TouchesOnlyOurs(log[i], made, learned, referenced)
  }

  /** Each of the EIPs was seen on a rule of a gateway of ours after some act. */
  ghost predicate SeenOnOurRules(log: seq<Act>, made: Ids, eips: set<Id>) {
    forall k | k in eips :: SeenOnOurRule(log, made, k)
  }

  ghost predicate SeenOnOurRule(log: seq<Act>, made: Ids, eip: Id) {
    exists i :: 0 <= i < |log| && OnOurRule(log[i].1, made, eip)
  }

  lemma OnOurRuleGrows(c: Cloud, made: Ids, made': Ids, eip: Id)
    requires OnOurRule(c, made, eip) && Within(made, made')
    ensures OnOurRule(c, made', eip)
  {
  }

  lemma TouchesGrows(act: Act, made: Ids, made': Ids, learned: set<Id>, learned': set<Id>, referenced: Option<Id>)
    requires TouchesOnlyOurs(act, made, learned, referenced) && Within(made, made') && learned <= learned'
    ensures TouchesOnlyOurs(act, made', learned', referenced)
  {
  }

  /** One more act at the end, with all that was made and learned by then. */
  lemma LogGrows(
    log: seq<Act>, act: Act, made: Ids, made': Ids, known: set<Id>, learned: set<Id>, learned': set<Id>,
    referenced: Option<Id>)
    requires AllTouchOnlyOurs(log, made, learned, referenced) && SeenOnOurRules(log, made, learned - known)
    requires Within(made, made') && learned <= learned' && TouchesOnlyOurs(act, made', learned', referenced)
    requires forall k | k in learned' && k !in learned :: OnOurRule(act.1, made', k)
    ensures AllTouchOnlyOurs(log + [act], made', learned', referenced)
    ensures SeenOnOurRules(log + [act], made', learned' - known)
  {
    var longer := log + [act];
    hide TouchesOnlyOurs, OnOurRule;
    forall i | 0 <= i < |longer| ensures TouchesOnlyOurs(longer[i], made', learned', referenced) {
      if i < |log| { TouchesGrows(log[i], made, made', learned, learned', referenced); }
    }
    forall k | k in learned' - known ensures SeenOnOurRule(longer, made', k) {
      if k in learned {
        assert SeenOnOurRule(log, made, k);
        var i :| 0 <= i < |log| && OnOurRule(log[i].1, made, k);
        OnOurRuleGrows(log[i].1, made, made', k);
        assert longer[i] == log[i];
      } else {
        assert longer[|log|] == act;
      }
    }
  }

  lemma LearnedIsOnOurRule(c: Cloud, made: Ids, adopted: Ids, eip: Id)
    requires WellFormed(c) && AdoptedOwned(c, adopted) && OnRuleOf(c, made.gateways + adopted.gateways, eip)
    ensures OnOurRule(c, made, eip)
  {
  }

  // ---------------------------------------------------------------- what belongs to others

  /** Resources of others: not made, not tagged, not referenced; gateways of others and rules on those. */
  ghost predicate Foreign(c: Cloud, x: Ids, made: Ids, learned: set<Id>, referenced: Option<Id>) {
    && (forall k | k in x.vpcs :: k in c.vpcs && k !in made.vpcs && !c.vpcs[k].owned && referenced != Some(k))
    && (forall k | k in x.subnets :: k in c.subnets && k !in made.subnets && !c.subnets[k].owned)
    && (forall k | k in x.gateways :: k in c.gateways && k !in made.gateways && !c.gateways[k].owned)
    && (forall k | k in x.rules :: k in c.rules && c.rules[k].gateway in x.gateways)
    && (forall k | k in x.eips :: k in c.eips && k !in made.eips && k !in learned)
    && (forall k | k in x.groups :: k in c.groups && k !in made.groups && !c.groups[k].owned)
  }

  /** The resources are there after, as they were before. */
  ghost predicate Keeps(a: Cloud, b: Cloud, x: Ids) {
    && (forall k | k in x.vpcs && k in a.vpcs :: k in b.vpcs && b.vpcs[k] == a.vpcs[k])
    && (forall k | k in x.subnets && k in a.subnets :: k in b.subnets && b.subnets[k] == a.subnets[k])
    && (forall k | k in x.gateways && k in a.gateways :: k in b.gateways && b.gateways[k] == a.gateways[k])
    && (forall k | k in x.rules && k in a.rules :: k in b.rules && b.rules[k] == a.rules[k])
    && (forall k | k in x.eips && k in a.eips :: k in b.eips)
    && (forall k | k in x.groups && k in a.groups :: k in b.groups && b.groups[k] == a.groups[k])
  }

  ghost predicate OffOurRules(c: Cloud, made: Ids, eips: set<Id>) {
    forall k | k in eips :: !OnOurRule(c, made, k)
  }

  lemma ActKeepsForeign(act: Act, x: Ids, made: Ids, learned: set<Id>, referenced: Option<Id>)
    requires TouchesOnlyOurs(act, made, learned, referenced) && Foreign(act.0, x, made, learned, referenced)
    requires OffOurRules(act.0, made, x.eips)
    ensures Keeps(act.0, act.1, x)
  {
  }

  lemma KeptStaysForeign(a: Cloud, b: Cloud, x: Ids, made: Ids, learned: set<Id>, referenced: Option<Id>)
    requires Foreign(a, x, made, learned, referenced) && Keeps(a, b, x)
    ensures Foreign(b, x, made, learned, referenced)
  {
  }

  lemma KeepsTransitive(a: Cloud, b: Cloud, c: Cloud, x: Ids)
    requires Keeps(a, b, x) && Keeps(b, c, x)
    ensures Keeps(a, c, x)
  {
  }

  /** Over a whole run, VPCs, subnets, gateways, rules, EIPs and groups of others that the others leave alone are at the
      end as they were at the start, provided the EIPs are on no rule of ours when a pass or an attempt begins. */
  lemma {:induction false} ForeignStays(
    log: seq<Act>, start: Cloud, x: Ids, made: Ids, learned: set<Id>, referenced: Option<Id>)
    requires AllTouchOnlyOurs(log, made, learned, referenced) && Foreign(start, x, made, learned, referenced)
    requires forall i | 0 <= i < |log| ::
               Keeps(StateBefore(log, start, i), log[i].0, x) && OffOurRules(log[i].0, made, x.eips)
    ensures Keeps(start, StateBefore(log, start, |log|), x)
    decreases |log|
  {
    hide Foreign, Keeps, TouchesOnlyOurs, OffOurRules;
    if log == [] {
      KeepsItself(start, x);
    } else {
      var n := |log| - 1;
      var before := log[..n];
      forall i | 0 <= i < n ensures Keeps(StateBefore(before, start, i), before[i].0, x) && OffOurRules(before[i].0, made, x.eips) {
        assert before[i] == log[i] && StateBefore(before, start, i) == StateBefore(log, start, i);
      }
      ForeignStays(before, start, x, made, learned, referenced);
      var a := StateBefore(log, start, n);
      assert a == StateBefore(before, start, n);
      KeepsTransitive(start, a, log[n].0, x);
      KeptStaysForeign(start, log[n].0, x, made, learned, referenced);
      ActKeepsForeign(log[n], x, made, learned, referenced);
      KeepsTransitive(start, log[n].0, log[n].1, x);
    }
  }

  lemma KeepsItself(c: Cloud, x: Ids)
    ensures Keeps(c, c, x)
  {
  }

  // ---------------------------------------------------------------- what can be created

  /** Every subnet to be made has a free name and a CIDR, or its name is carried by owned ones only. */
  ghost predicate CanHaveSubnets(subnets: map<Id, Subnet>, vpc: Id, s: seq<SubnetSpec>, cluster: string) {
    s != [] && forall i | 0 <= i < |s| :: CanHaveSubnet(subnets, vpc, s[i], SubnetName(s[i], cluster, i))
  }

  ghost predicate CanHaveSubnet(subnets: map<Id, Subnet>, vpc: Id, s: SubnetSpec, name: string) {
    s.id.Some? || s.resource.Some?
    || (&& (forall k | k in subnets && subnets[k].vpc == vpc && subnets[k].name == name :: subnets[k].owned)
        && (s.hasCidr || exists k :: k in subnets && subnets[k] == Subnet(vpc, name, true)))
  }

  /** The recorded gateway is there; or no gateway of the name is somebody else's, and there is one or a node subnet to
      make one in. */
  ghost predicate CanHaveGateway(gateways: map<Id, Gateway>, recorded: Option<Id>, cluster: string, nodeSubnet: bool) {
    if recorded.Some? then recorded.value in gateways
    else
      && (forall k | k in gateways && gateways[k].name == GatewayName(cluster) :: gateways[k].owned)
      && (nodeSubnet || exists k :: k in gateways && gateways[k] == Gateway(GatewayName(cluster), true))
  }

  lemma NodeSubnetOnlyHelps(
    gateways: map<Id, Gateway>, recorded: Option<Id>, cluster: string, declared: bool, there: bool)
    requires declared ==> there
    ensures CanHaveGateway(gateways, recorded, cluster, declared) ==> CanHaveGateway(gateways, recorded, cluster, there)
  {
  }

  ghost predicate CanHaveGroup(groups: map<Id, Group>, vpc: Id, group: GroupSpec, cluster: string) {
    group.resource.Some?
    || forall k | k in groups && groups[k].vpc == vpc && groups[k].name == GroupName(group, cluster) :: groups[k].owned
  }

  ghost predicate NoForeignVpc(vpcs: map<Id, Vpc>, name: string) {
    forall k | k in vpcs && vpcs[k].name == name :: vpcs[k].owned
  }

  /** The VPCs a pass may end up with: the referenced or recorded one, one of the name, or a new one. */
  ghost function VpcChoices(c: Cloud, s: Spec, cluster: string): set<Id> {
    if s.vpcID.Some? then Opt(s.vpcID)
    else if s.vpcResource.Some? then Opt(s.vpcResource)
    else (set k | k in c.vpcs && c.vpcs[k] == Vpc(VpcName(s, cluster), true)) + {c.next}
  }

  /** A node subnet is declared: one the manager makes, for nodes. */
  ghost predicate DeclaresNodeSubnet(s: seq<SubnetSpec>) {
    exists i :: 0 <= i < |s| && s[i].id.None? && !s[i].eni
  }

  /** Nothing stands in the way of the whole network: no resource without the owned tag has a managed name, and what has to
      be made can be. */
  ghost predicate CanCreate(c: Cloud, s: Spec, cluster: string) {
    && (s.vpcID.None? && s.vpcResource.None? ==> NoForeignVpc(c.vpcs, VpcName(s, cluster)))
    && (s.natGateway.Some? ==> CanHaveGateway(c.gateways, NatResource(s), cluster, DeclaresNodeSubnet(Defaulted(s.subnets, cluster))))
    && forall vpc | vpc in VpcChoices(c, s, cluster) ::
         && CanHaveSubnets(c.subnets, vpc, Defaulted(s.subnets, cluster), cluster)
         && (s.group.Some? ==> CanHaveGroup(c.groups, vpc, s.group.value, cluster))
  }

  /** Where nothing is yet, a new spec can be created exactly when each subnet to be made has a CIDR and the NAT gateway,
      if one is asked for, has a node subnet. */
  lemma EmptyRegionCanCreateIff(c: Cloud, s: Spec, cluster: string)
    requires c.vpcs == map[] && c.subnets == map[] && c.gateways == map[] && c.groups == map[]
    requires s.vpcResource.None? && NatResource(s).None? && GroupResource(s).None? && RecordedSubnets(s.subnets) == {}
    ensures CanCreate(c, s, cluster) <==>
              && (forall i | 0 <= i < |s.subnets| :: s.subnets[i].id.Some? || s.subnets[i].hasCidr)
              && (s.natGateway.Some? ==> s.subnets == [] || DeclaresNodeSubnet(s.subnets))
  {
    var subnets := Defaulted(s.subnets, cluster);
    var vpc := if s.vpcID.Some? then s.vpcID.value else c.next;
    assert vpc in VpcChoices(c, s, cluster);
    assert forall i | 0 <= i < |s.subnets| :: s.subnets[i].resource.Some? ==> s.subnets[i].resource.value in RecordedSubnets(s.subnets);
    forall i | 0 <= i < |subnets|
      ensures CanHaveSubnet(c.subnets, vpc, subnets[i], SubnetName(subnets[i], cluster, i))
              <==> subnets[i].id.Some? || subnets[i].hasCidr
    {
      assert SubnetsNamed(c.subnets, vpc, SubnetName(subnets[i], cluster, i)) == {};
    }
    if s.subnets == [] { assert subnets[0].id.None? && !subnets[0].eni; }
  }

  /** A subnet there is already, one whose name is listed with the owned tag, or one of an unlisted name with a CIDR. */
  ghost predicate SubnetGoesWell(now: map<Id, Subnet>, listed: seq<Id>, vpc: Id, s: SubnetSpec, name: string) {
    || s.id.Some? || s.resource.Some?
    || (var found := First(listed, SubnetsNamed(now, vpc, name));
        if found.Some? then now[found.value].owned else s.hasCidr)
  }

  /** A listing of the VPC's subnets, still true after more of them were made, shows what a subnet needs. */
  lemma SubnetTurnGoesWell(
    c: Cloud, now: map<Id, Subnet>, vpc: Id, s: seq<SubnetSpec>, cluster: string, i: nat, listed: seq<Id>)
    requires i < |s| && CanHaveSubnets(c.subnets, vpc, s, cluster) && Stays(c.subnets, now)
    requires forall k :: k in listed <==> k in c.subnets && c.subnets[k].vpc == vpc
    ensures SubnetGoesWell(now, listed, vpc, s[i], SubnetName(s[i], cluster, i))
  {
    var name := SubnetName(s[i], cluster, i);
    var found := First(listed, SubnetsNamed(now, vpc, name));
    assert CanHaveSubnet(c.subnets, vpc, s[i], name);
    forall k | k in SubnetsNamed(c.subnets, vpc, name) ensures k in listed && k in SubnetsNamed(now, vpc, name) {
    }
    if found.Some? {
      assert found.value in SubnetsNamed(c.subnets, vpc, name);
    } else {
      assert SubnetsNamed(c.subnets, vpc, name) == {};
    }
  }

  /** What a turn for subnet `i` leaves alone. */
  lemma SubnetTurnLeavesTheRest(
    c: Cloud, made: Ids, s: Spec, cluster: string, i: nat, listed: seq<Id>, read: bool, created: bool)
    requires Core(c, made, s) && i < |s.subnets| && s.vpcResource.Some?
    ensures var t := SubnetTurn(c, made, s, cluster, i, listed, read, created);
            && t.cloud == c.(subnets := t.cloud.subnets, next := t.cloud.next) && Stays(c.subnets, t.cloud.subnets)
            && t.spec == s.(subnets := t.spec.subnets) && SameButResources(s.subnets, t.spec.subnets)
            && (forall j | 0 <= j < |s.subnets| && j != i :: t.spec.subnets[j] == s.subnets[j])
            && (t.ok ==> t.spec.subnets[i].id.Some? || t.spec.subnets[i].resource.Some?)
  {
  }

  /** What finding or making the gateway leaves alone. */
  lemma GatewayTurnLeavesTheRest(
    c: Cloud, made: Ids, s: Spec, cluster: string, listed: seq<Id>, read: bool, reply: EipReply, created: bool)
    requires s.natGateway.Some?
    ensures var t := GatewayTurn(c, made, s, cluster, listed, read, reply, created);
            && t.cloud.groups == c.groups && t.spec == s.(natGateway := t.spec.natGateway) && t.spec.natGateway.Some?
            && Opt(NatResource(s)) <= Opt(NatResource(t.spec)) && Opt(NatEip(s)) <= Opt(NatEip(t.spec))
            && (t.ok ==> NatResource(t.spec).Some?)
  {
  }

  lemma NodeSubnetIsThere(written: seq<SubnetSpec>, now: seq<SubnetSpec>)
    requires SameButResources(written, now) && DeclaresNodeSubnet(written)
    requires forall i | 0 <= i < |now| :: now[i].id.Some? || now[i].resource.Some?
    ensures HasNodeSubnet(now)
  {
    var i :| 0 <= i < |written| && written[i].id.None? && !written[i].eni;
    assert IsNodeSubnet(now[i]);
  }

  // ---------------------------------------------------------------- what a pass records

  /** Each subnet of the VPC was listed before the loop or carries the name of an earlier entry. */
  ghost predicate ListedOrEarlier(
    subnets: map<Id, Subnet>, listed: seq<Id>, vpc: Id, s: seq<SubnetSpec>, cluster: string, i: nat)
    requires i <= |s|
  {
    forall k | k in subnets && subnets[k].vpc == vpc ::
      k in listed || exists j :: 0 <= j < i && subnets[k].name == SubnetName(s[j], cluster, j)
  }

  /** A subnet created because the listing has none of its name is the only one of its name the manager made. */
  lemma TurnKeepsUnique(c: Cloud, made: Ids, s: Spec, t: Turn, vpcName: string, written: seq<SubnetSpec>,
                        cluster: string, i: nat, listed: seq<Id>, read: bool, created: bool)
    requires Core(c, made, s) && i < |s.subnets| == |written| && s.vpcResource.Some?
    requires s.subnets[i] == written[i] && t == SubnetTurn(c, made, s, cluster, i, listed, read, created)
    requires ListedOrEarlier(c.subnets, listed, s.vpcResource.value, written, cluster, i)
    ensures ListedOrEarlier(t.cloud.subnets, listed, s.vpcResource.value, written, cluster, i + 1)
    ensures NoDuplicates(c, made, vpcName) && DistinctNames(written, cluster) ==> NoDuplicates(t.cloud, t.made, vpcName)
  {
  }

  lemma DistinctNamesIgnoreResources(s: seq<SubnetSpec>, t: seq<SubnetSpec>, cluster: string)
    requires SameButResources(s, t)
    ensures DistinctNames(s, cluster) <==> DistinctNames(t, cluster)
  {
  }

  /** What is there before a step is there after it. */
  ghost predicate Stays<T>(a: map<Id, T>, b: map<Id, T>) {
    forall k | k in a :: k in b && b[k] == a[k]
  }

  ghost predicate HasRule(rules: map<Id, SnatRule>, gateway: Id, subnet: Id) {
    exists k :: k in rules && rules[k].gateway == gateway && rules[k].subnet == subnet
  }

  lemma OnlyAllOfThem(a: map<Id, SnatRule>, b: map<Id, SnatRule>, gateway: Id)
    requires Only(a, b, RulesOn(a, {gateway})) && RulesOn(b, {gateway}) == {}
    ensures b == a - RulesOn(a, {gateway})
  {
    assert forall k | k in b :: k !in RulesOn(b, {gateway});
  }

  /** Every managed node subnet has its SNAT rule on the recorded gateway. */
  ghost predicate SnatComplete(c: Cloud, s: Spec) {
    NatResource(s).Some? && forall i | 0 <= i < |s.subnets| && IsNodeSubnet(s.subnets[i]) ::
      HasRule(c.rules, NatResource(s).value, s.subnets[i].resource.value)
  }

  lemma SnatStaysComplete(c: Cloud, s: Spec, m: Ids, d: Ids, c': Cloud, s': Spec, m': Ids, d': Ids)
    requires SnatComplete(c, s) && Grew(c, m, d, c', m', d')
    requires s'.subnets == s.subnets && s'.natGateway == s.natGateway
    ensures SnatComplete(c', s')
  {
  }

  /** No two node subnets record the same subnet. */
  ghost predicate DistinctNodeSubnets(s: seq<SubnetSpec>) {
    forall i, j | 0 <= i < j < |s| && IsNodeSubnet(s[i]) && IsNodeSubnet(s[j]) :: s[i].resource != s[j].resource
  }

  /** The rules added are for the first `i` node subnets, on this gateway, with this EIP. */
  ghost predicate AddsRulesFor(
    a: map<Id, SnatRule>, b: map<Id, SnatRule>, gateway: Id, eip: Option<Id>, s: seq<SubnetSpec>, i: nat)
    requires i <= |s|
  {
    forall k | k in b && k !in a ::
      exists j :: 0 <= j < i && IsNodeSubnet(s[j]) && b[k] == SnatRule(gateway, s[j].resource.value, eip)
  }

  ghost predicate NoRuleTwice(a: map<Id, SnatRule>, b: map<Id, SnatRule>, gateway: Id) {
    forall n :: AtMostOneRule(a, gateway, n) ==> AtMostOneRule(b, gateway, n)
  }

  /** With every rule listed and the node subnets distinct, a turn gives no subnet a second rule. */
  lemma RuleTurnAddsNoneTwice(start: map<Id, SnatRule>, c: Cloud, made: Ids, s: Spec, i: nat, listed: seq<Id>, created: bool)
    requires WellFormed(c) && i < |s.subnets| && NatResource(s).Some?
    requires forall k | k in start :: k in c.rules && c.rules[k] == start[k]
    requires AddsRulesFor(start, c.rules, NatResource(s).value, NatEip(s), s.subnets, i)
    ensures var t := RuleTurn(c, made, s, i, listed, created);
            AddsRulesFor(start, t.cloud.rules, NatResource(s).value, NatEip(s), s.subnets, i + 1)
    ensures var t := RuleTurn(c, made, s, i, listed, created);
            (forall k | k in start && start[k].gateway == NatResource(s).value :: k in listed)
            && DistinctNodeSubnets(s.subnets) && NoRuleTwice(start, c.rules, NatResource(s).value)
            ==> NoRuleTwice(start, t.cloud.rules, NatResource(s).value)
  {
    var g := NatResource(s).value;
    var t := RuleTurn(c, made, s, i, listed, created);
    forall k | k in c.rules && k !in start
      ensures exists j :: 0 <= j < i + 1 && IsNodeSubnet(s.subnets[j])
                          && c.rules[k] == SnatRule(g, s.subnets[j].resource.value, NatEip(s))
    {
      var j :| 0 <= j < i && IsNodeSubnet(s.subnets[j]) && c.rules[k] == SnatRule(g, s.subnets[j].resource.value, NatEip(s));
    }
    if (forall k | k in start && start[k].gateway == g :: k in listed)
       && DistinctNodeSubnets(s.subnets) && NoRuleTwice(start, c.rules, g) && t.cloud != c
    {
      FirstRuleOfItsSubnet(start, c, s, i, listed);
      forall n | AtMostOneRule(start, g, n) ensures AtMostOneRule(t.cloud.rules, g, n) {
        assert AtMostOneRule(c.rules, g, n);
        if n != s.subnets[i].resource.value {
          assert RulesFor(t.cloud.rules, g, n) == RulesFor(c.rules, g, n);
        } else {
          assert RulesFor(t.cloud.rules, g, n) == {c.next};
        }
      }
    }
  }

  lemma FirstRuleOfItsSubnet(start: map<Id, SnatRule>, c: Cloud, s: Spec, i: nat, listed: seq<Id>)
    requires i < |s.subnets| && NatResource(s).Some? && IsNodeSubnet(s.subnets[i]) && DistinctNodeSubnets(s.subnets)
    requires forall k | k in start :: k in c.rules && c.rules[k] == start[k]
    requires AddsRulesFor(start, c.rules, NatResource(s).value, NatEip(s), s.subnets, i)
    requires forall k | k in start && start[k].gateway == NatResource(s).value :: k in listed
    requires First(listed, RulesFor(c.rules, NatResource(s).value, s.subnets[i].resource.value)).None?
    ensures RulesFor(c.rules, NatResource(s).value, s.subnets[i].resource.value) == {}
  {
  }

  /** A pass only writes the resource IDs and the default subnet. */
  ghost predicate SpecProgress(s: Spec, t: Spec, cluster: string) {
    && t == s.(vpcResource := t.vpcResource, subnets := t.subnets, natGateway := t.natGateway, group := t.group)
    && (t.subnets == s.subnets || SameButResources(Defaulted(s.subnets, cluster), t.subnets))
    && (s.vpcResource.Some? ==> t.vpcResource.Some?)
    && (s.natGateway.Some? <==> t.natGateway.Some?)
    && (s.group.Some? <==> t.group.Some?)
  }

  /** A subnet the user did not record is recorded now, under its name, in this VPC, with the owned tag. */
  ghost predicate NamedSubnet(subnets: map<Id, Subnet>, written: SubnetSpec, now: SubnetSpec, vpc: Id, name: string) {
    written.id.None? && written.resource.None? ==>
      now.resource.Some? && now.resource.value in subnets && subnets[now.resource.value] == Subnet(vpc, name, true)
  }

  ghost predicate NamedSubnets(
    subnets: map<Id, Subnet>, written: seq<SubnetSpec>, now: seq<SubnetSpec>, vpc: Id, cluster: string, n: nat)
  {
    n <= |written| == |now|
    && forall j | 0 <= j < n :: NamedSubnet(subnets, written[j], now[j], vpc, SubnetName(written[j], cluster, j))
  }

  lemma NamedSubnetsGrow(
    subnets: map<Id, Subnet>, subnets': map<Id, Subnet>, written: seq<SubnetSpec>, now: seq<SubnetSpec>,
    now': seq<SubnetSpec>, vpc: Id, cluster: string, n: nat)
    requires NamedSubnets(subnets, written, now, vpc, cluster, n) && Stays(subnets, subnets')
    requires |now'| == |now| && forall j | 0 <= j < n :: now'[j] == now[j]
    ensures NamedSubnets(subnets', written, now', vpc, cluster, n)
    ensures n < |now| && NamedSubnet(subnets', written[n], now'[n], vpc, SubnetName(written[n], cluster, n)) ==>
              NamedSubnets(subnets', written, now', vpc, cluster, n + 1)
  {
  }

  /** What a completed pass records where the user recorded nothing: owned resources under the managed names. */
  ghost predicate RecordsNamed(c: Cloud, written: Spec, s: Spec, cluster: string) {
    && s.vpcResource.Some? && s.vpcName == written.vpcName
    && (written.vpcResource.None? && written.vpcID.None? ==>
          s.vpcResource.value in c.vpcs && c.vpcs[s.vpcResource.value] == Vpc(VpcName(s, cluster), true))
    && NamedSubnets(c.subnets, Defaulted(written.subnets, cluster), s.subnets, s.vpcResource.value, cluster, |s.subnets|)
  }

  lemma RecordsNamedGrow(
    c: Cloud, m: Ids, d: Ids, c': Cloud, m': Ids, d': Ids, written: Spec, s: Spec, s': Spec, cluster: string)
    requires Grew(c, m, d, c', m', d') && RecordsNamed(c, written, s, cluster)
    requires s' == s.(natGateway := s'.natGateway, group := s'.group)
    ensures RecordsNamed(c', written, s', cluster)
  {
  }

  lemma VpcStays(c: Cloud, m: Ids, d: Ids, c': Cloud, m': Ids, d': Ids)
    requires Grew(c, m, d, c', m', d')
    ensures forall k | k in c.vpcs :: k in c'.vpcs && c'.vpcs[k] == c.vpcs[k]
  {
  }

  /** Nobody else puts this cluster's owned tag on a VPC or subnet of a managed name. */
  ghost predicate OnlyWeTag(c: Cloud, made: Ids, vpcName: string, vpc: Id) {
    && (forall k | k in c.vpcs && c.vpcs[k] == Vpc(vpcName, true) :: k in made.vpcs)
    && (forall k | k in c.subnets && c.subnets[k].vpc == vpc && c.subnets[k].owned :: k in made.subnets)
  }

  /** The recorded VPC is the one made VPC there is, and likewise each recorded subnet under its name. */
  ghost predicate RecordsExactly(c: Cloud, made: Ids, written: Spec, s: Spec, cluster: string) {
    var subnets := Defaulted(written.subnets, cluster);
    && s.vpcResource.Some? && |s.subnets| == |subnets|
    && (written.vpcResource.None? && written.vpcID.None? ==>
          forall k :: k in made.vpcs && k in c.vpcs <==> s.vpcResource == Some(k))
    && (forall j, k | 0 <= j < |subnets| && subnets[j].id.None? && subnets[j].resource.None? ::
          (k in made.subnets && k in c.subnets
           && c.subnets[k] == Subnet(s.vpcResource.value, SubnetName(subnets[j], cluster, j), true))
          <==> s.subnets[j].resource == Some(k))
  }

  lemma NamedAndUniqueIsExact(c: Cloud, made: Ids, written: Spec, s: Spec, cluster: string)
    requires RecordsNamed(c, written, s, cluster) && NoDuplicates(c, made, VpcName(s, cluster))
    requires OnlyWeTag(c, made, VpcName(s, cluster), s.vpcResource.value)
    ensures RecordsExactly(c, made, written, s, cluster)
  {
  }

  lemma NoHiddenVpc(c: Cloud, made: Ids, name: string, listed: seq<Id>)
    requires NoDuplicates(c, made, name) && ListsAll(listed, c.vpcs.Keys)
    ensures !HidesOurVpc(c, made, name, listed)
  {
  }

  /** Writing the default subnet, which has no ID yet, unbalances nothing. */
  lemma DefaultSubnetKeeps(c: Cloud, made: Ids, adopted: Ids, s: Spec, cluster: string)
    ensures var t := s.(subnets := Defaulted(s.subnets, cluster));
            && Moves(c, made, adopted, s, c, made, adopted, t)
            && (Unique(c, made, s, cluster) ==> Unique(c, made, t, cluster))
  {
  }

  ghost predicate VpcNamed(c: Cloud, name: string) {
    VpcsNamed(c.vpcs, name) != {}
  }

  ghost predicate OwnedVpcNamed(c: Cloud, name: string) {
    exists k :: k in c.vpcs && c.vpcs[k] == Vpc(name, true)
  }
}
