/**
 What each step of the managed-network service decides, as functions of the listings it is shown and of the answers
 its calls get; and what follows when a listing leaves something out, or when a look-up finds another tenant's resource.
 */
module NetworkPasses {
  import opened Options
  import opened ManagedNetwork

  // ---------------------------------------------------------------- listings

  /** Every look-up takes the first listed resource that matches. */
  function First(listed: seq<Id>, wanted: set<Id>): (r: Option<Id>)
    ensures r.None? <==> forall k | k in listed :: k !in wanted
    ensures r.Some? ==> r.value in listed && r.value in wanted
  {
    if listed == [] then None else if listed[0] in wanted then Some(listed[0]) else First(listed[1..], wanted)
  }

  /** A listing shows resources that exist, in any order. */
  ghost predicate Lists(listed: seq<Id>, ids: set<Id>) {
    forall k | k in listed :: k in ids
  }

  ghost predicate ListsAll(listed: seq<Id>, ids: set<Id>) {
    Lists(listed, ids) && forall k | k in ids :: k in listed
  }

  lemma {:induction false} SomeListing(ids: set<Id>) returns (listed: seq<Id>)
    ensures ListsAll(listed, ids)
    decreases ids
  {
    if ids == {} {
      listed := [];
    } else {
      var k :| k in ids;
      var rest := SomeListing(ids - {k});
      listed := [k] + rest;
    }
  }

  /** A listing may begin with any of its resources. */
  lemma ListingFrom(ids: set<Id>, k: Id) returns (listed: seq<Id>)
    requires k in ids
    ensures ListsAll(listed, ids) && listed != [] && listed[0] == k
  {
    var rest := SomeListing(ids);
    listed := [k] + rest;
  }

  function VpcsNamed(vpcs: map<Id, Vpc>, name: string): set<Id> {
    set k | k in vpcs && vpcs[k].name == name
  }

  function SubnetsNamed(subnets: map<Id, Subnet>, vpc: Id, name: string): set<Id> {
    set k | k in subnets && subnets[k].vpc == vpc && subnets[k].name == name
  }

  function GatewaysNamed(gateways: map<Id, Gateway>, cluster: string): set<Id> {
    set k | k in gateways && gateways[k].name == GatewayName(cluster)
  }

  function GroupsNamed(groups: map<Id, Group>, vpc: Id, name: string): set<Id> {
    set k | k in groups && groups[k].vpc == vpc && groups[k].name == name
  }

  function RulesOn(rules: map<Id, SnatRule>, gateways: set<Id>): set<Id> {
    set k | k in rules && rules[k].gateway in gateways
  }

  function RulesFor(rules: map<Id, SnatRule>, gateway: Id, subnet: Id): set<Id> {
    set k | k in rules && rules[k].gateway == gateway && rules[k].subnet == subnet
  }

  function CarryingRules(rules: map<Id, SnatRule>, gateway: Id): set<Id> {
    set k | k in rules && rules[k].gateway == gateway && rules[k].eip.Some?
  }

  // ---------------------------------------------------------------- creating

  datatype Turn = Turn(cloud: Cloud, made: Ids, spec: Spec, ok: bool)

  /** ensureVpc: `read` says the tags of a match could be read, `created` that a create call succeeds. */
  function VpcTurn(c: Cloud, made: Ids, s: Spec, cluster: string, listed: seq<Id>, read: bool, created: bool): Turn {
    if s.vpcResource.Some? then Turn(c, made, s, true)
    else
      var name := VpcName(s, cluster);
      var found := First(listed, VpcsNamed(c.vpcs, name));
      if found.Some? then
        if read && c.vpcs[found.value].owned then Turn(c, made, s.(vpcResource := found), true)
        else Turn(c, made, s, false)
      else if created then
        Turn(AddVpc(c, name), made.(vpcs := made.vpcs + {c.next}), s.(vpcResource := Some(c.next)), true)
      else Turn(c, made, s, false)
  }

  /** One turn of the loop of ensureSubnets. */
  function SubnetTurn(
    c: Cloud, made: Ids, s: Spec, cluster: string, i: nat, listed: seq<Id>, read: bool, created: bool): Turn
    requires i < |s.subnets| && s.vpcResource.Some?
  {
    if s.subnets[i].id.Some? || s.subnets[i].resource.Some? then Turn(c, made, s, true)
    else
      var name := SubnetName(s.subnets[i], cluster, i);
      var found := First(listed, SubnetsNamed(c.subnets, s.vpcResource.value, name));
      if found.Some? then
        if read && c.subnets[found.value].owned then Turn(c, made, RecordSubnetAt(s, i, found.value), true)
        else Turn(c, made, s, false)
      else if s.subnets[i].hasCidr && created then
        Turn(AddSubnet(c, s.vpcResource.value, name), made.(subnets := made.subnets + {c.next}),
             RecordSubnetAt(s, i, c.next), true)
      else Turn(c, made, s, false)
  }

  /** What became of a new EIP: never created; created, not tagged and released again; not tagged and not released;
      or tagged. */
  datatype EipReply = NotCreated | Released | Untagged | Tagged

  function EipTurn(c: Cloud, made: Ids, s: Spec, reply: EipReply): Turn
    requires s.natGateway.Some?
  {
    if NatEip(s).Some? then Turn(c, made, s, true)
    else
      var made' := made.(eips := made.eips + {c.next});
      match reply
      case NotCreated => Turn(c, made, s, false)
      case Released => Turn(c.(next := c.next + 1), made', s, false)
      case Untagged => Turn(AddEip(c), made', RecordNat(s, NatResource(s), Some(c.next)), false)
      case Tagged => Turn(AddEip(c), made', RecordNat(s, NatResource(s), Some(c.next)), true)
  }

  /** The part of ensureNatGateway that makes or finds the gateway. */
  function GatewayTurn(
    c: Cloud, made: Ids, s: Spec, cluster: string, listed: seq<Id>, read: bool, reply: EipReply, created: bool): Turn
    requires s.natGateway.Some?
  {
    if NatResource(s).Some? then Turn(c, made, s, true)
    else
      var found := First(listed, GatewaysNamed(c.gateways, cluster));
      if found.Some? then
        if read && c.gateways[found.value].owned then Turn(c, made, RecordNat(s, found, NatEip(s)), true)
        else Turn(c, made, s, false)
      else if !HasNodeSubnet(s.subnets) then Turn(c, made, s, false)
      else
        var t := EipTurn(c, made, s, reply);
        if t.ok && created then
          Turn(AddGateway(t.cloud, cluster), t.made.(gateways := t.made.gateways + {t.cloud.next}),
               RecordNat(t.spec, Some(t.cloud.next), NatEip(t.spec)), true)
        else t.(ok := false)
  }

  /** The EIP on the first listed rule of the gateway that carries one. */
  function RuleEip(rules: map<Id, SnatRule>, gateway: Id, listed: seq<Id>): (eip: Option<Id>)
    ensures eip.Some? ==> exists r :: r in listed && r in rules && rules[r].gateway == gateway && rules[r].eip == eip
  {
    var r := First(listed, CarryingRules(rules, gateway));
    if r.Some? then rules[r.value].eip else None
  }

  /** An EIP whose ID is not recorded is looked up on the gateway's rules; no tag is read. */
  function AdoptEip(rules: map<Id, SnatRule>, s: Spec, listed: seq<Id>): Spec {
    if NatResource(s).None? || NatEip(s).Some? then s
    else
      var eip := RuleEip(rules, NatResource(s).value, listed);
      if eip.Some? then RecordNat(s, NatResource(s), eip) else s
  }

  /** One turn of the loop of ensureSnatRules. */
  function RuleTurn(c: Cloud, made: Ids, s: Spec, i: nat, listed: seq<Id>, created: bool): Turn
    requires i < |s.subnets| && NatResource(s).Some?
  {
    if !IsNodeSubnet(s.subnets[i]) then Turn(c, made, s, true)
    else
      var gateway, subnet := NatResource(s).value, s.subnets[i].resource.value;
      if First(listed, RulesFor(c.rules, gateway, subnet)).Some? then Turn(c, made, s, true)
      else if created && gateway in c.gateways then
        Turn(AddRule(c, SnatRule(gateway, subnet, NatEip(s))), made.(rules := made.rules + {c.next}), s, true)
      else Turn(c, made, s, false)
  }

  /** ensureSecurityGroup: the group is created without tags. */
  function GroupTurn(c: Cloud, made: Ids, s: Spec, cluster: string, listed: seq<Id>, read: bool, created: bool): Turn
    requires s.group.Some? && s.vpcResource.Some?
  {
    if GroupResource(s).Some? then Turn(c, made, s, true)
    else
      var name := GroupName(s.group.value, cluster);
      var found := First(listed, GroupsNamed(c.groups, s.vpcResource.value, name));
      if found.Some? then
        if read && c.groups[found.value].owned then
          Turn(c, made, s.(group := Some(s.group.value.(resource := found))), true)
        else Turn(c, made, s, false)
      else if created then
        Turn(AddGroup(c, s.vpcResource.value, name), made.(groups := made.groups + {c.next}),
             s.(group := Some(s.group.value.(resource := Some(c.next)))), true)
      else Turn(c, made, s, false)
  }

  // ---------------------------------------------------------------- duplicates

  ghost predicate HidesOurVpc(c: Cloud, made: Ids, name: string, listed: seq<Id>) {
    First(listed, VpcsNamed(c.vpcs, name)).None? && !(made.vpcs !! c.vpcs.Keys)
  }

  /** The VPC is made a second time exactly when the create call succeeds and the listing, which shows no VPC of the
      name, hides the one the manager made. */
  lemma VpcIsDuplicatedIff(c: Cloud, made: Ids, s: Spec, cluster: string, listed: seq<Id>, read: bool, created: bool)
    requires WellFormed(c) && BelowNext(made, c.next) && NoDuplicates(c, made, VpcName(s, cluster))
    ensures var t := VpcTurn(c, made, s, cluster, listed, read, created);
            !NoDuplicates(t.cloud, t.made, VpcName(s, cluster))
            <==> s.vpcResource.None? && created && HidesOurVpc(c, made, VpcName(s, cluster), listed)
  {
  }

  datatype Answers = Answers(listed: seq<Id>, read: bool, created: bool)

  function LostTurn(c: Cloud, made: Ids, s: Spec, cluster: string, a: Answers): Turn {
    VpcTurn(c, made, s, cluster, a.listed, a.read, a.created)
  }

  /** Passes each of which starts from the spec as written, because the ID the one before recorded was lost. */
  function AfterLostPasses(c: Cloud, made: Ids, s: Spec, cluster: string, run: seq<Answers>): (r: (Cloud, Ids))
    decreases |run|
  {
    if run == [] then (c, made)
    else
      var t := LostTurn(c, made, s, cluster, run[0]);
      AfterLostPasses(t.cloud, t.made, s, cluster, run[1..])
  }

  ghost predicate SomePassHidesOurs(c: Cloud, made: Ids, s: Spec, cluster: string, run: seq<Answers>)
    decreases |run|
  {
    run != []
    && ((run[0].created && HidesOurVpc(c, made, VpcName(s, cluster), run[0].listed))
        || var t := LostTurn(c, made, s, cluster, run[0]);
           SomePassHidesOurs(t.cloud, t.made, s, cluster, run[1..]))
  }

  /** Over any number of passes that lose their IDs, the managed VPC is duplicated exactly when in one of them the
      listing hides it and the create call succeeds. */
  lemma {:induction false} LostPassesDuplicateIff(
    c: Cloud, made: Ids, s: Spec, cluster: string, run: seq<Answers>)
    requires WellFormed(c) && BelowNext(made, c.next) && NoDuplicates(c, made, VpcName(s, cluster))
    requires s.vpcResource.None?
    ensures var (c', made') := AfterLostPasses(c, made, s, cluster, run);
            !NoDuplicates(c', made', VpcName(s, cluster)) <==> SomePassHidesOurs(c, made, s, cluster, run)
    decreases |run|
  {
    if run != [] {
      var t := LostTurn(c, made, s, cluster, run[0]);
      VpcIsDuplicatedIff(c, made, s, cluster, run[0].listed, run[0].read, run[0].created);
      if NoDuplicates(t.cloud, t.made, VpcName(s, cluster)) {
        LostPassesDuplicateIff(t.cloud, t.made, s, cluster, run[1..]);
      } else {
        DuplicatesStay(t.cloud, t.made, s, cluster, run[1..]);
      }
    }
  }

  lemma {:induction false} DuplicatesStay(c: Cloud, made: Ids, s: Spec, cluster: string, run: seq<Answers>)
    requires WellFormed(c) && BelowNext(made, c.next) && !NoDuplicates(c, made, VpcName(s, cluster))
    ensures var (c', made') := AfterLostPasses(c, made, s, cluster, run);
            !NoDuplicates(c', made', VpcName(s, cluster))
    decreases |run|
  {
    if run != [] {
      var t := LostTurn(c, made, s, cluster, run[0]);
      assert !NoDuplicates(t.cloud, t.made, VpcName(s, cluster)) by {
        assert forall k | k in made.vpcs && k in c.vpcs :: k in t.made.vpcs && k in t.cloud.vpcs && t.cloud.vpcs[k] == c.vpcs[k];
      }
      DuplicatesStay(t.cloud, t.made, s, cluster, run[1..]);
    }
  }

  /** Two passes whose listing comes back empty, the first one's ID lost, make two VPCs, from any state. */
  lemma TwoSilentListingsMakeTwoVpcs(c: Cloud, made: Ids, s: Spec, cluster: string)
    requires WellFormed(c) && BelowNext(made, c.next) && s.vpcResource.None?
    ensures var (c', made') := AfterLostPasses(c, made, s, cluster, [Answers([], true, true), Answers([], true, true)]);
            !NoDuplicates(c', made', VpcName(s, cluster))
  {
  }

  /** The same for a subnet: its name in its VPC is given twice exactly when the listing, which shows no subnet of
      the name, hides the one the manager made. */
  lemma SubnetIsDuplicatedIff(
    c: Cloud, made: Ids, s: Spec, cluster: string, i: nat, vpcName: string, listed: seq<Id>, read: bool, created: bool)
    requires WellFormed(c) && BelowNext(made, c.next) && NoDuplicates(c, made, vpcName)
    requires i < |s.subnets| && s.vpcResource.Some?
    ensures var t := SubnetTurn(c, made, s, cluster, i, listed, read, created);
            !NoDuplicates(t.cloud, t.made, vpcName)
            <==> s.subnets[i].id.None? && s.subnets[i].resource.None? && s.subnets[i].hasCidr && created
                 && HidesOurSubnet(c, made, s.vpcResource.value, SubnetName(s.subnets[i], cluster, i), listed)
  {
  }

  ghost predicate HidesOurSubnet(c: Cloud, made: Ids, vpc: Id, name: string, listed: seq<Id>) {
    First(listed, SubnetsNamed(c.subnets, vpc, name)).None? && !NoSuchSubnet(made.subnets, c.subnets, vpc, name)
  }

  ghost predicate AtMostOneRule(rules: map<Id, SnatRule>, gateway: Id, subnet: Id) {
    forall a, b | a in RulesFor(rules, gateway, subnet) && b in RulesFor(rules, gateway, subnet) :: a == b
  }

  /** And for a SNAT rule: a subnet gets a second one exactly when the rule listing hides the one it has. */
  lemma RuleIsDuplicatedIff(c: Cloud, made: Ids, s: Spec, i: nat, listed: seq<Id>, created: bool)
    requires WellFormed(c) && i < |s.subnets| && NatResource(s).Some? && IsNodeSubnet(s.subnets[i])
    requires AtMostOneRule(c.rules, NatResource(s).value, s.subnets[i].resource.value)
    ensures var t := RuleTurn(c, made, s, i, listed, created);
            var rules := RulesFor(c.rules, NatResource(s).value, s.subnets[i].resource.value);
            !AtMostOneRule(t.cloud.rules, NatResource(s).value, s.subnets[i].resource.value)
            <==> created && rules != {} && First(listed, rules).None?
  {
    var gateway, subnet := NatResource(s).value, s.subnets[i].resource.value;
    var t := RuleTurn(c, made, s, i, listed, created);
    var rules := RulesFor(c.rules, gateway, subnet);
    if t.cloud != c {
      assert RulesFor(t.cloud.rules, gateway, subnet) == rules + {c.next};
      if rules != {} {
        var k :| k in rules;
        assert k != c.next;
      }
    }
  }

  /** A group whose recorded ID was lost is neither adopted again nor duplicated while the listing shows it and no group
      of its name is tagged: the pass that looks for it fails, whatever its calls answer. */
  lemma LostGroupIsRefused(
    c: Cloud, made: Ids, s: Spec, cluster: string, listed: seq<Id>, c': Cloud, listed': seq<Id>, read: bool, read': bool,
    created': bool)
    requires s.group.Some? && s.vpcResource.Some? && GroupResource(s).None?
    requires var t := GroupTurn(c, made, s, cluster, listed, read, true);
             t.cloud != c && c.next in c'.groups && c'.groups[c.next] == t.cloud.groups[c.next]
    requires ListsAll(listed', c'.groups.Keys)
    requires forall k | k in GroupsNamed(c'.groups, s.vpcResource.value, GroupName(s.group.value, cluster)) ::
               !c'.groups[k].owned
    ensures var t := GroupTurn(c, made, s, cluster, listed, read, true);
            GroupTurn(c', t.made, s, cluster, listed', read', created') == Turn(c', t.made, s, false)
  {
  }

  ghost function NamedLikeOurs(c: Cloud, s: Spec, cluster: string): set<Id>
    requires s.group.Some? && s.vpcResource.Some?
  {
    GroupsNamed(c.groups, s.vpcResource.value, GroupName(s.group.value, cluster))
  }

  /** With groups of the name there and their tags readable, a pass fails whatever the order of the listing exactly when
      none of them carries the owned tag: tagging one ends the refusal in some order. */
  lemma GroupIsRefusedIff(c: Cloud, made: Ids, s: Spec, cluster: string, created: bool)
    requires s.group.Some? && s.vpcResource.Some? && GroupResource(s).None? && NamedLikeOurs(c, s, cluster) != {}
    ensures (forall listed | ListsAll(listed, c.groups.Keys) :: !GroupTurn(c, made, s, cluster, listed, true, created).ok)
            <==> forall k | k in NamedLikeOurs(c, s, cluster) :: !c.groups[k].owned
  {
    var named := NamedLikeOurs(c, s, cluster);
    if k :| k in named && c.groups[k].owned {
      var listed := ListingFrom(c.groups.Keys, k);
      assert GroupTurn(c, made, s, cluster, listed, true, created).ok;
    } else {
      forall listed | ListsAll(listed, c.groups.Keys) ensures !GroupTurn(c, made, s, cluster, listed, true, created).ok {
        assert First(listed, named).Some?;
      }
    }
  }

  /** And it succeeds whatever the order exactly when each of them carries the tag; it never makes another one. */
  lemma GroupIsAdoptedIff(c: Cloud, made: Ids, s: Spec, cluster: string, created: bool)
    requires s.group.Some? && s.vpcResource.Some? && GroupResource(s).None? && NamedLikeOurs(c, s, cluster) != {}
    ensures (forall listed | ListsAll(listed, c.groups.Keys) :: GroupTurn(c, made, s, cluster, listed, true, created).ok)
            <==> forall k | k in NamedLikeOurs(c, s, cluster) :: c.groups[k].owned
    ensures forall listed | ListsAll(listed, c.groups.Keys) :: GroupTurn(c, made, s, cluster, listed, true, created).cloud == c
  {
    var named := NamedLikeOurs(c, s, cluster);
    forall listed | ListsAll(listed, c.groups.Keys) ensures First(listed, named).Some? {
    }
    if k :| k in named && !c.groups[k].owned {
      var listed := ListingFrom(c.groups.Keys, k);
      assert !GroupTurn(c, made, s, cluster, listed, true, created).ok;
    }
  }

  // ---------------------------------------------------------------- teardown

  /** The gateway DeleteNetwork deletes: the recorded one, or, when only an EIP is recorded, the first listed one of
      the name, whose tags are not read. */
  function TargetGateway(c: Cloud, s: Spec, cluster: string, gateways: seq<Id>): Option<Id> {
    if NatResource(s).Some? then NatResource(s)
    else if NatEip(s).Some? then First(gateways, GatewaysNamed(c.gateways, cluster))
    else None
  }

  /** The EIP it releases: the recorded one, or the one the recorded gateway's rules carry. */
  function TargetEip(c: Cloud, s: Spec, rules: seq<Id>): Option<Id> {
    NatEip(AdoptEip(c.rules, s, rules))
  }

  predicate IsTornDown(s: Spec) {
    !IsByo(s) && EffectiveVpc(s).Some?
  }

  /** What DeleteNetwork leaves when no call fails. */
  function AfterTeardown(c: Cloud, s: Spec, cluster: string, gateways: seq<Id>, rules: seq<Id>): Cloud {
    if !IsTornDown(s) then c
    else
      var gateway := Opt(TargetGateway(c, s, cluster, gateways));
      c.(rules := c.rules - RulesOn(c.rules, gateway),
         gateways := c.gateways - gateway,
         eips := c.eips - Opt(TargetEip(c, s, rules)),
         groups := c.groups - Opt(GroupResource(s)),
         subnets := c.subnets - RecordedSubnets(s.subnets),
         vpcs := c.vpcs - Opt(EffectiveVpc(s)))
  }

  /** Another tenant's gateway is deleted exactly when none is recorded, an EIP is, and the look-up by name returns
      that gateway. */
  lemma ForeignGatewayIsDeletedIff(
    c: Cloud, made: Ids, adopted: Ids, s: Spec, cluster: string, gateways: seq<Id>, rules: seq<Id>, k: Id)
    requires IsTornDown(s) && Provenance(s, Join(made, adopted)) && AdoptedOwned(c, adopted)
    requires k in c.gateways && !OurGateway(c, made, k)
    ensures k !in AfterTeardown(c, s, cluster, gateways, rules).gateways
            <==> NatResource(s).None? && NatEip(s).Some? && First(gateways, GatewaysNamed(c.gateways, cluster)) == Some(k)
  {
  }

  ghost predicate SparesForeignGateways(
    c: Cloud, made: Ids, s: Spec, cluster: string, gateways: seq<Id>, rules: seq<Id>)
  {
    forall k | k in c.gateways && k !in AfterTeardown(c, s, cluster, gateways, rules).gateways :: OurGateway(c, made, k)
  }

  /** Whatever the order of the gateway listing, a teardown deletes no gateway of others, exactly when one is recorded,
      no EIP is, or every gateway of the managed name is ours. */
  lemma GatewayByNameIsSafeIff(c: Cloud, made: Ids, adopted: Ids, s: Spec, cluster: string, rules: seq<Id>)
    requires IsTornDown(s) && Provenance(s, Join(made, adopted)) && AdoptedOwned(c, adopted)
    ensures (forall gateways | ListsAll(gateways, c.gateways.Keys) ::
               SparesForeignGateways(c, made, s, cluster, gateways, rules))
            <==> NatResource(s).Some? || NatEip(s).None?
                 || (forall k | k in GatewaysNamed(c.gateways, cluster) :: OurGateway(c, made, k))
  {
    var named := GatewaysNamed(c.gateways, cluster);
    if NatResource(s).None? && NatEip(s).Some? && exists k :: k in named && !OurGateway(c, made, k) {
      var k :| k in named && !OurGateway(c, made, k);
      var gateways := ListingFrom(c.gateways.Keys, k);
      ForeignGatewayIsDeletedIff(c, made, adopted, s, cluster, gateways, rules, k);
      assert ListsAll(gateways, c.gateways.Keys) && !SparesForeignGateways(c, made, s, cluster, gateways, rules);
    } else {
      forall gateways | ListsAll(gateways, c.gateways.Keys)
        ensures SparesForeignGateways(c, made, s, cluster, gateways, rules)
      {
        forall k | k in c.gateways && !OurGateway(c, made, k)
          ensures k in AfterTeardown(c, s, cluster, gateways, rules).gateways
        {
          ForeignGatewayIsDeletedIff(c, made, adopted, s, cluster, gateways, rules, k);
        }
      }
    }
  }

  function JoinedBy(c: Cloud, gateway: Gateway): Cloud {
    c.(gateways := c.gateways[c.next := gateway], next := c.next + 1)
  }

  /** That state is reached from any in which the gateway is still to be made: the EIP call succeeds, the gateway call
      fails, another tenant takes the name, and the next teardown deletes that tenant's gateway with its rules. */
  lemma AForeignGatewayIsDeleted(
    c: Cloud, made: Ids, s: Spec, cluster: string, listed: seq<Id>, read: bool, rules: seq<Id>, foreign: SnatRule)
    requires IsTornDown(s) && s.natGateway.Some? && NatResource(s).None? && NatEip(s).None? && HasNodeSubnet(s.subnets)
    requires First(listed, GatewaysNamed(c.gateways, cluster)).None?
    ensures var t := GatewayTurn(c, made, s, cluster, listed, read, Tagged, false);
            var taken := JoinedBy(t.cloud, Gateway(GatewayName(cluster), false));
            var used := AddRule(taken, foreign.(gateway := t.cloud.next));
            var after := AfterTeardown(used, t.spec, cluster, [t.cloud.next], rules);
            !t.ok && t.cloud.next !in after.gateways && taken.next !in after.rules
  {
  }

  /** Every rule of the gateway that carries a live EIP carries one the manager made. */
  ghost predicate RulesCarryOurs(c: Cloud, made: Ids, gateway: Id) {
    forall r | r in CarryingRules(c.rules, gateway) && c.rules[r].eip.value in c.eips :: c.rules[r].eip.value in made.eips
  }

  ghost predicate SparesForeignEips(
    c: Cloud, made: Ids, s: Spec, cluster: string, gateways: seq<Id>, rules: seq<Id>)
  {
    var recorded := AdoptEip(c.rules, s, rules);
    c.eips - AfterTeardown(c, recorded, cluster, gateways, rules).eips <= made.eips
  }

  /** A pass that looks up the EIP and a teardown after it release only EIPs the manager made, whatever the order of
      the rule listing, exactly when an EIP is recorded or the gateway's rules carry no other tenant's. */
  lemma EipByRuleIsSafeIff(c: Cloud, made: Ids, s: Spec, cluster: string, gateways: seq<Id>)
    requires IsTornDown(s) && NatResource(s).Some? && Opt(NatEip(s)) <= made.eips
    ensures (forall rules | ListsAll(rules, RulesOn(c.rules, {NatResource(s).value})) ::
               SparesForeignEips(c, made, s, cluster, gateways, rules))
            <==> NatEip(s).Some? || RulesCarryOurs(c, made, NatResource(s).value)
  {
    var g := NatResource(s).value;
    if NatEip(s).None? && !RulesCarryOurs(c, made, g) {
      var r :| r in CarryingRules(c.rules, g) && c.rules[r].eip.value in c.eips && c.rules[r].eip.value !in made.eips;
      var rules := ListingFrom(RulesOn(c.rules, {g}), r);
      assert First(rules, CarryingRules(c.rules, g)) == Some(r);
      assert c.rules[r].eip.value in c.eips - AfterTeardown(c, AdoptEip(c.rules, s, rules), cluster, gateways, rules).eips;
      assert ListsAll(rules, RulesOn(c.rules, {g})) && !SparesForeignEips(c, made, s, cluster, gateways, rules);
    } else {
      forall rules | ListsAll(rules, RulesOn(c.rules, {g})) ensures SparesForeignEips(c, made, s, cluster, gateways, rules) {
        assert c.eips - AfterTeardown(c, AdoptEip(c.rules, s, rules), cluster, gateways, rules).eips <= made.eips;
      }
    }
  }

  /** The unsafe state is reached from any in which the gateway is still to be made: a pass makes EIP and gateway, the
      user puts a rule with an own EIP on that gateway, and the recorded IDs are lost. The next pass finds the gateway
      again and takes the user's EIP for its own; a teardown then releases that one, and the EIP the manager made stays. */
  lemma AUsersEipIsReleased(
    c: Cloud, made: Ids, s: Spec, cluster: string, listed: seq<Id>, read: bool, subnet: Id, rest: seq<Id>,
    reply: EipReply, created: bool)
    requires IsTornDown(s) && s.natGateway.Some? && NatResource(s).None? && NatEip(s).None? && HasNodeSubnet(s.subnets)
    requires BelowNext(made, c.next) && First(listed, GatewaysNamed(c.gateways, cluster)).None?
    ensures var first := GatewayTurn(c, made, s, cluster, listed, read, Tagged, true);
            var (ours, gateway, users, rule) := (c.next, c.next + 1, c.next + 2, c.next + 3);
            var shared := AddRule(AddEip(first.cloud), SnatRule(gateway, subnet, Some(users)));
            var second := GatewayTurn(shared, first.made, s, cluster, [gateway], true, reply, created);
            var recorded := AdoptEip(second.cloud.rules, second.spec, [rule] + rest);
            var after := AfterTeardown(second.cloud, recorded, cluster, [gateway], [rule] + rest);
            && first.ok && second.ok && ours in second.made.eips && users !in second.made.eips
            && users in shared.eips && users !in after.eips && ours in after.eips && gateway !in after.gateways
  {
  }
}
