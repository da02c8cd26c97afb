/**
 What the managed-network service records, creates and removes, as values: the network section of a CCECluster
 spec, the cloud's network resources, and the claims relating the two.
 */
module ManagedNetwork {
  import opened Options

  type Id = nat

  /** `owned` says the resource carries this provider's owned tag for the cluster at hand. */
  datatype Vpc = Vpc(name: string, owned: bool)
  datatype Subnet = Subnet(vpc: Id, name: string, owned: bool)
  datatype Gateway = Gateway(name: string, owned: bool)
  datatype SnatRule = SnatRule(gateway: Id, subnet: Id, eip: Option<Id>)
  datatype Group = Group(vpc: Id, name: string, owned: bool)

  datatype Cloud = Cloud(
    vpcs: map<Id, Vpc>, subnets: map<Id, Subnet>, gateways: map<Id, Gateway>,
    rules: map<Id, SnatRule>, eips: set<Id>, groups: map<Id, Group>, next: Id)

  datatype SubnetSpec = SubnetSpec(id: Option<Id>, name: string, hasCidr: bool, eni: bool, resource: Option<Id>)
  datatype NatSpec = NatSpec(resource: Option<Id>, eip: Option<Id>)
  datatype GroupSpec = GroupSpec(name: string, resource: Option<Id>)

  datatype Spec = Spec(
    vpcID: Option<Id>, vpcTagOwned: bool, vpcName: string, hasCidr: bool, vpcResource: Option<Id>,
    subnets: seq<SubnetSpec>, natGateway: Option<NatSpec>, group: Option<GroupSpec>)

  /** IDs by kind of resource. */
  datatype Ids = Ids(vpcs: set<Id>, subnets: set<Id>, gateways: set<Id>, rules: set<Id>, eips: set<Id>, groups: set<Id>)

  function Opt(o: Option<Id>): set<Id> {
    if o.Some? then {o.value} else {}
  }

  predicate IsManaged(s: Spec): (managed: bool)
    ensures managed <==> !IsByo(s) && (EffectiveVpc(s).Some? || s.hasCidr)
  {
    if s.vpcID.None? then s.vpcResource.Some? || s.hasCidr else s.vpcTagOwned
  }

  /** A referenced VPC without the owned tag: never touched. */
  predicate IsByo(s: Spec) {
    s.vpcID.Some? && !s.vpcTagOwned
  }

  function EffectiveVpc(s: Spec): Option<Id> {
    if s.vpcResource.Some? then s.vpcResource else s.vpcID
  }

  function RecordedSubnets(s: seq<SubnetSpec>): set<Id> {
    set i | 0 <= i < |s| && s[i].resource.Some? :: s[i].resource.value
  }

  function NatResource(s: Spec): Option<Id> {
    if s.natGateway.Some? then s.natGateway.value.resource else None
  }

  function NatEip(s: Spec): Option<Id> {
    if s.natGateway.Some? then s.natGateway.value.eip else None
  }

  function GroupResource(s: Spec): Option<Id> {
    if s.group.Some? then s.group.value.resource else None
  }

  function Digits(n: nat): string {
    if n < 10 then ['0' + n as char] else Digits(n / 10) + ['0' + (n % 10) as char]
  }

  function VpcName(s: Spec, cluster: string): string {
    if s.vpcName == "" then cluster + "-vpc" else s.vpcName
  }

  function SubnetName(s: SubnetSpec, cluster: string, i: nat): string {
    if s.name == "" then cluster + "-subnet-" + Digits(i) else s.name
  }

  /** A spec without subnets stands for one default node subnet. */
  function Defaulted(s: seq<SubnetSpec>, cluster: string): seq<SubnetSpec> {
    if s == [] then [SubnetSpec(None, cluster + "-subnet-node", true, false, None)] else s
  }

  /** A managed node subnet: neither a reference nor an ENI subnet, and created. */
  predicate IsNodeSubnet(s: SubnetSpec) {
    s.id.None? && !s.eni && s.resource.Some?
  }

  predicate HasNodeSubnet(s: seq<SubnetSpec>) {
    exists i :: 0 <= i < |s| && IsNodeSubnet(s[i])
  }

  function GroupName(g: GroupSpec, cluster: string): string {
    if g.name == "" then cluster + "-node" else g.name
  }

  function GatewayName(cluster: string): string { cluster + "-nat" }

  // ---------------------------------------------------------------- the cloud

  ghost predicate Below(ids: set<Id>, next: Id) {
    forall k | k in ids :: k < next
  }

  ghost predicate RulesOnLiveGateways(rules: map<Id, SnatRule>, gateways: set<Id>) {
    forall k | k in rules :: rules[k].gateway in gateways
  }

  /** IDs are below the next one, and a SNAT rule lives on a live gateway. */
  ghost predicate WellFormed(c: Cloud) {
    && Below(c.vpcs.Keys, c.next) && Below(c.subnets.Keys, c.next) && Below(c.gateways.Keys, c.next)
    && Below(c.rules.Keys, c.next) && Below(c.eips, c.next) && Below(c.groups.Keys, c.next)
    && RulesOnLiveGateways(c.rules, c.gateways.Keys)
  }

  /** `b` is `a` without some of the keys in `may`. */
  ghost predicate Only<T>(a: map<Id, T>, b: map<Id, T>, may: set<Id>) {
    && (forall k | k in b :: k in a && b[k] == a[k])
    && (forall k | k in a && k !in may :: k in b)
  }

  ghost predicate OthersMay<T>(a: map<Id, T>, b: map<Id, T>, next: Id, next': Id) {
    forall k | k in b :: k < next' && (k in a || next <= k) && (k in a ==> b[k] == a[k])
  }

  /** What other tenants may do between passes: remove anything, add things under new IDs; but the name this
      cluster's gateway is looked up by stays with owned gateways if it was with those. */
  ghost predicate EnvMay(c: Cloud, c': Cloud, cluster: string) {
    && c.next <= c'.next && WellFormed(c')
    && OthersMay(c.vpcs, c'.vpcs, c.next, c'.next)
    && OthersMay(c.subnets, c'.subnets, c.next, c'.next)
    && OthersMay(c.gateways, c'.gateways, c.next, c'.next)
    && OthersMay(c.rules, c'.rules, c.next, c'.next)
    && (forall k | k in c'.eips :: k in c.eips || c.next <= k)
    && OthersMay(c.groups, c'.groups, c.next, c'.next)
    && (NoForeignGateway(c, cluster) ==> NoForeignGateway(c', cluster))
  }

  /** No gateway of another tenant carries the name this cluster's gateway is looked up by. */
  ghost predicate NoForeignGateway(c: Cloud, cluster: string) {
    forall k | k in c.gateways && c.gateways[k].name == GatewayName(cluster) :: c.gateways[k].owned
  }

  // ---------------------------------------------------------------- no leaks

  /** What was made and is still there is recorded. */
  ghost predicate Held(made: set<Id>, live: set<Id>, recorded: set<Id>) {
    forall k | k in made && k in live :: k in recorded
  }

  ghost predicate RulesHeld(made: set<Id>, rules: map<Id, SnatRule>, recorded: Option<Id>) {
    forall k | k in made && k in rules :: recorded == Some(rules[k].gateway)
  }

  /** Every resource the manager made that still exists is recorded in the spec, under a recorded VPC. */
  ghost predicate Accounted(c: Cloud, made: Ids, s: Spec) {
    && Held(made.vpcs, c.vpcs.Keys, Opt(s.vpcResource))
    && Held(made.subnets, c.subnets.Keys, RecordedSubnets(s.subnets))
    && Held(made.gateways, c.gateways.Keys, Opt(NatResource(s)))
    && RulesHeld(made.rules, c.rules, NatResource(s))
    && Held(made.eips, c.eips, Opt(NatEip(s)))
    && Held(made.groups, c.groups.Keys, Opt(GroupResource(s)))
    && (RecordedSubnets(s.subnets) != {} || NatResource(s).Some? || NatEip(s).Some? || GroupResource(s).Some?
        ==> s.vpcResource.Some?)
    && (s.vpcResource.Some? ==> !IsByo(s))
  }

  ghost predicate BelowNext(made: Ids, next: Id) {
    && Below(made.vpcs, next) && Below(made.subnets, next) && Below(made.gateways, next)
    && Below(made.rules, next) && Below(made.eips, next) && Below(made.groups, next)
  }

  /** Nothing the manager made is left. */
  ghost predicate NothingLeft(c: Cloud, made: Ids) {
    && made.vpcs !! c.vpcs.Keys && made.subnets !! c.subnets.Keys && made.gateways !! c.gateways.Keys
    && made.rules !! c.rules.Keys && made.eips !! c.eips && made.groups !! c.groups.Keys
  }

  lemma EnvKeepsAccounts(c: Cloud, c': Cloud, cluster: string, made: Ids, s: Spec)
    requires Accounted(c, made, s) && BelowNext(made, c.next) && EnvMay(c, c', cluster)
    ensures Accounted(c', made, s) && BelowNext(made, c'.next)
  {
  }

  /** Recording a new ID at a position that had none adds exactly that ID. */
  lemma RecordSubnet(s: seq<SubnetSpec>, i: nat, id: Id)
    requires i < |s| && s[i].resource.None?
    ensures RecordedSubnets(s[i := s[i].(resource := Some(id))]) == RecordedSubnets(s) + {id}
  {
    var t := s[i := s[i].(resource := Some(id))];
    forall k | k in RecordedSubnets(s) + {id} ensures k in RecordedSubnets(t) {
      if k in RecordedSubnets(s) {
        var j :| 0 <= j < |s| && s[j].resource.Some? && s[j].resource.value == k;
        assert t[j] == s[j];
      } else {
        assert t[i].resource == Some(id);
      }
    }
    forall k | k in RecordedSubnets(t) ensures k in RecordedSubnets(s) + {id} {
      var j :| 0 <= j < |t| && t[j].resource.Some? && t[j].resource.value == k;
      if j != i { assert t[j] == s[j]; }
    }
  }

  /** What is accounted for disappears once everything recorded has. */
  lemma RecordedGoneMeansNothingLeft(c: Cloud, made: Ids, s: Spec)
    requires WellFormed(c) && Accounted(c, made, s)
    requires s.vpcResource.Some? ==> s.vpcResource.value !in c.vpcs
    requires RecordedSubnets(s.subnets) !! c.subnets.Keys
    requires NatResource(s).Some? ==> NatResource(s).value !in c.gateways
    requires NatEip(s).Some? ==> NatEip(s).value !in c.eips
    requires GroupResource(s).Some? ==> GroupResource(s).value !in c.groups
    ensures NothingLeft(c, made)
  {
  }

  // ---------------------------------------------------------------- provenance

  /** Every recorded ID was made, adopted, or referenced by the user. VPCs, subnets, gateways and groups are adopted
      after a check of the owned tag; an EIP found on a SNAT rule is adopted without one. */
  ghost predicate Provenance(s: Spec, mine: Ids) {
    && Opt(s.vpcResource) <= mine.vpcs + Opt(s.vpcID)
    && RecordedSubnets(s.subnets) <= mine.subnets
    && Opt(NatResource(s)) <= mine.gateways
    && Opt(NatEip(s)) <= mine.eips
    && Opt(GroupResource(s)) <= mine.groups
  }

  /** Whatever was adopted by name, and is still there, carries the owned tag. */
  ghost predicate AdoptedOwned(c: Cloud, adopted: Ids) {
    && Below(adopted.vpcs, c.next) && Below(adopted.subnets, c.next)
    && Below(adopted.gateways, c.next) && Below(adopted.groups, c.next)
    && (forall k | k in adopted.vpcs && k in c.vpcs :: c.vpcs[k].owned)
    && (forall k | k in adopted.subnets && k in c.subnets :: c.subnets[k].owned)
    && (forall k | k in adopted.gateways && k in c.gateways :: c.gateways[k].owned)
    && (forall k | k in adopted.groups && k in c.groups :: c.groups[k].owned)
  }

  lemma EnvKeepsAdoptedOwned(c: Cloud, c': Cloud, cluster: string, adopted: Ids)
    requires AdoptedOwned(c, adopted) && EnvMay(c, c', cluster)
    ensures AdoptedOwned(c', adopted)
  {
  }

  /** The gateway was made by the manager or carries the owned tag. */
  predicate OurGateway(c: Cloud, made: Ids, gateway: Id) {
    gateway in made.gateways || (gateway in c.gateways && c.gateways[gateway].owned)
  }

  ghost predicate OnOurRule(c: Cloud, made: Ids, eip: Id) {
    exists r :: r in c.rules && c.rules[r].eip == Some(eip) && OurGateway(c, made, c.rules[r].gateway)
  }

  /** From `a` to `b` nothing is added, and nothing is removed but what was made, carries the owned tag, is the VPC
      the user referenced, sits on a gateway of ours, or is an EIP that a rule of such a gateway carries or led to. */
  ghost predicate RemovesOnlyOurs(a: Cloud, b: Cloud, made: Ids, ruleEips: set<Id>, referenced: Option<Id>) {
    && (forall k | k in b.vpcs :: k in a.vpcs && b.vpcs[k] == a.vpcs[k])
    && (forall k | k in a.vpcs && k !in b.vpcs :: k in made.vpcs || a.vpcs[k].owned || referenced == Some(k))
    && (forall k | k in b.subnets :: k in a.subnets && b.subnets[k] == a.subnets[k])
    && (forall k | k in a.subnets && k !in b.subnets :: k in made.subnets || a.subnets[k].owned)
    && (forall k | k in b.gateways :: k in a.gateways && b.gateways[k] == a.gateways[k])
    && (forall k | k in a.gateways && k !in b.gateways :: OurGateway(a, made, k))
    && (forall k | k in b.rules :: k in a.rules && b.rules[k] == a.rules[k])
    && (forall k | k in a.rules && k !in b.rules :: OurGateway(a, made, a.rules[k].gateway))
    && b.eips <= a.eips
    && (forall k | k in a.eips && k !in b.eips :: k in made.eips || k in ruleEips || OnOurRule(a, made, k))
    && (forall k | k in b.groups :: k in a.groups && b.groups[k] == a.groups[k])
    && (forall k | k in a.groups && k !in b.groups :: k in made.groups || a.groups[k].owned)
  }

  // ---------------------------------------------------------------- crash tolerance

  /** At most one VPC the manager made is alive, under the given name and with the owned tag. */
  ghost predicate OneVpc(made: set<Id>, vpcs: map<Id, Vpc>, name: string) {
    && (forall a | a in made && a in vpcs :: vpcs[a] == Vpc(name, true))
    && (forall a, b | a in made && a in vpcs && b in made && b in vpcs :: a == b)
  }

  /** In each VPC at most one subnet the manager made is alive per name. */
  ghost predicate OneSubnetPerName(made: set<Id>, subnets: map<Id, Subnet>) {
    && (forall a | a in made && a in subnets :: subnets[a].owned)
    && (forall a, b | a in made && a in subnets && b in made && b in subnets && subnets[a] == subnets[b] :: a == b)
  }

  ghost predicate NoDuplicates(c: Cloud, made: Ids, name: string) {
    OneVpc(made.vpcs, c.vpcs, name) && OneSubnetPerName(made.subnets, c.subnets)
  }

  function AddVpc(c: Cloud, name: string): Cloud {
    c.(vpcs := c.vpcs[c.next := Vpc(name, true)], next := c.next + 1)
  }

  function AddSubnet(c: Cloud, vpc: Id, name: string): Cloud {
    c.(subnets := c.subnets[c.next := Subnet(vpc, name, true)], next := c.next + 1)
  }

  ghost predicate NoSuchSubnet(made: set<Id>, subnets: map<Id, Subnet>, vpc: Id, name: string) {
    forall a | a in made && a in subnets :: subnets[a] != Subnet(vpc, name, true)
  }

  lemma EnvKeepsUnique(c: Cloud, c': Cloud, cluster: string, made: Ids, name: string)
    requires NoDuplicates(c, made, name) && BelowNext(made, c.next) && EnvMay(c, c', cluster)
    ensures NoDuplicates(c', made, name)
  {
  }

  // ---------------------------------------------------------------- what each write keeps

  /** Effective names are distinct, which is what re-discovery by name relies on. */
  ghost predicate DistinctNames(s: seq<SubnetSpec>, cluster: string) {
    forall i, j | 0 <= i < j < |s| :: SubnetName(s[i], cluster, i) != SubnetName(s[j], cluster, j)
  }

  /** A name the user gives is used as it is; left out, it starts with the cluster's. */
  lemma GivenNamesAreKept(s: Spec, subnet: SubnetSpec, group: GroupSpec, cluster: string, i: nat)
    ensures if s.vpcName != "" then VpcName(s, cluster) == s.vpcName else cluster + "-" <= VpcName(s, cluster)
    ensures if subnet.name != "" then SubnetName(subnet, cluster, i) == subnet.name
            else cluster + "-" <= SubnetName(subnet, cluster, i)
    ensures if group.name != "" then GroupName(group, cluster) == group.name else cluster + "-" <= GroupName(group, cluster)
  {
    assert cluster + "-subnet-" + Digits(i) == cluster + "-" + ("subnet-" + Digits(i));
    assert cluster + "-vpc" == cluster + "-" + "vpc" && cluster + "-node" == cluster + "-" + "node";
  }

  lemma {:induction false} DigitsDiffer(m: nat, n: nat)
    requires Digits(m) == Digits(n)
    ensures m == n
  {
    if m >= 10 && n >= 10 {
      assert Digits(m)[|Digits(m)| - 1] == Digits(n)[|Digits(n)| - 1];
      assert Digits(m)[..|Digits(m)| - 1] == Digits(m / 10) && Digits(n)[..|Digits(n)| - 1] == Digits(n / 10);
      DigitsDiffer(m / 10, n / 10);
    } else {
      DigitsAreSome(m / 10);
      DigitsAreSome(n / 10);
    }
  }

  lemma DigitsAreSome(n: nat)
    ensures |Digits(n)| >= 1
  {
  }

  /** Subnets without a name of their own never share one. */
  lemma UnnamedSubnetsAreDistinct(s: seq<SubnetSpec>, cluster: string)
    requires forall i | 0 <= i < |s| :: s[i].name == ""
    ensures DistinctNames(s, cluster)
  {
    forall i, j | 0 <= i < j < |s| ensures SubnetName(s[i], cluster, i) != SubnetName(s[j], cluster, j) {
      if SubnetName(s[i], cluster, i) == SubnetName(s[j], cluster, j) {
        var prefix := cluster + "-subnet-";
        assert SubnetName(s[i], cluster, i)[|prefix|..] == Digits(i) && SubnetName(s[j], cluster, j)[|prefix|..] == Digits(j);
        DigitsDiffer(i, j);
      }
    }
  }

  /** Only resource IDs are written, only where none was and no existing subnet is referenced. */
  ghost predicate SameButResources(s: seq<SubnetSpec>, t: seq<SubnetSpec>) {
    && |s| == |t|
    && forall i | 0 <= i < |s| ::
         && t[i] == s[i].(resource := t[i].resource)
         && (s[i].id.Some? || s[i].resource.Some? ==> t[i] == s[i])
  }

  ghost predicate Adds<T>(a: map<Id, T>, b: map<Id, T>, made: set<Id>, next: Id) {
    && (forall k | k in a :: k in b && b[k] == a[k])
    && (forall k | k in b && k !in a :: k in made && next <= k)
  }

  /** Nothing that was there is changed or removed, and what is new was made by the manager. */
  ghost predicate OnlyAdds(c: Cloud, c': Cloud, made: Ids) {
    && c.next <= c'.next
    && Adds(c.vpcs, c'.vpcs, made.vpcs, c.next) && Adds(c.subnets, c'.subnets, made.subnets, c.next)
    && Adds(c.gateways, c'.gateways, made.gateways, c.next) && Adds(c.rules, c'.rules, made.rules, c.next)
    && c.eips <= c'.eips && c'.eips - c.eips <= made.eips
    && Adds(c.groups, c'.groups, made.groups, c.next)
  }

  ghost predicate Within(a: Ids, b: Ids) {
    && a.vpcs <= b.vpcs && a.subnets <= b.subnets && a.gateways <= b.gateways
    && a.rules <= b.rules && a.eips <= b.eips && a.groups <= b.groups
  }

  function Join(a: Ids, b: Ids): Ids {
    Ids(a.vpcs + b.vpcs, a.subnets + b.subnets, a.gateways + b.gateways, a.rules + b.rules, a.eips + b.eips,
        a.groups + b.groups)
  }

  ghost predicate Core(c: Cloud, made: Ids, s: Spec) {
    WellFormed(c) && BelowNext(made, c.next) && (s.vpcID.Some? ==> made.vpcs == {})
  }

  /** Every ID the manager ever wrote is in the spec at hand. */
  ghost predicate Persisted(c: Cloud, made: Ids, adopted: Ids, s: Spec) {
    Accounted(c, made, s) && Provenance(s, Join(made, adopted))
  }

  ghost predicate Unique(c: Cloud, made: Ids, s: Spec, cluster: string) {
    DistinctNames(s.subnets, cluster) ==> NoDuplicates(c, made, VpcName(s, cluster))
  }

  ghost predicate NewSince(a: set<Id>, b: set<Id>, next: Id) {
    forall k | k in b && k !in a :: next <= k
  }

  /** An ID that joins `made` is new to the cloud. */
  ghost predicate MadeAnew(made: Ids, made': Ids, next: Id) {
    && NewSince(made.vpcs, made'.vpcs, next) && NewSince(made.subnets, made'.subnets, next)
    && NewSince(made.gateways, made'.gateways, next) && NewSince(made.rules, made'.rules, next)
    && NewSince(made.eips, made'.eips, next) && NewSince(made.groups, made'.groups, next)
  }

  ghost predicate OnRuleOf(c: Cloud, gateways: set<Id>, eip: Id) {
    exists r :: r in c.rules && c.rules[r].eip == Some(eip) && c.rules[r].gateway in gateways
  }

  /** What joins `adopted` is there and carries the owned tag; an EIP is on a rule of a gateway made or adopted. */
  ghost predicate AdoptsOwned(adopted: Ids, c': Cloud, made': Ids, adopted': Ids) {
    && (forall k | k in adopted'.vpcs && k !in adopted.vpcs :: k in c'.vpcs && c'.vpcs[k].owned)
    && (forall k | k in adopted'.subnets && k !in adopted.subnets :: k in c'.subnets && c'.subnets[k].owned)
    && (forall k | k in adopted'.gateways && k !in adopted.gateways :: k in c'.gateways && c'.gateways[k].owned)
    && (forall k | k in adopted'.groups && k !in adopted.groups :: k in c'.groups && c'.groups[k].owned)
    && (forall k | k in adopted'.eips && k !in adopted.eips :: OnRuleOf(c', made'.gateways + adopted'.gateways, k))
  }

  ghost predicate NewGatewaysOwned(a: map<Id, Gateway>, b: map<Id, Gateway>) {
    forall k | k in b && k !in a :: b[k].owned
  }

  /** A step only adds to the cloud, only what it made, and adopts only what carries the owned tag. */
  ghost predicate Grew(c: Cloud, made: Ids, adopted: Ids, c': Cloud, made': Ids, adopted': Ids) {
    && OnlyAdds(c, c', made') && Within(made, made') && Within(adopted, adopted')
    && MadeAnew(made, made', c.next) && AdoptsOwned(adopted, c', made', adopted')
    && NewGatewaysOwned(c.gateways, c'.gateways)
  }

  lemma AdoptsOwnedTransitive(d: Ids, b: Cloud, m': Ids, d': Ids, c: Cloud, m'': Ids, d'': Ids)
    requires AdoptsOwned(d, b, m', d') && Grew(b, m', d', c, m'', d'')
    ensures AdoptsOwned(d, c, m'', d'')
  {
    forall k | k in d''.eips && k !in d.eips ensures OnRuleOf(c, m''.gateways + d''.gateways, k) {
      if k in d'.eips {
        var r :| r in b.rules && b.rules[r].eip == Some(k) && b.rules[r].gateway in m'.gateways + d'.gateways;
        assert r in c.rules && c.rules[r] == b.rules[r];
      }
    }
  }

  lemma GrewTransitive(a: Cloud, m: Ids, d: Ids, b: Cloud, m': Ids, d': Ids, c: Cloud, m'': Ids, d'': Ids)
    requires Grew(a, m, d, b, m', d') && Grew(b, m', d', c, m'', d'')
    ensures Grew(a, m, d, c, m'', d'')
  {
    hide AdoptsOwned;
    AdoptsOwnedTransitive(d, b, m', d', c, m'', d'');
  }

  /** A pass leaves adopted resources owned, and the gateway's name with owned gateways. */
  lemma GrewKeepsAdoptedOwned(c: Cloud, m: Ids, d: Ids, c': Cloud, m': Ids, d': Ids, cluster: string)
    requires Grew(c, m, d, c', m', d') && WellFormed(c') && AdoptedOwned(c, d)
    ensures AdoptedOwned(c', d')
    ensures NoForeignGateway(c, cluster) ==> NoForeignGateway(c', cluster)
  {
  }

  /** What a reconcile step keeps. */
  ghost predicate Moves(c: Cloud, made: Ids, adopted: Ids, s: Spec, c': Cloud, made': Ids, adopted': Ids, s': Spec) {
    Grew(c, made, adopted, c', made', adopted') && (Persisted(c, made, adopted, s) ==> Persisted(c', made', adopted', s'))
  }

  lemma MovesTransitive(a: Cloud, m: Ids, d: Ids, s: Spec, b: Cloud, m': Ids, d': Ids, s': Spec,
                        c: Cloud, m'': Ids, d'': Ids, s'': Spec)
    requires Moves(a, m, d, s, b, m', d', s') && Moves(b, m', d', s', c, m'', d'', s'')
    ensures Moves(a, m, d, s, c, m'', d'', s'')
  {
    hide Grew, Persisted;
    GrewTransitive(a, m, d, b, m', d', c, m'', d'');
  }

  lemma StandingStillMoves(c: Cloud, made: Ids, adopted: Ids, s: Spec)
    ensures Moves(c, made, adopted, s, c, made, adopted, s)
  {
  }

  lemma MakeVpcKeeps(c: Cloud, made: Ids, adopted: Ids, s: Spec, name: string)
    requires Core(c, made, s) && s.vpcResource.None? && s.vpcID.None?
    ensures var (c', made', s') := (AddVpc(c, name), made.(vpcs := made.vpcs + {c.next}),
                                    s.(vpcResource := Some(c.next)));
            Core(c', made', s') && Moves(c, made, adopted, s, c', made', adopted, s')
  {
  }

  lemma AdoptVpcKeeps(c: Cloud, made: Ids, adopted: Ids, s: Spec, id: Id)
    requires s.vpcResource.None? && s.vpcID.None? && id in c.vpcs && c.vpcs[id].owned
    ensures Moves(c, made, adopted, s, c, made, adopted.(vpcs := adopted.vpcs + {id}), s.(vpcResource := Some(id)))
  {
  }

  function RecordSubnetAt(s: Spec, i: nat, id: Id): Spec
    requires i < |s.subnets|
  {
    s.(subnets := s.subnets[i := s.subnets[i].(resource := Some(id))])
  }

  lemma MakeSubnetKeeps(c: Cloud, made: Ids, adopted: Ids, s: Spec, i: nat, vpc: Id, name: string)
    requires Core(c, made, s) && i < |s.subnets| && s.subnets[i].resource.None? && s.vpcResource.Some?
    ensures var (c', made', s') := (AddSubnet(c, vpc, name), made.(subnets := made.subnets + {c.next}),
                                    RecordSubnetAt(s, i, c.next));
            Core(c', made', s') && Moves(c, made, adopted, s, c', made', adopted, s')
  {
    RecordSubnet(s.subnets, i, c.next);
  }

  lemma AdoptSubnetKeeps(c: Cloud, made: Ids, adopted: Ids, s: Spec, i: nat, id: Id)
    requires i < |s.subnets| && s.subnets[i].resource.None? && s.vpcResource.Some?
    requires id in c.subnets && c.subnets[id].owned
    ensures Moves(c, made, adopted, s, c, made, adopted.(subnets := adopted.subnets + {id}), RecordSubnetAt(s, i, id))
  {
    RecordSubnet(s.subnets, i, id);
  }

  function RecordNat(s: Spec, resource: Option<Id>, eip: Option<Id>): Spec {
    s.(natGateway := Some(NatSpec(resource, eip)))
  }

  function AddGateway(c: Cloud, cluster: string): Cloud {
    c.(gateways := c.gateways[c.next := Gateway(GatewayName(cluster), true)], next := c.next + 1)
  }

  function AddEip(c: Cloud): Cloud {
    c.(eips := c.eips + {c.next}, next := c.next + 1)
  }

  function AddRule(c: Cloud, rule: SnatRule): Cloud {
    c.(rules := c.rules[c.next := rule], next := c.next + 1)
  }

  function AddGroup(c: Cloud, vpc: Id, name: string): Cloud {
    c.(groups := c.groups[c.next := Group(vpc, name, false)], next := c.next + 1)
  }

  lemma MakeGatewayKeeps(c: Cloud, made: Ids, adopted: Ids, s: Spec, cluster: string)
    requires Core(c, made, s) && s.natGateway.Some? && NatResource(s).None? && s.vpcResource.Some?
    ensures var (c', made', s') := (AddGateway(c, cluster), made.(gateways := made.gateways + {c.next}),
                                    RecordNat(s, Some(c.next), NatEip(s)));
            Core(c', made', s') && Moves(c, made, adopted, s, c', made', adopted, s')
  {
  }

  lemma AdoptGatewayKeeps(c: Cloud, made: Ids, adopted: Ids, s: Spec, id: Id)
    requires s.natGateway.Some? && NatResource(s).None? && s.vpcResource.Some?
    requires id in c.gateways && c.gateways[id].owned
    ensures Moves(c, made, adopted, s, c, made, adopted.(gateways := adopted.gateways + {id}),
                  RecordNat(s, Some(id), NatEip(s)))
  {
  }

  lemma MakeEipKeeps(c: Cloud, made: Ids, adopted: Ids, s: Spec)
    requires Core(c, made, s) && s.natGateway.Some? && NatEip(s).None? && s.vpcResource.Some?
    ensures var (c', made', s') := (AddEip(c), made.(eips := made.eips + {c.next}),
                                    RecordNat(s, NatResource(s), Some(c.next)));
            Core(c', made', s') && Moves(c, made, adopted, s, c', made', adopted, s')
  {
  }

  /** An EIP that was made and released again. */
  lemma LoseEipKeeps(c: Cloud, made: Ids, adopted: Ids, s: Spec)
    requires Core(c, made, s)
    ensures var (c', made') := (c.(next := c.next + 1), made.(eips := made.eips + {c.next}));
            Core(c', made', s) && Moves(c, made, adopted, s, c', made', adopted, s)
  {
  }

  /** An EIP looked up on a rule of the recorded gateway; that gateway was made or adopted if the spec is complete. */
  lemma AdoptEipKeeps(c: Cloud, made: Ids, adopted: Ids, s: Spec, id: Id)
    requires NatEip(s).None? && s.vpcResource.Some? && OnRuleOf(c, Opt(NatResource(s)), id)
    ensures Moves(c, made, adopted, s, c, made,
                  if Opt(NatResource(s)) <= made.gateways + adopted.gateways then adopted.(eips := adopted.eips + {id})
                  else adopted,
                  RecordNat(s, NatResource(s), Some(id)))
  {
    if Opt(NatResource(s)) <= made.gateways + adopted.gateways {
      var r :| r in c.rules && c.rules[r].eip == Some(id) && c.rules[r].gateway in Opt(NatResource(s));
      assert c.rules[r].gateway in made.gateways + adopted.gateways;
    }
  }

  lemma MakeRuleKeeps(c: Cloud, made: Ids, adopted: Ids, s: Spec, rule: SnatRule)
    requires Core(c, made, s) && NatResource(s) == Some(rule.gateway) && rule.gateway in c.gateways
    ensures var (c', made') := (AddRule(c, rule), made.(rules := made.rules + {c.next}));
            Core(c', made', s) && Moves(c, made, adopted, s, c', made', adopted, s)
  {
  }

  lemma MakeGroupKeeps(c: Cloud, made: Ids, adopted: Ids, s: Spec, vpc: Id, name: string)
    requires Core(c, made, s) && s.group.Some? && GroupResource(s).None? && s.vpcResource.Some?
    ensures var (c', made', s') := (AddGroup(c, vpc, name), made.(groups := made.groups + {c.next}),
                                    s.(group := Some(s.group.value.(resource := Some(c.next)))));
            Core(c', made', s') && Moves(c, made, adopted, s, c', made', adopted, s')
  {
  }

  lemma AdoptGroupKeeps(c: Cloud, made: Ids, adopted: Ids, s: Spec, id: Id)
    requires s.group.Some? && GroupResource(s).None? && s.vpcResource.Some? && id in c.groups && c.groups[id].owned
    ensures Moves(c, made, adopted, s, c, made, adopted.(groups := adopted.groups + {id}),
                  s.(group := Some(s.group.value.(resource := Some(id)))))
  {
  }

  /** Removing resources never unbalances the accounts, and leaves adopted resources owned. */
  lemma RemovalKeepsPersisted(c: Cloud, c': Cloud, made: Ids, adopted: Ids, s: Spec)
    requires Core(c, made, s) && c'.next == c.next && WellFormed(c')
    requires Only(c.vpcs, c'.vpcs, c.vpcs.Keys) && Only(c.subnets, c'.subnets, c.subnets.Keys)
    requires Only(c.gateways, c'.gateways, c.gateways.Keys) && Only(c.rules, c'.rules, c.rules.Keys)
    requires c'.eips <= c.eips && Only(c.groups, c'.groups, c.groups.Keys)
    ensures Core(c', made, s) && (Persisted(c, made, adopted, s) ==> Persisted(c', made, adopted, s))
    ensures AdoptedOwned(c, adopted) ==> AdoptedOwned(c', adopted)
  {
  }
}
