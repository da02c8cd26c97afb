/**
 The managed-network service as it runs. The API methods fail or answer in any order at will (`*`), so each contract
 below holds whatever individual calls do. The manager records IDs in the spec in place.
 */
module NetworkManager {
  import opened Options
  import opened ManagedNetwork
  import opened NetworkPasses
  import opened NetworkRuns

  /** What a teardown attempt reports: one entry for each deletion that failed. */
  datatype Fault =
    | RulesLeft | GatewayLeft(id: Id) | EipLeft(id: Id) | GroupLeft(id: Id) | SubnetLeft(id: Id) | VpcLeft(id: Id)

  class Manager {
    const cluster: string
    const truthful: bool      // listings neither fail nor leave anything out
    const reliable: bool      // no teardown call fails, except where the platform refuses it
    const healthy: bool       // creations succeed, tags can be read, and a gateway that is there becomes active
    const extraTags: nat      // cluster-level tags stamped on top of the owned tag
    var spec: Spec
    var cloud: Cloud
    ghost var made: Ids
    ghost var adopted: Ids

    constructor (
      cluster: string, truthful: bool, reliable: bool, healthy: bool, extraTags: nat, spec: Spec, cloud: Cloud)
      requires WellFormed(cloud)
      requires spec.vpcResource.None? && RecordedSubnets(spec.subnets) == {}
      requires NatResource(spec).None? && NatEip(spec).None? && GroupResource(spec).None?
      ensures this.cluster == cluster && this.truthful == truthful && this.healthy == healthy
      ensures this.spec == spec && this.cloud == cloud
      ensures made == Ids({}, {}, {}, {}, {}, {})
      ensures Sound() && Complete() && AdoptedOwned(cloud, adopted) && (truthful ==> Duplicateless())
    {
      this.cluster, this.truthful, this.reliable, this.healthy := cluster, truthful, reliable, healthy;
      this.extraTags := extraTags;
      this.spec, this.cloud := spec, cloud;
      this.made, this.adopted := Ids({}, {}, {}, {}, {}, {}), Ids({}, {}, {}, {}, {}, {});
    }

    ghost predicate Sound()
      reads this
    {
      Core(cloud, made, spec)
    }

    ghost predicate Complete()
      reads this
    {
      Persisted(cloud, made, adopted, spec)
    }

    ghost predicate Duplicateless()
      reads this
    {
      truthful && Unique(cloud, made, spec, cluster)
    }

    /** What every reconcile step keeps, whatever calls fail in it. */
    twostate predicate Kept()
      reads this
    {
      Sound() && Moved() && (old(Duplicateless()) ==> Duplicateless())
    }

    twostate predicate Moved()
      reads this
    {
      Moves(old(cloud), old(made), old(adopted), old(spec), cloud, made, adopted, spec)
    }

    /** State and result as one value, as the steps in NetworkPasses return it. */
    ghost function Now(ok: bool): Turn
      reads this
    {
      Turn(cloud, made, spec, ok)
    }

    // ---- API calls

    /** A listing: in any order, and unless truthful any part of it, or all, may be missing. */
    method List(ids: set<Id>, whole: bool) returns (listed: seq<Id>)
      ensures Lists(listed, ids) && (whole ==> ListsAll(listed, ids))
    {
      var pending := ids;
      listed := [];
      while pending != {}
        invariant pending <= ids && Lists(listed, ids)
        invariant whole ==> forall k | k in ids :: k in pending || k in listed
        decreases pending
      {
        var k :| k in pending;
        pending := pending - {k};
        var hidden := *;
        if whole || !hidden { listed := listed + [k]; }
      }
    }

    method ListSnatRules(gateway: Id) returns (listed: seq<Id>)
      ensures Lists(listed, RulesOn(cloud.rules, {gateway}))
      ensures truthful || reliable ==> ListsAll(listed, RulesOn(cloud.rules, {gateway}))
    {
      listed := List(RulesOn(cloud.rules, {gateway}), truthful || reliable);
    }

    /** requireOwned: an unreadable tag list and a missing owned tag both refuse. */
    method RequireOwned(owned: bool) returns (ok: bool, ghost read: bool)
      ensures ok == (read && owned) && (healthy ==> read)
    {
      var answer := *;
      answer := answer || healthy;
      read := answer;
      ok := answer && owned;
    }

    /** Shows, then releases an EIP; NotFound is success. */
    method DeleteEip(id: Id) returns (ok: bool)
      modifies this`cloud
      ensures cloud == if ok then old(cloud).(eips := old(cloud).eips - {id}) else old(cloud)
      ensures reliable ==> ok
    {
      ok := *;
      ok := ok || reliable;
      if ok { cloud := cloud.(eips := cloud.eips - {id}); }
    }

    // ---- reconcile steps

    /** Creates the VPC or re-discovers it by name; a same-name VPC without the owned tag is refused, neither
        adopted nor duplicated. */
    method EnsureVpc() returns (ok: bool, ghost listed: seq<Id>, ghost read: bool, ghost created: bool)
      requires Sound() && spec.vpcID.None?
      modifies this`spec, this`cloud, this`made, this`adopted
      ensures Kept()
      ensures Lists(listed, old(cloud).vpcs.Keys)
      ensures truthful && old(spec).vpcResource.None? ==> ListsAll(listed, old(cloud).vpcs.Keys)
      ensures Now(ok) == VpcTurn(old(cloud), old(made), old(spec), cluster, listed, read, created)
      ensures ok && old(spec).vpcResource.None? ==>
                spec.vpcResource.value in cloud.vpcs
                && cloud.vpcs[spec.vpcResource.value] == Vpc(VpcName(spec, cluster), true)
      ensures healthy && NoForeignVpc(old(cloud).vpcs, VpcName(old(spec), cluster)) ==> ok
      ensures truthful && old(spec).vpcResource.None? && VpcNamed(old(cloud), VpcName(spec, cluster)) ==>
                cloud == old(cloud) && (ok ==> OwnedVpcNamed(cloud, VpcName(spec, cluster)))
    {
      hide Moves, Core, NoDuplicates;
      listed, read, created := [], false, false;
      if spec.vpcResource.Some? {
        StandingStillMoves(cloud, made, adopted, spec);
        return true, listed, read, created;
      }
      var name := VpcName(spec, cluster);
      var vpcs := List(cloud.vpcs.Keys, truthful);
      listed := vpcs;
      var found := First(vpcs, VpcsNamed(cloud.vpcs, name));
      if found.Some? {
        ok, read := RequireOwned(cloud.vpcs[found.value].owned);
        if ok {
          AdoptVpc(found.value);
        } else {
          StandingStillMoves(cloud, made, adopted, spec);
        }
        return;
      }
      ok := *;
      ok := ok || healthy;
      created := ok;
      if ok {
        CreateVpc(name, vpcs);
      } else {
        StandingStillMoves(cloud, made, adopted, spec);
      }
    }

    method AdoptVpc(id: Id)
      requires Sound() && spec.vpcID.None? && spec.vpcResource.None? && id in cloud.vpcs && cloud.vpcs[id].owned
      modifies this`spec, this`adopted
      ensures Kept() && spec == old(spec).(vpcResource := Some(id))
    {
      hide Moves;
      AdoptVpcKeeps(cloud, made, adopted, spec, id);
      adopted := adopted.(vpcs := adopted.vpcs + {id});
      spec := spec.(vpcResource := Some(id));
    }

    /** CreateVpc succeeded: its ID is recorded in the spec. */
    method CreateVpc(name: string, ghost listed: seq<Id>)
      requires Sound() && spec.vpcID.None? && spec.vpcResource.None? && name == VpcName(spec, cluster)
      requires First(listed, VpcsNamed(cloud.vpcs, name)).None? && (truthful ==> ListsAll(listed, cloud.vpcs.Keys))
      modifies this`spec, this`cloud, this`made
      ensures Kept()
      ensures cloud == AddVpc(old(cloud), name) && made == old(made).(vpcs := old(made).vpcs + {old(cloud).next})
      ensures spec == old(spec).(vpcResource := Some(old(cloud).next))
    {
      hide Moves, NoDuplicates;
      MakeVpcKeeps(cloud, made, adopted, spec, name);
      if NoDuplicates(cloud, made, name) {
        VpcIsDuplicatedIff(cloud, made, spec, cluster, listed, true, true);
        if truthful { NoHiddenVpc(cloud, made, name, listed); }
      }
      spec := spec.(vpcResource := Some(cloud.next));
      made := made.(vpcs := made.vpcs + {cloud.next});
      cloud := AddVpc(cloud, name);
    }

    /** A spec without subnets gets one default node subnet. */
    method EnsureDefaultSubnet()
      modifies this`spec
      ensures spec == old(spec).(subnets := Defaulted(old(spec).subnets, cluster))
    {
      if spec.subnets == [] {
        spec := spec.(subnets := [SubnetSpec(None, cluster + "-subnet-node", true, false, None)]);
      }
    }

    /** BYO is a no-op, an adopted VPC is referenced, a managed one ensured. */
    method ReconcileVpc() returns (ok: bool)
      requires Sound()
      modifies this`spec, this`cloud, this`made, this`adopted
      ensures Kept()
      ensures IsByo(old(spec)) ==> ok && spec == old(spec) && cloud == old(cloud)
      ensures ok && !IsByo(spec) ==> spec.vpcResource.Some? && spec.subnets == Defaulted(old(spec).subnets, cluster)
      ensures !ok ==> spec.subnets == old(spec).subnets
      ensures cloud == old(cloud).(vpcs := cloud.vpcs, next := cloud.next)
      ensures ok && !IsByo(spec) ==> spec.vpcResource.value in VpcChoices(old(cloud), old(spec), cluster)
      ensures old(spec).vpcID.Some? || old(spec).vpcResource.Some? ==> ok
      ensures healthy && NoForeignVpc(old(cloud).vpcs, VpcName(old(spec), cluster)) ==> ok
      ensures spec == old(spec).(vpcResource := spec.vpcResource, subnets := spec.subnets)
      ensures old(spec).vpcResource.Some? ==> spec.vpcResource.Some?
      ensures ok && old(spec).vpcResource.None? && old(spec).vpcID.None? ==>
                spec.vpcResource.value in cloud.vpcs
                && cloud.vpcs[spec.vpcResource.value] == Vpc(VpcName(spec, cluster), true)
    {
      if spec.vpcID.Some? {
        ReferenceVpc();
        return true;
      }
      hide NoDuplicates, Grew;
      var done, _, _, _ := EnsureVpc();
      ok := done;
      if ok {
        ghost var s := spec;
        EnsureDefaultSubnet();
        DefaultSubnetKeeps(cloud, made, adopted, s, cluster);
      }
    }

    method ReferenceVpc()
      requires Sound() && spec.vpcID.Some?
      modifies this`spec
      ensures Kept()
      ensures spec == if IsByo(old(spec)) then old(spec)
                      else old(spec).(vpcResource := old(spec).vpcID, subnets := Defaulted(old(spec).subnets, cluster))
    {
      if spec.vpcTagOwned {
        spec := spec.(vpcResource := spec.vpcID);
        EnsureDefaultSubnet();
      }
    }

    /** Creates subnet i or re-discovers it among the listed ones; a same-name subnet without the owned tag is
        refused. */
    method EnsureSubnet(i: nat, listed: seq<Id>) returns (ok: bool, ghost read: bool, ghost created: bool)
      requires Sound() && i < |spec.subnets| && spec.vpcResource.Some? && Lists(listed, cloud.subnets.Keys)
      modifies this`spec, this`cloud, this`made, this`adopted
      ensures Sound() && Moved()
      ensures Now(ok) == SubnetTurn(old(cloud), old(made), old(spec), cluster, i, listed, read, created)
      ensures ok ==> NamedSubnet(cloud.subnets, old(spec).subnets[i], spec.subnets[i], spec.vpcResource.value,
                                 SubnetName(old(spec).subnets[i], cluster, i))
      ensures healthy ==>
                (ok <==> SubnetGoesWell(old(cloud).subnets, listed, spec.vpcResource.value, old(spec).subnets[i],
                                        SubnetName(old(spec).subnets[i], cluster, i)))
    {
      hide Core, Moves;
      read, created := false, false;
      if spec.subnets[i].id.Some? || spec.subnets[i].resource.Some? {
        StandingStillMoves(cloud, made, adopted, spec);
        return true, read, created;
      }
      var name := SubnetName(spec.subnets[i], cluster, i);
      var found := First(listed, SubnetsNamed(cloud.subnets, spec.vpcResource.value, name));
      if found.Some? {
        ok, read := RequireOwned(cloud.subnets[found.value].owned);
        if ok {
          AdoptSubnet(i, found.value);
        } else {
          StandingStillMoves(cloud, made, adopted, spec);
        }
        return;
      }
      ok := *;
      ok := (ok || healthy) && spec.subnets[i].hasCidr;
      created := ok;
      if ok {
        CreateSubnet(i, name);
      } else {
        StandingStillMoves(cloud, made, adopted, spec);
      }
    }

    method AdoptSubnet(i: nat, id: Id)
      requires Sound() && i < |spec.subnets| && spec.subnets[i].resource.None? && spec.vpcResource.Some?
      requires id in cloud.subnets && cloud.subnets[id].owned
      modifies this`spec, this`adopted
      ensures Sound() && Moved() && spec == RecordSubnetAt(old(spec), i, id)
    {
      hide Moves;
      AdoptSubnetKeeps(cloud, made, adopted, spec, i, id);
      adopted := adopted.(subnets := adopted.subnets + {id});
      spec := RecordSubnetAt(spec, i, id);
    }

    /** CreateSubnet succeeded: its ID is recorded in the spec. */
    method CreateSubnet(i: nat, name: string)
      requires Sound() && i < |spec.subnets| && spec.subnets[i].resource.None? && spec.vpcResource.Some?
      modifies this`spec, this`cloud, this`made
      ensures Sound() && Moved() && spec == RecordSubnetAt(old(spec), i, old(cloud).next)
      ensures made == old(made).(subnets := old(made).subnets + {old(cloud).next})
      ensures cloud == AddSubnet(old(cloud), spec.vpcResource.value, name)
    {
      hide Moves;
      MakeSubnetKeeps(cloud, made, adopted, spec, i, spec.vpcResource.value, name);
      spec := RecordSubnetAt(spec, i, cloud.next);
      made := made.(subnets := made.subnets + {cloud.next});
      cloud := AddSubnet(cloud, spec.vpcResource.value, name);
    }

    /** Ensures every subnet that is not a reference to an existing one. */
    method EnsureSubnets() returns (ok: bool)
      requires Sound() && spec.vpcResource.Some?
      modifies this`spec, this`cloud, this`made, this`adopted
      ensures Kept()
      ensures spec == old(spec).(subnets := spec.subnets) && SameButResources(old(spec).subnets, spec.subnets)
      ensures old(spec).subnets == [] ==> !ok
      ensures cloud == old(cloud).(subnets := cloud.subnets, next := cloud.next)
      ensures healthy && truthful && CanHaveSubnets(old(cloud).subnets, spec.vpcResource.value, old(spec).subnets, cluster) ==> ok
      ensures ok ==> forall i | 0 <= i < |spec.subnets| :: spec.subnets[i].id.Some? || spec.subnets[i].resource.Some?
      ensures ok ==> NamedSubnets(cloud.subnets, old(spec).subnets, spec.subnets, spec.vpcResource.value, cluster,
                                  |spec.subnets|)
    {
      hide CanHaveSubnet;
      StandingStillMoves(cloud, made, adopted, spec);
      if spec.subnets == [] { return false; }
      var vpc := spec.vpcResource.value;
      var listed := List((set k | k in cloud.subnets && cloud.subnets[k].vpc == vpc), truthful);
      var i := 0;
      ok := true;
      assert SubnetsEnsured(spec, cloud, made, adopted, listed, 0, true);
      hide SubnetsEnsured, Core, Moves, CanHaveSubnets, NamedSubnets;
      while ok && i < |spec.subnets|
        invariant 0 <= i <= |spec.subnets| == |old(spec).subnets| && Sound()
        invariant SubnetsEnsured(old(spec), old(cloud), old(made), old(adopted), listed, i, ok)
      {
        ok := SubnetStep(i, listed, old(spec), old(cloud), old(made), old(adopted));
        i := i + 1;
      }
      AllSubnetsEnsured(old(spec), old(cloud), old(made), old(adopted), listed, i, ok);
    }

    /** How far the loop over the subnets has come from the given start. */
    ghost predicate SubnetsEnsured(written: Spec, c: Cloud, m: Ids, d: Ids, listed: seq<Id>, i: nat, ok: bool)
      reads this
    {
      && spec.vpcResource.Some? && i <= |spec.subnets|
      && Moves(c, m, d, written, cloud, made, adopted, spec)
      && Lists(listed, cloud.subnets.Keys)
      && (truthful ==> forall k :: k in listed <==> k in c.subnets && c.subnets[k].vpc == spec.vpcResource.value)
      && cloud == c.(subnets := cloud.subnets, next := cloud.next) && Stays(c.subnets, cloud.subnets)
      && (healthy && truthful && CanHaveSubnets(c.subnets, spec.vpcResource.value, written.subnets, cluster) ==> ok)
      && spec == written.(subnets := spec.subnets) && SameButResources(written.subnets, spec.subnets)
      && (forall j | i <= j < |spec.subnets| :: spec.subnets[j] == written.subnets[j])
      && (ok ==> forall j | 0 <= j < i :: spec.subnets[j].id.Some? || spec.subnets[j].resource.Some?)
      && (ok ==> NamedSubnets(cloud.subnets, written.subnets, spec.subnets, spec.vpcResource.value, cluster, i))
      && (truthful ==> ListedOrEarlier(cloud.subnets, listed, spec.vpcResource.value, written.subnets, cluster, i))
      && (truthful && NoDuplicates(c, m, VpcName(spec, cluster)) && DistinctNames(written.subnets, cluster) ==>
            NoDuplicates(cloud, made, VpcName(spec, cluster)))
    }

    method SubnetStep(i: nat, listed: seq<Id>, ghost written: Spec, ghost c: Cloud, ghost m: Ids, ghost d: Ids)
      returns (ok: bool)
      requires Sound() && i < |spec.subnets| && SubnetsEnsured(written, c, m, d, listed, i, true)
      modifies this`spec, this`cloud, this`made, this`adopted
      ensures Sound() && |spec.subnets| == |old(spec).subnets|
      ensures SubnetsEnsured(written, c, m, d, listed, i + 1, ok)
    {
      hide Moves, Core, NamedSubnet, NamedSubnets, NoDuplicates, DistinctNames, ListedOrEarlier, CanHaveSubnets, SubnetTurn,
           SubnetGoesWell;
      if healthy && truthful && CanHaveSubnets(c.subnets, spec.vpcResource.value, written.subnets, cluster) {
        SubnetTurnGoesWell(c, cloud.subnets, spec.vpcResource.value, written.subnets, cluster, i, listed);
      }
      ghost var read, created;
      ok, read, created := EnsureSubnet(i, listed);
      SubnetTurnLeavesTheRest(old(cloud), old(made), old(spec), cluster, i, listed, read, created);
      MovesTransitive(c, m, d, written, old(cloud), old(made), old(adopted), old(spec), cloud, made, adopted, spec);
      NamedSubnetsGrow(old(cloud).subnets, cloud.subnets, written.subnets, old(spec).subnets, spec.subnets,
                       spec.vpcResource.value, cluster, i);
      if truthful {
        TurnKeepsUnique(old(cloud), old(made), old(spec), Now(ok), VpcName(spec, cluster), written.subnets, cluster, i,
                        listed, read, created);
      }
    }

    lemma AllSubnetsEnsured(written: Spec, c: Cloud, m: Ids, d: Ids, listed: seq<Id>, i: nat, ok: bool)
      requires SubnetsEnsured(written, c, m, d, listed, i, ok) && (ok ==> i == |spec.subnets|)
      ensures Moves(c, m, d, written, cloud, made, adopted, spec)
      ensures spec == written.(subnets := spec.subnets) && SameButResources(written.subnets, spec.subnets)
      ensures cloud == c.(subnets := cloud.subnets, next := cloud.next)
      ensures healthy && truthful && CanHaveSubnets(c.subnets, spec.vpcResource.value, written.subnets, cluster) ==> ok
      ensures truthful && Unique(c, m, written, cluster) ==> Unique(cloud, made, spec, cluster)
      ensures ok ==> forall j | 0 <= j < |spec.subnets| :: spec.subnets[j].id.Some? || spec.subnets[j].resource.Some?
      ensures ok ==> NamedSubnets(cloud.subnets, written.subnets, spec.subnets, spec.vpcResource.value, cluster,
                                  |spec.subnets|)
    {
      hide Moves, NamedSubnets, NoDuplicates;
      DistinctNamesIgnoreResources(written.subnets, spec.subnets, cluster);
    }

    // ---- NAT gateway

    /** Creates an EIP and tags it. An EIP that cannot be tagged is deleted again; if that fails too, its ID is
        returned with the error. */
    method CreateEip() returns (id: Option<Id>, ok: bool, ghost reply: EipReply)
      requires Sound()
      modifies this`cloud, this`made
      ensures ok == reply.Tagged? && id == if reply.Untagged? || reply.Tagged? then Some(old(cloud).next) else None
      ensures (reliable ==> !reply.Untagged?) && (healthy ==> ok)
      ensures made == if reply.NotCreated? then old(made) else old(made).(eips := old(made).eips + {old(cloud).next})
      ensures cloud == match reply
                       case NotCreated => old(cloud)
                       case Released => old(cloud).(next := old(cloud).next + 1)
                       case Untagged => AddEip(old(cloud))
                       case Tagged => AddEip(old(cloud))
    {
      var failed := *;
      if failed && !healthy { return None, false, NotCreated; }
      var eip := cloud.next;
      cloud := AddEip(cloud);
      made := made.(eips := made.eips + {eip});
      for t := 0 to 1 + extraTags
        invariant cloud == AddEip(old(cloud)) && made == old(made).(eips := old(made).eips + {eip})
      {
        var tagged := *;
        if !tagged && !healthy {
          var gone := DeleteEip(eip);
          if gone {
            assert cloud.eips == old(cloud).eips;
            return None, false, Released;
          }
          return Some(eip), false, Untagged;
        }
      }
      return Some(eip), true, Tagged;
    }

    /** The EIP, its ID recorded even when tagging failed. */
    method EnsureEip() returns (ok: bool, ghost reply: EipReply)
      requires Sound() && spec.natGateway.Some? && spec.vpcResource.Some?
      modifies this`spec, this`cloud, this`made
      ensures Kept() && Now(ok) == EipTurn(old(cloud), old(made), old(spec), reply)
      ensures (ok <==> NatEip(old(spec)).Some? || reply.Tagged?) && (ok ==> NatEip(spec).Some?)
      ensures healthy ==> ok
    {
      hide Moves;
      reply := NotCreated;
      StandingStillMoves(cloud, made, adopted, spec);
      if NatEip(spec).Some? { return true, reply; }
      MakeEipKeeps(cloud, made, adopted, spec);
      LoseEipKeeps(cloud, made, adopted, spec);
      var id;
      id, ok, reply := CreateEip();
      if id.Some? { spec := RecordNat(spec, NatResource(spec), id); }
    }

    /** Adopts an owned gateway of the expected name, refuses one without the owned tag; else makes EIP and gateway,
        in this order. */
    method FindOrCreateGateway()
      returns (ok: bool, ghost listed: seq<Id>, ghost read: bool, ghost reply: EipReply, ghost created: bool)
      requires Sound() && spec.natGateway.Some? && spec.vpcResource.Some?
      modifies this`spec, this`cloud, this`made, this`adopted
      ensures Kept()
      ensures Lists(listed, old(cloud).gateways.Keys)
      ensures truthful && NatResource(old(spec)).None? ==> ListsAll(listed, old(cloud).gateways.Keys)
      ensures Now(ok) == GatewayTurn(old(cloud), old(made), old(spec), cluster, listed, read, reply, created)
      ensures ok && NatResource(old(spec)).None? ==>
                var id := NatResource(spec).value;
                id in cloud.gateways && cloud.gateways[id] == Gateway(GatewayName(cluster), true)
      ensures (exists k :: k in listed && k in old(cloud).gateways && old(cloud).gateways[k].name == GatewayName(cluster))
              ==> cloud == old(cloud)
      ensures healthy && truthful
              && CanHaveGateway(old(cloud).gateways, NatResource(old(spec)), cluster, HasNodeSubnet(old(spec).subnets)) ==>
                ok && NatResource(spec).value in cloud.gateways
    {
      hide Moves, Core;
      listed, read, reply, created := [], false, NotCreated, false;
      StandingStillMoves(cloud, made, adopted, spec);
      if NatResource(spec).Some? { return true, listed, read, reply, created; }
      var gateways := List(cloud.gateways.Keys, truthful);
      listed := gateways;
      var found := First(gateways, GatewaysNamed(cloud.gateways, cluster));
      if found.Some? {
        ok, read := RequireOwned(cloud.gateways[found.value].owned);
        if ok { AdoptGateway(found.value); }
        return;
      }
      if !HasNodeSubnet(spec.subnets) { return false, listed, read, reply, created; }
      ok, reply := EnsureEip();
      if !ok { return; }
      ghost var c, m, d, s := cloud, made, adopted, spec;
      ok := *;
      ok := ok || healthy;
      created := ok;
      if ok {
        CreateGateway();
        MovesTransitive(old(cloud), old(made), old(adopted), old(spec), c, m, d, s, cloud, made, adopted, spec);
      }
    }

    method AdoptGateway(id: Id)
      requires Sound() && spec.natGateway.Some? && NatResource(spec).None? && spec.vpcResource.Some?
      requires id in cloud.gateways && cloud.gateways[id].owned
      modifies this`spec, this`adopted
      ensures Kept() && spec == RecordNat(old(spec), Some(id), NatEip(old(spec)))
    {
      hide Moves;
      AdoptGatewayKeeps(cloud, made, adopted, spec, id);
      adopted := adopted.(gateways := adopted.gateways + {id});
      spec := RecordNat(spec, Some(id), NatEip(spec));
    }

    method CreateGateway()
      requires Sound() && spec.natGateway.Some? && NatResource(spec).None? && spec.vpcResource.Some?
      modifies this`spec, this`cloud, this`made
      ensures Kept() && cloud == AddGateway(old(cloud), cluster)
      ensures made == old(made).(gateways := old(made).gateways + {old(cloud).next})
      ensures spec == RecordNat(old(spec), Some(old(cloud).next), NatEip(old(spec)))
    {
      hide Moves;
      MakeGatewayKeeps(cloud, made, adopted, spec, cluster);
      spec := RecordNat(spec, Some(cloud.next), NatEip(spec));
      made := made.(gateways := made.gateways + {cloud.next});
      cloud := AddGateway(cloud, cluster);
    }

    /** An EIP that is not recorded is looked up on the gateway's rules and taken without a check of its tag. */
    method RediscoverEip() returns (ghost listed: seq<Id>)
      requires Sound() && spec.natGateway.Some? && NatResource(spec).Some? && spec.vpcResource.Some?
      modifies this`spec, this`adopted
      ensures Kept() && spec == AdoptEip(cloud.rules, old(spec), listed)
      ensures NatEip(old(spec)).None? && truthful ==> ListsAll(listed, RulesOn(cloud.rules, {NatResource(spec).value}))
    {
      hide Moves;
      listed := [];
      StandingStillMoves(cloud, made, adopted, spec);
      if NatEip(spec).None? {
        var rules := ListSnatRules(NatResource(spec).value);
        listed := rules;
        var eip := RuleEip(cloud.rules, NatResource(spec).value, rules);
        if eip.Some? {
          assert OnRuleOf(cloud, Opt(NatResource(spec)), eip.value);
          AdoptEipKeeps(cloud, made, adopted, spec, eip.value);
          if Opt(NatResource(spec)) <= made.gateways + adopted.gateways {
            adopted := adopted.(eips := adopted.eips + {eip.value});
          }
          spec := RecordNat(spec, NatResource(spec), eip);
        }
      }
    }

    /** One SNAT rule per managed node subnet; none gets a second one if the listing is truthful. */
    method EnsureSnatRules() returns (ok: bool)
      requires Sound() && NatResource(spec).Some?
      modifies this`cloud, this`made
      ensures Kept()
      ensures ok ==> SnatComplete(cloud, spec)
      ensures cloud == old(cloud).(rules := cloud.rules, next := cloud.next)
      ensures healthy && NatResource(spec).value in cloud.gateways ==> ok
      ensures AddsRulesFor(old(cloud).rules, cloud.rules, NatResource(spec).value, NatEip(spec), spec.subnets,
                           |spec.subnets|)
      ensures truthful && DistinctNodeSubnets(spec.subnets) ==>
                NoRuleTwice(old(cloud).rules, cloud.rules, NatResource(spec).value)
    {
      var gateway := NatResource(spec).value;
      StandingStillMoves(cloud, made, adopted, spec);
      var listed := ListSnatRules(gateway);
      var i := 0;
      ok := true;
      assert SnatEnsured(cloud, made, adopted, listed, 0, true);
      hide SnatEnsured, Moves, Core;
      while ok && i < |spec.subnets|
        invariant 0 <= i <= |spec.subnets| && Sound()
        invariant SnatEnsured(old(cloud), old(made), old(adopted), listed, i, ok)
      {
        ok := SnatStep(i, listed, old(cloud), old(made), old(adopted));
        i := i + 1;
      }
      AllSnatEnsured(old(cloud), old(made), old(adopted), listed, i, ok);
    }

    /** How far the loop over the rules has come from the given start. */
    ghost predicate SnatEnsured(c: Cloud, m: Ids, d: Ids, listed: seq<Id>, i: nat, ok: bool)
      reads this
    {
      && i <= |spec.subnets| && NatResource(spec).Some?
      && Moves(c, m, d, spec, cloud, made, adopted, spec)
      && cloud == c.(rules := cloud.rules, next := cloud.next) && made == m.(rules := made.rules)
      && (healthy && NatResource(spec).value in c.gateways ==> ok)
      && Lists(listed, c.rules.Keys)
      && (truthful ==> forall k | k in c.rules && c.rules[k].gateway == NatResource(spec).value :: k in listed)
      && (ok ==> forall j | 0 <= j < i && IsNodeSubnet(spec.subnets[j]) ::
                   HasRule(cloud.rules, NatResource(spec).value, spec.subnets[j].resource.value))
      && AddsRulesFor(c.rules, cloud.rules, NatResource(spec).value, NatEip(spec), spec.subnets, i)
      && (truthful && DistinctNodeSubnets(spec.subnets) ==>
            NoRuleTwice(c.rules, cloud.rules, NatResource(spec).value))
    }

    method SnatStep(i: nat, listed: seq<Id>, ghost c: Cloud, ghost m: Ids, ghost d: Ids) returns (ok: bool)
      requires Sound() && i < |spec.subnets| && SnatEnsured(c, m, d, listed, i, true)
      modifies this`cloud, this`made
      ensures Sound() && SnatEnsured(c, m, d, listed, i + 1, ok)
    {
      hide NoRuleTwice, AddsRulesFor, Persisted;
      ghost var created;
      ok, created := EnsureSnatRule(i, listed);
      RuleTurnAddsNoneTwice(c.rules, old(cloud), old(made), spec, i, listed, created);
      MovesTransitive(c, m, d, spec, old(cloud), old(made), old(adopted), spec, cloud, made, adopted, spec);
    }

    lemma AllSnatEnsured(c: Cloud, m: Ids, d: Ids, listed: seq<Id>, i: nat, ok: bool)
      requires SnatEnsured(c, m, d, listed, i, ok) && (ok ==> i == |spec.subnets|)
      ensures Moves(c, m, d, spec, cloud, made, adopted, spec)
      ensures truthful && Unique(c, m, spec, cluster) ==> Unique(cloud, made, spec, cluster)
      ensures ok ==> SnatComplete(cloud, spec)
      ensures cloud == c.(rules := cloud.rules, next := cloud.next)
      ensures healthy && NatResource(spec).value in c.gateways ==> ok
      ensures AddsRulesFor(c.rules, cloud.rules, NatResource(spec).value, NatEip(spec), spec.subnets, |spec.subnets|)
      ensures truthful && DistinctNodeSubnets(spec.subnets) ==>
                NoRuleTwice(c.rules, cloud.rules, NatResource(spec).value)
    {
      hide Moves, NoRuleTwice;
    }

    method EnsureSnatRule(i: nat, listed: seq<Id>) returns (ok: bool, ghost created: bool)
      requires Sound() && i < |spec.subnets| && NatResource(spec).Some? && Lists(listed, cloud.rules.Keys)
      modifies this`cloud, this`made
      ensures Sound() && Moved()
      ensures Now(ok) == RuleTurn(old(cloud), old(made), spec, i, listed, created)
      ensures Stays(old(cloud).rules, cloud.rules)
      ensures healthy && NatResource(spec).value in cloud.gateways ==> ok
      ensures spec.subnets[i].eni || spec.subnets[i].id.Some? ==> ok && cloud == old(cloud)
      ensures ok && IsNodeSubnet(spec.subnets[i]) ==>
                HasRule(cloud.rules, NatResource(spec).value, spec.subnets[i].resource.value)
    {
      hide Moves;
      created := false;
      StandingStillMoves(cloud, made, adopted, spec);
      var s, gateway := spec.subnets[i], NatResource(spec).value;
      if !IsNodeSubnet(s) { return true, created; }
      var existing := First(listed, RulesFor(cloud.rules, gateway, s.resource.value));
      if existing.Some? { return true, created; }
      ok := *;
      ok := (ok || healthy) && gateway in cloud.gateways;
      created := ok;
      if ok {
        var rule := SnatRule(gateway, s.resource.value, NatEip(spec));
        MakeRuleKeeps(cloud, made, adopted, spec, rule);
        made := made.(rules := made.rules + {cloud.next});
        cloud := AddRule(cloud, rule);
        assert old(cloud).next in RulesFor(cloud.rules, gateway, s.resource.value);
      }
    }

    /** Finds or makes the gateway, waits for it, adopts the EIP its rules carry when none is recorded, and adds
        missing rules. */
    method EnsureNatGateway() returns (ok: bool)
      requires Sound() && spec.natGateway.Some? && spec.vpcResource.Some?
      modifies this`spec, this`cloud, this`made, this`adopted
      ensures Kept()
      ensures spec == old(spec).(natGateway := spec.natGateway) && spec.natGateway.Some?
      ensures Opt(NatResource(old(spec))) <= Opt(NatResource(spec)) && Opt(NatEip(old(spec))) <= Opt(NatEip(spec))
      ensures ok ==> SnatComplete(cloud, spec)
      ensures cloud.groups == old(cloud).groups
      ensures (&& healthy && truthful
               && CanHaveGateway(old(cloud).gateways, NatResource(old(spec)), cluster, HasNodeSubnet(old(spec).subnets)))
              ==> ok
    {
      hide Moves, Core, SnatComplete, Unique, CanHaveGateway, HasNodeSubnet, NoRuleTwice, AddsRulesFor, ListsAll, RulesOn,
           DistinctNodeSubnets, First, GatewayTurn;
      ghost var listed, read, reply, created;
      ok, listed, read, reply, created := FindOrCreateGateway();
      GatewayTurnLeavesTheRest(old(cloud), old(made), old(spec), cluster, listed, read, reply, created);
      if !ok { return; }
      var active := *;
      active := active || (healthy && NatResource(spec).value in cloud.gateways);
      if !active { return false; }
      ghost var c, m, d, s := cloud, made, adopted, spec;
      var _ := RediscoverEip();
      MovesTransitive(old(cloud), old(made), old(adopted), old(spec), c, m, d, s, cloud, made, adopted, spec);
      c, m, d, s := cloud, made, adopted, spec;
      ok := EnsureSnatRules();
      MovesTransitive(old(cloud), old(made), old(adopted), old(spec), c, m, d, s, cloud, made, adopted, spec);
    }

    // ---- security group

    /** There are groups of the name in the VPC, and none of them carries the owned tag. */
    static ghost predicate ForeignGroupsOnly(groups: map<Id, Group>, vpc: Id, name: string) {
      && (exists k :: k in groups && groups[k] == Group(vpc, name, false))
      && (forall k :: k in groups ==> groups[k] != Group(vpc, name, true))
    }

    /** Created without tags; a same-name group without the owned tag is refused. */
    method EnsureSecurityGroup() returns (ok: bool, ghost listed: seq<Id>, ghost read: bool, ghost created: bool)
      requires Sound() && spec.group.Some? && spec.vpcResource.Some?
      modifies this`spec, this`cloud, this`made, this`adopted
      ensures Kept()
      ensures truthful && GroupResource(old(spec)).None? ==> ListsAll(listed, old(cloud).groups.Keys)
      ensures Now(ok) == GroupTurn(old(cloud), old(made), old(spec), cluster, listed, read, created)
      ensures ok && GroupResource(old(spec)).None? ==>
                var id := GroupResource(spec).value;
                && id in cloud.groups
                && cloud.groups[id] == Group(spec.vpcResource.value, GroupName(old(spec).group.value, cluster),
                                             id in old(cloud).groups)
                && (if id in old(cloud).groups then cloud == old(cloud) else id == old(cloud).next)
      ensures truthful && GroupResource(old(spec)).None?
              && ForeignGroupsOnly(old(cloud).groups, spec.vpcResource.value, GroupName(old(spec).group.value, cluster))
              ==> !ok && spec == old(spec) && cloud == old(cloud)
      ensures healthy && CanHaveGroup(old(cloud).groups, old(spec).vpcResource.value, old(spec).group.value, cluster) ==> ok
    {
      hide Moves;
      listed, read, created := [], false, false;
      StandingStillMoves(cloud, made, adopted, spec);
      if GroupResource(spec).Some? { return true, listed, read, created; }
      var group := spec.group.value;
      var name := GroupName(group, cluster);
      var groups := List(cloud.groups.Keys, truthful);
      listed := groups;
      var found := First(groups, GroupsNamed(cloud.groups, spec.vpcResource.value, name));
      if found.Some? {
        ok, read := RequireOwned(cloud.groups[found.value].owned);
        if ok {
          AdoptGroupKeeps(cloud, made, adopted, spec, found.value);
          adopted := adopted.(groups := adopted.groups + {found.value});
          spec := spec.(group := Some(group.(resource := found)));
        }
        return;
      }
      ok := *;
      ok := ok || healthy;
      created := ok;
      if ok {
        MakeGroupKeeps(cloud, made, adopted, spec, spec.vpcResource.value, name);
        spec := spec.(group := Some(group.(resource := Some(cloud.next))));
        made := made.(groups := made.groups + {cloud.next});
        cloud := AddGroup(cloud, spec.vpcResource.value, name);
      }
    }

    /** The optional NAT gateway, then the optional security group. */
    method ReconcileOptional() returns (ok: bool)
      requires Sound() && spec.vpcResource.Some?
      modifies this`spec, this`cloud, this`made, this`adopted
      ensures Kept()
      ensures spec == old(spec).(natGateway := spec.natGateway, group := spec.group)
      ensures (spec.natGateway.Some? <==> old(spec).natGateway.Some?) && (spec.group.Some? <==> old(spec).group.Some?)
      ensures ok ==> (spec.natGateway.Some? ==> SnatComplete(cloud, spec))
                     && (spec.group.Some? ==> GroupResource(spec).Some?)
      ensures (&& healthy && truthful
               && (spec.natGateway.Some? ==>
                     CanHaveGateway(old(cloud).gateways, NatResource(old(spec)), cluster, HasNodeSubnet(spec.subnets)))
               && (spec.group.Some? ==>
                     CanHaveGroup(old(cloud).groups, spec.vpcResource.value, old(spec).group.value, cluster)))
              ==> ok
    {
      hide Core, SnatComplete, Unique, Grew, Persisted, CanHaveGateway, CanHaveGroup;
      StandingStillMoves(cloud, made, adopted, spec);
      if spec.natGateway.Some? {
        ok := EnsureNatGateway();
        if !ok { return; }
      }
      ok := true;
      if spec.group.Some? {
        ghost var c, m, d, s := cloud, made, adopted, spec;
        var done, _, _, _ := EnsureSecurityGroup();
        ok := done;
        MovesTransitive(old(cloud), old(made), old(adopted), old(spec), c, m, d, s, cloud, made, adopted, spec);
        if SnatComplete(c, s) { SnatStaysComplete(c, s, m, d, cloud, spec, made, adopted); }
      }
    }

    /** VPC, subnets, then the optional NAT gateway and security group; stops at the first step that fails. */
    method ReconcileManagedNetwork() returns (ok: bool)
      requires Sound() && IsManaged(spec)
      modifies this`spec, this`cloud, this`made, this`adopted
      ensures Kept()
      ensures SpecProgress(old(spec), spec, cluster)
      ensures ok ==> RecordsNamed(cloud, old(spec), spec, cluster)
                     && (forall i | 0 <= i < |spec.subnets| :: spec.subnets[i].id.Some? || spec.subnets[i].resource.Some?)
                     && (spec.natGateway.Some? ==> SnatComplete(cloud, spec))
                     && (spec.group.Some? ==> GroupResource(spec).Some?)
      ensures healthy && truthful && CanCreate(old(cloud), old(spec), cluster) ==> ok
    {
      hide Grew, SnatComplete, NamedSubnets, Core, Persisted, Unique, CanHaveSubnets, CanHaveGateway, CanHaveGroup;
      ok := ReconcileVpc();
      if !ok { return; }
      ghost var c, m, d, s := cloud, made, adopted, spec;
      ok := EnsureSubnets();
      MovesTransitive(old(cloud), old(made), old(adopted), old(spec), c, m, d, s, cloud, made, adopted, spec);
      if !ok { return; }
      VpcStays(c, m, d, cloud, made, adopted);
      c, m, d, s := cloud, made, adopted, spec;
      assert RecordsNamed(cloud, old(spec), spec, cluster);
      if DeclaresNodeSubnet(Defaulted(old(spec).subnets, cluster)) {
        NodeSubnetIsThere(Defaulted(old(spec).subnets, cluster), spec.subnets);
      }
      NodeSubnetOnlyHelps(cloud.gateways, NatResource(spec), cluster,
                          DeclaresNodeSubnet(Defaulted(old(spec).subnets, cluster)), HasNodeSubnet(spec.subnets));
      ok := ReconcileOptional();
      MovesTransitive(old(cloud), old(made), old(adopted), old(spec), c, m, d, s, cloud, made, adopted, spec);
      RecordsNamedGrow(c, m, d, cloud, made, adopted, old(spec), s, spec, cluster);
    }

    // ---- teardown

    /** Shows, then deletes a gateway; the platform refuses one that still has rules. */
    method DeleteGateway(id: Id) returns (ok: bool)
      requires WellFormed(cloud)
      modifies this`cloud
      ensures WellFormed(cloud)
      ensures ok ==> id !in cloud.gateways
      ensures cloud == old(cloud) || cloud == old(cloud).(gateways := old(cloud).gateways - {id})
      ensures id in old(cloud).gateways && RulesOn(old(cloud).rules, {id}) != {} ==> !ok && cloud == old(cloud)
      ensures reliable && RulesOn(old(cloud).rules, {id}) == {} ==> ok
    {
      ok := *;
      ok := ok || reliable;
      if id in cloud.gateways {
        if RulesOn(cloud.rules, {id}) != {} { ok := false; }
        if ok {
          assert forall k | k in cloud.rules :: k !in RulesOn(cloud.rules, {id});
          cloud := cloud.(gateways := cloud.gateways - {id});
        }
      }
    }

    /** Deletes every listed rule of the gateway, stopping at the first failure. A listing that fails counts as "no
        rules": the gateway deletion that follows is then refused by the platform. */
    method DeleteSnatRules(gateway: Id) returns (ok: bool)
      requires WellFormed(cloud)
      modifies this`cloud
      ensures WellFormed(cloud) && cloud == old(cloud).(rules := cloud.rules)
      ensures Only(old(cloud).rules, cloud.rules, RulesOn(old(cloud).rules, {gateway}))
      ensures ok && (truthful || reliable) ==> RulesOn(cloud.rules, {gateway}) == {}
      ensures reliable ==> ok
    {
      var listed := ListSnatRules(gateway);
      var i := 0;
      ok := true;
      while ok && i < |listed|
        invariant 0 <= i <= |listed|
        invariant WellFormed(cloud) && cloud == old(cloud).(rules := cloud.rules)
        invariant Only(old(cloud).rules, cloud.rules, RulesOn(old(cloud).rules, {gateway}))
        invariant ok ==> forall j | 0 <= j < i :: listed[j] !in cloud.rules
        invariant reliable ==> ok
      {
        ok := *;
        ok := ok || reliable;
        if ok { cloud := cloud.(rules := cloud.rules - {listed[i]}); }
        i := i + 1;
      }
      assert forall k | k in RulesOn(cloud.rules, {gateway}) :: k in RulesOn(old(cloud).rules, {gateway});
      assert ok ==> forall k | k in listed :: k !in cloud.rules;
    }

    /** The EIP is resolved before the rules that carry its ID are deleted. Every deletion is attempted whatever became
        of the others: at the end its resource is gone or its own fault is reported. */
    method DeleteGatewayAndEip() returns (errs: set<Fault>, ghost gateways: seq<Id>, ghost rules: seq<Id>)
      requires Sound() && (NatResource(spec).Some? || NatEip(spec).Some?)
      modifies this`cloud
      ensures Sound() && cloud == old(cloud).(gateways := cloud.gateways, rules := cloud.rules, eips := cloud.eips)
      ensures Lists(gateways, old(cloud).gateways.Keys) && Lists(rules, old(cloud).rules.Keys)
      ensures truthful && NatResource(spec).None? ==> ListsAll(gateways, old(cloud).gateways.Keys)
      ensures (truthful || reliable) && NatEip(spec).None? ==>
                ListsAll(rules, RulesOn(old(cloud).rules, {NatResource(spec).value}))
      ensures var gateway := TargetGateway(old(cloud), spec, cluster, gateways);
              var eip := TargetEip(old(cloud), spec, rules);
              && Only(old(cloud).gateways, cloud.gateways, Opt(gateway))
              && Only(old(cloud).rules, cloud.rules, RulesOn(old(cloud).rules, Opt(gateway)))
              && cloud.eips <= old(cloud).eips && old(cloud).eips - cloud.eips <= Opt(eip)
              && (gateway.Some? ==> gateway.value !in cloud.gateways || GatewayLeft(gateway.value) in errs)
              && (eip.Some? ==> eip.value !in cloud.eips || EipLeft(eip.value) in errs)
              && (reliable ==> errs == {} && cloud == old(cloud).(gateways := old(cloud).gateways - Opt(gateway),
                                                                  rules := old(cloud).rules - RulesOn(old(cloud).rules, Opt(gateway)),
                                                                  eips := old(cloud).eips - Opt(eip)))
    {
      errs, gateways, rules := {}, [], [];
      var gateway := NatResource(spec);
      if gateway.None? {
        var listed := List(cloud.gateways.Keys, truthful);
        gateways := listed;
        gateway := First(listed, GatewaysNamed(cloud.gateways, cluster));
      }
      var eip := NatEip(spec);
      if eip.None? {
        var listed := ListSnatRules(gateway.value);
        rules := listed;
        eip := RuleEip(cloud.rules, gateway.value, listed);
      }
      assert gateway == TargetGateway(cloud, spec, cluster, gateways) && eip == TargetEip(cloud, spec, rules);
      if gateway.Some? { errs := DeleteGatewayOrdered(gateway.value); }
      if eip.Some? {
        var eipOk := DeleteEip(eip.value);
        if !eipOk { errs := errs + {EipLeft(eip.value)}; }
      }
    }

    /** The rules, then the gateway, which is attempted even when a rule could not be deleted. */
    method DeleteGatewayOrdered(id: Id) returns (errs: set<Fault>)
      requires WellFormed(cloud)
      modifies this`cloud
      ensures WellFormed(cloud) && cloud == old(cloud).(gateways := cloud.gateways, rules := cloud.rules)
      ensures Only(old(cloud).gateways, cloud.gateways, {id})
      ensures Only(old(cloud).rules, cloud.rules, RulesOn(old(cloud).rules, {id}))
      ensures id !in cloud.gateways || GatewayLeft(id) in errs
      ensures reliable ==> errs == {} && cloud == old(cloud).(gateways := old(cloud).gateways - {id},
                                                               rules := old(cloud).rules - RulesOn(old(cloud).rules, {id}))
    {
      errs := {};
      var rulesOk := DeleteSnatRules(id);
      if !rulesOk { errs := errs + {RulesLeft}; }
      if reliable { OnlyAllOfThem(old(cloud).rules, cloud.rules, id); }
      var gatewayOk := DeleteGateway(id);
      if !gatewayOk { errs := errs + {GatewayLeft(id)}; }
    }

    method DeleteSecurityGroup(id: Id) returns (ok: bool)
      modifies this`cloud
      ensures cloud == if ok then old(cloud).(groups := old(cloud).groups - {id}) else old(cloud)
      ensures reliable ==> ok
    {
      ok := *;
      ok := ok || reliable;
      if ok { cloud := cloud.(groups := cloud.groups - {id}); }
    }

    method DeleteSubnet(id: Id) returns (ok: bool)
      modifies this`cloud
      ensures cloud == if ok then old(cloud).(subnets := old(cloud).subnets - {id}) else old(cloud)
      ensures reliable ==> ok
    {
      ok := *;
      ok := ok || reliable;
      if ok { cloud := cloud.(subnets := cloud.subnets - {id}); }
    }

    method DeleteVpc(id: Id) returns (ok: bool)
      modifies this`cloud
      ensures cloud == if ok then old(cloud).(vpcs := old(cloud).vpcs - {id}) else old(cloud)
      ensures reliable ==> ok
    {
      ok := *;
      ok := ok || reliable;
      if ok { cloud := cloud.(vpcs := cloud.vpcs - {id}); }
    }

    /** Every recorded subnet is tried; a failure does not stop the others. */
    method DeleteSubnets() returns (errs: set<Fault>)
      modifies this`cloud
      ensures cloud == old(cloud).(subnets := cloud.subnets)
      ensures Only(old(cloud).subnets, cloud.subnets, RecordedSubnets(spec.subnets))
      ensures forall k | k in RecordedSubnets(spec.subnets) :: k !in cloud.subnets || SubnetLeft(k) in errs
      ensures reliable ==> errs == {} && cloud.subnets == old(cloud).subnets - RecordedSubnets(spec.subnets)
    {
      errs := {};
      for i := 0 to |spec.subnets|
        invariant cloud == old(cloud).(subnets := cloud.subnets)
        invariant Only(old(cloud).subnets, cloud.subnets, RecordedSubnets(spec.subnets))
        invariant reliable ==> errs == {}
        invariant forall j | 0 <= j < i && spec.subnets[j].resource.Some? ::
                    spec.subnets[j].resource.value !in cloud.subnets || SubnetLeft(spec.subnets[j].resource.value) in errs
      {
        if spec.subnets[i].resource.Some? {
          var id := spec.subnets[i].resource.value;
          assert id in RecordedSubnets(spec.subnets);
          var deleted := DeleteSubnet(id);
          if !deleted { errs := errs + {SubnetLeft(id)}; }
        }
      }
    }

    /** Rules, gateway, EIP, security group, subnets, VPC; errors are collected and nothing is skipped. Once it
        succeeds on a complete spec, nothing the manager made is left; and it does succeed when no call fails, which
        takes deleting a gateway's rules before the gateway. */
    method DeleteNetwork() returns (errs: set<Fault>, ghost gateways: seq<Id>, ghost rules: seq<Id>)
      requires Sound()
      modifies this`cloud
      ensures Sound() && DeletesOnlyTargets(old(cloud), cloud, spec, cluster)
      ensures old(Complete()) ==> Complete()
      ensures AdoptedOwned(old(cloud), adopted) ==> AdoptedOwned(cloud, adopted)
      ensures (spec.vpcID.Some? && !spec.vpcTagOwned) || (spec.vpcID.None? && spec.vpcResource.None?) ==>
                errs == {} && cloud == old(cloud)
      ensures IsTornDown(spec) ==> NothingSkipped(old(cloud), errs, gateways, rules)
      ensures IsTornDown(spec) && truthful && NatResource(spec).None? && NatEip(spec).Some? ==>
                ListsAll(gateways, old(cloud).gateways.Keys)
      ensures IsTornDown(spec) && truthful && NatEip(spec).None? && NatResource(spec).Some? ==>
                ListsAll(rules, RulesOn(old(cloud).rules, {NatResource(spec).value}))
      ensures errs == {} && Complete() ==> NothingLeft(cloud, made)
      ensures reliable ==> errs == {} && cloud == AfterTeardown(old(cloud), spec, cluster, gateways, rules)
    {
      hide Persisted, AdoptedOwned, NothingLeft, ListsAll, NothingSkipped, AfterTeardown, BelowNext;
      errs, gateways, rules := {}, [], [];
      if IsByo(spec) || EffectiveVpc(spec).None? {
        NothingToTearDown();
        return;
      }
      errs, gateways, rules := DeleteAll();
      RemovalKeepsPersisted(old(cloud), cloud, made, adopted, spec);
      if errs == {} && Complete() { NothingLeftUnlessFault(old(cloud), errs, gateways, rules); }
    }

    lemma NothingToTearDown()
      requires Sound() && !IsTornDown(spec)
      ensures Complete() ==> NothingLeft(cloud, made)
      ensures DeletesOnlyTargets(cloud, cloud, spec, cluster) && AfterTeardown(cloud, spec, cluster, [], []) == cloud
    {
      if Complete() { RecordedGoneMeansNothingLeft(cloud, made, spec); }
    }

    method DeleteAll() returns (errs: set<Fault>, ghost gateways: seq<Id>, ghost rules: seq<Id>)
      requires Sound() && IsTornDown(spec)
      modifies this`cloud
      ensures Sound() && DeletesOnlyTargets(old(cloud), cloud, spec, cluster)
      ensures NothingSkipped(old(cloud), errs, gateways, rules)
      ensures truthful && NatResource(spec).None? && NatEip(spec).Some? ==> ListsAll(gateways, old(cloud).gateways.Keys)
      ensures truthful && NatEip(spec).None? && NatResource(spec).Some? ==>
                ListsAll(rules, RulesOn(old(cloud).rules, {NatResource(spec).value}))
      ensures reliable ==> errs == {} && cloud == AfterTeardown(old(cloud), spec, cluster, gateways, rules)
    {
      hide ListsAll, BelowNext;
      errs, gateways, rules := {}, [], [];
      if NatResource(spec).Some? || NatEip(spec).Some? {
        errs, gateways, rules := DeleteGatewayAndEip();
      } else {
        assert RulesOn(cloud.rules, {}) == {} && cloud.rules == cloud.rules - {};
      }
      errs := DeleteRest(errs);
    }

    /** Each resource the spec records, or leads to, is gone or has its own entry among the errors. */
    ghost predicate NothingSkipped(c: Cloud, errs: set<Fault>, gateways: seq<Id>, rules: seq<Id>)
      reads this
    {
      var gateway, eip := TargetGateway(c, spec, cluster, gateways), TargetEip(c, spec, rules);
      && (gateway.Some? ==> gateway.value !in cloud.gateways || GatewayLeft(gateway.value) in errs)
      && (eip.Some? ==> eip.value !in cloud.eips || EipLeft(eip.value) in errs)
      && (GroupResource(spec).Some? ==>
            GroupResource(spec).value !in cloud.groups || GroupLeft(GroupResource(spec).value) in errs)
      && (forall k | k in RecordedSubnets(spec.subnets) :: k !in cloud.subnets || SubnetLeft(k) in errs)
      && (EffectiveVpc(spec).Some? ==>
            EffectiveVpc(spec).value !in cloud.vpcs || VpcLeft(EffectiveVpc(spec).value) in errs)
    }

    lemma NothingLeftUnlessFault(c: Cloud, errs: set<Fault>, gateways: seq<Id>, rules: seq<Id>)
      requires Sound() && Complete() && NothingSkipped(c, errs, gateways, rules) && errs == {}
      ensures NothingLeft(cloud, made)
    {
      RecordedGoneMeansNothingLeft(cloud, made, spec);
    }

    /** Security group, subnets, VPC. */
    method DeleteRest(before: set<Fault>) returns (errs: set<Fault>)
      requires EffectiveVpc(spec).Some?
      modifies this`cloud
      ensures before <= errs
      ensures cloud == old(cloud).(groups := cloud.groups, subnets := cloud.subnets, vpcs := cloud.vpcs)
      ensures Only(old(cloud).groups, cloud.groups, Opt(GroupResource(spec)))
      ensures Only(old(cloud).subnets, cloud.subnets, RecordedSubnets(spec.subnets))
      ensures Only(old(cloud).vpcs, cloud.vpcs, Opt(EffectiveVpc(spec)))
      ensures GroupResource(spec).Some? ==>
                GroupResource(spec).value !in cloud.groups || GroupLeft(GroupResource(spec).value) in errs
      ensures forall k | k in RecordedSubnets(spec.subnets) :: k !in cloud.subnets || SubnetLeft(k) in errs
      ensures EffectiveVpc(spec).value !in cloud.vpcs || VpcLeft(EffectiveVpc(spec).value) in errs
      ensures reliable ==> errs == before
                           && cloud == old(cloud).(groups := old(cloud).groups - Opt(GroupResource(spec)),
                                                   subnets := old(cloud).subnets - RecordedSubnets(spec.subnets),
                                                   vpcs := old(cloud).vpcs - Opt(EffectiveVpc(spec)))
    {
      errs := before;
      if GroupResource(spec).Some? {
        var groupOk := DeleteSecurityGroup(GroupResource(spec).value);
        if !groupOk { errs := errs + {GroupLeft(GroupResource(spec).value)}; }
      }
      var subnetErrs := DeleteSubnets();
      var vpcOk := DeleteVpc(EffectiveVpc(spec).value);
      errs := errs + subnetErrs + if vpcOk then {} else {VpcLeft(EffectiveVpc(spec).value)};
    }

    // ---- whole runs

    /** Other tenants act between two passes. */
    method Interfere(after: Cloud)
      requires Sound() && EnvMay(cloud, after, cluster)
      modifies this`cloud
      ensures cloud == after && Sound()
      ensures (old(Complete()) ==> Complete()) && (old(Duplicateless()) ==> Duplicateless())
      ensures AdoptedOwned(old(cloud), adopted) ==> AdoptedOwned(cloud, adopted)
    {
      if Complete() { EnvKeepsAccounts(cloud, after, cluster, made, spec); }
      if NoDuplicates(cloud, made, VpcName(spec, cluster)) {
        EnvKeepsUnique(cloud, after, cluster, made, VpcName(spec, cluster));
      }
      if AdoptedOwned(cloud, adopted) { EnvKeepsAdoptedOwned(cloud, after, cluster, adopted); }
      cloud := after;
    }

    /** What holds along a lifetime: the accounts, and a log in which every act touches only what is ours. */
    ghost predicate Alive(log: seq<Act>, start: Cloud, known: set<Id>, others: (nat, Cloud) -> Cloud)
      reads this
    {
      && Sound() && Complete() && AdoptedOwned(cloud, adopted) && NoForeignGateway(cloud, cluster)
      && known <= adopted.eips
      && Chained(log, start, others) && cloud == StateBefore(log, start, |log|)
      && AllTouchOnlyOurs(log, made, adopted.eips, spec.vpcID)
      && SeenOnOurRules(log, made, adopted.eips - known)
    }

    /** No leaks: any number of passes with the spec persisted in between, then any number of teardown attempts,
        with failures and other tenants' actions everywhere. When an attempt succeeds, nothing the manager made is
        left. The log holds every act, and each one only adds what the manager made or removes what is ours, as long as
        no other tenant's gateway has the managed name; an EIP that was not made is released only if it was seen on a
        rule of a gateway of ours. */
    method Lifetime(passes: nat, attempts: nat, others: (nat, Cloud) -> Cloud) returns (gone: bool, ghost log: seq<Act>)
      requires Sound() && Complete() && IsManaged(spec)
      requires AdoptedOwned(cloud, adopted) && NoForeignGateway(cloud, cluster)
      requires forall i: nat, c: Cloud :: WellFormed(c) ==> EnvMay(c, others(i, c), cluster)
      modifies this`spec, this`cloud, this`made, this`adopted
      ensures Sound() && Complete()
      ensures gone ==> NothingLeft(cloud, made)
      ensures spec.vpcID == old(spec).vpcID && Within(old(made), made)
      ensures |log| <= passes + attempts && Chained(log, old(cloud), others)
      ensures cloud == StateBefore(log, old(cloud), |log|)
      ensures AllTouchOnlyOurs(log, made, adopted.eips, spec.vpcID)
      ensures SeenOnOurRules(log, made, adopted.eips - old(adopted).eips)
    {
      hide Alive;
      log := [];
      AliveAtFirst(others);
      for i := 0 to passes
        invariant Alive(log, old(cloud), old(adopted).eips, others) && IsManaged(spec) && |log| == i
        invariant spec.vpcID == old(spec).vpcID && Within(old(made), made)
      {
        log := LoggedPass(i, log, old(cloud), old(adopted).eips, others);
      }
      gone := false;
      var i := 0;
      while i < attempts && !gone
        invariant Alive(log, old(cloud), old(adopted).eips, others)
        invariant |log| == passes + i && i <= attempts
        invariant spec.vpcID == old(spec).vpcID && Within(old(made), made)
        invariant gone ==> NothingLeft(cloud, made)
      {
        gone, log := LoggedAttempt(passes + i, log, old(cloud), old(adopted).eips, others);
        i := i + 1;
      }
      AliveAtLast(log, old(cloud), old(adopted).eips, others);
    }

    lemma AliveAtFirst(others: (nat, Cloud) -> Cloud)
      requires Sound() && Complete() && AdoptedOwned(cloud, adopted) && NoForeignGateway(cloud, cluster)
      ensures Alive([], cloud, adopted.eips, others)
    {
    }

    lemma AliveAtLast(log: seq<Act>, start: Cloud, known: set<Id>, others: (nat, Cloud) -> Cloud)
      requires Alive(log, start, known, others)
      ensures Sound() && Complete() && Chained(log, start, others) && cloud == StateBefore(log, start, |log|)
      ensures AllTouchOnlyOurs(log, made, adopted.eips, spec.vpcID) && SeenOnOurRules(log, made, adopted.eips - known)
    {
    }

    method LoggedPass(i: nat, ghost log: seq<Act>, ghost start: Cloud, ghost known: set<Id>, others: (nat, Cloud) -> Cloud)
      returns (ghost log': seq<Act>)
      requires Alive(log, start, known, others) && IsManaged(spec) && |log| == i
      requires forall i: nat, c: Cloud :: WellFormed(c) ==> EnvMay(c, others(i, c), cluster)
      modifies this`spec, this`cloud, this`made, this`adopted
      ensures Alive(log', start, known, others) && IsManaged(spec) && |log'| == i + 1
      ensures spec.vpcID == old(spec).vpcID && Within(old(made), made)
    {
      hide Chained, AllTouchOnlyOurs, SeenOnOurRules, Duplicateless, Persisted, Accounted;
      ghost var before := others(i, cloud);
      Interfere(others(i, cloud));
      var _ := ReconcileManagedNetwork();
      log' := log + [(before, cloud)];
      GrewKeepsAdoptedOwned(before, old(made), old(adopted), cloud, made, adopted, cluster);
      ChainGrows(log, start, others, (before, cloud));
      forall k | k in adopted.eips && k !in old(adopted).eips ensures OnOurRule(cloud, made, k) {
        LearnedIsOnOurRule(cloud, made, adopted, k);
      }
      LogGrows(log, (before, cloud), old(made), made, known, old(adopted).eips, adopted.eips, spec.vpcID);
    }

    method LoggedAttempt(
      i: nat, ghost log: seq<Act>, ghost start: Cloud, ghost known: set<Id>, others: (nat, Cloud) -> Cloud)
      returns (gone: bool, ghost log': seq<Act>)
      requires Alive(log, start, known, others) && |log| == i
      requires forall i: nat, c: Cloud :: WellFormed(c) ==> EnvMay(c, others(i, c), cluster)
      modifies this`cloud
      ensures Alive(log', start, known, others) && |log'| == i + 1
      ensures gone ==> NothingLeft(cloud, made)
    {
      hide Chained, AllTouchOnlyOurs, SeenOnOurRules, Duplicateless, Accounted;
      ghost var before := others(i, cloud);
      Interfere(others(i, cloud));
      var errs, _, _ := DeleteNetwork();
      gone := errs == {};
      log' := log + [(before, cloud)];
      TeardownStaysWithinOurs(before, cloud, spec, cluster, made, adopted);
      ChainGrows(log, start, others, (before, cloud));
      LogGrows(log, (before, cloud), made, made, known, adopted.eips, adopted.eips, spec.vpcID);
    }

    /** Crash-tolerant creation: over any number of passes each of which starts from the spec as the user wrote it,
        every recorded ID lost, truthful listings and distinct names keep the managed VPC and each of its subnets
        unique; and the pass that is persisted at last, if it completes, records exactly those. It does complete when its
        calls do and nothing in the cloud it starts from stands in the way. */
    method CrashLoop(passes: nat, others: (nat, Cloud) -> Cloud) returns (completed: bool, ghost last: Cloud)
      requires Sound() && truthful && IsManaged(spec) && DistinctNames(spec.subnets, cluster)
      requires NoDuplicates(cloud, made, VpcName(spec, cluster))
      requires forall i: nat, c: Cloud :: WellFormed(c) ==> EnvMay(c, others(i, c), cluster)
      modifies this`spec, this`cloud, this`made, this`adopted
      ensures Sound() && NoDuplicates(cloud, made, VpcName(old(spec), cluster))
      ensures completed ==> spec.vpcResource.Some?
      ensures healthy && CanCreate(last, old(spec), cluster) ==> completed
      ensures completed && OnlyWeTag(cloud, made, VpcName(old(spec), cluster), spec.vpcResource.value) ==>
                RecordsExactly(cloud, made, old(spec), spec, cluster)
    {
      hide RecordsExactly, CanCreate;
      var written := spec;
      for i := 0 to passes
        invariant Sound() && spec == written && NoDuplicates(cloud, made, VpcName(written, cluster))
      {
        var _ := OnePass(others(i, cloud));
        spec := written;
      }
      last := others(passes, cloud);
      completed := OnePass(others(passes, cloud));
      if completed && OnlyWeTag(cloud, made, VpcName(written, cluster), spec.vpcResource.value) {
        NamedAndUniqueIsExact(cloud, made, written, spec, cluster);
      }
    }

    /** Other tenants act, then a pass runs. */
    method OnePass(after: Cloud) returns (ok: bool)
      requires Sound() && truthful && IsManaged(spec) && DistinctNames(spec.subnets, cluster)
      requires NoDuplicates(cloud, made, VpcName(spec, cluster)) && EnvMay(cloud, after, cluster)
      modifies this`spec, this`cloud, this`made, this`adopted
      ensures Sound() && spec.vpcName == old(spec).vpcName && spec.vpcID == old(spec).vpcID
      ensures NoDuplicates(cloud, made, VpcName(spec, cluster))
      ensures ok ==> RecordsNamed(cloud, old(spec), spec, cluster)
      ensures healthy && CanCreate(after, old(spec), cluster) ==> ok
    {
      hide RecordsNamed, CanCreate;
      ghost var written := spec;
      Interfere(after);
      ok := ReconcileManagedNetwork();
      if written.subnets != spec.subnets {
        DistinctNamesIgnoreResources(Defaulted(written.subnets, cluster), spec.subnets, cluster);
      }
    }
  }
}
