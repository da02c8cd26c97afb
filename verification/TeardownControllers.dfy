/**
 The reconcilers' passes as they run: step by step, on objects they update in place, returning early on the first
 API call that fails. Each promises what it keeps and when it lets its object go, and takes the world exactly where
 its function in `Teardown` says, so that the results on whole runs speak about these passes.
 */
module TeardownControllers {
  import opened Options
  import opened Teardown
  import opened TeardownReadiness
  import T = TeardownTermination

  /** The objects of one workload cluster in the management cluster, and the cloud behind them. */
  class Management {
    var infra: Option<Infra>
    var cp: Option<ControlPlane>
    var pools: map<string, Pool>
    var infraProvisioned: bool
    var cloud: Cloud
    ghost var history: History

    constructor (cloud: Cloud)
      requires CloudWellFormed(cloud)
      ensures View() == World(None, None, map[], false, cloud, History({}, {}, {}))
      ensures Inv(View()) && RegionGuarded(View())
    {
      this.infra, this.cp, this.pools, this.infraProvisioned := None, None, map[], false;
      this.cloud := cloud;
      this.history := History({}, {}, {});
    }

    ghost function View(): World
      reads this
    {
      World(infra, cp, pools, infraProvisioned, cloud, history)
    }

    /** No pass ever loses track of a cluster, an EIP or a node pool it recorded. */
    twostate predicate Accounts()
      reads this
    {
      old(Inv(View())) ==> Inv(View())
    }

    /** During teardown a pass has no effect or lowers the measure. */
    twostate predicate Progress()
      reads this
    {
      old(T.TearingDown(View())) ==>
        && T.TearingDown(View())
        && (View() == old(View()) || T.Measure(T.State(View(), 0)) < old(T.Measure(T.State(View(), 0))))
    }

    // ---- control plane

    /** The deferred object patch; nothing is stored when it is lost. */
    method CloseControlPlane(obj: ControlPlane, persist: bool)
      modifies this
      ensures View() == PersistControlPlane(old(View()), obj, persist)
    {
      if persist {
        cp := Some(obj);
        history := PersistControlPlane(World(infra, cp, pools, infraProvisioned, cloud, history), obj, true).history;
      }
    }

    /** CreateCluster of the service. A taken name is never duplicated; the cluster that has it is adopted only if it
        is provisioned and carries the owned tag. */
    method CallCreateCluster(found: Option<Id>) returns (id: Option<Id>)
      modifies this`cloud
      ensures (exists k :: k in old(cloud).clusters && k in old(cloud).named) ==> cloud == old(cloud)
      ensures cloud == old(cloud) && id.Some? ==>
                id == found && id.value in cloud.named && id.value in cloud.tagged
                && id.value in cloud.clusters && cloud.clusters[id.value] in {Available, Creating}
      ensures (exists k :: k in old(cloud).clusters && k in old(cloud).named) ==>
                (id.Some? <==> found.Some? && found.value in cloud.named && found.value in cloud.tagged
                               && found.value in cloud.clusters && cloud.clusters[found.value] in {Available, Creating})
      ensures !(exists k :: k in old(cloud).clusters && k in old(cloud).named) ==>
                var made := old(cloud).next;
                && id == Some(made)
                && cloud == old(cloud).(clusters := old(cloud).clusters[made := Creating], next := made + 1,
                                        named := old(cloud).named + {made}, tagged := old(cloud).tagged + {made})
      ensures (cloud, id) == CreateCluster(old(cloud), found)
    {
      if exists k :: k in cloud.clusters && k in cloud.named {
        if found.Some? && found.value in cloud.clusters && found.value in cloud.named {
          if cloud.clusters[found.value] in {Available, Creating} && found.value in cloud.tagged { return found; }
        }
        return None;
      }
      var newId := cloud.next;
      cloud := cloud.(clusters := cloud.clusters[newId := Creating], named := cloud.named + {newId},
                      tagged := cloud.tagged + {newId}, next := newId + 1);
      return Some(newId);
    }

    method ObserveControlPlane(obj: ControlPlane, h: nat, persist: bool, public: bool)
      requires obj.clusterID.Some?
      modifies this
      ensures View() == CpObserve(old(View()), obj, h, persist, public)
    {
      var updated := obj;
      if h >= 3 {
        var id := obj.clusterID.value;
        if id !in cloud.clusters {
          updated := updated.(clusterID := None);     // deleted out of band: recreate on the next pass
        } else if cloud.clusters[id] == Available && h >= 4 {
          if public && obj.eipID.None? {
            updated := updated.(eipID := Some(cloud.next));
            cloud := cloud.(eips := cloud.eips + {cloud.next}, next := cloud.next + 1);
          } else if h >= 5 {
            updated := updated.(ready := true);
          }
        }
      }
      CloseControlPlane(updated, persist);
    }

    /** Keeps the accounts, and the region unless it takes its finalizer without a held shell. */
    method ReconcileNormalControlPlane(h: nat, persist: bool, found: Option<Id>, public: bool)
      requires cp.Some? && !cp.value.deleting
      modifies this
      ensures Accounts()
      ensures old(RegionGuarded(View())) ==>
                (RegionGuarded(View()) <==> !LosesRegion(old(View()), CpPass(h, persist, found, public)))
      ensures CloudWellFormed(old(cloud)) ==> PassLeaves(old(View()), h, persist, found, public, View())
      ensures View() == CpNormal(old(View()), h, persist, found, public)
    {
      ghost var w := View();
      if CloudWellFormed(cloud) { NormalPassLeaves(w, h, persist, found, public); }
      if Inv(w) { CpNormalKeeps(w, h, persist, found, public); }
      if RegionGuarded(w) { StepGuardsRegionIff(w, CpPass(h, persist, found, public)); }
      hide Inv, RegionGuarded, LosesRegion, CpNormal, PassLeaves;
      NormalControlPlane(h, persist, found, public);
    }

    method NormalControlPlane(h: nat, persist: bool, found: Option<Id>, public: bool)
      requires cp.Some? && !cp.value.deleting
      modifies this
      ensures View() == CpNormal(old(View()), h, persist, found, public)
    {
      hide CpObserve, CreateCluster;
      if !cp.value.nameMatches { return; }
      if !infraProvisioned { return; }
      var obj := cp.value.(finalizer := true);
      if infra.None? || h < 1 {
        CloseControlPlane(obj, persist);
        return;
      }
      if obj.clusterID.None? {
        if h < 2 {
          CloseControlPlane(obj, persist);
          return;
        }
        var id := CallCreateCluster(found);
        if id.None? {
          CloseControlPlane(obj, persist);
          return;
        }
        obj := obj.(clusterID := id);
      }
      ObserveControlPlane(obj, h, persist, public);
    }

    /** Lets the control plane go exactly when its region is readable, its cluster is gone and no call fails; nothing
        it ever recorded is left then. */
    method ReconcileDeleteControlPlane(h: nat)
      requires cp.Some? && cp.value.deleting
      modifies this
      ensures Accounts()
      ensures cp.None? <==> ReleasingPass(old(View()), CpPass(h, true, None, false))
      ensures cp.None? && old(Inv(View())) ==>
                history.clusters !! cloud.clusters.Keys && history.eips !! cloud.eips
                && forall e | e in history.nodePools :: e.0 !in cloud.nodePools
      ensures h == T.HEALTHY ==> Progress()
      ensures ControlPlaneDeleteLeaves(old(View()), h, View())
      ensures View() == CpDelete(old(View()), h)
    {
      ghost var w := View();
      DeletePassLeaves(w, h);
      if Inv(w) { CpDeleteKeeps(w, h); NothingLeftWithoutControlPlane(CpDelete(w, h)); }
      CpPassTouches(w, CpPass(h, true, None, false));
      if T.TearingDown(w) && h == T.HEALTHY { T.CpPassLowers(w); }
      hide Inv, T.TearingDown, T.Measure, CpDelete, ControlPlaneDeleteLeaves;
      DeleteControlPlaneObject(h);
    }

    method DeleteControlPlaneObject(h: nat)
      requires cp.Some? && cp.value.deleting
      modifies this
      ensures View() == CpDelete(old(View()), h)
    {
      if infra.None? || h < 1 { return; }
      var obj := cp.value;
      if obj.clusterID.Some? {
        if h < 2 { return; }
        var id := obj.clusterID.value;
        if id in cloud.clusters {
          var requested := cloud.clusters[id] == Deleting && obj.polled;
          if h < 3 { return; }
          if !requested {
            cloud := cloud.(clusters := cloud.clusters[id := Deleting]);
            if h < 4 { return; }
          }
          cp := Some(obj.(polled := true));
          return;
        }
      }
      if obj.eipID.Some? {
        if h < 3 { return; }
        cloud := cloud.(eips := cloud.eips - {obj.eipID.value});
      }
      if h < 5 { return; }
      cp := None;
    }

    // ---- machine pool

    method ClosePool(name: string, obj: Pool, persist: bool)
      modifies this
      ensures View() == PersistPool(old(View()), name, obj, persist)
    {
      if persist {
        pools := pools[name := obj];
        if obj.nodePoolID.Some? {
          history := history.(nodePools := history.nodePools + {(obj.nodePoolID.value, name)});
        }
      }
    }

    /** CreateNodePool of the service: like CreateCluster, among the node pools of the cluster. */
    method CallCreateNodePool(cluster: Id, poolName: string, found: Option<Id>) returns (id: Option<Id>)
      modifies this`cloud
      ensures (exists k :: k in old(cloud).nodePools && NamedPool(old(cloud), cluster, poolName, k)) ==> cloud == old(cloud)
      ensures id.Some? ==>
                && id.value in cloud.nodePools && cloud.nodePools[id.value].cluster == cluster
                && cloud.nodePools[id.value].name == poolName && cloud.nodePools[id.value].owned
      ensures forall k :: k in old(cloud).nodePools && old(cloud).nodePools[k].cluster == cluster
                          && old(cloud).nodePools[k].name == poolName ==>
                cloud == old(cloud) && (id.Some? ==> id == found) && (found == Some(k) && cloud.nodePools[k].owned ==> id == found)
      ensures cloud != old(cloud) ==>
                var made := old(cloud).next;
                id == Some(made) && cloud == old(cloud).(nodePools := cloud.nodePools, next := made + 1)
                && cloud.nodePools == old(cloud).nodePools[made := NodePool(cluster, Available, poolName, true)]
      ensures id.None? ==> exists k :: k in cloud.nodePools && NamedPool(cloud, cluster, poolName, k)
      ensures (cloud, id) == CreateNodePool(old(cloud), cluster, poolName, found)
    {
      if exists k :: k in cloud.nodePools && NamedPool(cloud, cluster, poolName, k) {
        if found.Some? && NamedPool(cloud, cluster, poolName, found.value) {
          if cloud.nodePools[found.value].owned { return found; }
        }
        return None;
      }
      var newId := cloud.next;
      cloud := cloud.(nodePools := cloud.nodePools[newId := NodePool(cluster, Available, poolName, true)], next := newId + 1);
      return Some(newId);
    }

    method ReconcileNormalPool(name: string, h: nat, persist: bool, found: Option<Id>)
      requires name in pools && !pools[name].deleting
      modifies this
      ensures Accounts() && name in pools
      ensures old(RegionGuarded(View())) ==> RegionGuarded(View())
      ensures old(CloudWellFormed(cloud)) ==> PoolPassLeaves(old(View()), name, h, persist, found, View())
      ensures View() == PoolNormal(old(View()), name, h, persist, found)
    {
      ghost var w := View();
      if Inv(w) { PoolNormalKeeps(w, name, h, persist, found); }
      if CloudWellFormed(cloud) { NormalPoolPassLeaves(w, name, h, persist, found); }
      PoolPassTouchesPoolsOnly(w, PoolPass(name, h, persist, found));
      hide Inv, PoolPassLeaves, PoolNormal;
      NormalPool(name, h, persist, found);
    }

    method NormalPool(name: string, h: nat, persist: bool, found: Option<Id>)
      requires name in pools && !pools[name].deleting
      modifies this
      ensures name in pools && View() == PoolNormal(old(View()), name, h, persist, found)
    {
      if cp.None? || !cp.value.ready || cp.value.clusterID.None? { return; }
      var cluster := cp.value.clusterID.value;
      var obj := pools[name].(finalizer := true);
      if infra.None? || h < 1 {
        ClosePool(name, obj, persist);
        return;
      }
      if obj.nodePoolID.None? {
        if h >= 2 && cluster in cloud.clusters {
          var id := CallCreateNodePool(cluster, obj.poolName, found);
          if id.Some? { obj := obj.(nodePoolID := id); }
        }
      } else if h >= 3 && cluster in cloud.clusters && !Listed(cloud, cluster, obj.nodePoolID.value) {
        obj := obj.(nodePoolID := None);
      }
      ClosePool(name, obj, persist);
    }

    /** A pool that is let go leaves no node pool behind that it ever recorded. */
    method ReconcileDeletePool(name: string, h: nat)
      requires name in pools && pools[name].deleting
      modifies this
      ensures Accounts()
      ensures name !in pools && old(Inv(View())) ==>
                forall e | e in history.nodePools && e.1 == name :: e.0 !in cloud.nodePools
      ensures h == T.HEALTHY ==> Progress()
      ensures PoolDeleteLeaves(old(View()), name, h, View())
      ensures View() == PoolDelete(old(View()), name, h)
    {
      ghost var w := View();
      PoolDeletePassLeaves(w, name, h);
      if Inv(w) { PoolDeleteKeeps(w, name, h); }
      if T.TearingDown(w) && h == T.HEALTHY { T.PoolPassLowers(w, name); }
      hide Inv, T.TearingDown, T.Measure, PoolDelete, PoolDeleteLeaves;
      DeletePoolObject(name, h);
    }

    method DeletePoolObject(name: string, h: nat)
      requires name in pools && pools[name].deleting
      modifies this
      ensures View() == PoolDelete(old(View()), name, h)
    {
      var obj := pools[name];
      if obj.nodePoolID.Some? {
        if h < 1 { return; }
        if cp.Some? && cp.value.clusterID.Some? {
          if infra.None? || h < 2 { return; }
          var cluster, id := cp.value.clusterID.value, obj.nodePoolID.value;
          if h < 3 || cluster !in cloud.clusters { return; }
          if Listed(cloud, cluster, id) {
            if h < 4 { return; }
            cloud := cloud.(nodePools := cloud.nodePools[id := cloud.nodePools[id].(phase := Deleting)]);
            return;
          }
        }
        if h < 4 { return; }
        pools := pools[name := obj.(nodePoolID := None)];
      }
      if h < 5 { return; }
      pools := pools - {name};
      assert pools == old(pools) - {name};
    }

    // ---- CCECluster

    /** The patch that goes through carries the finalizer and records what was made. */
    method ReconcileNormalInfra(h: nat, persist: bool, made: nat)
      requires infra.Some? && !infra.value.deleting
      modifies this
      ensures Accounts() && (old(RegionGuarded(View())) ==> RegionGuarded(View()))
      ensures infra.Some? && (!persist ==> infra == old(infra))
      ensures persist ==>
                && infra.value.finalizer && !infra.value.deleting && infra.value.managed == old(infra).value.managed
                && (infra.value.provisioned <==> old(infra).value.provisioned || h >= 2)
                && (infra.value.recorded <==>
                      old(infra).value.recorded || (infra.value.managed && h >= 1 && (made > 0 || h >= 2)))
      ensures cloud == old(cloud).(network := old(cloud).network
                                              + if old(infra).value.managed && h >= 1 then made else 0)
      ensures cp == old(cp) && pools == old(pools) && infraProvisioned == old(infraProvisioned)
      ensures View() == InfraNormal(old(View()), h, persist, made)
    {
      if Inv(View()) { InfraPassKeeps(View(), h, persist, made); }
      var obj := infra.value.(finalizer := true);
      if h >= 1 {
        if obj.managed {
          cloud := cloud.(network := cloud.network + made);
          obj := obj.(recorded := obj.recorded || made > 0 || h >= 2);
        }
        if h >= 2 { obj := obj.(provisioned := true); }
      }
      if persist { infra := Some(obj); }
    }

    /** Deletes resource after resource while calls succeed. */
    method DeleteNetwork(calls: nat) returns (left: nat)
      modifies this`cloud
      ensures cloud == old(cloud).(network := TornDown(old(cloud).network, calls))
      ensures left == if calls < old(cloud).network then 0 else calls - old(cloud).network
    {
      left := calls;
      while cloud.network > 0 && left > 0
        invariant cloud == old(cloud).(network := cloud.network)
        invariant old(cloud).network - cloud.network == calls - left >= 0
      {
        cloud := cloud.(network := cloud.network - 1);
        left := left - 1;
      }
    }

    /** The shell goes only after the control plane, and after everything any of the three controllers recorded. */
    method ReconcileDeleteInfra(h: nat)
      requires infra.Some? && infra.value.deleting
      modifies this
      ensures Accounts() && (old(RegionGuarded(View())) ==> RegionGuarded(View()))
      ensures View() != old(View()) && old(Inv(View())) ==>
                history.clusters !! cloud.clusters.Keys && history.eips !! cloud.eips
                && forall e | e in history.nodePools :: e.0 !in cloud.nodePools
      ensures cp == old(cp) && pools == old(pools) && infraProvisioned == old(infraProvisioned)
      ensures var left := if old(infra).value.managed && old(infra).value.recorded then old(cloud).network else 0;
              && (infra.None? <==> old(cp).None? && h >= 3 + left) && (infra.Some? ==> infra == old(infra))
              && cloud == old(cloud).(network := old(cloud).network - if old(cp).Some? || h < 2 then 0
                                                                      else if h - 2 < left then h - 2 else left)
      ensures h == T.HEALTHY + old(cloud).network ==> Progress()
      ensures View() == InfraDelete(old(View()), h)
    {
      ghost var w := View();
      if Inv(w) { InfraPassKeeps(w, h, true, 0); }
      if T.TearingDown(w) { T.ShellPassLowers(w); }
      if h < 1 || cp.Some? { return; }
      if infra.value.managed && infra.value.recorded {
        if h < 2 { return; }
        var left := DeleteNetwork(h - 2);
        if cloud.network > 0 || left == 0 { return; }
      } else if h < 3 {
        return;
      }
      infra := None;
    }

    // ---- a whole teardown

    /** The cloud finishes the deletion of a cluster, its node pools included. */
    method FinishDeletion(id: Id)
      requires id in cloud.clusters && cloud.clusters[id] == Deleting
      modifies this`cloud
      ensures View() == old(View()).(cloud := T.DropCluster(old(cloud), id))
      ensures old(T.TearingDown(View())) ==>
                T.TearingDown(View()) && T.Measure(T.State(View(), 0)) < old(T.Measure(T.State(View(), 0)))
    {
      if T.TearingDown(View()) { T.CloudStepLowers(T.State(View(), 0), T.ClusterGone(id)); }
      cloud := T.DropCluster(cloud, id);
    }

    /** Passes that make their calls and a cloud that finishes what it was asked for bring every object down, and no
        recorded resource outlives them. */
    method TearDown()
      requires T.TearingDown(View())
      modifies this
      ensures infra.None? && cp.None? && pools == map[]
      ensures history.clusters !! cloud.clusters.Keys && history.eips !! cloud.eips
      ensures forall e | e in history.nodePools :: e.0 !in cloud.nodePools
    {
      while infra.Some? || cp.Some? || pools != map[]
        invariant T.TearingDown(View())
        decreases T.Measure(T.State(View(), 0))
      {
        T.NoDeadlock(T.State(View(), 0));
        if cp.Some? {
          var id := cp.value.clusterID;
          if id.Some? && id.value in cloud.clusters && cloud.clusters[id.value] == Deleting && cp.value.polled {
            FinishDeletion(id.value);
          } else {
            ReconcileDeleteControlPlane(T.HEALTHY);
          }
        } else if pools != map[] {
          var name :| name in pools;
          T.AnyPoolPassHelps(View(), name);
          ReconcileDeletePool(name, T.HEALTHY);
        } else {
          ReconcileDeleteInfra(T.HEALTHY + cloud.network);
        }
      }
    }
  }

  lemma NothingLeftWithoutControlPlane(w: World)
    requires Inv(w)
    ensures w.cp.None? ==>
              && w.history.clusters !! w.cloud.clusters.Keys && w.history.eips !! w.cloud.eips
              && forall e | e in w.history.nodePools :: e.0 !in w.cloud.nodePools
  {
  }
}
