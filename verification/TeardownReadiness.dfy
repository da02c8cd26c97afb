/**
 What each pass leaves, fact by fact and wherever it is cut, and how a control plane becomes ready.
 */
module TeardownReadiness {
  import opened Options
  import opened Teardown

  // ---------------------------------------------------------------- one pass

  ghost predicate NameTaken(c: Cloud) {
    exists id :: id in c.clusters && id in c.named
  }

  predicate Adoptable(c: Cloud, id: Id) {
    id in c.clusters && id in c.named && id in c.tagged && c.clusters[id] in {Available, Creating}
  }

  /** The cluster a pass has in hand after its create call, if it makes one. */
  ghost predicate InHand(w: World, h: nat, found: Option<Id>, v: World, id: Option<Id>)
    requires w.cp.Some?
  {
    var was := w.cp.value.clusterID;
    if was.Some? then id == was && v.cloud.clusters == w.cloud.clusters
    else if w.infra.None? || h < 2 then id == None && v.cloud == w.cloud
    else if NameTaken(w.cloud) then
      v.cloud.clusters == w.cloud.clusters && id == if found.Some? && Adoptable(w.cloud, found.value) then found else None
    else
      id == Some(w.cloud.next) && v.cloud.clusters == w.cloud.clusters[w.cloud.next := Creating]
  }

  ghost predicate IsAvailable(v: World, id: Option<Id>) {
    id.Some? && id.value in v.cloud.clusters && v.cloud.clusters[id.value] == Available
  }

  /** The pass stores nothing before the gate is open or when its patch is lost. Else it stores the finalizer; the ID in
      hand, unless that cluster is found gone; a new IP exactly if one is declared and missing on an available cluster;
      and readiness exactly if the cluster is available, no IP was missing and no call failed. */
  ghost predicate PassLeaves(w: World, h: nat, persist: bool, found: Option<Id>, public: bool, v: World)
    requires w.cp.Some?
  {
    var was := w.cp.value;
    && v.infra == w.infra && v.pools == w.pools && v.infraProvisioned == w.infraProvisioned
    && (!was.nameMatches || !w.infraProvisioned ==> v == w)
    && (!persist ==> v.cp == w.cp && v.history == w.history)
    && (was.nameMatches && w.infraProvisioned ==>
          exists id :: InHand(w, h, found, v, id) && (persist ==> Stored(w, h, public, v, id)))
  }

  ghost predicate Stored(w: World, h: nat, public: bool, v: World, id: Option<Id>)
    requires w.cp.Some?
  {
    var was := w.cp.value;
    && v.cp.Some?
    && var now := v.cp.value;
    && now == was.(finalizer := true, clusterID := now.clusterID, eipID := now.eipID, ready := now.ready)
    && now.clusterID == (if w.infra.Some? && h >= 3 && id.Some? && id.value !in v.cloud.clusters then None else id)
    && (if w.infra.Some? && h >= 4 && IsAvailable(v, id) && public && was.eipID.None? then
          now.eipID.Some? && now.eipID.value !in w.cloud.eips && v.cloud.eips == w.cloud.eips + {now.eipID.value}
        else now.eipID == was.eipID && v.cloud.eips == w.cloud.eips)
    && now.ready == (was.ready || (w.infra.Some? && h >= 5 && IsAvailable(v, id) && !(public && was.eipID.None?)))
  }

  lemma NormalPassLeaves(w: World, h: nat, persist: bool, found: Option<Id>, public: bool)
    requires w.cp.Some? && !w.cp.value.deleting && CloudWellFormed(w.cloud)
    ensures PassLeaves(w, h, persist, found, public, CpNormal(w, h, persist, found, public))
  {
    var v := CpNormal(w, h, persist, found, public);
    if w.cp.value.nameMatches && w.infraProvisioned {
      hide CpObserve, Stored, InHand;
      var was := w.cp.value.clusterID;
      var cp := w.cp.value.(finalizer := true);
      if w.infra.None? || h < 1 {
        NothingInHand(w, h, persist, found, public, was);
      } else if was.Some? {
        ObserveStores(w, w, cp, h, persist, found, public);
      } else if h < 2 {
        NothingInHand(w, h, persist, found, public, None);
      } else {
        var (cloud, id) := CreateCluster(w.cloud, found);
        if id.None? { NothingInHand(w, h, persist, found, public, None); }
        else { ObserveStores(w, w.(cloud := cloud), cp.(clusterID := id), h, persist, found, public); }
      }
    }
  }

  /** The pass ends before it looks at a cluster. */
  lemma NothingInHand(w: World, h: nat, persist: bool, found: Option<Id>, public: bool, id: Option<Id>)
    requires w.cp.Some? && (w.infra.None? || h < 1 || (w.cp.value.clusterID.None? && (h < 2 || CreateCluster(w.cloud, found).1.None?)))
    requires id == w.cp.value.clusterID
    ensures var v := PersistControlPlane(w, w.cp.value.(finalizer := true), persist);
            InHand(w, h, found, v, id) && (persist ==> Stored(w, h, public, v, id))
            && v.infra == w.infra && v.pools == w.pools && v.infraProvisioned == w.infraProvisioned
            && (!persist ==> v.cp == w.cp && v.history == w.history)
  {
  }

  /** The pass looks at the cluster in hand. */
  lemma Observes(u: World, cp: ControlPlane, h: nat, persist: bool, public: bool)
    requires u.cp.Some? && CloudWellFormed(u.cloud) && cp.clusterID.Some?
    ensures var v := CpObserve(u, cp, h, persist, public);
            var binds := h >= 4 && IsAvailable(u, cp.clusterID) && public && cp.eipID.None?;
            && v.infra == u.infra && v.pools == u.pools && v.infraProvisioned == u.infraProvisioned
            && v.cloud.clusters == u.cloud.clusters
            && v.cloud.eips == (if binds then u.cloud.eips + {u.cloud.next} else u.cloud.eips)
            && u.cloud.next !in u.cloud.eips
            && (!persist ==> v.cp == u.cp && v.history == u.history)
            && (persist ==>
                  v.cp == Some(cp.(clusterID := if h >= 3 && cp.clusterID.value !in u.cloud.clusters then None else cp.clusterID,
                                   eipID := if binds then Some(u.cloud.next) else cp.eipID,
                                   ready := cp.ready || (h >= 5 && IsAvailable(u, cp.clusterID) && !binds))))
  {
  }

  lemma CreateGives(w: World, found: Option<Id>)
    requires CloudWellFormed(w.cloud)
    ensures var (cloud, id) := CreateCluster(w.cloud, found);
            && CloudWellFormed(cloud) && cloud.eips == w.cloud.eips
            && (if NameTaken(w.cloud) then
                  cloud == w.cloud && id == if found.Some? && Adoptable(w.cloud, found.value) then found else None
                else
                  id == Some(w.cloud.next) && cloud.clusters == w.cloud.clusters[w.cloud.next := Creating])
  {
  }

  lemma ObserveStores(
    w: World, u: World, cp: ControlPlane, h: nat, persist: bool, found: Option<Id>, public: bool)
    requires w.cp.Some? && CloudWellFormed(w.cloud) && w.infra.Some? && h >= 1 && cp.clusterID.Some?
    requires if w.cp.value.clusterID.Some? then u == w && cp == w.cp.value.(finalizer := true)
             else h >= 2 && u == w.(cloud := CreateCluster(w.cloud, found).0)
                  && cp == w.cp.value.(finalizer := true, clusterID := CreateCluster(w.cloud, found).1)
    ensures var v := CpObserve(u, cp, h, persist, public);
            InHand(w, h, found, v, cp.clusterID) && (persist ==> Stored(w, h, public, v, cp.clusterID))
            && v.infra == w.infra && v.pools == w.pools && v.infraProvisioned == w.infraProvisioned
            && (!persist ==> v.cp == w.cp && v.history == w.history)
  {
    CreateGives(w, found);
    Observes(u, cp, h, persist, public);
    hide CpObserve, CreateCluster, NameTaken, Adoptable, CloudWellFormed;
  }

  // ---------------------------------------------------------------- becoming ready

  /** A new control plane whose gate is open and whose cluster name is free. */
  ghost predicate New(w: World) {
    && w.infra.Some? && w.infraProvisioned && !NameTaken(w.cloud)
    && w.cp.Some? && w.cp.value == ControlPlane(true, false, false, None, None, false, false)
  }

  /** Passes whose calls succeed and a cloud that makes the cluster available lead from a new control plane to a ready
      one, with its cluster recorded and its public IP bound exactly if one is declared. */
  lemma HealthyCloudLeadsToReady(w: World, public: bool) returns (run: seq<Step>)
    requires Inv(w) && New(w)
    ensures Valid(w, run)
    ensures var v := After(w, run);
            && v.cp.Some? && v.cp.value.ready && v.cp.value.finalizer
            && v.cp.value.clusterID == Some(w.cloud.next) && w.cloud.next in v.cloud.clusters
            && v.cloud.clusters[w.cloud.next] == Available
            && (public <==> v.cp.value.eipID.Some?) && (public ==> v.cp.value.eipID.value in v.cloud.eips)
  {
    var id := w.cloud.next;
    var pass := CpPass(9, true, None, public);
    var w1 := Next(w, pass);
    CreatesFirst(w, public);
    var available := w1.cloud.(clusters := w1.cloud.clusters[id := Available]);
    StepKeeps(w, pass);
    var w2 := Next(w1, CloudMoves(available));
    assert Allowed(w1, CloudMoves(available));
    ObservesNext(w2, public, id);
    var w3 := Next(w2, pass);
    if public {
      ObservesNext(w3, public, id);
      run := [pass] + ([CloudMoves(available)] + ([pass] + ([pass] + [])));
      OneMoreStep(w3, pass, []);
      OneMoreStep(w2, pass, [pass] + []);
      OneMoreStep(w1, CloudMoves(available), [pass] + ([pass] + []));
      OneMoreStep(w, pass, [CloudMoves(available)] + ([pass] + ([pass] + [])));
    } else {
      run := [pass] + ([CloudMoves(available)] + ([pass] + []));
      OneMoreStep(w2, pass, []);
      OneMoreStep(w1, CloudMoves(available), [pass] + []);
      OneMoreStep(w, pass, [CloudMoves(available)] + ([pass] + []));
    }
  }

  lemma CreatesFirst(w: World, public: bool)
    requires CloudWellFormed(w.cloud) && New(w)
    ensures var v := Next(w, CpPass(9, true, None, public));
            && v.cp == Some(w.cp.value.(finalizer := true, clusterID := Some(w.cloud.next)))
            && v.infra == w.infra && v.infraProvisioned == w.infraProvisioned
            && w.cloud.next in v.cloud.clusters && v.cloud.next == w.cloud.next + 1
  {
  }

  /** With its cluster available, a pass binds a missing IP, and is through otherwise. */
  lemma ObservesNext(w: World, public: bool, id: Id)
    requires w.infra.Some? && w.infraProvisioned && w.cp.Some? && w.cp.value.nameMatches && !w.cp.value.deleting
    requires w.cp.value.clusterID == Some(id) && id in w.cloud.clusters && w.cloud.clusters[id] == Available
    ensures var v := Next(w, CpPass(9, true, None, public));
            && v.infra == w.infra && v.infraProvisioned && v.cloud.clusters == w.cloud.clusters
            && v.cp.Some?
            && v.cp.value == (if public && w.cp.value.eipID.None? then
                                w.cp.value.(finalizer := true, eipID := v.cp.value.eipID)
                              else w.cp.value.(finalizer := true, ready := true))
            && (public && w.cp.value.eipID.None? ==> v.cp.value.eipID.Some? && v.cp.value.eipID.value in v.cloud.eips)
            && (!(public && w.cp.value.eipID.None?) ==> v.cloud == w.cloud)
  {
  }

  // ---------------------------------------------------------------- a pool pass

  /** A pool waits for a control plane that is ready and has a cluster. */
  predicate MayStart(w: World) {
    w.cp.Some? && w.cp.value.ready && w.cp.value.clusterID.Some?
  }

  /** A pool pass stores nothing before the control plane is ready or when its patch is lost. Else it stores the
      finalizer, forgets an ID the live cluster no longer lists, and, when it has none, gets a new node pool in the live
      cluster, or the owned one that has the name already. */
  ghost predicate PoolPassLeaves(w: World, name: string, h: nat, persist: bool, found: Option<Id>, v: World)
    requires name in w.pools
  {
    && v.cp == w.cp && v.infra == w.infra && v.infraProvisioned == w.infraProvisioned
    && v.cloud.clusters == w.cloud.clusters && v.cloud.eips == w.cloud.eips
    && (!MayStart(w) ==> v == w)
    && (!persist ==> v.pools == w.pools && v.history == w.history)
    && (MayStart(w) && persist ==>
          && v.pools.Keys == w.pools.Keys && (forall n :: n in w.pools && n != name ==> v.pools[n] == w.pools[n])
          && var (was, now, cluster) := (w.pools[name], v.pools[name], w.cp.value.clusterID.value);
          && now == was.(finalizer := true, nodePoolID := now.nodePoolID)
          && if w.infra.None? || cluster !in w.cloud.clusters || h < 2 then
               now.nodePoolID == was.nodePoolID && v.cloud == w.cloud
             else if was.nodePoolID.Some? then
               v.cloud == w.cloud
               && now.nodePoolID == if h < 3 || In(w.cloud, cluster, was.nodePoolID.value) then was.nodePoolID else None
             else if PoolNameTaken(w.cloud, cluster, was.poolName) then
               v.cloud == w.cloud
               && now.nodePoolID == if found.Some? && In(w.cloud, cluster, found.value)
                                       && w.cloud.nodePools[found.value].name == was.poolName
                                       && w.cloud.nodePools[found.value].owned
                                    then found else None
             else
               && now.nodePoolID == Some(w.cloud.next)
               && v.cloud.nodePools == w.cloud.nodePools[w.cloud.next := NodePool(cluster, Available, was.poolName, true)])
  }

  predicate In(c: Cloud, cluster: Id, id: Id) {
    id in c.nodePools && c.nodePools[id].cluster == cluster
  }

  ghost predicate PoolNameTaken(c: Cloud, cluster: Id, name: string) {
    exists id :: In(c, cluster, id) && c.nodePools[id].name == name
  }

  lemma NormalPoolPassLeaves(w: World, name: string, h: nat, persist: bool, found: Option<Id>)
    requires name in w.pools && !w.pools[name].deleting && CloudWellFormed(w.cloud)
    ensures PoolPassLeaves(w, name, h, persist, found, PoolNormal(w, name, h, persist, found))
  {
    if MayStart(w) {
      var cluster := w.cp.value.clusterID.value;
      CreatePoolGives(w.cloud, cluster, w.pools[name].poolName, found);
      hide CreateNodePool, PoolNameTaken, CloudWellFormed;
    }
  }

  lemma CreatePoolGives(c: Cloud, cluster: Id, name: string, found: Option<Id>)
    ensures var (c', id) := CreateNodePool(c, cluster, name, found);
            if PoolNameTaken(c, cluster, name) then
              c' == c && id == if found.Some? && In(c, cluster, found.value) && c.nodePools[found.value].name == name
                                  && c.nodePools[found.value].owned then found else None
            else
              id == Some(c.next) && c'.clusters == c.clusters && c'.eips == c.eips
              && c'.nodePools == c.nodePools[c.next := NodePool(cluster, Available, name, true)]
  {
    assert PoolNameTaken(c, cluster, name) <==> exists id :: id in c.nodePools && NamedPool(c, cluster, name, id);
  }

  // ---------------------------------------------------------------- delete passes

  /** With its region readable, a control plane under deletion asks for the deletion of a cluster that is there, once if
      it can store that it did; when the cluster is gone the IP is released, and then the object goes. */
  ghost predicate ControlPlaneDeleteLeaves(w: World, h: nat, v: World)
    requires w.cp.Some?
  {
    var was := w.cp.value;
    var there := was.clusterID.Some? && was.clusterID.value in w.cloud.clusters;
    var asked := there && was.polled && w.cloud.clusters[was.clusterID.value] == Deleting;
    && v == w.(cp := v.cp, cloud := w.cloud.(clusters := v.cloud.clusters, eips := v.cloud.eips))
    && v.cloud.clusters == (if w.infra.Some? && there && !asked && h >= 3
                            then w.cloud.clusters[was.clusterID.value := Deleting] else w.cloud.clusters)
    && v.cloud.eips == (if w.infra.Some? && !there && was.eipID.Some? && h >= 3
                        then w.cloud.eips - {was.eipID.value} else w.cloud.eips)
    && (v.cp.None? <==> w.infra.Some? && !there && h >= 5)
    && (v.cp.Some? ==> v.cp.value == was.(polled := was.polled || (w.infra.Some? && there && h >= 4)))
  }

  lemma DeletePassLeaves(w: World, h: nat)
    requires w.cp.Some? && w.cp.value.deleting
    ensures ControlPlaneDeleteLeaves(w, h, CpDelete(w, h))
  {
  }

  /** A pool under deletion waits while the live cluster lists its node pool, whose deletion it asks for, and while it
      cannot see the cluster; else its ID is cleared and it goes. */
  ghost predicate PoolDeleteLeaves(w: World, name: string, h: nat, v: World)
    requires name in w.pools
  {
    var was := w.pools[name];
    var cluster := if w.cp.Some? then w.cp.value.clusterID else None;
    var waits := was.nodePoolID.Some? && cluster.Some?
                 && (w.infra.None? || cluster.value !in w.cloud.clusters || In(w.cloud, cluster.value, was.nodePoolID.value));
    && v == w.(pools := v.pools, cloud := w.cloud.(nodePools := v.cloud.nodePools))
    && v.cloud.nodePools == (if waits && w.infra.Some? && cluster.value in w.cloud.clusters && h >= 4 then
                               var id := was.nodePoolID.value;
                               w.cloud.nodePools[id := w.cloud.nodePools[id].(phase := Deleting)]
                             else w.cloud.nodePools)
    && v.pools == (if !waits && h >= 5 then w.pools - {name}
                   else if !waits && h == 4 then w.pools[name := was.(nodePoolID := None)]
                   else w.pools)
  }

  lemma PoolDeletePassLeaves(w: World, name: string, h: nat)
    requires name in w.pools && w.pools[name].deleting
    ensures PoolDeleteLeaves(w, name, h, PoolDelete(w, name, h))
  {
    assert w.pools[name].nodePoolID.None? ==> w.pools[name := w.pools[name].(nodePoolID := None)] == w.pools;
  }
}
