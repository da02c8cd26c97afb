/**
 The three controllers that tear a cluster down, interleaved with an asynchronous cloud.

 `CCECluster` (Infra), `CCEManagedControlPlane` (ControlPlane) and `CCEManagedMachinePool` (Pool) are
 Kubernetes objects; the cloud holds clusters, node pools, API-server EIPs and the managed network.
 A controller pass is one function of the world: its argument `h` is the number of API calls that
 still succeed before one fails, so quantifying over `h` covers a failure at any call. `persist` is
 false when the pass's final object patch is lost.
 */
module Teardown {
  import opened Options

  type Id = nat

  datatype Phase = Creating | Available | Deleting | OtherPhase

  datatype NodePool = NodePool(cluster: Id, phase: Phase, name: string, owned: bool)

  datatype Cloud = Cloud(
    clusters: map<Id, Phase>,
    named: set<Id>,      // clusters that carry this control plane's cluster name
    tagged: set<Id>,     // clusters that carry its owned tag
    nodePools: map<Id, NodePool>,
    eips: set<Id>,
    network: nat,        // resources of the managed network
    next: Id)            // the next ID the platform hands out

  datatype Infra = Infra(deleting: bool, finalizer: bool, provisioned: bool, managed: bool, recorded: bool)

  datatype ControlPlane = ControlPlane(
    nameMatches: bool,   // spec.clusterName is the name of the owning Cluster
    deleting: bool, finalizer: bool, clusterID: Option<Id>, eipID: Option<Id>, polled: bool, ready: bool)

  /** `poolName` is the node pool's name in the cloud, which two objects may share. */
  datatype Pool = Pool(poolName: string, deleting: bool, finalizer: bool, nodePoolID: Option<Id>)

  /** Every cluster and EIP a control plane ever recorded; every node pool, with each object that recorded it. */
  datatype History = History(clusters: set<Id>, eips: set<Id>, nodePools: set<(Id, string)>)

  datatype World = World(
    infra: Option<Infra>,
    cp: Option<ControlPlane>,
    pools: map<string, Pool>,
    infraProvisioned: bool,   // Cluster.status.initialization.infrastructureProvisioned
    cloud: Cloud,
    history: History)

  // ---------------------------------------------------------------- control plane

  function PersistControlPlane(w: World, cp: ControlPlane, persist: bool): World {
    if !persist then w
    else w.(cp := Some(cp),
            history := w.history.(
              clusters := w.history.clusters + (if cp.clusterID.Some? then {cp.clusterID.value} else {}),
              eips := w.history.eips + (if cp.eipID.Some? then {cp.eipID.value} else {})))
  }

  /** CreateCluster: a fresh cluster, unless the name is taken. The conflict's look-up by name then yields `found`,
      which is adopted only if it is provisioned and carries the owned tag. */
  function CreateCluster(c: Cloud, found: Option<Id>): (r: (Cloud, Option<Id>)) {
    if exists id :: id in c.clusters && id in c.named then
      if found.Some? && found.value in c.clusters && found.value in c.named && found.value in c.tagged
         && c.clusters[found.value] in {Available, Creating}
      then (c, found)
      else (c, None)
    else
      (c.(clusters := c.clusters[c.next := Creating], named := c.named + {c.next}, tagged := c.tagged + {c.next},
          next := c.next + 1), Some(c.next))
  }

  /** reconcileNormal of the control plane: the name invariant, the finalizer, the cluster's ID. */
  function CpNormal(w: World, h: nat, persist: bool, found: Option<Id>, public: bool): World
    requires w.cp.Some? && !w.cp.value.deleting
  {
    if !w.cp.value.nameMatches || !w.infraProvisioned then w else
    var cp := w.cp.value.(finalizer := true);
    if w.infra.None? || h < 1 then PersistControlPlane(w, cp, persist)
    else if cp.clusterID.Some? then CpObserve(w, cp, h, persist, public)
    else if h < 2 then PersistControlPlane(w, cp, persist)
    else
      var (cloud, id) := CreateCluster(w.cloud, found);
      if id.None? then PersistControlPlane(w, cp, persist)
      else CpObserve(w.(cloud := cloud), cp.(clusterID := id), h, persist, public)
  }

  /** ShowCluster onwards: reset on 404, wait while not Available, bind the EIP once, become ready. */
  function CpObserve(w: World, cp: ControlPlane, h: nat, persist: bool, public: bool): World
    requires cp.clusterID.Some?
  {
    if h < 3 then PersistControlPlane(w, cp, persist)
    else if cp.clusterID.value !in w.cloud.clusters then
      PersistControlPlane(w, cp.(clusterID := None), persist)
    else if w.cloud.clusters[cp.clusterID.value] != Available || h < 4 then
      PersistControlPlane(w, cp, persist)
    else if public && cp.eipID.None? then
      var eip := w.cloud.next;
      PersistControlPlane(w.(cloud := w.cloud.(eips := w.cloud.eips + {eip}, next := eip + 1)),
                          cp.(eipID := Some(eip)), persist)
    else PersistControlPlane(w, if h < 5 then cp else cp.(ready := true), persist)
  }

  /** reconcileDelete of the control plane. */
  function CpDelete(w: World, h: nat): World
    requires w.cp.Some? && w.cp.value.deleting
  {
    var cp := w.cp.value;
    if w.infra.None? || h < 1 then w                          // region, credentials
    else if cp.clusterID.None? then CpRelease(w, h)
    else if h < 2 then w                                      // ShowCluster failed: keep the finalizer
    else if cp.clusterID.value !in w.cloud.clusters then CpRelease(w, h)
    else
      var id := cp.clusterID.value;
      var polled := w.(cp := Some(cp.(polled := true)));
      if w.cloud.clusters[id] == Deleting && cp.polled then (if h < 3 then w else polled)
      else if h < 3 then w
      else
        var cloud := w.cloud.(clusters := w.cloud.clusters[id := Deleting]);
        if h < 4 then w.(cloud := cloud) else polled.(cloud := cloud)
  }

  /** The cluster is gone: release the EIP, the Secrets, then the finalizer. The EIP ID is only cleared in
      memory, so a failure after the release leaves the object as it was. */
  function CpRelease(w: World, h: nat): World
    requires w.cp.Some?
  {
    var cp := w.cp.value;
    if cp.eipID.Some? && h < 3 then w
    else
      var released := if cp.eipID.Some? then w.(cloud := w.cloud.(eips := w.cloud.eips - {cp.eipID.value})) else w;
      if h < 5 then released else released.(cp := None)
  }

  // ---------------------------------------------------------------- machine pool

  function PersistPool(w: World, name: string, pool: Pool, persist: bool): World {
    if !persist then w
    else w.(pools := w.pools[name := pool],
            history := w.history.(nodePools := w.history.nodePools
              + (if pool.nodePoolID.Some? then {(pool.nodePoolID.value, name)} else {})))
  }

  predicate Listed(c: Cloud, cluster: Id, id: Id) {
    id in c.nodePools && c.nodePools[id].cluster == cluster
  }

  predicate NamedPool(c: Cloud, cluster: Id, name: string, id: Id) {
    Listed(c, cluster, id) && c.nodePools[id].name == name
  }

  /** CreateNodePool: as CreateCluster, within the cluster; a conflict adopts the same-name pool only if owned. */
  function CreateNodePool(c: Cloud, cluster: Id, name: string, found: Option<Id>): (r: (Cloud, Option<Id>)) {
    if exists id :: id in c.nodePools && NamedPool(c, cluster, name, id) then
      if found.Some? && NamedPool(c, cluster, name, found.value) && c.nodePools[found.value].owned then (c, found)
      else (c, None)
    else
      (c.(nodePools := c.nodePools[c.next := NodePool(cluster, Available, name, true)], next := c.next + 1),
       Some(c.next))
  }

  /** reconcileNormal of a machine pool, as far as it concerns the node pool's ID. */
  function PoolNormal(w: World, name: string, h: nat, persist: bool, found: Option<Id>): World
    requires name in w.pools && !w.pools[name].deleting
  {
    if w.cp.None? || !w.cp.value.ready || w.cp.value.clusterID.None? then w else
    var cluster := w.cp.value.clusterID.value;
    var pool := w.pools[name].(finalizer := true);
    if w.infra.None? || h < 1 then PersistPool(w, name, pool, persist)
    else if pool.nodePoolID.None? then
      if h < 2 || cluster !in w.cloud.clusters then PersistPool(w, name, pool, persist)
      else
        var (cloud, id) := CreateNodePool(w.cloud, cluster, pool.poolName, found);
        PersistPool(w.(cloud := cloud), name, if id.None? then pool else pool.(nodePoolID := id), persist)
    else if h < 3 || cluster !in w.cloud.clusters then PersistPool(w, name, pool, persist)
    else if Listed(w.cloud, cluster, pool.nodePoolID.value) then PersistPool(w, name, pool, persist)
    else PersistPool(w, name, pool.(nodePoolID := None), persist)
  }

  /** reconcileDelete of a machine pool. */
  function PoolDelete(w: World, name: string, h: nat): World
    requires name in w.pools && w.pools[name].deleting
  {
    var pool := w.pools[name];
    if pool.nodePoolID.None? then (if h < 5 then w else w.(pools := w.pools - {name}))
    else if h < 1 then w                                       // reading the control plane failed
    else if w.cp.None? || w.cp.value.clusterID.None? then PoolRelease(w, name, h)
    else if w.infra.None? || h < 2 then w                      // region, credentials
    else
      var cluster, id := w.cp.value.clusterID.value, pool.nodePoolID.value;
      if h < 3 || cluster !in w.cloud.clusters then w          // ListNodePools failed
      else if Listed(w.cloud, cluster, id) then
        if h < 4 then w
        else w.(cloud := w.cloud.(nodePools := w.cloud.nodePools[id := w.cloud.nodePools[id].(phase := Deleting)]))
      else PoolRelease(w, name, h)
  }

  /** Clear the node pool ID through the status subresource, then release the finalizer. */
  function PoolRelease(w: World, name: string, h: nat): World
    requires name in w.pools
  {
    if h < 4 then w
    else if h < 5 then w.(pools := w.pools[name := w.pools[name].(nodePoolID := None)])
    else w.(pools := w.pools - {name})
  }

  // ---------------------------------------------------------------- CCECluster

  /** reconcileNormal of the shell: finalizer, managed network, provisioned flag, all in one patch. The pass adds
      `made` network resources, the VPC first, and gets to the flag only if nothing failed on the way. */
  function InfraNormal(w: World, h: nat, persist: bool, made: nat): World
    requires w.infra.Some? && !w.infra.value.deleting
  {
    var infra := w.infra.value.(finalizer := true);
    if h < 1 then (if persist then w.(infra := Some(infra)) else w)
    else
      var v := if infra.managed then w.(cloud := w.cloud.(network := w.cloud.network + made)) else w;
      if !persist then v
      else if h < 2 then v.(infra := Some(infra.(recorded := infra.recorded || (infra.managed && made > 0))))
      else v.(infra := Some(infra.(provisioned := true, recorded := infra.recorded || infra.managed)))
  }

  /** DeleteNetwork with `calls` successful deletions left: what is gone stays gone, and success means all of it. */
  function TornDown(network: nat, calls: nat): nat {
    if calls < network then network - calls else 0
  }

  /** reconcileDelete of the shell: wait for the control plane object, then DeleteNetwork, then release. */
  function InfraDelete(w: World, h: nat): World
    requires w.infra.Some? && w.infra.value.deleting
  {
    var infra := w.infra.value;
    if h < 1 || w.cp.Some? then w
    else if infra.managed && infra.recorded then
      if h < 2 then w
      else
        var torn := w.(cloud := w.cloud.(network := TornDown(w.cloud.network, h - 2)));
        if h < 3 + w.cloud.network then torn else torn.(infra := None)
    else if h < 3 then w else w.(infra := None)
  }

  // ---------------------------------------------------------------- the interleaving

  datatype Step =
    | InfraPass(h: nat, persist: bool, made: nat)
    | CpPass(h: nat, persist: bool, found: Option<Id>, public: bool)
    | PoolPass(name: string, h: nat, persist: bool, found: Option<Id>)
    | SyncProvisioned
    | CreateInfra(managed: bool)
    | CreateControlPlane(nameMatches: bool)
    | CreatePool(name: string, poolName: string)
    | DeleteInfra
    | DeleteControlPlane
    | DeletePool(name: string)
    | CloudMoves(cloud: Cloud)

  /** What the cloud and other tenants may do on their own: drop anything (a dropped cluster takes its node
      pools along), change phases and tags, add things under new IDs; never re-use an ID or move a node pool. */
  ghost predicate CloudMay(c: Cloud, c': Cloud) {
    && c.next <= c'.next
    && (forall k | k in c'.clusters :: k < c'.next && (k in c.clusters || c.next <= k))
    && (forall k | k in c'.eips :: k < c'.next && (k in c.eips || c.next <= k))
    && (forall k | k in c'.nodePools :: k < c'.next && c'.nodePools[k].cluster in c'.clusters
                                        && (k in c.nodePools || c.next <= k)
                                        && (k in c.nodePools ==> c'.nodePools[k].cluster == c.nodePools[k].cluster))
  }

  /** A step needs its object, or the absence of the one it creates; nothing else is assumed about anyone. */
  ghost predicate Allowed(w: World, s: Step) {
    match s
    case InfraPass(_, _, _) => w.infra.Some?
    case CpPass(_, _, _, _) => w.cp.Some?
    case PoolPass(name, _, _, _) => name in w.pools
    case SyncProvisioned => true
    case CreateInfra(_) => w.infra.None?
    case CreateControlPlane(_) => w.cp.None?
    case CreatePool(name, _) => name !in w.pools
    case DeleteInfra => w.infra.Some?
    case DeleteControlPlane => w.cp.Some?
    case DeletePool(name) => name in w.pools
    case CloudMoves(cloud) => CloudMay(w.cloud, cloud)
  }

  ghost function Next(w: World, s: Step): World
    requires Allowed(w, s)
  {
    match s
    case InfraPass(h, persist, made) =>
      if w.infra.value.deleting then InfraDelete(w, h) else InfraNormal(w, h, persist, made)
    case CpPass(h, persist, found, public) =>
      if w.cp.value.deleting then CpDelete(w, h) else CpNormal(w, h, persist, found, public)
    case PoolPass(name, h, persist, found) =>
      if w.pools[name].deleting then PoolDelete(w, name, h) else PoolNormal(w, name, h, persist, found)
    case SyncProvisioned =>
      if w.infra.Some? && w.infra.value.provisioned then w.(infraProvisioned := true) else w
    case CreateInfra(managed) => w.(infra := Some(Infra(false, false, false, managed, false)))
    case CreateControlPlane(matches) => w.(cp := Some(ControlPlane(matches, false, false, None, None, false, false)))
    case CreatePool(name, poolName) => w.(pools := w.pools[name := Pool(poolName, false, false, None)])
    case DeleteInfra =>
      if w.infra.value.finalizer then w.(infra := Some(w.infra.value.(deleting := true))) else w.(infra := None)
    case DeleteControlPlane =>
      if w.cp.value.finalizer then w.(cp := Some(w.cp.value.(deleting := true))) else w.(cp := None)
    case DeletePool(name) =>
      if w.pools[name].finalizer then w.(pools := w.pools[name := w.pools[name].(deleting := true)])
      else w.(pools := w.pools - {name})
    case CloudMoves(cloud) => w.(cloud := cloud)
  }

  ghost predicate Valid(w: World, run: seq<Step>)
    decreases |run|
  {
    run == [] || (Allowed(w, run[0]) && Valid(Next(w, run[0]), run[1..]))
  }

  ghost function After(w: World, run: seq<Step>): World
    requires Valid(w, run)
    decreases |run|
  {
    if run == [] then w else After(Next(w, run[0]), run[1..])
  }

  ghost predicate Initial(w: World) {
    && w.infra == None && w.cp == None && w.pools == map[] && !w.infraProvisioned
    && w.history == History({}, {}, {})
    && (forall k | k in w.cloud.clusters :: k < w.cloud.next)
    && (forall k | k in w.cloud.eips :: k < w.cloud.next)
    && (forall k | k in w.cloud.nodePools :: k < w.cloud.next && w.cloud.nodePools[k].cluster in w.cloud.clusters)
  }

  // ---------------------------------------------------------------- the invariant

  function RecordedCluster(cp: Option<ControlPlane>): Option<Id> {
    if cp.Some? then cp.value.clusterID else None
  }

  function RecordedEip(cp: Option<ControlPlane>): Option<Id> {
    if cp.Some? then cp.value.eipID else None
  }

  ghost predicate CloudWellFormed(c: Cloud) {
    && (forall k | k in c.clusters :: k < c.next)
    && (forall k | k in c.eips :: k < c.next)
    && (forall k | k in c.nodePools :: k < c.next && c.nodePools[k].cluster in c.clusters)
  }

  /** An object that carries a cloud ID carries the finalizer. */
  ghost predicate ControlPlaneGuarded(cp: Option<ControlPlane>) {
    cp.Some? && (cp.value.clusterID.Some? || cp.value.eipID.Some?) ==> cp.value.finalizer
  }

  ghost predicate PoolsGuarded(pools: map<string, Pool>) {
    forall n | n in pools && pools[n].nodePoolID.Some? :: pools[n].finalizer
  }

  /** Every cluster ever recorded that still exists is the one recorded now. */
  ghost predicate ClustersAccounted(ever: set<Id>, live: set<Id>, now: Option<Id>, next: Id) {
    && (forall c | c in ever :: c < next && (c in live ==> now == Some(c)))
    && (now.Some? ==> now.value in ever)
  }

  /** Every node pool ever recorded that still exists is recorded by each object that recorded it, in the recorded
      cluster. */
  ghost predicate NodePoolsAccounted(
    ever: set<(Id, string)>, live: map<Id, NodePool>, pools: map<string, Pool>, cluster: Option<Id>, next: Id)
  {
    && (forall e | e in ever :: e.0 < next)
    && (forall e | e in ever && e.0 in live ::
          cluster == Some(live[e.0].cluster) && e.1 in pools && pools[e.1].nodePoolID == Some(e.0))
    && (forall n | n in pools && pools[n].nodePoolID.Some? :: (pools[n].nodePoolID.value, n) in ever)
  }

  ghost predicate Inv(w: World) {
    && CloudWellFormed(w.cloud)
    && ControlPlaneGuarded(w.cp)
    && PoolsGuarded(w.pools)
    && ClustersAccounted(w.history.clusters, w.cloud.clusters.Keys, RecordedCluster(w.cp), w.cloud.next)
    && ClustersAccounted(w.history.eips, w.cloud.eips, RecordedEip(w.cp), w.cloud.next)
    && NodePoolsAccounted(w.history.nodePools, w.cloud.nodePools, w.pools, RecordedCluster(w.cp), w.cloud.next)
  }

  /** Replacing the control plane's record keeps the invariant when each ID it drops is gone from the cloud. */
  lemma PersistControlPlaneKeeps(w: World, cp: ControlPlane, persist: bool)
    requires Inv(w) && w.cp.Some? && cp.finalizer
    requires cp.clusterID.Some? ==> cp.clusterID.value < w.cloud.next
    requires cp.eipID.Some? ==> cp.eipID.value < w.cloud.next
    requires cp.clusterID == w.cp.value.clusterID
             || w.cp.value.clusterID.None? || w.cp.value.clusterID.value !in w.cloud.clusters
    requires cp.eipID == w.cp.value.eipID || w.cp.value.eipID.None?
    ensures Inv(PersistControlPlane(w, cp, persist))
  {
  }

  lemma CreateClusterKeeps(w: World, found: Option<Id>)
    requires Inv(w)
    ensures var (cloud, id) := CreateCluster(w.cloud, found);
            Inv(w.(cloud := cloud)) && (id.Some? ==> id.value < cloud.next && id.value in cloud.tagged)
  {
  }

  lemma NewEipKeeps(w: World)
    requires Inv(w)
    ensures Inv(w.(cloud := w.cloud.(eips := w.cloud.eips + {w.cloud.next}, next := w.cloud.next + 1)))
  {
  }

  lemma CpObserveKeeps(w: World, cp: ControlPlane, h: nat, persist: bool, public: bool)
    requires Inv(w) && w.cp.Some? && cp.finalizer
    requires cp.clusterID.Some? && cp.clusterID.value < w.cloud.next
    requires cp.eipID == w.cp.value.eipID
    requires cp.eipID.Some? ==> cp.eipID.value < w.cloud.next
    requires cp.clusterID == w.cp.value.clusterID || w.cp.value.clusterID.None?
    ensures Inv(CpObserve(w, cp, h, persist, public))
  {
    hide ClustersAccounted, NodePoolsAccounted, PoolsGuarded, ControlPlaneGuarded;
    var id := cp.clusterID.value;
    if h < 3 {
      PersistControlPlaneKeeps(w, cp, persist);
    } else if id !in w.cloud.clusters {
      PersistControlPlaneKeeps(w, cp.(clusterID := None), persist);
    } else if w.cloud.clusters[id] != Available || h < 4 {
      PersistControlPlaneKeeps(w, cp, persist);
    } else if public && cp.eipID.None? {
      var eip := w.cloud.next;
      NewEipKeeps(w);
      PersistControlPlaneKeeps(w.(cloud := w.cloud.(eips := w.cloud.eips + {eip}, next := eip + 1)),
                               cp.(eipID := Some(eip)), persist);
    } else {
      PersistControlPlaneKeeps(w, if h < 5 then cp else cp.(ready := true), persist);
    }
  }

  lemma CpNormalKeeps(w: World, h: nat, persist: bool, found: Option<Id>, public: bool)
    requires Inv(w) && w.cp.Some? && !w.cp.value.deleting
    ensures Inv(CpNormal(w, h, persist, found, public))
  {
    if w.cp.value.nameMatches && w.infraProvisioned {
      var cp := w.cp.value.(finalizer := true);
      if w.infra.None? || h < 1 {
        PersistControlPlaneKeeps(w, cp, persist);
      } else if cp.clusterID.Some? {
        CpObserveKeeps(w, cp, h, persist, public);
      } else if h < 2 {
        PersistControlPlaneKeeps(w, cp, persist);
      } else {
        CreateClusterKeeps(w, found);
        var (cloud, id) := CreateCluster(w.cloud, found);
        if id.None? {
          PersistControlPlaneKeeps(w, cp, persist);
        } else {
          CpObserveKeeps(w.(cloud := cloud), cp.(clusterID := id), h, persist, public);
        }
      }
    }
  }

  lemma CpReleaseKeeps(w: World, h: nat)
    requires Inv(w) && w.cp.Some?
    requires w.cp.value.clusterID.Some? ==> w.cp.value.clusterID.value !in w.cloud.clusters
    ensures Inv(CpRelease(w, h))
  {
  }

  lemma CpDeleteKeeps(w: World, h: nat)
    requires Inv(w) && w.cp.Some? && w.cp.value.deleting
    ensures Inv(CpDelete(w, h))
  {
    var cp := w.cp.value;
    if w.infra.Some? && h >= 1 && (cp.clusterID.None? || (h >= 2 && cp.clusterID.value !in w.cloud.clusters)) {
      CpReleaseKeeps(w, h);
    }
  }

  lemma PersistPoolKeeps(w: World, name: string, pool: Pool, persist: bool)
    requires Inv(w) && name in w.pools && pool.finalizer
    requires pool.nodePoolID.Some? ==> pool.nodePoolID.value < w.cloud.next
    requires pool.nodePoolID.Some? && pool.nodePoolID.value in w.cloud.nodePools ==>
               RecordedCluster(w.cp) == Some(w.cloud.nodePools[pool.nodePoolID.value].cluster)
    requires pool.nodePoolID != w.pools[name].nodePoolID && w.pools[name].nodePoolID.Some? ==>
               w.pools[name].nodePoolID.value !in w.cloud.nodePools
    ensures Inv(PersistPool(w, name, pool, persist))
  {
  }

  lemma CreateNodePoolKeeps(w: World, cluster: Id, poolName: string, found: Option<Id>)
    requires Inv(w) && cluster in w.cloud.clusters
    ensures var (cloud, id) := CreateNodePool(w.cloud, cluster, poolName, found);
            Inv(w.(cloud := cloud))
            && (id.Some? ==> NamedPool(cloud, cluster, poolName, id.value) && cloud.nodePools[id.value].owned)
  {
  }

  lemma PoolNormalKeeps(w: World, name: string, h: nat, persist: bool, found: Option<Id>)
    requires Inv(w) && name in w.pools && !w.pools[name].deleting
    ensures Inv(PoolNormal(w, name, h, persist, found))
  {
    if w.cp.Some? && w.cp.value.ready && w.cp.value.clusterID.Some? {
      var cluster := w.cp.value.clusterID.value;
      var pool := w.pools[name].(finalizer := true);
      if w.infra.None? || h < 1 {
        PersistPoolKeeps(w, name, pool, persist);
      } else if pool.nodePoolID.None? {
        if h < 2 || cluster !in w.cloud.clusters {
          PersistPoolKeeps(w, name, pool, persist);
        } else {
          var (cloud, id) := CreateNodePool(w.cloud, cluster, pool.poolName, found);
          CreateNodePoolKeeps(w, cluster, pool.poolName, found);
          PersistPoolKeeps(w.(cloud := cloud), name, if id.None? then pool else pool.(nodePoolID := id), persist);
        }
      } else if h < 3 || cluster !in w.cloud.clusters || Listed(w.cloud, cluster, pool.nodePoolID.value) {
        PersistPoolKeeps(w, name, pool, persist);
      } else {
        PersistPoolKeeps(w, name, pool.(nodePoolID := None), persist);
      }
    }
  }

  lemma PoolReleaseKeeps(w: World, name: string, h: nat)
    requires Inv(w) && name in w.pools && w.pools[name].nodePoolID.Some?
    requires w.pools[name].nodePoolID.value !in w.cloud.nodePools
    ensures Inv(PoolRelease(w, name, h))
  {
  }

  lemma PoolDeleteKeeps(w: World, name: string, h: nat)
    requires Inv(w) && name in w.pools && w.pools[name].deleting
    ensures Inv(PoolDelete(w, name, h))
  {
    var pool := w.pools[name];
    if pool.nodePoolID.Some? && h >= 1 {
      if w.cp.None? || w.cp.value.clusterID.None?
         || (w.cp.value.clusterID.value in w.cloud.clusters
             && !Listed(w.cloud, w.cp.value.clusterID.value, pool.nodePoolID.value)) {
        PoolReleaseKeeps(w, name, h);
      }
    }
  }

  lemma InfraPassKeeps(w: World, h: nat, persist: bool, made: nat)
    requires Inv(w) && w.infra.Some?
    ensures Inv(Next(w, InfraPass(h, persist, made)))
  {
    hide ClustersAccounted, NodePoolsAccounted, PoolsGuarded, ControlPlaneGuarded;
  }

  lemma CloudMovesKeeps(w: World, cloud: Cloud)
    requires Inv(w) && CloudMay(w.cloud, cloud)
    ensures Inv(w.(cloud := cloud))
  {
  }

  lemma StepKeeps(w: World, s: Step)
    requires Inv(w) && Allowed(w, s)
    ensures Inv(Next(w, s))
  {
    match s
    case InfraPass(h, persist, made) => InfraPassKeeps(w, h, persist, made);
    case CpPass(h, persist, found, public) =>
      if w.cp.value.deleting { CpDeleteKeeps(w, h); } else { CpNormalKeeps(w, h, persist, found, public); }
    case PoolPass(name, h, persist, found) =>
      if w.pools[name].deleting { PoolDeleteKeeps(w, name, h); } else { PoolNormalKeeps(w, name, h, persist, found); }
    case CloudMoves(cloud) => CloudMovesKeeps(w, cloud);
    case _ =>
  }

  lemma {:induction false} RunKeeps(w: World, run: seq<Step>)
    requires Inv(w) && Valid(w, run)
    ensures Inv(After(w, run))
    decreases |run|
  {
    if run != [] {
      StepKeeps(w, run[0]);
      RunKeeps(Next(w, run[0]), run[1..]);
    }
  }

  // ---------------------------------------------------------------- safety over whole runs

  /** In every reachable world: no control plane means no recorded cluster and no recorded EIP is left; a
      node pool whose recording object is gone is gone. */
  lemma TeardownSafety(w: World, run: seq<Step>)
    requires Initial(w) && Valid(w, run)
    ensures var v := After(w, run);
            && (forall c | c in v.history.clusters && c in v.cloud.clusters ::
                  v.cp.Some? && v.cp.value.clusterID == Some(c) && v.cp.value.finalizer)
            && (forall e | e in v.history.eips && e in v.cloud.eips ::
                  v.cp.Some? && v.cp.value.eipID == Some(e) && v.cp.value.finalizer)
            && (forall e | e in v.history.nodePools && e.0 in v.cloud.nodePools ::
                  e.1 in v.pools && v.pools[e.1].nodePoolID == Some(e.0) && v.pools[e.1].finalizer)
  {
    RunKeeps(w, run);
  }

  /** The pass that tears the managed network down only runs when every cluster and every API-server EIP
      ever recorded is gone, and with the clusters every recorded node pool. */
  lemma NetworkIsTornDownLast(w: World, run: seq<Step>, h: nat)
    requires Initial(w) && Valid(w, run)
    requires var v := After(w, run); v.infra.Some? && v.infra.value.deleting
    requires var v := After(w, run); InfraDelete(v, h) != v
    ensures var v := After(w, run);
            && v.history.clusters !! v.cloud.clusters.Keys
            && v.history.eips !! v.cloud.eips
            && forall e | e in v.history.nodePools :: e.0 !in v.cloud.nodePools
  {
    RunKeeps(w, run);
  }

  // ---------------------------------------------------------------- the region

  /** A control plane held by its finalizer can read its region: the shell is there, and held as well. */
  ghost predicate RegionGuarded(w: World) {
    w.cp.Some? && w.cp.value.finalizer ==> w.infra.Some? && w.infra.value.finalizer
  }

  /** A pass that persists the control plane's finalizer before there is a held shell to read from. */
  ghost predicate LosesRegion(w: World, s: Step) {
    && s.CpPass? && s.persist && w.cp.Some? && !w.cp.value.deleting && w.cp.value.nameMatches && w.infraProvisioned
    && !(w.infra.Some? && w.infra.value.finalizer)
  }

  /** Pool passes and the cloud leave the other objects alone. */
  lemma PoolPassTouchesPoolsOnly(w: World, s: Step)
    requires Allowed(w, s) && s.PoolPass?
    ensures var v := Next(w, s); v.cp == w.cp && v.infra == w.infra && v.infraProvisioned == w.infraProvisioned
  {
  }

  /** A control-plane pass leaves the shell alone, and persists no control plane without its finalizer. */
  lemma CpPassTouches(w: World, s: Step)
    requires Allowed(w, s) && s.CpPass?
    ensures var v := Next(w, s);
            && v.infra == w.infra && v.infraProvisioned == w.infraProvisioned
            && (if w.cp.value.deleting then
                  if ReleasingPass(w, s) then v.cp.None?
                  else v.cp.Some? && v.cp.value == w.cp.value.(polled := v.cp.value.polled)
                       && (w.infra.None? ==> v.cp == w.cp)
                else
                  v.cp.Some? && !v.cp.value.deleting
                  && (if w.cp.value.nameMatches && w.infraProvisioned && s.persist then v.cp.value.finalizer
                      else v.cp == w.cp))
  {
    hide CpNormal, CpDelete;
    if w.cp.value.deleting { CpDeleteTouches(w, s.h); } else { CpNormalTouches(w, s.h, s.persist, s.found, s.public); }
  }

  lemma CpNormalTouches(w: World, h: nat, persist: bool, found: Option<Id>, public: bool)
    requires w.cp.Some? && !w.cp.value.deleting
    ensures var v := CpNormal(w, h, persist, found, public);
            && v.infra == w.infra && v.infraProvisioned == w.infraProvisioned
            && v.cp.Some? && !v.cp.value.deleting
            && (if w.cp.value.nameMatches && w.infraProvisioned && persist then v.cp.value.finalizer else v.cp == w.cp)
  {
    hide CreateCluster;
  }

  lemma CpDeleteTouches(w: World, h: nat)
    requires w.cp.Some? && w.cp.value.deleting
    ensures var v := CpDelete(w, h);
            && v.infra == w.infra && v.infraProvisioned == w.infraProvisioned
            && (if ReleasingPass(w, CpPass(h, true, None, false)) then v.cp.None?
                else v.cp.Some? && v.cp.value == w.cp.value.(polled := v.cp.value.polled)
                     && (w.infra.None? ==> v.cp == w.cp))
  {
  }

  /** Of all steps of all parties, exactly such a pass takes the region away from a guarded world. */
  lemma StepGuardsRegionIff(w: World, s: Step)
    requires RegionGuarded(w) && Allowed(w, s)
    ensures RegionGuarded(Next(w, s)) <==> !LosesRegion(w, s)
  {
    hide CpNormal, CpDelete, PoolNormal, PoolDelete;
    if s.PoolPass? { PoolPassTouchesPoolsOnly(w, s); }
    if s.CpPass? { CpPassTouches(w, s); }
  }

  /** Every world the run passes through is guarded. */
  ghost predicate GuardedThroughout(w: World, run: seq<Step>)
    requires Valid(w, run)
    decreases |run|
  {
    RegionGuarded(w) && (run != [] ==> GuardedThroughout(Next(w, run[0]), run[1..]))
  }

  ghost predicate NeverLosesRegion(w: World, run: seq<Step>)
    requires Valid(w, run)
    decreases |run|
  {
    run != [] ==> !LosesRegion(w, run[0]) && NeverLosesRegion(Next(w, run[0]), run[1..])
  }

  /** No circular wait over whole runs, by anyone: the region stays readable exactly as long as no control plane
      takes its finalizer without a held shell. */
  lemma {:induction false} RegionStaysReadableIff(w: World, run: seq<Step>)
    requires RegionGuarded(w) && Valid(w, run)
    ensures GuardedThroughout(w, run) <==> NeverLosesRegion(w, run)
    decreases |run|
  {
    if run != [] {
      StepGuardsRegionIff(w, run[0]);
      if RegionGuarded(Next(w, run[0])) { RegionStaysReadableIff(Next(w, run[0]), run[1..]); }
    }
  }

  /** The usual order of creation: no second shell once the Cluster reports its infrastructure provisioned, and no
      control plane after that shell is gone. */
  ghost predicate InOrder(w: World, s: Step) {
    && (s.CreateInfra? ==> !w.infraProvisioned)
    && (s.CreateControlPlane? && w.infraProvisioned ==> w.infra.Some?)
  }

  ghost predicate OrderlyRun(w: World, run: seq<Step>)
    requires Valid(w, run)
    decreases |run|
  {
    run != [] ==> InOrder(w, run[0]) && OrderlyRun(Next(w, run[0]), run[1..])
  }

  /** What the order buys: a provisioned shell is held, and is there as long as a control plane is. */
  ghost predicate ShellOutlivesControlPlane(w: World) {
    && (w.cp.Some? && w.cp.value.finalizer ==> w.infraProvisioned)
    && (w.infra.Some? && (w.infra.value.provisioned || w.infraProvisioned) ==> w.infra.value.finalizer)
    && (w.infraProvisioned && w.cp.Some? ==> w.infra.Some?)
  }

  lemma OrderKeepsShell(w: World, s: Step)
    requires ShellOutlivesControlPlane(w) && Allowed(w, s) && InOrder(w, s)
    ensures ShellOutlivesControlPlane(Next(w, s)) && !LosesRegion(w, s)
  {
    hide CpNormal, CpDelete, PoolNormal, PoolDelete;
    if s.PoolPass? { PoolPassTouchesPoolsOnly(w, s); }
    if s.CpPass? { CpPassTouches(w, s); }
  }

  /** In that order the region is never lost. */
  lemma {:induction false} RegionStaysReadable(w: World, run: seq<Step>)
    requires ShellOutlivesControlPlane(w) && Valid(w, run) && OrderlyRun(w, run)
    ensures NeverLosesRegion(w, run) && GuardedThroughout(w, run) && RegionGuarded(After(w, run))
    decreases |run|
  {
    if run != [] {
      OrderKeepsShell(w, run[0]);
      RegionStaysReadable(Next(w, run[0]), run[1..]);
    }
  }

  // ---------------------------------------------------------------- a control plane without its shell

  /** Under deletion, held by its finalizer, with no shell to read the region from. */
  ghost predicate Stranded(w: World) {
    w.infra.None? && w.cp.Some? && w.cp.value.deleting && w.cp.value.finalizer
  }

  /** A delete pass that gets through: the shell is back, the cluster is gone, and no call fails. */
  ghost predicate ReleasingPass(w: World, s: Step) {
    && s.CpPass? && s.h >= 5 && w.infra.Some?
    && w.cp.Some? && w.cp.value.deleting
    && (w.cp.value.clusterID.Some? ==> w.cp.value.clusterID.value !in w.cloud.clusters)
  }

  /** The control plane under deletion stays, held, across any other step. */
  lemma OnlyReleasingPassReleases(w: World, s: Step)
    requires w.cp.Some? && w.cp.value.deleting && w.cp.value.finalizer && Allowed(w, s)
    ensures if ReleasingPass(w, s) then Next(w, s).cp.None?
            else Next(w, s).cp.Some? && Next(w, s).cp.value.deleting && Next(w, s).cp.value.finalizer
    ensures w.infra.None? ==> Next(w, s).cp == w.cp && (Next(w, s).infra.Some? <==> s.CreateInfra?)
  {
    hide CpNormal, CpDelete, PoolNormal, PoolDelete;
    if s.PoolPass? { PoolPassTouchesPoolsOnly(w, s); }
    if s.CpPass? { CpPassTouches(w, s); }
  }

  ghost predicate Released(w: World, run: seq<Step>)
    requires Valid(w, run)
    decreases |run|
  {
    w.cp.None? || (run != [] && Released(Next(w, run[0]), run[1..]))
  }

  /** Some step of the run is a releasing pass. */
  ghost predicate HasReleasingPass(w: World, run: seq<Step>)
    requires Valid(w, run)
    decreases |run|
  {
    run != [] && (ReleasingPass(w, run[0]) || HasReleasingPass(Next(w, run[0]), run[1..]))
  }

  /** Some step re-creates the shell, and a releasing pass follows. */
  ghost predicate ShellReturnsInTime(w: World, run: seq<Step>)
    requires Valid(w, run)
    decreases |run|
  {
    run != []
    && ((run[0].CreateInfra? && HasReleasingPass(Next(w, run[0]), run[1..])) || ShellReturnsInTime(Next(w, run[0]), run[1..]))
  }

  lemma {:induction false} ReleasedIffReleasingPass(w: World, run: seq<Step>)
    requires Valid(w, run) && w.cp.Some? && w.cp.value.deleting && w.cp.value.finalizer
    ensures Released(w, run) <==> HasReleasingPass(w, run)
    decreases |run|
  {
    if run != [] {
      OnlyReleasingPassReleases(w, run[0]);
      if !ReleasingPass(w, run[0]) { ReleasedIffReleasingPass(Next(w, run[0]), run[1..]); }
    }
  }

  /** A stranded control plane is released in a run if and only if the run re-creates its shell and then makes a
      delete pass that gets through while that shell is there; until then not even its status changes. */
  lemma {:induction false} StrandedUntilShellReturns(w: World, run: seq<Step>)
    requires Stranded(w) && Valid(w, run)
    ensures Released(w, run) <==> ShellReturnsInTime(w, run)
    ensures (forall s | s in run :: !s.CreateInfra?) ==> After(w, run).cp == w.cp
    decreases |run|
  {
    if run != [] {
      var v := Next(w, run[0]);
      OnlyReleasingPassReleases(w, run[0]);
      if run[0].CreateInfra? {
        ReleasedIffReleasingPass(v, run[1..]);
        if ShellReturnsInTime(v, run[1..]) { ReturnImpliesReleasing(v, run[1..]); }
        assert run[0] in run;
      } else {
        StrandedUntilShellReturns(v, run[1..]);
        assert forall s | s in run[1..] :: s in run;
      }
    }
  }

  lemma {:induction false} ReturnImpliesReleasing(w: World, run: seq<Step>)
    requires Valid(w, run) && ShellReturnsInTime(w, run)
    ensures HasReleasingPass(w, run)
    decreases |run|
  {
    if !(run[0].CreateInfra? && HasReleasingPass(Next(w, run[0]), run[1..])) {
      ReturnImpliesReleasing(Next(w, run[0]), run[1..]);
    }
  }

  /** A user can end it at any time: re-create the shell, and the delete passes go on where they stopped. */
  lemma ReturningShellReleases(w: World, managed: bool) returns (run: seq<Step>)
    requires Stranded(w) && Inv(w)
    ensures Valid(w, run) && After(w, run).cp.None? && run[0] == CreateInfra(managed)
  {
    var pass := CpPass(9, true, None, false);
    var w1 := Next(w, CreateInfra(managed));
    var id := w.cp.value.clusterID;
    if id.Some? && id.value in w.cloud.clusters {
      var w2 := Next(w1, pass);
      var gone := w2.cloud.(clusters := w2.cloud.clusters - {id.value},
                            nodePools := map k | k in w2.cloud.nodePools && w2.cloud.nodePools[k].cluster != id.value ::
                                           w2.cloud.nodePools[k]);
      StepKeeps(w, CreateInfra(managed));
      StepKeeps(w1, pass);
      var w3 := Next(w2, CloudMoves(gone));
      run := [CreateInfra(managed)] + ([pass] + ([CloudMoves(gone)] + [pass]));
      OneMoreStep(w3, pass, []);
      OneMoreStep(w2, CloudMoves(gone), [pass]);
      OneMoreStep(w1, pass, [CloudMoves(gone)] + [pass]);
      OneMoreStep(w, CreateInfra(managed), [pass] + ([CloudMoves(gone)] + [pass]));
      assert [pass] + [] == [pass];
    } else {
      run := [CreateInfra(managed)] + [pass];
      OneMoreStep(w1, pass, []);
      OneMoreStep(w, CreateInfra(managed), [pass]);
      assert [pass] + [] == [pass];
    }
  }

  lemma OneMoreStep(w: World, s: Step, rest: seq<Step>)
    requires Allowed(w, s) && Valid(Next(w, s), rest)
    ensures Valid(w, [s] + rest) && After(w, [s] + rest) == After(Next(w, s), rest)
  {
    assert ([s] + rest)[1..] == rest;
  }

  /** A run by which a control plane gets stranded: created after its shell was released, it takes its finalizer
      because the Cluster still reports the infrastructure provisioned, and is then deleted. */
  const LATE_CONTROL_PLANE: seq<Step> := [
    CreateInfra(false), InfraPass(9, true, 0), SyncProvisioned, DeleteInfra, InfraPass(9, true, 0),
    CreateControlPlane(true), CpPass(9, true, None, false), DeleteControlPlane]

  lemma LateControlPlaneIsStranded(w: World)
    requires Initial(w)
    ensures Valid(w, LATE_CONTROL_PLANE) && Stranded(After(w, LATE_CONTROL_PLANE))
    ensures !NeverLosesRegion(w, LATE_CONTROL_PLANE)
  {
    var run := LATE_CONTROL_PLANE;
    assert run[1..][1..][1..][1..][1..][1..][1..][1..] == [];
  }
}
