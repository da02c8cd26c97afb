/**
 Teardown terminates: with every object under deletion, healthy API calls and a budget of Deleting-to-Available
 fallbacks, each step either changes nothing or lowers a measure, and some step lowers it until nothing is left.
 */
module TeardownTermination {
  import opened Options
  import opened Teardown

  /** No pass makes more than this many API calls, the deletions of network resources apart. */
  const HEALTHY: nat := 9

  datatype DeletionStep =
    | ControlPlanePass
    | MachinePoolPass(name: string)
    | ShellPass
    | ClusterGone(id: Id)
    | ClusterFallsBack(id: Id)
    | NodePoolGone(id: Id)
    | NodePoolFallsBack(id: Id)

  /** The world and the fallbacks the cloud has left. */
  datatype State = State(world: World, fallbacks: nat)

  /** Every object is under deletion, held by its finalizer, and the control plane can read its region. */
  ghost predicate TearingDown(w: World) {
    && Inv(w) && RegionGuarded(w)
    && (w.infra.Some? ==> w.infra.value.deleting && w.infra.value.finalizer)
    && (w.cp.Some? ==> w.cp.value.deleting && w.cp.value.finalizer)
    && (forall n | n in w.pools :: w.pools[n].deleting && w.pools[n].finalizer)
  }

  predicate Done(w: World) {
    w.infra.None? && w.cp.None? && w.pools == map[]
  }

  predicate Enabled(s: State, t: DeletionStep) {
    var w := s.world;
    match t
    case ControlPlanePass => w.cp.Some? && w.cp.value.deleting
    case MachinePoolPass(name) => name in w.pools && w.pools[name].deleting
    case ShellPass => w.infra.Some? && w.infra.value.deleting
    case ClusterGone(id) => id in w.cloud.clusters && w.cloud.clusters[id] == Deleting
    case ClusterFallsBack(id) => id in w.cloud.clusters && w.cloud.clusters[id] == Deleting && s.fallbacks > 0
    case NodePoolGone(id) => id in w.cloud.nodePools && w.cloud.nodePools[id].phase == Deleting
    case NodePoolFallsBack(id) => id in w.cloud.nodePools && w.cloud.nodePools[id].phase == Deleting && s.fallbacks > 0
  }

  /** A finished cluster deletion takes the cluster's node pools along. */
  function DropCluster(c: Cloud, id: Id): Cloud {
    c.(clusters := c.clusters - {id},
       nodePools := map k | k in c.nodePools && c.nodePools[k].cluster != id :: c.nodePools[k])
  }

  function After(s: State, t: DeletionStep): State
    requires Enabled(s, t)
  {
    var w := s.world;
    match t
    case ControlPlanePass => s.(world := CpDelete(w, HEALTHY))
    case MachinePoolPass(name) => s.(world := PoolDelete(w, name, HEALTHY))
    case ShellPass => s.(world := InfraDelete(w, HEALTHY + w.cloud.network))
    case ClusterGone(id) => s.(world := w.(cloud := DropCluster(w.cloud, id)))
    case ClusterFallsBack(id) =>
      State(w.(cloud := w.cloud.(clusters := w.cloud.clusters[id := Available])), s.fallbacks - 1)
    case NodePoolGone(id) => s.(world := w.(cloud := w.cloud.(nodePools := w.cloud.nodePools - {id})))
    case NodePoolFallsBack(id) =>
      State(w.(cloud := w.cloud.(nodePools := w.cloud.nodePools[id := w.cloud.nodePools[id].(phase := Available)])),
            s.fallbacks - 1)
  }

  /** Clusters and node pools whose deletion is not under way. */
  function IdleClusters(c: Cloud): set<Id> {
    set k | k in c.clusters && c.clusters[k] != Deleting
  }

  function IdleNodePools(c: Cloud): set<Id> {
    set k | k in c.nodePools && c.nodePools[k].phase != Deleting
  }

  function CloudMeasure(c: Cloud): nat {
    |c.clusters.Keys| + |IdleClusters(c)| + |c.nodePools.Keys| + |IdleNodePools(c)|
  }

  function ObjectMeasure(w: World): nat {
    (if w.infra.Some? then 1 else 0)
    + (if w.cp.None? then 0 else if w.cp.value.polled then 1 else 2)
    + |w.pools.Keys|
  }

  function Measure(s: State): nat {
    2 * s.fallbacks + CloudMeasure(s.world.cloud) + ObjectMeasure(s.world)
  }

  lemma SmallerSet(a: set<Id>, b: set<Id>)
    requires a <= b
    ensures |a| <= |b|
  {
    assert b == a + (b - a);
  }

  /** Issuing a deletion moves exactly one resource from idle to under way. */
  lemma RequestLowers(c: Cloud, id: Id)
    requires id in c.clusters
    ensures var d := c.(clusters := c.clusters[id := Deleting]);
            if c.clusters[id] == Deleting then d == c else CloudMeasure(d) == CloudMeasure(c) - 1
  {
    var d := c.(clusters := c.clusters[id := Deleting]);
    assert d.clusters.Keys == c.clusters.Keys;
    assert IdleClusters(d) == IdleClusters(c) - {id};
    assert IdleNodePools(d) == IdleNodePools(c);
    if c.clusters[id] == Deleting { assert d.clusters == c.clusters; }
  }

  lemma NodePoolRequestLowers(c: Cloud, id: Id)
    requires id in c.nodePools
    ensures var d := c.(nodePools := c.nodePools[id := c.nodePools[id].(phase := Deleting)]);
            if c.nodePools[id].phase == Deleting then d == c else CloudMeasure(d) == CloudMeasure(c) - 1
  {
    var d := c.(nodePools := c.nodePools[id := c.nodePools[id].(phase := Deleting)]);
    assert d.nodePools.Keys == c.nodePools.Keys;
    assert IdleClusters(d) == IdleClusters(c);
    assert IdleNodePools(d) == IdleNodePools(c) - {id};
    if c.nodePools[id].phase == Deleting { assert d.nodePools == c.nodePools; }
  }

  lemma CpPassLowers(w: World)
    requires TearingDown(w) && w.cp.Some?
    ensures var v := CpDelete(w, HEALTHY);
            TearingDown(v)
            && (v == w || CloudMeasure(v.cloud) + ObjectMeasure(v) < CloudMeasure(w.cloud) + ObjectMeasure(w))
  {
    CpDeleteKeeps(w, HEALTHY);
    var cp := w.cp.value;
    if cp.clusterID.Some? && cp.clusterID.value in w.cloud.clusters {
      RequestLowers(w.cloud, cp.clusterID.value);
    }
  }

  lemma PoolPassLowers(w: World, name: string)
    requires TearingDown(w) && name in w.pools
    ensures var v := PoolDelete(w, name, HEALTHY);
            TearingDown(v)
            && (v == w || CloudMeasure(v.cloud) + ObjectMeasure(v) < CloudMeasure(w.cloud) + ObjectMeasure(w))
  {
    PoolDeleteKeeps(w, name, HEALTHY);
    assert (w.pools - {name}).Keys == w.pools.Keys - {name};
    var id := w.pools[name].nodePoolID;
    if id.Some? && id.value in w.cloud.nodePools {
      NodePoolRequestLowers(w.cloud, id.value);
    }
  }

  lemma ShellPassLowers(w: World)
    requires TearingDown(w) && w.infra.Some?
    ensures var v := InfraDelete(w, HEALTHY + w.cloud.network);
            TearingDown(v)
            && (v == w || CloudMeasure(v.cloud) + ObjectMeasure(v) < CloudMeasure(w.cloud) + ObjectMeasure(w))
  {
    InfraPassKeeps(w, HEALTHY + w.cloud.network, true, 0);
  }

  /** With the control plane gone, a healthy pass lets any pool go. */
  lemma AnyPoolPassHelps(w: World, name: string)
    requires TearingDown(w) && w.cp.None? && name in w.pools
    ensures PoolDelete(w, name, HEALTHY) != w
  {
    assert name !in PoolDelete(w, name, HEALTHY).pools;
  }

  lemma DropLowers(c: Cloud, id: Id)
    requires id in c.clusters && c.clusters[id] == Deleting
    ensures CloudMeasure(DropCluster(c, id)) < CloudMeasure(c)
  {
    var d := DropCluster(c, id);
    SmallerSet(d.nodePools.Keys, c.nodePools.Keys);
    SmallerSet(IdleNodePools(d), IdleNodePools(c));
    assert d.clusters.Keys == c.clusters.Keys - {id};
    assert IdleClusters(d) == IdleClusters(c);
  }

  lemma FallBackRaisesByOne(c: Cloud, id: Id)
    requires id in c.clusters && c.clusters[id] == Deleting
    ensures CloudMeasure(c.(clusters := c.clusters[id := Available])) == CloudMeasure(c) + 1
  {
    var d := c.(clusters := c.clusters[id := Available]);
    assert d.clusters.Keys == c.clusters.Keys;
    assert IdleClusters(d) == IdleClusters(c) + {id};
    assert IdleNodePools(d) == IdleNodePools(c);
  }

  lemma NodePoolDropLowers(c: Cloud, id: Id)
    requires id in c.nodePools && c.nodePools[id].phase == Deleting
    ensures CloudMeasure(c.(nodePools := c.nodePools - {id})) < CloudMeasure(c)
  {
    var d := c.(nodePools := c.nodePools - {id});
    assert d.nodePools.Keys == c.nodePools.Keys - {id};
    assert IdleNodePools(d) == IdleNodePools(c);
    assert IdleClusters(d) == IdleClusters(c);
  }

  lemma NodePoolFallBackRaisesByOne(c: Cloud, id: Id)
    requires id in c.nodePools && c.nodePools[id].phase == Deleting
    ensures CloudMeasure(c.(nodePools := c.nodePools[id := c.nodePools[id].(phase := Available)])) == CloudMeasure(c) + 1
  {
    var d := c.(nodePools := c.nodePools[id := c.nodePools[id].(phase := Available)]);
    assert d.nodePools.Keys == c.nodePools.Keys;
    assert IdleNodePools(d) == IdleNodePools(c) + {id};
    assert IdleClusters(d) == IdleClusters(c);
  }

  predicate IsCloudStep(t: DeletionStep) {
    !t.ControlPlanePass? && !t.MachinePoolPass? && !t.ShellPass?
  }

  lemma CloudStepLowers(s: State, t: DeletionStep)
    requires TearingDown(s.world) && Enabled(s, t) && IsCloudStep(t)
    ensures TearingDown(After(s, t).world) && Measure(After(s, t)) < Measure(s)
  {
    CloudStepLeavesObjects(s, t);
    CloudStepIsAllowed(s, t);
    CloudMovesKeeps(s.world, After(s, t).world.cloud);
    CloudStepMeasure(s, t);
    hide Inv, After, Measure, CloudMay;
  }

  lemma CloudStepLeavesObjects(s: State, t: DeletionStep)
    requires Enabled(s, t) && IsCloudStep(t)
    ensures var w := After(s, t).world; w == s.world.(cloud := w.cloud)
  {
  }

  lemma CloudStepMeasure(s: State, t: DeletionStep)
    requires Enabled(s, t) && IsCloudStep(t)
    ensures Measure(After(s, t)) < Measure(s)
  {
    hide CloudMeasure, DropCluster;
    var c := s.world.cloud;
    match t
    case ClusterGone(id) => DropLowers(c, id);
    case ClusterFallsBack(id) => FallBackRaisesByOne(c, id);
    case NodePoolGone(id) => NodePoolDropLowers(c, id);
    case NodePoolFallsBack(id) => NodePoolFallBackRaisesByOne(c, id);
  }

  /** Finishing or losing a deletion is something the cloud may do on its own. */
  lemma CloudStepIsAllowed(s: State, t: DeletionStep)
    requires Inv(s.world) && Enabled(s, t) && IsCloudStep(t)
    ensures CloudMay(s.world.cloud, After(s, t).world.cloud)
  {
  }

  /** No step raises the measure, and a step that leaves it alone changes nothing at all. */
  lemma StepLowersOrStutters(s: State, t: DeletionStep)
    requires TearingDown(s.world) && Enabled(s, t)
    ensures TearingDown(After(s, t).world)
    ensures After(s, t) == s || Measure(After(s, t)) < Measure(s)
  {
    match t
    case ControlPlanePass => CpPassLowers(s.world);
    case MachinePoolPass(name) => PoolPassLowers(s.world, name);
    case ShellPass => ShellPassLowers(s.world);
    case _ => CloudStepLowers(s, t);
  }

  /** The step that makes progress: deletion is issued or re-issued, or a deletion under way completes. */
  ghost function Helpful(w: World): DeletionStep
    requires !Done(w)
  {
    if w.cp.Some? then
      var id := w.cp.value.clusterID;
      if id.Some? && id.value in w.cloud.clusters && w.cloud.clusters[id.value] == Deleting && w.cp.value.polled
      then ClusterGone(id.value) else ControlPlanePass
    else if w.pools != map[] then
      var name :| name in w.pools; MachinePoolPass(name)
    else ShellPass
  }

  /** No deadlock: until everything is released, some enabled step lowers the measure. */
  lemma NoDeadlock(s: State)
    requires TearingDown(s.world) && !Done(s.world)
    ensures Enabled(s, Helpful(s.world)) && After(s, Helpful(s.world)) != s
  {
  }

  ghost predicate Effective(s: State, run: seq<DeletionStep>)
    decreases |run|
  {
    run == [] || (Enabled(s, run[0]) && After(s, run[0]) != s && Effective(After(s, run[0]), run[1..]))
  }

  ghost function End(s: State, run: seq<DeletionStep>): State
    requires Effective(s, run)
    decreases |run|
  {
    if run == [] then s else End(After(s, run[0]), run[1..])
  }

  /** Whatever order the passes and the cloud take, at most Measure(s) of them have an effect, and a run that
      cannot be extended has released every object and left no recorded cluster, EIP or node pool behind. */
  lemma {:induction false} TeardownTerminates(s: State, run: seq<DeletionStep>)
    requires TearingDown(s.world) && Effective(s, run)
    ensures |run| + Measure(End(s, run)) <= Measure(s)
    ensures TearingDown(End(s, run).world)
    ensures (forall t | Enabled(End(s, run), t) :: After(End(s, run), t) == End(s, run))
            ==> var w := End(s, run).world;
                && Done(w)
                && w.history.clusters !! w.cloud.clusters.Keys
                && w.history.eips !! w.cloud.eips
                && forall e | e in w.history.nodePools :: e.0 !in w.cloud.nodePools
    decreases |run|
  {
    if run == [] {
      if !Done(s.world) { NoDeadlock(s); }
    } else {
      StepLowersOrStutters(s, run[0]);
      TeardownTerminates(After(s, run[0]), run[1..]);
    }
  }

  /** And such a run exists from every world being torn down. */
  lemma {:induction false} TeardownCanFinish(s: State) returns (run: seq<DeletionStep>)
    requires TearingDown(s.world)
    ensures Effective(s, run) && Done(End(s, run).world)
    decreases Measure(s)
  {
    if Done(s.world) {
      run := [];
    } else {
      NoDeadlock(s);
      var t := Helpful(s.world);
      StepLowersOrStutters(s, t);
      var rest := TeardownCanFinish(After(s, t));
      run := [t] + rest;
      assert run[1..] == rest;
    }
  }
}
