/**
 What the teardown's records do not cover: resources whose recording patch was lost, and the public IP of a cluster
 that was created again.
 */
module TeardownLeaks {
  import opened Options
  import opened Teardown

  // ---------------------------------------------------------------- clusters nobody recorded

  /** A normal control-plane pass that finds the cluster by name after a conflict, may adopt it, and is persisted. */
  ghost predicate Adopts(w: World, s: Step, c: Id) {
    && s.CpPass? && s.persist && s.h >= 2 && s.found == Some(c)
    && w.cp.Some? && !w.cp.value.deleting && w.cp.value.nameMatches && w.cp.value.clusterID.None?
    && w.infraProvisioned && w.infra.Some?
    && c in w.cloud.clusters && w.cloud.clusters[c] in {Available, Creating} && c in w.cloud.named && c in w.cloud.tagged
  }

  /** The cloud drops it. */
  ghost predicate Drops(s: Step, c: Id) {
    s.CloudMoves? && c !in s.cloud.clusters
  }

  lemma CpNormalRecordsIff(w: World, h: nat, persist: bool, found: Option<Id>, public: bool, c: Id)
    requires Inv(w) && w.cp.Some? && !w.cp.value.deleting && c in w.cloud.clusters && c !in w.history.clusters
    ensures var v := CpNormal(w, h, persist, found, public);
            && (c in v.history.clusters <==> Adopts(w, CpPass(h, persist, found, public), c))
            && c in v.cloud.clusters && v.cloud.clusters[c] == w.cloud.clusters[c]
  {
    hide ClustersAccounted, NodePoolsAccounted, PoolsGuarded, CpObserve;
    assert c < w.cloud.next;
    var cp := w.cp.value.(finalizer := true);
    if cp.clusterID.Some? {
      RecordedIsAccounted(w, c);
      ObserveRecords(w, cp, h, persist, public);
    } else {
      var (cloud, id) := CreateCluster(w.cloud, found);
      if id.Some? { ObserveRecords(w.(cloud := cloud), cp.(clusterID := id), h, persist, public); }
    }
  }

  lemma RecordedIsAccounted(w: World, c: Id)
    requires Inv(w) && c !in w.history.clusters
    ensures RecordedCluster(w.cp) != Some(c)
  {
  }

  /** What the rest of a pass does once it has an ID to look at. */
  lemma ObserveRecords(w: World, cp: ControlPlane, h: nat, persist: bool, public: bool)
    requires cp.clusterID.Some?
    ensures var v := CpObserve(w, cp, h, persist, public);
            var binds := h >= 4 && public && cp.eipID.None? && cp.clusterID.value in w.cloud.clusters
                         && w.cloud.clusters[cp.clusterID.value] == Available;
            && v.cloud.clusters == w.cloud.clusters
            && v.history.clusters == w.history.clusters
                 + (if persist && (h < 3 || cp.clusterID.value in w.cloud.clusters) then {cp.clusterID.value} else {})
            && v.cloud.next == (if binds then w.cloud.next + 1 else w.cloud.next)
            && v.cloud.eips == (if binds then w.cloud.eips + {w.cloud.next} else w.cloud.eips)
            && v.history.eips == w.history.eips
                 + (if !persist then {} else if binds then {w.cloud.next} else if cp.eipID.Some? then {cp.eipID.value} else {})
  {
  }

  lemma CpDeleteLeavesUnrecorded(w: World, h: nat, c: Id)
    requires Inv(w) && w.cp.Some? && w.cp.value.deleting && c in w.cloud.clusters && c !in w.history.clusters
    ensures var v := CpDelete(w, h);
            v.history == w.history && c in v.cloud.clusters && v.cloud.clusters[c] == w.cloud.clusters[c]
  {
    RecordedIsAccounted(w, c);
  }

  lemma UnrecordedStep(w: World, s: Step, c: Id)
    requires Inv(w) && Allowed(w, s) && c in w.cloud.clusters && c !in w.history.clusters
    ensures c in Next(w, s).history.clusters <==> Adopts(w, s, c)
    ensures !s.CloudMoves? ==> c in Next(w, s).cloud.clusters && Next(w, s).cloud.clusters[c] == w.cloud.clusters[c]
    ensures c in Next(w, s).cloud.clusters <==> !Drops(s, c)
  {
    hide Inv, CpNormal, CpDelete;
    if s.CpPass? {
      if w.cp.value.deleting { CpDeleteLeavesUnrecorded(w, s.h, c); }
      else { CpNormalRecordsIff(w, s.h, s.persist, s.found, s.public, c); }
    }
  }

  /** A pass forgets nothing it ever recorded. */
  lemma StepRemembers(w: World, s: Step)
    requires Allowed(w, s)
    ensures w.history.clusters <= Next(w, s).history.clusters
  {
    hide CreateCluster, CreateNodePool;
  }

  lemma {:induction false} RunRemembers(w: World, run: seq<Step>)
    requires Valid(w, run)
    ensures w.history.clusters <= After(w, run).history.clusters
    decreases |run|
  {
    hide Next;
    if run != [] {
      StepRemembers(w, run[0]);
      RunRemembers(Next(w, run[0]), run[1..]);
    }
  }

  /** A normal pass hands out new IDs only, and records what is there: its own records, a live cluster, a new IP. */
  lemma CpNormalRecords(w: World, h: nat, persist: bool, found: Option<Id>, public: bool)
    requires w.cp.Some? && !w.cp.value.deleting
    ensures var v := CpNormal(w, h, persist, found, public);
            && w.cloud.next <= v.cloud.next
            && (forall k | k in v.cloud.clusters :: k in w.cloud.clusters || k == w.cloud.next < v.cloud.next)
            && (forall k | k in v.history.clusters ::
                  k in w.history.clusters || k in v.cloud.clusters || RecordedCluster(w.cp) == Some(k))
            && w.cloud.eips <= v.cloud.eips
            && (forall k | k in v.history.eips ::
                  k in w.history.eips || w.cloud.next <= k || RecordedEip(w.cp) == Some(k))
  {
    hide CpObserve;
    var cp := w.cp.value.(finalizer := true);
    if cp.clusterID.Some? {
      ObserveRecords(w, cp, h, persist, public);
    } else {
      var (cloud, id) := CreateCluster(w.cloud, found);
      if id.Some? { ObserveRecords(w.(cloud := cloud), cp.(clusterID := id), h, persist, public); }
    }
  }

  lemma CpDeleteRecords(w: World, h: nat)
    requires w.cp.Some? && w.cp.value.deleting
    ensures var v := CpDelete(w, h);
            && v.cloud.next == w.cloud.next && v.cloud.clusters.Keys == w.cloud.clusters.Keys && v.history == w.history
            && (forall k | k in w.cloud.eips && RecordedEip(w.cp) != Some(k) :: k in v.cloud.eips)
  {
  }

  lemma PoolPassLeavesRecords(w: World, s: Step)
    requires Allowed(w, s) && s.PoolPass?
    ensures var v := Next(w, s);
            && w.cloud.next <= v.cloud.next && v.cloud.clusters == w.cloud.clusters && v.cloud.eips == w.cloud.eips
            && v.history.clusters == w.history.clusters && v.history.eips == w.history.eips
  {
  }

  /** An ID that is gone from the cloud is handed out to no one, and recorded by no one. */
  lemma GoneStep(w: World, s: Step, c: Id)
    requires Inv(w) && Allowed(w, s) && c < w.cloud.next && c !in w.cloud.clusters && c !in w.history.clusters
    ensures var v := Next(w, s); c < v.cloud.next && c !in v.cloud.clusters && c !in v.history.clusters
  {
    RecordedIsAccounted(w, c);
    hide Inv, CpNormal, CpDelete, PoolDelete, PoolNormal;
    if s.PoolPass? { PoolPassLeavesRecords(w, s); }
    if s.CpPass? {
      if w.cp.value.deleting { CpDeleteRecords(w, s.h); } else { CpNormalRecords(w, s.h, s.persist, s.found, s.public); }
    }
  }

  lemma {:induction false} GoneStaysUnrecorded(w: World, run: seq<Step>, c: Id)
    requires Inv(w) && Valid(w, run) && c < w.cloud.next && c !in w.cloud.clusters && c !in w.history.clusters
    ensures c !in After(w, run).history.clusters
    decreases |run|
  {
    hide Inv, Next, Allowed;
    if run != [] {
      GoneStep(w, run[0], c);
      StepKeeps(w, run[0]);
      GoneStaysUnrecorded(Next(w, run[0]), run[1..], c);
    }
  }

  lemma DroppedIsBelowNext(w: World, s: Step, c: Id)
    requires Inv(w) && Allowed(w, s) && c in w.cloud.clusters && Drops(s, c)
    ensures c < Next(w, s).cloud.next && c !in Next(w, s).cloud.clusters
  {
  }

  /** Some step of the run adopts the cluster before the cloud drops it. */
  ghost predicate AdoptedInTime(w: World, run: seq<Step>, c: Id)
    requires Valid(w, run)
    decreases |run|
  {
    run != [] && (Adopts(w, run[0], c) || (!Drops(run[0], c) && AdoptedInTime(Next(w, run[0]), run[1..], c)))
  }

  ghost predicate DroppedOnTheWay(run: seq<Step>, c: Id) {
    exists s :: s in run && Drops(s, c)
  }

  /** A cluster whose creating pass lost its patch, or any other unrecorded one, is recorded in a run exactly when a
      persisted pass adopts it in time; until then no controller deletes it or asks for it, so that if the control plane
      is released first, the cluster leaks. */
  lemma {:induction false} UnrecordedClusterLeaksUnlessAdopted(w: World, run: seq<Step>, c: Id)
    requires Inv(w) && Valid(w, run) && c in w.cloud.clusters && c !in w.history.clusters
    ensures !AdoptedInTime(w, run, c) ==>
              c !in After(w, run).history.clusters && (c in After(w, run).cloud.clusters || DroppedOnTheWay(run, c))
    ensures AdoptedInTime(w, run, c) ==> c in After(w, run).history.clusters
    decreases |run|
  {
    hide Inv, Allowed, Next, Adopts;
    if run != [] {
      var v := Next(w, run[0]);
      UnrecordedStep(w, run[0], c);
      StepKeeps(w, run[0]);
      StepRemembers(w, run[0]);
      if Adopts(w, run[0], c) {
        RunRemembers(v, run[1..]);
      } else if Drops(run[0], c) {
        DroppedIsBelowNext(w, run[0], c);
        GoneStaysUnrecorded(v, run[1..], c);
        assert run[0] in run;
      } else {
        UnrecordedClusterLeaksUnlessAdopted(v, run[1..], c);
        assert forall s :: s in run[1..] ==> s in run;
      }
    }
  }

  // ---------------------------------------------------------------- public IPs nobody recorded

  /** Where a pass gets a public IP: a declared one that is not recorded yet, on an available cluster. */
  ghost predicate BindsEip(w: World, s: Step) {
    && s.CpPass? && s.h >= 4 && s.public
    && w.cp.Some? && !w.cp.value.deleting && w.cp.value.nameMatches && w.cp.value.eipID.None?
    && w.infraProvisioned && w.infra.Some?
    && var (cloud, id) := if w.cp.value.clusterID.Some? then (w.cloud, w.cp.value.clusterID)
                          else CreateCluster(w.cloud, s.found);
       id.Some? && id.value in cloud.clusters && cloud.clusters[id.value] == Available
  }

  /** A pass gets a new public IP exactly there, and records it exactly if its patch goes through. */
  lemma BoundEipIsRecordedIff(w: World, s: Step)
    requires Allowed(w, s) && s.CpPass? && !w.cp.value.deleting
    requires CloudWellFormed(w.cloud) && forall e | e in w.history.eips :: e < w.cloud.next
    ensures var v := Next(w, s);
            && (BindsEip(w, s) <==> v.cloud.eips != w.cloud.eips)
            && (BindsEip(w, s) ==> v.cloud.eips == w.cloud.eips + {v.cloud.next - 1} && v.cloud.next - 1 !in w.cloud.eips
                                   && (v.cloud.next - 1 in v.history.eips <==> s.persist))
  {
    hide CpObserve;
    var cp := w.cp.value.(finalizer := true);
    if cp.clusterID.Some? {
      ObserveRecords(w, cp, s.h, s.persist, s.public);
    } else {
      var (cloud, id) := CreateCluster(w.cloud, s.found);
      if id.Some? { ObserveRecords(w.(cloud := cloud), cp.(clusterID := id), s.h, s.persist, s.public); }
    }
  }

  lemma UnrecordedEipStep(w: World, s: Step, e: Id)
    requires Inv(w) && Allowed(w, s) && e < w.cloud.next && e !in w.history.eips
    ensures var v := Next(w, s);
            && e < v.cloud.next && e !in v.history.eips
            && (e in w.cloud.eips && !(s.CloudMoves? && e !in s.cloud.eips) ==> e in v.cloud.eips)
  {
    assert RecordedEip(w.cp) != Some(e);
    hide Inv, CpNormal, CpDelete, PoolDelete, PoolNormal;
    if s.PoolPass? { PoolPassLeavesRecords(w, s); }
    if s.CpPass? {
      if w.cp.value.deleting { CpDeleteRecords(w, s.h); } else { CpNormalRecords(w, s.h, s.persist, s.found, s.public); }
    }
  }

  /** A public IP whose binding pass lost its patch is never recorded and never released by any run: unlike a cluster it is
      not looked up again. */
  lemma {:induction false} UnrecordedEipLeaks(w: World, run: seq<Step>, e: Id)
    requires Inv(w) && Valid(w, run) && e in w.cloud.eips && e !in w.history.eips
    ensures e !in After(w, run).history.eips
    ensures e in After(w, run).cloud.eips || exists s :: s in run && s.CloudMoves? && e !in s.cloud.eips
    decreases |run|
  {
    UnrecordedEipRun(w, run, e);
  }

  lemma {:induction false} UnrecordedEipRun(w: World, run: seq<Step>, e: Id)
    requires Inv(w) && Valid(w, run) && e < w.cloud.next && e !in w.history.eips
    ensures e !in After(w, run).history.eips
    ensures e in w.cloud.eips ==>
              e in After(w, run).cloud.eips || exists s :: s in run && s.CloudMoves? && e !in s.cloud.eips
    decreases |run|
  {
    hide Inv, Next, Allowed;
    if run != [] {
      UnrecordedEipStep(w, run[0], e);
      StepKeeps(w, run[0]);
      UnrecordedEipRun(Next(w, run[0]), run[1..], e);
      assert forall s :: s in run[1..] ==> s in run;
      assert run[0] in run;
    }
  }

  /** While the control plane lives, its recorded IP stays and no pass gets another one. */
  ghost predicate SameEipThroughout(w: World, run: seq<Step>, e: Id)
    requires Valid(w, run)
    decreases |run|
  {
    w.cp.Some? ==>
      && w.cp.value.eipID == Some(e)
      && (run != [] ==> !BindsEip(w, run[0]) && SameEipThroughout(Next(w, run[0]), run[1..], e))
  }

  lemma EipStays(w: World, s: Step, e: Id)
    requires RecordedEip(w.cp) == Some(e) && Allowed(w, s)
    ensures Next(w, s).cp.Some? ==> RecordedEip(Next(w, s).cp) == Some(e)
  {
    hide CreateCluster, CreateNodePool;
  }

  /** The IP is bound once per control-plane object. A reset after the cluster is gone keeps its ID, so the cluster created
      in its place never gets one. */
  lemma {:induction false} RecreatedClusterGetsNoEip(w: World, run: seq<Step>, e: Id)
    requires Valid(w, run) && RecordedEip(w.cp) == Some(e)
    ensures SameEipThroughout(w, run, e)
    decreases |run|
  {
    hide Next, Allowed;
    if run != [] {
      EipStays(w, run[0], e);
      if Next(w, run[0]).cp.Some? { RecreatedClusterGetsNoEip(Next(w, run[0]), run[1..], e); }
    }
  }

  // ---------------------------------------------------------------- a network nobody recorded

  /** A delete pass lets the CCECluster go with its managed network still there exactly when no patch ever recorded that
      network: the pass then skips the network. */
  lemma ReleasedShellLeavesNetworkIff(w: World, h: nat)
    requires w.infra.Some? && w.infra.value.deleting && w.infra.value.managed
    ensures var v := InfraDelete(w, h);
            v.infra.None? && v.cloud.network > 0
            <==> w.cp.None? && h >= 3 && !w.infra.value.recorded && w.cloud.network > 0
  {
  }
}
