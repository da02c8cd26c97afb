/** The node-pool pass as it runs: fields updated in place, one API call after another. */
module NodePoolController {
  import opened Options
  import opened Tags
  import opened NodePools

  class Reconciler {
    var pool: Pool
    var owner: Option<Owner>
    var cloud: map<Id, CloudPool>
    var next: Id
    var calls: nat        // API calls that still succeed

    function View(): World
      reads this
    {
      World(pool, owner, cloud, next)
    }

    constructor (w: World, calls: nat)
      ensures View() == w && this.calls == calls
    {
      pool, owner, cloud, next := w.pool, w.owner, w.cloud, w.next;
      this.calls := calls;
    }

    method Call() returns (ok: bool)
      modifies this`calls
      ensures ok == (old(calls) > 0)
      ensures calls == if ok then old(calls) - 1 else old(calls)
    {
      ok := calls > 0;
      if ok { calls := calls - 1; }
    }

    /** The caller holds `st` exactly: still running with that world and budget, or stopped there. */
    ghost predicate At(st: Stage, failed: Option<Outcome>)
      reads this
    {
      && View() == st.w
      && match st
         case Go(_, n) => failed == None && calls == n
         case Stop(_, o) => failed == Some(o)
    }

    method FindByName(name: string) returns (found: Option<Id>)
      requires UniqueNames(cloud)
      ensures found == Named(cloud, name)
    {
      var left := cloud.Keys;
      while left != {}
        invariant left <= cloud.Keys
        invariant forall i :: i in cloud && i !in left ==> cloud[i].name != name
      {
        var i :| i in left;
        left := left - {i};
        if cloud[i].name == name { return Some(i); }
      }
      return None;
    }

    method CreateNodePool(c: Config) returns (id: Option<Id>)
      requires UniqueNames(cloud)
      requires pool.id == None && c.tagsValid
      modifies this`cloud, this`next, this`calls
      ensures forall k :: k in old(cloud) && old(cloud)[k].name == pool.name ==>
                && cloud == old(cloud) && next == old(next) && (id.Some? ==> id == Some(k))
                && (id.Some? <==> old(calls) >= 2 && OwnedTagKey(c.cluster) in cloud[k].tags
                                  && cloud[k].tags[OwnedTagKey(c.cluster)] == OWNED)
      ensures (forall k :: k in old(cloud) ==> old(cloud)[k].name != pool.name) ==>
                && (id.Some? <==> old(calls) >= 1)
                && (id.Some? ==> id == Some(old(next)) && next == old(next) + 1
                                 && cloud == old(cloud)[old(next) := CloudPool(pool.name, pool.replicas,
                                                                               Desired(c.cluster, ROLE_NODE, c.tags), pool.groups)])
      ensures var st := EnsurePool(c, old(View()), old(calls));
              && (id == None <==> st.Stop?)
              && (id.Some? ==> st == Go(View().(pool := Recorded(pool, id.value)), calls))
              && (id.None? ==> st == Stop(View(), Failed))
    {
      var ok := Call();
      if !ok { return None; }
      var conflict := FindByName(pool.name);
      match conflict
      case None =>
        id := Some(next);
        cloud := cloud[next := CreatedPool(c, pool)];
        next := next + 1;
      case Some(candidate) =>
        ok := Call();                       // findNodePoolIDByName lists the pools
        if !ok || !IsOwned(cloud[candidate].tags, c.cluster) { return None; }
        id := Some(candidate);
    }

    method UpdateNodePool(id: Id, u: Update) returns (ok: bool)
      modifies this`cloud, this`calls
      ensures ok == (old(calls) > 0 && id in old(cloud))
      ensures ok ==> cloud == old(cloud)[id := Updated(old(cloud)[id], u)] && calls == old(calls) - 1
      ensures !ok ==> cloud == old(cloud)
    {
      ok := Call();
      if !ok || id !in cloud { return false; }
      cloud := cloud[id := Updated(cloud[id], u)];
    }

    /** An error from the service stops the pass; `ok` is false then. */
    method ReconcileNodePoolTags(id: Id, cluster: string, user: Option<TagMap>, listed: map<Id, CloudPool>)
      returns (updated: bool, ok: bool)
      requires listed == cloud
      modifies this`cloud, this`calls
      ensures updated ==> ok
      ensures ok ==> updated == Drifted(old(cloud), id, cluster, user)
      ensures ok ==> cloud == TagsReconciled(old(cloud), id, cluster, user)
      ensures !ok ==> cloud == old(cloud) && old(calls) == 0 && Drifted(old(cloud), id, cluster, user)
      ensures ok ==> calls == if updated then old(calls) - 1 else old(calls)
    {
      var want := Wanted(cluster, ROLE_NODE, if user.Some? then user.value else map[]);
      if id !in listed { return false, true; }
      var same := TagsEqual(listed[id].tags, want);
      if same { return false, true; }
      ok := UpdateNodePool(id, UpdateRequest(cluster, [], user));
      updated := ok;
    }

    method DriveCount() returns (failed: Option<Outcome>)
      requires pool.id.Some?
      modifies this
      ensures var s2 := SyncOwner(old(View()), old(calls));
              At(if s2.Stop? then s2 else Scale(s2.w, s2.calls), failed)
    {
      var ok := Call();                     // findOwnerMachinePool
      if !ok { return Some(Failed); }
      var external := owner.Some? && owner.value.external;
      if !external {
        if owner.Some? && owner.value.replicas.Some? && owner.value.replicas.value != pool.replicas {
          pool := pool.(replicas := owner.value.replicas.value);
        }
      }
      if !external && pool.observed != pool.replicas {
        if pool.replicas < 0 { return Some(Failed); }
        ok := Call();
        if !ok || pool.id.value !in cloud { return Some(Failed); }
        cloud := cloud[pool.id.value := cloud[pool.id.value].(count := pool.replicas)];
      }
      return None;
    }

    method RollAttributes(c: Config) returns (failed: Option<Outcome>)
      requires pool.id.Some?
      modifies this
      ensures At(UpdateAttributes(c, old(View()), old(calls)), failed)
    {
      if pool.applied != pool.groups {
        var ok := UpdateNodePool(pool.id.value, UpdateRequest(c.cluster, pool.groups, None));
        if !ok { return Some(Failed); }
        ok := Call();                       // UpgradeNodePool
        if !ok { return Some(Failed); }
        pool := pool.(applied := pool.groups);
      }
      return None;
    }

    method ConvergeTags(c: Config) returns (failed: Option<Outcome>, listed: map<Id, CloudPool>)
      requires pool.id.Some?
      modifies this
      ensures At(ReconcileTags(c, old(View()), old(calls)), failed)
      ensures listed == old(cloud)
    {
      listed := cloud;
      var ok := Call();                     // ListNodePools
      if !ok { return Some(Failed), listed; }
      var updated;
      updated, ok := ReconcileNodePoolTags(pool.id.value, c.cluster, Some(c.tags), listed);
      failed := if ok then None else Some(Failed);
    }

    /** Works from the list taken before the tag update, whose counts are still the cloud's. */
    method RefreshStatus(listed: map<Id, CloudPool>) returns (failed: Option<Outcome>)
      requires pool.id.Some?
      requires listed.Keys == cloud.Keys && forall i :: i in listed ==> listed[i].count == cloud[i].count
      modifies this
      ensures At(Refresh(old(View()), old(calls)), failed)
    {
      var id := pool.id.value;
      if id in listed {
        pool := pool.(observed := listed[id].count);
        if owner.Some? && owner.value.external && owner.value.replicas != Some(listed[id].count) {
          var ok := Call();                 // patch of the MachinePool
          if !ok { return Some(Failed); }
          owner := Some(owner.value.(replicas := Some(listed[id].count)));
        }
        return None;
      }
      pool := pool.(id := None);
      return Some(Recreate);
    }

    method ReconcileNormal(c: Config) returns (outcome: Outcome)
      requires UniqueNames(cloud)
      modifies this
      ensures View() == Pass(c, old(View()), old(calls)).w
      ensures outcome == Pass(c, old(View()), old(calls)).outcome
    {
      hide SyncOwner, Scale, UpdateAttributes, ReconcileTags, Refresh;
      if pool.id == None {
        if !c.tagsValid { return Failed; }
        var id := CreateNodePool(c);
        if id == None { return Failed; }
        pool := Recorded(pool, id.value);
      }
      ghost var w1, n1 := View(), calls;
      StagesKeepTheId(c, w1, n1);
      var failed := DriveCount();
      if failed.Some? { return failed.value; }
      ghost var w3, n3 := View(), calls;
      failed := RollAttributes(c);
      if failed.Some? { return failed.value; }
      AttributesQuiet(c, w3, n3);
      ghost var w4, n4 := View(), calls;
      var listed;
      failed, listed := ConvergeTags(c);
      if failed.Some? { return failed.value; }
      TagsQuiet(c, w4, n4);
      failed := RefreshStatus(listed);
      if failed.Some? { return failed.value; }
      var ok := Call();                     // ListNodes
      if !ok { return Failed; }
      pool := pool.(ready := true);
      outcome := Done;
    }
  }

  lemma StagesKeepTheId(c: Config, w: World, calls: nat)
    requires w.pool.id.Some?
    ensures SyncOwner(w, calls).w.pool.id == w.pool.id
    ensures var s := SyncOwner(w, calls); s.Go? ==> Scale(s.w, s.calls).w.pool.id == w.pool.id
  {
  }
}
