/**
 The node-pool controller: creating or adopting the pool, driving its node count from the owning
 MachinePool, and keeping its tags. A pass is a chain of stages; `calls` is the number of API calls
 that still succeed before one fails.
 */
module NodePools {
  import opened Options
  import opened Tags

  type Id = nat

  datatype CloudPool = CloudPool(name: string, count: int, tags: TagMap, groups: seq<string>)

  /** The CAPI MachinePool that owns the infrastructure pool. */
  datatype Owner = Owner(replicas: Option<int>, external: bool)

  datatype Pool = Pool(
    name: string, id: Option<Id>,
    replicas: int, observed: int,                        // spec.replicas, status.replicas
    groups: seq<string>, applied: seq<string>,           // effective and status.lastAppliedSecurityGroups
    ready: bool)

  datatype World = World(pool: Pool, owner: Option<Owner>, cloud: map<Id, CloudPool>, next: Id)

  /** The cluster the pool belongs to, its merged tags, and whether admission's rules accept them. */
  datatype Config = Config(cluster: string, tags: TagMap, tagsValid: bool)

  datatype Outcome = Failed | Recreate | Done

  datatype Stage = Go(w: World, calls: nat) | Stop(w: World, outcome: Outcome)

  // ---------------------------------------------------------------- the platform

  /** An update request. The platform reads a missing node count as zero unless told to ignore it. */
  datatype Update = Update(ignoreCount: bool, count: Option<int>, groups: Option<seq<string>>, tags: Option<TagMap>)

  function Updated(p: CloudPool, u: Update): CloudPool {
    p.(count := if u.ignoreCount then p.count else if u.count.Some? then u.count.value else 0,
       groups := if u.groups.Some? then u.groups.value else p.groups,
       tags := if u.tags.Some? then u.tags.value else p.tags)
  }

  /** A request with user tags updates only those; one without (nil in Go) takes the attribute path. */
  function UpdateRequest(cluster: string, groups: seq<string>, user: Option<TagMap>, flag: bool := true): Update {
    if user.Some? then Update(flag, None, None, Some(Desired(cluster, ROLE_NODE, user.value)))
    else Update(flag, None, Some(groups), None)
  }

  predicate UniqueNames(cloud: map<Id, CloudPool>) {
    forall i, j :: i in cloud && j in cloud && cloud[i].name == cloud[j].name ==> i == j
  }

  predicate Known(w: World) {
    UniqueNames(w.cloud) && forall i :: i in w.cloud ==> i < w.next
  }

  // ---------------------------------------------------------------- tags

  /** tagsEqual: equal sizes and every entry of one in the other. */
  method TagsEqual(a: TagMap, b: TagMap) returns (equal: bool)
    ensures equal <==> a == b
  {
    if |a| != |b| { return false; }
    var left := a.Keys;
    while left != {}
      invariant left <= a.Keys
      invariant forall k :: k in a && k !in left ==> k in b && a[k] == b[k]
    {
      var k :| k in left;
      left := left - {k};
      if k !in b || b[k] != a[k] { return false; }
    }
    SubsetSize(a.Keys, b.Keys);
    return true;
  }

  function WantedTags(cluster: string, user: Option<TagMap>): TagMap {
    Desired(cluster, ROLE_NODE, if user.Some? then user.value else map[])
  }

  predicate Drifted(cloud: map<Id, CloudPool>, id: Id, cluster: string, user: Option<TagMap>) {
    id in cloud && cloud[id].tags != WantedTags(cluster, user)
  }

  function TagsReconciled(
    cloud: map<Id, CloudPool>, id: Id, cluster: string, user: Option<TagMap>, flag: bool := true): map<Id, CloudPool>
  {
    if Drifted(cloud, id, cluster, user) then cloud[id := Updated(cloud[id], UpdateRequest(cluster, [], user, flag))]
    else cloud
  }

  /**
   One reconcile is a fixpoint, and touches nothing but the tags, exactly when tags were given. A nil
   map is not an empty one: the request then goes down the attribute path, resets the pool's security
   groups, leaves the tags drifted, and does so again on every pass.
   */
  lemma TagFixpointIff(cloud: map<Id, CloudPool>, id: Id, cluster: string, user: Option<TagMap>)
    ensures var after := TagsReconciled(cloud, id, cluster, user);
            && (Drifted(after, id, cluster, user) <==> Drifted(cloud, id, cluster, user) && user == None)
            && (user.Some? && id in cloud ==> after == cloud[id := cloud[id].(tags := WantedTags(cluster, user))])
            && (Drifted(cloud, id, cluster, None) && user == None ==> after[id] == cloud[id].(groups := []))
  {
  }

  // ---------------------------------------------------------------- one pass

  ghost function Named(cloud: map<Id, CloudPool>, name: string): (r: Option<Id>)
    ensures r.Some? ==> r.value in cloud && cloud[r.value].name == name
    ensures r.None? ==> forall i :: i in cloud ==> cloud[i].name != name
  {
    if i :| i in cloud && cloud[i].name == name then Some(i) else None
  }

  function CreatedPool(c: Config, p: Pool): CloudPool {
    CloudPool(p.name, p.replicas, Desired(c.cluster, ROLE_NODE, c.tags), p.groups)
  }

  function Recorded(p: Pool, id: Id): Pool {
    p.(id := Some(id), observed := p.replicas, applied := p.groups)
  }

  /** Create the pool; on a name conflict adopt the existing one, if it carries our tag. */
  ghost function EnsurePool(c: Config, w: World, calls: nat): Stage {
    if w.pool.id.Some? then Go(w, calls)
    else if !c.tagsValid || calls == 0 then Stop(w, Failed)
    else match Named(w.cloud, w.pool.name)
      case None =>
        Go(w.(pool := Recorded(w.pool, w.next), cloud := w.cloud[w.next := CreatedPool(c, w.pool)], next := w.next + 1), calls - 1)
      case Some(id) =>
        if calls == 1 || !IsOwned(w.cloud[id].tags, c.cluster) then Stop(w, Failed)
        else Go(w.(pool := Recorded(w.pool, id)), calls - 2)
  }

  predicate External(w: World) { w.owner.Some? && w.owner.value.external }

  function SyncOwner(w: World, calls: nat): Stage {
    if calls == 0 then Stop(w, Failed)
    else if !External(w) && w.owner.Some? && w.owner.value.replicas.Some?
    then Go(w.(pool := w.pool.(replicas := w.owner.value.replicas.value)), calls - 1)
    else Go(w, calls - 1)
  }

  function Scale(w: World, calls: nat): Stage
    requires w.pool.id.Some?
  {
    var id := w.pool.id.value;
    if External(w) || w.pool.observed == w.pool.replicas then Go(w, calls)
    else if w.pool.replicas < 0 || calls == 0 || id !in w.cloud then Stop(w, Failed)
    else Go(w.(cloud := w.cloud[id := w.cloud[id].(count := w.pool.replicas)]), calls - 1)
  }

  function UpdateAttributes(c: Config, w: World, calls: nat, flag: bool := true): Stage
    requires w.pool.id.Some?
  {
    var id := w.pool.id.value;
    if w.pool.applied == w.pool.groups then Go(w, calls)
    else if calls == 0 || id !in w.cloud then Stop(w, Failed)
    else
      var w1 := w.(cloud := w.cloud[id := Updated(w.cloud[id], UpdateRequest(c.cluster, w.pool.groups, None, flag))]);
      if calls == 1 then Stop(w1, Failed)      // UpgradeNodePool failed
      else Go(w1.(pool := w.pool.(applied := w.pool.groups)), calls - 2)
  }

  function ReconcileTags(c: Config, w: World, calls: nat, flag: bool := true): Stage
    requires w.pool.id.Some?
  {
    var id := w.pool.id.value;
    if calls == 0 then Stop(w, Failed)         // ListNodePools failed
    else if !Drifted(w.cloud, id, c.cluster, Some(c.tags)) then Go(w, calls - 1)
    else if calls == 1 then Stop(w, Failed)
    else Go(w.(cloud := TagsReconciled(w.cloud, id, c.cluster, Some(c.tags), flag)), calls - 2)
  }

  function Refresh(w: World, calls: nat): Stage
    requires w.pool.id.Some?
  {
    var id := w.pool.id.value;
    if id !in w.cloud then Stop(w.(pool := w.pool.(id := None)), Recreate)
    else
      var w1 := w.(pool := w.pool.(observed := w.cloud[id].count));
      if !External(w) || w.owner.value.replicas == Some(w.cloud[id].count) then Go(w1, calls)
      else if calls == 0 then Stop(w1, Failed)
      else Go(w1.(owner := Some(w.owner.value.(replicas := Some(w.cloud[id].count)))), calls - 1)
  }

  function Finish(w: World, calls: nat): Stage {
    if calls == 0 then Stop(w, Failed) else Stop(w.(pool := w.pool.(ready := true)), Done)
  }

  ghost function Pass(c: Config, w: World, calls: nat): (s: Stage)
    ensures s.Stop?
  {
    var s1 := EnsurePool(c, w, calls);
    if s1.Stop? then s1 else Maintain(c, s1.w, s1.calls)
  }

  /** The stages of a pass once the pool has an ID. */
  function Maintain(c: Config, w: World, calls: nat): (s: Stage)
    requires w.pool.id.Some?
    ensures s.Stop?
  {
    MaintainFlagged(c, w, calls, true, true)
  }

  /** The same with the ignore flag set, or left out, in the request of each of the two update calls. */
  function MaintainFlagged(c: Config, w: World, calls: nat, onAttributes: bool, onTags: bool): Stage
    requires w.pool.id.Some?
  {
    var s2 := SyncOwner(w, calls);
    if s2.Stop? then s2 else
    var s3 := Scale(s2.w, s2.calls);
    if s3.Stop? then s3 else
    var s4 := UpdateAttributes(c, s3.w, s3.calls, onAttributes);
    if s4.Stop? then s4 else
    var s5 := ReconcileTags(c, s4.w, s4.calls, onTags);
    if s5.Stop? then s5 else
    var s6 := Refresh(s5.w, s5.calls);
    if s6.Stop? then s6 else
    Finish(s6.w, s6.calls)
  }

  // ---------------------------------------------------------------- node count integrity

  /**
   Whatever fails, a pass removes no pool and touches none but its own; it changes an existing pool's
   expected count only to spec.replicas, never under an external autoscaler; and a pool it creates
   starts with spec.replicas, before or after syncing the owner.
   */
  ghost predicate CountsKept(w: World, s: World) {
    && (forall i :: i in w.cloud ==> i in s.cloud)
    && (forall i :: i in s.cloud && i !in w.cloud ==>
          w.pool.id == None && i == w.next && s.cloud[i].count in {w.pool.replicas, s.pool.replicas})
    && (forall i :: i in w.cloud && s.cloud[i] != w.cloud[i] ==> s.cloud[i].name == w.pool.name || w.pool.id == Some(i))
    && (forall i :: i in w.cloud && s.cloud[i].count != w.cloud[i].count ==> s.cloud[i].count == s.pool.replicas && !External(w))
  }

  lemma PassKeepsCounts(c: Config, w: World, calls: nat)
    requires Known(w)
    ensures Known(Pass(c, w, calls).w)
    ensures CountsKept(w, Pass(c, w, calls).w)
  {
    hide *;
    var s1 := EnsurePool(c, w, calls);
    EnsureStops(c, w, calls);
    if s1.Go? {
      EnsuredPool(c, w, calls);
      MaintainKeeps(c, s1.w, s1.calls);
      EnsuredThenMoved(c, w, s1.w, Maintain(c, s1.w, s1.calls).w);
    }
  }

  /** The pool is the recorded one, or new, or an existing one with its name; nothing else differs. */
  predicate Ensured(c: Config, w: World, s: World) {
    && s.pool.id.Some? && s.owner == w.owner && s.pool.name == w.pool.name && s.pool.replicas == w.pool.replicas
    && (|| s == w
        || (w.pool.id == None && s.pool.id == Some(w.next) && s.next == w.next + 1
            && s.cloud == w.cloud[w.next := CreatedPool(c, w.pool)]
            && forall i :: i in w.cloud ==> w.cloud[i].name != w.pool.name)
        || (w.pool.id == None && s.next == w.next && s.cloud == w.cloud && s.pool.id.value in w.cloud
            && w.cloud[s.pool.id.value].name == w.pool.name))
  }

  lemma EnsuredPool(c: Config, w: World, calls: nat)
    requires EnsurePool(c, w, calls).Go?
    ensures Ensured(c, w, EnsurePool(c, w, calls).w)
  {
  }

  lemma EnsureStops(c: Config, w: World, calls: nat)
    requires Known(w)
    ensures var s := EnsurePool(c, w, calls);
            if s.Stop? then Pass(c, w, calls).w == w && CountsKept(w, w)
            else s.w.pool.id.Some? && Pass(c, w, calls).w == Maintain(c, s.w, s.calls).w
  {
  }

  lemma EnsuredThenMoved(c: Config, w: World, mid: World, s: World)
    requires Known(w) && Ensured(c, w, mid) && OnlyMoved(mid, s, mid.pool.id.value)
    ensures Known(s) && CountsKept(w, s)
  {
    hide Desired;
    assert forall i :: i in s.cloud ==> i in mid.cloud && s.cloud[i].name == mid.cloud[i].name;
  }

  /** Only entry `id` moved, and its count only to the replicas of `s`. */
  predicate OnlyMoved(w: World, s: World, id: Id) {
    && s.cloud.Keys == w.cloud.Keys && s.next == w.next
    && (forall i :: i in w.cloud && i != id ==> s.cloud[i] == w.cloud[i])
    && (id in w.cloud ==>
          && s.cloud[id].name == w.cloud[id].name
          && (s.cloud[id].count != w.cloud[id].count ==> s.cloud[id].count == s.pool.replicas && !External(w)))
  }

  /** The stages after the scale call leave every count alone. */
  predicate Quiet(w: World, s: World, id: Id) {
    && s.cloud.Keys == w.cloud.Keys && s.next == w.next
    && (forall i :: i in w.cloud && i != id ==> s.cloud[i] == w.cloud[i])
    && (id in w.cloud ==> s.cloud[id].name == w.cloud[id].name && s.cloud[id].count == w.cloud[id].count)
    && s.pool.replicas == w.pool.replicas && s.pool.groups == w.pool.groups
  }

  lemma AttributesQuiet(c: Config, w: World, calls: nat)
    requires w.pool.id.Some?
    ensures var s := UpdateAttributes(c, w, calls);
            Quiet(w, s.w, w.pool.id.value) && s.w.owner == w.owner && s.w.pool.id == w.pool.id
            && s.w.pool.observed == w.pool.observed
            && (s.Stop? ==> s.outcome == Failed) && (s.Go? ==> s.w.pool.applied == s.w.pool.groups)
            && (s.Go? && w.pool.id.value in w.cloud ==>
                  s.w.cloud[w.pool.id.value].groups ==
                  if w.pool.applied == w.pool.groups then w.cloud[w.pool.id.value].groups else w.pool.groups)
  {
  }

  lemma TagsQuiet(c: Config, w: World, calls: nat)
    requires w.pool.id.Some?
    ensures var s := ReconcileTags(c, w, calls);
            Quiet(w, s.w, w.pool.id.value) && s.w.owner == w.owner && s.w.pool == w.pool
            && (s.Stop? ==> s.outcome == Failed)
            && (s.Go? && w.pool.id.value in w.cloud ==>
                  s.w.cloud[w.pool.id.value].tags == WantedTags(c.cluster, Some(c.tags)))
            && (forall i :: i in w.cloud ==> s.w.cloud[i].groups == w.cloud[i].groups)
  {
  }

  lemma RefreshQuiet(w: World, calls: nat)
    requires w.pool.id.Some?
    ensures var s := Refresh(w, calls);
            Quiet(w, s.w, w.pool.id.value) && s.w.cloud == w.cloud && s.w.pool.applied == w.pool.applied
            && (s.Stop? ==> s.outcome != Done)
            && (s.Go? ==> s.w.pool.id == w.pool.id && w.pool.id.value in w.cloud
                          && s.w.pool.observed == w.cloud[w.pool.id.value].count
                          && (if External(w) then s.w.owner == Some(Owner(Some(s.w.pool.observed), true))
                              else s.w.owner == w.owner))
  {
  }

  lemma ScaleMoves(w: World, calls: nat)
    requires w.pool.id.Some?
    ensures var s := Scale(w, calls);
            OnlyMoved(w, s.w, w.pool.id.value) && s.w.pool == w.pool && s.w.owner == w.owner
            && (s.Stop? ==> s.outcome == Failed)
            && (forall i :: i in w.cloud ==> s.w.cloud[i].groups == w.cloud[i].groups)
            && (s.Go? && w.pool.id.value in w.cloud && !External(w) ==>
                  (s.w.cloud[w.pool.id.value].count == w.pool.replicas
                   <==> w.pool.observed != w.pool.replicas || w.cloud[w.pool.id.value].count == w.pool.replicas))
  {
  }

  lemma MaintainKeeps(c: Config, w: World, calls: nat)
    requires w.pool.id.Some?
    ensures OnlyMoved(w, Maintain(c, w, calls).w, w.pool.id.value)
  {
    hide Scale, UpdateAttributes, ReconcileTags, Refresh, Quiet, OnlyMoved;
    var id := w.pool.id.value;
    var s2 := SyncOwner(w, calls);
    MovedThenQuiet(w, w, w, id);
    if s2.Go? {
      ScaleMoves(s2.w, s2.calls);
      var s3 := Scale(s2.w, s2.calls);
      MovedThenQuiet(s2.w, s3.w, s3.w, id);
      SyncMovesNothing(w, calls, s3.w);
      if s3.Go? {
        AttributesQuiet(c, s3.w, s3.calls);
        var s4 := UpdateAttributes(c, s3.w, s3.calls);
        MovedThenQuiet(w, s3.w, s4.w, id);
        if s4.Go? {
          TagsQuiet(c, s4.w, s4.calls);
          var s5 := ReconcileTags(c, s4.w, s4.calls);
          MovedThenQuiet(w, s4.w, s5.w, id);
          if s5.Go? {
            RefreshQuiet(s5.w, s5.calls);
            var s6 := Refresh(s5.w, s5.calls);
            MovedThenQuiet(w, s5.w, s6.w, id);
            if s6.Go? { FinishQuiet(s6.w, s6.calls, id); MovedThenQuiet(w, s6.w, Finish(s6.w, s6.calls).w, id); }
          }
        }
      }
    }
  }

  lemma FinishQuiet(w: World, calls: nat, id: Id)
    ensures Quiet(w, Finish(w, calls).w, id)
  {
  }

  lemma SyncMovesNothing(w: World, calls: nat, s: World)
    requires w.pool.id.Some?
    ensures OnlyMoved(SyncOwner(w, calls).w, s, w.pool.id.value) ==> OnlyMoved(w, s, w.pool.id.value)
    ensures SyncOwner(w, calls).Stop? ==> OnlyMoved(w, SyncOwner(w, calls).w, w.pool.id.value)
  {
  }

  lemma MovedThenQuiet(w: World, mid: World, s: World, id: Id)
    ensures OnlyMoved(w, mid, id) && Quiet(mid, s, id) ==> OnlyMoved(w, s, id)
    ensures OnlyMoved(w, w, id) && Quiet(w, w, id)
  {
  }

  // ---------------------------------------------------------------- whose pools a pass touches

  ghost predicate Unowned(w: World, c: Config, id: Id) {
    id in w.cloud && !(OwnedTagKey(c.cluster) in w.cloud[id].tags && w.cloud[id].tags[OwnedTagKey(c.cluster)] == OWNED)
  }

  /** What a pass without a recorded pool gets: a new one, as declared, if the name is free; the one that has the name, if
      it carries the owned tag; else nothing, and then nothing has changed. */
  lemma EnsuredIff(c: Config, w: World, calls: nat)
    requires Known(w) && w.pool.id == None
    ensures var s := EnsurePool(c, w, calls);
            && (forall id :: id in w.cloud && w.cloud[id].name == w.pool.name ==>
                  && s.w.cloud == w.cloud && s.w.next == w.next
                  && (s.Go? <==> c.tagsValid && calls >= 2 && !Unowned(w, c, id))
                  && (s.Go? ==> s.w.pool.id == Some(id)))
            && ((forall id :: id in w.cloud ==> w.cloud[id].name != w.pool.name) ==>
                  && (s.Go? <==> c.tagsValid && calls >= 1)
                  && (s.Go? ==> s.w.pool.id == Some(w.next) && s.w.next == w.next + 1
                                && s.w.cloud == w.cloud[w.next := CloudPool(w.pool.name, w.pool.replicas,
                                                                           Desired(c.cluster, ROLE_NODE, c.tags), w.pool.groups)]))
            && s.w.owner == w.owner
            && (s.Go? ==> s.w.pool == w.pool.(id := s.w.pool.id, observed := w.pool.replicas, applied := w.pool.groups))
            && (s.Stop? ==> s.w == w && s.outcome == Failed)
  {
    hide Desired, OwnedTagKey;
  }

  /** An existing pool the pass changed or recorded, and that it did not record before, carried the owned tag. */
  ghost predicate TouchesOwnedOnly(c: Config, w: World, s: World) {
    && (forall id :: Unowned(w, c, id) && w.pool.id != Some(id) ==>
          id in s.cloud && s.cloud[id] == w.cloud[id] && s.pool.id != Some(id))
  }

  lemma PassTouchesOwnedOnly(c: Config, w: World, calls: nat)
    requires Known(w)
    ensures TouchesOwnedOnly(c, w, Pass(c, w, calls).w)
  {
    hide Desired, Maintain, OnlyMoved;
    var s1 := EnsurePool(c, w, calls);
    if w.pool.id == None { EnsuredIff(c, w, calls); }
    if s1.Go? {
      MaintainKeeps(c, s1.w, s1.calls);
      MaintainKeepsId(c, s1.w, s1.calls);
      EnsuredTouches(c, w, s1.w, Maintain(c, s1.w, s1.calls).w);
    }
  }

  lemma MaintainKeepsId(c: Config, w: World, calls: nat)
    requires w.pool.id.Some?
    ensures Maintain(c, w, calls).w.pool.id in {w.pool.id, None}
  {
    hide Scale, UpdateAttributes, ReconcileTags, Refresh;
    var s2 := SyncOwner(w, calls);
    if s2.Go? {
      ScaleMoves(s2.w, s2.calls);
      var s3 := Scale(s2.w, s2.calls);
      if s3.Go? {
        AttributesQuiet(c, s3.w, s3.calls);
        var s4 := UpdateAttributes(c, s3.w, s3.calls);
        if s4.Go? {
          TagsQuiet(c, s4.w, s4.calls);
          var s5 := ReconcileTags(c, s4.w, s4.calls);
          if s5.Go? { RefreshKeepsId(s5.w, s5.calls); }
        }
      }
    }
  }

  /** The ID is forgotten exactly when the list does not have the pool. */
  lemma RefreshKeepsId(w: World, calls: nat)
    requires w.pool.id.Some?
    ensures var s := Refresh(w, calls);
            && s.w.pool.id == (if w.pool.id.value in w.cloud then w.pool.id else None)
            && (s.Stop? && s.outcome == Recreate <==> w.pool.id.value !in w.cloud)
  {
  }

  lemma EnsuredTouches(c: Config, w: World, mid: World, s: World)
    requires Known(w) && mid.pool.id.Some? && OnlyMoved(mid, s, mid.pool.id.value) && s.pool.id in {mid.pool.id, None}
    requires w.pool.id.Some? ==> mid == w
    requires w.pool.id == None ==>
               || (mid.cloud == w.cloud && mid.pool.id.value in w.cloud && !Unowned(w, c, mid.pool.id.value))
               || (mid.pool.id == Some(w.next) && w.next in mid.cloud
                   && forall id :: id in w.cloud ==> id in mid.cloud && mid.cloud[id] == w.cloud[id])
    ensures TouchesOwnedOnly(c, w, s)
  {
  }

  /** A name conflict with a pool of somebody else fails the pass, and changes nothing. */
  lemma ForeignNameFailsThePass(c: Config, w: World, calls: nat, id: Id)
    requires Known(w) && w.pool.id == None && Unowned(w, c, id) && w.cloud[id].name == w.pool.name
    ensures Pass(c, w, calls) == Stop(w, Failed)
  {
    EnsuredIff(c, w, calls);
  }

  // ---------------------------------------------------------------- how a pass ends

  /** The replicas a pass drives: the owner's, unless there is none or an external autoscaler has them. */
  function Target(w: World): int {
    if w.owner.Some? && !w.owner.value.external && w.owner.value.replicas.Some? then w.owner.value.replicas.value
    else w.pool.replicas
  }

  /** A pass whose calls succeed ends well: with valid tags and a name that is free or ours if it has no pool yet, a pool
      that is still there if it has one, and a target that is not negative unless it is not driven. */
  lemma HealthyPassIsDone(c: Config, w: World, calls: nat)
    requires Known(w) && calls >= 10 && (External(w) || Target(w) >= 0)
    requires w.pool.id.Some? ==> w.pool.id.value in w.cloud
    requires w.pool.id == None ==>
               c.tagsValid && forall id :: id in w.cloud && w.cloud[id].name == w.pool.name ==> !Unowned(w, c, id)
    ensures Pass(c, w, calls).outcome == Done && Pass(c, w, calls).w.pool.ready
  {
    hide Desired, Unowned, Maintain;
    var s1 := EnsurePool(c, w, calls);
    if w.pool.id == None {
      EnsuredIff(c, w, calls);
      if id :| id in w.cloud && w.cloud[id].name == w.pool.name { assert s1.Go?; }
    }
    HealthyMaintainIsDone(c, s1.w, s1.calls);
  }

  lemma HealthyMaintainIsDone(c: Config, w: World, calls: nat)
    requires w.pool.id.Some? && w.pool.id.value in w.cloud && calls >= 8 && (External(w) || Target(w) >= 0)
    ensures Maintain(c, w, calls).outcome == Done && Maintain(c, w, calls).w.pool.ready
  {
    hide Scale, UpdateAttributes, ReconcileTags, Refresh;
    var s2 := SyncOwner(w, calls);
    HealthyStageGoesOn(c, s2.w, s2.calls);
    var s3 := Scale(s2.w, s2.calls);
    HealthyStageGoesOn(c, s3.w, s3.calls);
    var s4 := UpdateAttributes(c, s3.w, s3.calls);
    HealthyStageGoesOn(c, s4.w, s4.calls);
    var s5 := ReconcileTags(c, s4.w, s4.calls);
    HealthyStageGoesOn(c, s5.w, s5.calls);
  }

  predicate GoesOn(w: World, s: Stage, calls: nat) {
    s.Go? && s.calls + 2 >= calls && s.w.pool.id == w.pool.id && (forall id :: id in w.cloud ==> id in s.w.cloud)
  }

  lemma HealthyStageGoesOn(c: Config, w: World, calls: nat)
    requires w.pool.id.Some? && w.pool.id.value in w.cloud
    ensures calls >= 1 && (External(w) || w.pool.replicas >= 0) ==>
              GoesOn(w, Scale(w, calls), calls) && Scale(w, calls).calls + 1 >= calls
    ensures calls >= 2 ==> GoesOn(w, UpdateAttributes(c, w, calls), calls)
    ensures calls >= 2 ==> GoesOn(w, ReconcileTags(c, w, calls), calls)
    ensures calls >= 1 ==> GoesOn(w, Refresh(w, calls), calls) && Refresh(w, calls).calls + 1 >= calls
  {
    hide Desired, WantedTags, Updated;
  }

  /** A stage that stops is not the end of the pass; one that goes on does the same however many calls follow it. */
  ghost predicate IgnoresLaterCalls(s: Stage, t: Stage, more: nat) {
    if s.Go? then s.w.pool.id.Some? && t == Go(s.w, s.calls + more) else s.outcome != Done
  }

  lemma StagesIgnoreLaterCalls(c: Config, w: World, calls: nat, more: nat)
    requires w.pool.id.Some?
    ensures IgnoresLaterCalls(SyncOwner(w, calls), SyncOwner(w, calls + more), more)
    ensures IgnoresLaterCalls(Scale(w, calls), Scale(w, calls + more), more)
    ensures IgnoresLaterCalls(UpdateAttributes(c, w, calls), UpdateAttributes(c, w, calls + more), more)
    ensures IgnoresLaterCalls(ReconcileTags(c, w, calls), ReconcileTags(c, w, calls + more), more)
    ensures IgnoresLaterCalls(Refresh(w, calls), Refresh(w, calls + more), more)
  {
    hide Desired, WantedTags, TagsReconciled, Updated;
  }

  /** A pass that is done made all its calls: with more at hand it does the same. */
  lemma DoneMadeAllCalls(c: Config, w: World, calls: nat, more: nat)
    requires w.pool.id.Some? && Maintain(c, w, calls).outcome == Done
    ensures Maintain(c, w, calls + more) == Maintain(c, w, calls)
  {
    hide SyncOwner, Scale, UpdateAttributes, ReconcileTags, Refresh;
    StagesIgnoreLaterCalls(c, w, calls, more);
    var s2 := SyncOwner(w, calls);
    StagesIgnoreLaterCalls(c, s2.w, s2.calls, more);
    var s3 := Scale(s2.w, s2.calls);
    StagesIgnoreLaterCalls(c, s3.w, s3.calls, more);
    var s4 := UpdateAttributes(c, s3.w, s3.calls);
    StagesIgnoreLaterCalls(c, s4.w, s4.calls, more);
    var s5 := ReconcileTags(c, s4.w, s4.calls);
    StagesIgnoreLaterCalls(c, s5.w, s5.calls, more);
  }

  /** A recorded pool that vanished is forgotten, so that the next pass makes it anew, exactly when the pass gets to the
      list without having to scale it or roll its groups. */
  lemma VanishedPoolIsForgottenIff(c: Config, w: World, calls: nat)
    requires w.pool.id.Some? && w.pool.id.value !in w.cloud
    ensures var s := Maintain(c, w, calls);
            && (s.w.pool.id == None <==> calls >= 2 && w.pool.applied == w.pool.groups
                                         && (External(w) || w.pool.observed == Target(w)))
            && s.outcome == (if s.w.pool.id == None then Recreate else Failed)
            && s.w.cloud == w.cloud
  {
    hide Desired, WantedTags;
  }

  // ---------------------------------------------------------------- the ignore flag

  predicate SendsAttributes(w: World, calls: nat)
    requires w.pool.id.Some?
  {
    var s2 := SyncOwner(w, calls);
    s2.Go? && var s3 := Scale(s2.w, s2.calls);
    s3.Go? && w.pool.applied != w.pool.groups && s3.calls > 0 && w.pool.id.value in w.cloud
  }

  predicate SendsTags(c: Config, w: World, calls: nat)
    requires w.pool.id.Some?
  {
    var s2 := SyncOwner(w, calls);
    s2.Go? && var s3 := Scale(s2.w, s2.calls);
    s3.Go? && var s4 := UpdateAttributes(c, s3.w, s3.calls);
    s4.Go? && s4.calls > 1 && Drifted(w.cloud, w.pool.id.value, c.cluster, Some(c.tags))
  }

  /** What the attribute call does to the pool's count, with the flag and without; all else is as with it. */
  lemma AttributesCount(c: Config, w: World, calls: nat, flag: bool)
    requires w.pool.id.Some? && w.pool.id.value in w.cloud
    ensures var id := w.pool.id.value;
            var s, t := UpdateAttributes(c, w, calls, flag), UpdateAttributes(c, w, calls);
            && s.Go? == t.Go? && (s.Go? ==> s.calls == t.calls) && s.w.pool.id == w.pool.id
            && id in s.w.cloud && s.w.cloud[id].tags == w.cloud[id].tags
            && s.w.cloud[id].count
               == if !flag && w.pool.applied != w.pool.groups && calls > 0 then 0 else w.cloud[id].count
  {
  }

  lemma TagsCount(c: Config, w: World, calls: nat, flag: bool)
    requires w.pool.id.Some? && w.pool.id.value in w.cloud
    ensures var id := w.pool.id.value;
            var s := ReconcileTags(c, w, calls, flag);
            && s.w.pool.id == w.pool.id && id in s.w.cloud
            && s.w.cloud[id].count
               == if !flag && calls > 1 && Drifted(w.cloud, id, c.cluster, Some(c.tags)) then 0 else w.cloud[id].count
  {
    hide Desired;
  }

  lemma ScaleKeepsTheRest(w: World, calls: nat)
    requires w.pool.id.Some?
    ensures var s := Scale(w, calls);
            s.w.pool == w.pool && s.w.cloud.Keys == w.cloud.Keys
            && forall i :: i in w.cloud ==> s.w.cloud[i].tags == w.cloud[i].tags
  {
  }

  /** The state once the scale call is through, or the pass has ended before it. */
  function Scaled(w: World, calls: nat): World
    requires w.pool.id.Some?
  {
    var s2 := SyncOwner(w, calls);
    if s2.Stop? then s2.w else Scale(s2.w, s2.calls).w
  }

  /** The count a pass leaves, whatever flags its update calls carry. */
  lemma FlaggedCount(c: Config, w: World, calls: nat, onAttributes: bool, onTags: bool)
    requires w.pool.id.Some? && w.pool.id.value in w.cloud
    ensures var id := w.pool.id.value;
            var after := MaintainFlagged(c, w, calls, onAttributes, onTags).w.cloud;
            id in after && id in Scaled(w, calls).cloud
            && after[id].count
               == if (!onAttributes && SendsAttributes(w, calls)) || (!onTags && SendsTags(c, w, calls)) then 0
                  else Scaled(w, calls).cloud[id].count
  {
    hide Scale, UpdateAttributes, ReconcileTags, Refresh, WantedTags, Desired;
    var s2 := SyncOwner(w, calls);
    if s2.Go? {
      ScaleKeepsTheRest(s2.w, s2.calls);
      var s3 := Scale(s2.w, s2.calls);
      if s3.Go? {
        AttributesCount(c, s3.w, s3.calls, onAttributes);
        AttributesCount(c, s3.w, s3.calls, true);
        var s4 := UpdateAttributes(c, s3.w, s3.calls, onAttributes);
        if s4.Go? {
          TagsCount(c, s4.w, s4.calls, onTags);
          var s5 := ReconcileTags(c, s4.w, s4.calls, onTags);
          if s5.Go? { RefreshQuiet(s5.w, s5.calls); }
        }
      }
    }
  }

  /** Leaving the flag out of an update call shrinks to zero a pool the pass would leave with nodes, exactly when the
      pass gets to send that update. */
  lemma WithoutTheFlagThePoolShrinksIff(c: Config, w: World, calls: nat, onAttributes: bool, onTags: bool)
    requires w.pool.id.Some? && w.pool.id.value in w.cloud
    requires w.pool.id.value in Maintain(c, w, calls).w.cloud && Maintain(c, w, calls).w.cloud[w.pool.id.value].count != 0
    ensures var after := MaintainFlagged(c, w, calls, onAttributes, onTags).w.cloud;
            w.pool.id.value in after
            && (after[w.pool.id.value].count == 0
                <==> (!onAttributes && SendsAttributes(w, calls)) || (!onTags && SendsTags(c, w, calls)))
  {
    hide MaintainFlagged, SendsAttributes, SendsTags;
    FlaggedCount(c, w, calls, onAttributes, onTags);
    FlaggedCount(c, w, calls, true, true);
  }

  /** What a successful run of the maintaining stages leaves behind. */
  lemma MaintainDone(c: Config, w: World, calls: nat)
    requires w.pool.id.Some? && Maintain(c, w, calls).outcome == Done
    ensures var s := Maintain(c, w, calls).w; var id := w.pool.id.value;
            && SyncOwner(w, calls).Go?
            && s.pool.id == w.pool.id && id in w.cloud && id in s.cloud
            && s.pool.observed == s.cloud[id].count
            && s.pool.applied == s.pool.groups == w.pool.groups
            && s.cloud[id].tags == WantedTags(c.cluster, Some(c.tags))
            && s.pool.replicas == SyncOwner(w, calls).w.pool.replicas
            && s.cloud[id].groups == (if w.pool.applied == w.pool.groups then w.cloud[id].groups else w.pool.groups)
            && (if External(w) then s.owner == Some(Owner(Some(s.cloud[id].count), true))
                else s.owner == w.owner
                     && (s.cloud[id].count == s.pool.replicas
                         <==> w.pool.observed != s.pool.replicas || w.cloud[id].count == s.pool.replicas))
  {
    hide Scale, ReconcileTags, Refresh, WantedTags;
    var s2 := SyncOwner(w, calls);
    ScaleMoves(s2.w, s2.calls);
    var s3 := Scale(s2.w, s2.calls);
    AttributesQuiet(c, s3.w, s3.calls);
    var s4 := UpdateAttributes(c, s3.w, s3.calls);
    TagsQuiet(c, s4.w, s4.calls);
    var s5 := ReconcileTags(c, s4.w, s4.calls);
    RefreshQuiet(s5.w, s5.calls);
  }

  /** Without an external autoscaler, a pass that succeeds leaves spec and status at these values. */
  lemma DonePass(c: Config, w: World, calls: nat)
    requires Known(w) && Pass(c, w, calls).outcome == Done
    ensures var s := Pass(c, w, calls).w;
            && s.pool.id.Some? && s.pool.id.value in s.cloud
            && s.pool.observed == s.cloud[s.pool.id.value].count
            && s.pool.applied == s.pool.groups == w.pool.groups
            && s.cloud[s.pool.id.value].tags == Desired(c.cluster, ROLE_NODE, c.tags)
            && (!External(w) ==> s.owner == w.owner)
            && (!External(w) && w.owner.Some? && w.owner.value.replicas.Some? ==>
                  s.pool.replicas == w.owner.value.replicas.value)
            && (External(w) ==> s.owner == Some(Owner(Some(s.cloud[s.pool.id.value].count), true)))
  {
    hide Desired, IsOwned, Maintain;
    var s1 := EnsurePool(c, w, calls);
    MaintainDone(c, s1.w, s1.calls);
  }

  /**
   One successful pass brings a recorded pool to the owner's replicas exactly when the last observed
   count differs from them (so the scale call goes out) or the platform had that count already.
   */
  lemma OnePassReachesReplicasIff(c: Config, w: World, calls: nat, want: int)
    requires Known(w) && Pass(c, w, calls).outcome == Done
    requires w.pool.id.Some? && w.owner == Some(Owner(Some(want), false))
    ensures w.pool.id.value in w.cloud
    ensures Pass(c, w, calls).w.cloud[w.pool.id.value].count == want
       <==> w.pool.observed != want || w.cloud[w.pool.id.value].count == want
  {
    hide Desired, IsOwned, Maintain;
    MaintainDone(c, w, calls);
  }

  /**
   Likewise for security groups, with what was last applied in the place of what was last observed; but
   nothing refreshes that record, so groups changed by someone else stay changed.
   */
  lemma GroupsReachedIff(c: Config, w: World, calls: nat)
    requires Known(w) && Pass(c, w, calls).outcome == Done && w.pool.id.Some?
    ensures w.pool.id.value in w.cloud && Pass(c, w, calls).w.pool.applied == w.pool.groups
    ensures Pass(c, w, calls).w.cloud[w.pool.id.value].groups == w.pool.groups
       <==> w.pool.applied != w.pool.groups || w.cloud[w.pool.id.value].groups == w.pool.groups
  {
    hide Desired, IsOwned, Maintain;
    MaintainDone(c, w, calls);
  }

  /** With no outside change, two successful passes in a row always do: the first refreshes what the second compares. */
  lemma TwoPassesReachReplicas(c: Config, w: World, first: nat, second: nat, want: int)
    requires Known(w) && w.owner == Some(Owner(Some(want), false))
    requires Pass(c, w, first).outcome == Done
    requires Pass(c, Pass(c, w, first).w, second).outcome == Done
    ensures var s := Pass(c, Pass(c, w, first).w, second).w;
            && s.pool.id.Some? && s.pool.id.value in s.cloud
            && s.cloud[s.pool.id.value].count == s.pool.observed == s.pool.replicas == want
  {
    hide Desired, IsOwned;
    hide Pass;
    PassKeepsCounts(c, w, first);
    DonePass(c, w, first);
    var mid := Pass(c, w, first).w;
    DonePass(c, mid, second);
    OnePassReachesReplicasIff(c, mid, second, want);
    RecordedPoolStays(c, mid, second);
  }

  lemma RecordedPoolStays(c: Config, w: World, calls: nat)
    requires w.pool.id.Some? && Pass(c, w, calls).outcome == Done
    ensures Pass(c, w, calls).w.pool.id == w.pool.id
  {
    hide Maintain;
    MaintainDone(c, w, calls);
  }

  /** An adopted pool's security groups are recorded as applied without ever being compared. */
  lemma AdoptedGroupsAreNotChecked(c: Config, w: World, calls: nat)
    requires Known(w) && w.pool.id == None && Named(w.cloud, w.pool.name).Some?
    requires Pass(c, w, calls).outcome == Done
    ensures var id := Named(w.cloud, w.pool.name).value;
            && Pass(c, w, calls).w.pool.id == Some(id)
            && Pass(c, w, calls).w.cloud[id].groups == w.cloud[id].groups
            && Pass(c, w, calls).w.pool.applied == w.pool.groups
  {
    hide Desired, IsOwned, Maintain;
    var s1 := EnsurePool(c, w, calls);
    MaintainDone(c, s1.w, s1.calls);
  }

  // ---------------------------------------------------------------- runs

  datatype Event = PassEvent(calls: nat) | OwnerEvent(owner: Option<Owner>)

  ghost function Next(c: Config, w: World, e: Event): World {
    match e
    case PassEvent(calls) => Pass(c, w, calls).w
    case OwnerEvent(owner) => w.(owner := owner)
  }

  ghost function After(c: Config, w: World, events: seq<Event>): World {
    if events == [] then w else Next(c, After(c, w, events[..|events| - 1]), events[|events| - 1])
  }

  /** Some pass of the run, not under an external autoscaler, left spec.replicas at `count`. */
  ghost predicate ScaledTo(c: Config, w: World, events: seq<Event>, count: int) {
    exists i :: 0 <= i < |events| && events[i].PassEvent? && !External(After(c, w, events[..i]))
                && After(c, w, events[..i + 1]).pool.replicas == count
  }

  /**
   Over any run of passes and owner changes, with calls failing anywhere, an existing pool stays, and its
   expected count is what it was unless some pass scaled to exactly that spec.replicas.
   */
  lemma {:induction false} RunKeepsCounts(c: Config, w: World, events: seq<Event>, id: Id)
    requires Known(w) && id in w.cloud
    ensures Known(After(c, w, events)) && id in After(c, w, events).cloud
    ensures var count := After(c, w, events).cloud[id].count;
            count == w.cloud[id].count || ScaledTo(c, w, events, count)
  {
    hide Pass, External;
    if events != [] {
      var n := |events| - 1;
      var mid := After(c, w, events[..n]);
      RunKeepsCounts(c, w, events[..n], id);
      if events[n].PassEvent? { PassKeepsCounts(c, mid, events[n].calls); }
      assert events[..n + 1] == events;
      var count := After(c, w, events).cloud[id].count;
      if count == mid.cloud[id].count {
        ScaledEarlier(c, w, events, count);
      } else {
        assert ScaledTo(c, w, events, count);
      }
    }
  }

  /** Over any run a pool of somebody else, without the owned tag and never recorded, stays as it is and unrecorded. */
  lemma {:induction false} ForeignPoolsStay(c: Config, w: World, events: seq<Event>, id: Id)
    requires Known(w) && Unowned(w, c, id) && w.pool.id != Some(id)
    ensures var v := After(c, w, events);
            Known(v) && id in v.cloud && v.cloud[id] == w.cloud[id] && v.pool.id != Some(id)
  {
    hide Pass;
    if events != [] {
      var n := |events| - 1;
      var mid := After(c, w, events[..n]);
      ForeignPoolsStay(c, w, events[..n], id);
      assert Unowned(mid, c, id);
      if events[n].PassEvent? {
        PassKeepsCounts(c, mid, events[n].calls);
        PassTouchesOwnedOnly(c, mid, events[n].calls);
      }
    }
  }

  lemma ScaledEarlier(c: Config, w: World, events: seq<Event>, count: int)
    requires events != []
    ensures ScaledTo(c, w, events[..|events| - 1], count) ==> ScaledTo(c, w, events, count)
  {
    hide Pass, External;
    var init := events[..|events| - 1];
    if i :| 0 <= i < |init| && init[i].PassEvent? && !External(After(c, w, init[..i]))
            && After(c, w, init[..i + 1]).pool.replicas == count {
      assert init[..i] == events[..i] && init[..i + 1] == events[..i + 1];
      assert events[i].PassEvent?;
    }
  }
}
