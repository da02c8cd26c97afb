/**
 The sweep that deletes clusters whose Cluster object is gone, and its interleaving with controllers
 creating and adopting clusters and users deleting and re-creating objects while the sweep is between its calls.
 */
module GarbageCollector {
  import opened Options
  import opened Tags
  import ClusterTags

  type Id = nat

  /** A Cluster object; the tag on the cloud cluster records its name only. */
  datatype ClusterCr = ClusterCr(namespace: string, name: string)

  datatype Annotated = Annotated(cr: ClusterCr, skipGc: bool)

  /** One listed cloud cluster, and the order in which the range over its tags happens to go. */
  datatype Listed = Listed(id: Id, tags: TagMap, order: seq<string>)

  /** What the sweep takes for an orphan: claimed by a name no Cluster object has. */
  predicate Orphan(tags: TagMap, order: seq<string>, names: set<string>) {
    var name := FirstOwner(tags, order);
    name != "" && name !in names
  }

  function NamesOf(crs: set<ClusterCr>): (names: set<string>)
    ensures forall cr :: cr in crs ==> cr.name in names
    ensures forall n :: n in names ==> exists cr :: cr in crs && cr.name == n
  {
    set cr | cr in crs :: cr.name
  }

  // ---------------------------------------------------------------- the sweep

  /** The last listed object of the cluster's name opts out: the index by name keeps that one. */
  ghost predicate OptedOut(l: Listed, crs: seq<Annotated>) {
    exists j :: 0 <= j < |crs| && crs[j].cr.name == FirstOwner(l.tags, l.order) != "" && crs[j].skipGc
                && forall k :: j < k < |crs| ==> crs[k].cr.name != crs[j].cr.name
  }

  ghost function OptOuts(listing: seq<Listed>, crs: seq<Annotated>): set<nat> {
    set i: nat | i < |listing| && OptedOut(listing[i], crs)
  }

  class Cloud {
    var clusters: map<Id, TagMap>

    constructor (clusters: map<Id, TagMap>)
      ensures this.clusters == clusters
    {
      this.clusters := clusters;
    }

    method DeleteCluster(id: Id) returns (ok: bool)
      modifies this
      ensures clusters == if ok then old(clusters) - {id} else old(clusters)
    {
      ok := *;
      if ok { clusters := clusters - {id}; }
    }

    /** The objects by name, the last listed one of each. */
    method IndexByName(crs: seq<Annotated>) returns (wanted: map<string, Annotated>)
      ensures forall n :: n in wanted <==> exists a :: a in crs && a.cr.name == n
      ensures forall n :: n in wanted ==>
                exists j :: 0 <= j < |crs| && crs[j] == wanted[n] && crs[j].cr.name == n
                            && forall k :: j < k < |crs| ==> crs[k].cr.name != n
    {
      wanted := map[];
      for i := 0 to |crs|
        invariant forall n :: n in wanted <==> exists a :: a in crs[..i] && a.cr.name == n
        invariant forall n :: n in wanted ==>
                    exists j :: 0 <= j < i && crs[j] == wanted[n] && crs[j].cr.name == n
                                && forall k :: j < k < i ==> crs[k].cr.name != n
      {
        assert forall a :: a in crs[..i + 1] <==> a in crs[..i] || a == crs[i];
        wanted := wanted[crs[i].cr.name := crs[i]];
      }
      assert crs[..|crs|] == crs;
    }

    /**
     The cluster phase of a sweep. Whichever deletes fail, one is attempted, in listing order, for each listed
     cluster whose first claim names no Cluster object, and for no other; `at` has their positions. The opt-out
     annotation only counts: a cluster with a Cluster object is kept anyway.
     */
    method Sweep(listing: seq<Listed>, crs: seq<Annotated>)
      returns (attempted: seq<Id>, failed: set<Id>, skipped: nat, ghost at: seq<nat>)
      requires forall l :: l in listing ==> Enumerates(l.order, l.tags.Keys)
      modifies this
      ensures |at| == |attempted| && forall j :: 0 <= j < |at| ==> at[j] < |listing| && attempted[j] == listing[at[j]].id
      ensures forall j, k :: 0 <= j < k < |at| ==> at[j] < at[k]
      ensures forall i: nat :: i < |listing| ==>
                (i in at <==> FirstOwner(listing[i].tags, listing[i].order) != ""
                              && forall a :: a in crs ==> a.cr.name != FirstOwner(listing[i].tags, listing[i].order))
      ensures SweptUpTo(listing, set a | a in crs :: a.cr.name, attempted, at, |listing|)
      ensures forall id :: id in old(clusters) && id !in clusters ==> id in attempted
      ensures forall id :: id in attempted && id in clusters ==> id in failed
      ensures forall id :: id in clusters ==> id in old(clusters) && clusters[id] == old(clusters)[id]
      ensures skipped == |OptOuts(listing, crs)|
    {
      hide SweptUpTo, OptOuts, OptedOut;
      var wanted := IndexByName(crs);
      attempted, failed, skipped, at := [], {}, 0, [];
      ghost var names := set a | a in crs :: a.cr.name;
      NothingSweptYet(listing, names);
      assert forall n :: n in wanted <==> n in names;
      NoOptOutsYet(listing, crs);
      for i := 0 to |listing|
        invariant SweptUpTo(listing, names, attempted, at, i)
        invariant forall id :: id in old(clusters) && id !in clusters ==> id in attempted
        invariant forall id :: id in attempted && id in clusters ==> id in failed
        invariant forall id :: id in clusters ==> id in old(clusters) && clusters[id] == old(clusters)[id]
        invariant skipped == |OptOuts(listing[..i], crs)|
      {
        var c := listing[i];
        assert c in listing;
        var name := OwnedClusterName(c.tags, c.order);
        OneMoreOptOut(listing, crs, i);
        OptedOutIff(c, crs, wanted);
        SweptOneMore(listing, names, attempted, at, i);
        if name != "" {
          if name in wanted {
            if wanted[name].skipGc { skipped := skipped + 1; }
          } else {
            var ok := DeleteCluster(c.id);
            attempted, at := attempted + [c.id], at + [i];
            if !ok { failed := failed + {c.id}; }
          }
        }
      }
      assert listing[..|listing|] == listing;
      SweptAll(listing, crs, names, attempted, at);
    }
  }

  /** Of the first `i` listed clusters, exactly the orphans were attempted, in order. */
  ghost predicate SweptUpTo(listing: seq<Listed>, names: set<string>, attempted: seq<Id>, at: seq<nat>, i: nat) {
    && i <= |listing| && |at| == |attempted|
    && (forall j :: 0 <= j < |at| ==> at[j] < i && attempted[j] == listing[at[j]].id)
    && (forall j, k :: 0 <= j < k < |at| ==> at[j] < at[k])
    && (forall k: nat :: k < i ==>
          (k in at <==> FirstOwner(listing[k].tags, listing[k].order) !in names + {""}))
  }

  lemma NothingSweptYet(listing: seq<Listed>, names: set<string>)
    ensures SweptUpTo(listing, names, [], [], 0)
  {
  }

  lemma SweptAll(listing: seq<Listed>, crs: seq<Annotated>, names: set<string>, attempted: seq<Id>, at: seq<nat>)
    requires SweptUpTo(listing, names, attempted, at, |listing|) && names == set a | a in crs :: a.cr.name
    ensures |at| == |attempted| && forall j :: 0 <= j < |at| ==> at[j] < |listing| && attempted[j] == listing[at[j]].id
    ensures forall j, k :: 0 <= j < k < |at| ==> at[j] < at[k]
    ensures forall i: nat :: i < |listing| ==>
              (i in at <==> FirstOwner(listing[i].tags, listing[i].order) != ""
                            && forall a :: a in crs ==> a.cr.name != FirstOwner(listing[i].tags, listing[i].order))
  {
  }

  lemma SweptOneMore(listing: seq<Listed>, names: set<string>, attempted: seq<Id>, at: seq<nat>, i: nat)
    requires SweptUpTo(listing, names, attempted, at, i) && i < |listing|
    ensures var orphan := FirstOwner(listing[i].tags, listing[i].order) !in names + {""};
            if orphan then SweptUpTo(listing, names, attempted + [listing[i].id], at + [i], i + 1)
            else SweptUpTo(listing, names, attempted, at, i + 1)
  {
    assert forall k :: k in at + [i] <==> k in at || k == i;
  }

  lemma NoOptOutsYet(listing: seq<Listed>, crs: seq<Annotated>)
    ensures OptOuts(listing[..0], crs) == {}
  {
  }

  lemma OneMoreOptOut(listing: seq<Listed>, crs: seq<Annotated>, i: nat)
    requires i < |listing|
    ensures |OptOuts(listing[..i + 1], crs)| == |OptOuts(listing[..i], crs)| + if OptedOut(listing[i], crs) then 1 else 0
  {
    hide OptedOut;
    var now, next := OptOuts(listing[..i], crs), OptOuts(listing[..i + 1], crs);
    forall k ensures k in next <==> k in now || (k == i && OptedOut(listing[i], crs)) {
    }
    assert next == now + if OptedOut(listing[i], crs) then {i} else {};
  }

  lemma OptedOutIff(l: Listed, crs: seq<Annotated>, wanted: map<string, Annotated>)
    requires forall n :: n in wanted <==> exists a :: a in crs && a.cr.name == n
    requires forall n :: n in wanted ==>
               exists j :: 0 <= j < |crs| && crs[j] == wanted[n] && crs[j].cr.name == n
                           && forall k :: j < k < |crs| ==> crs[k].cr.name != n
    ensures var name := FirstOwner(l.tags, l.order);
            OptedOut(l, crs) <==> name != "" && name in wanted && wanted[name].skipGc
  {
    var name := FirstOwner(l.tags, l.order);
    if name in wanted {
      var j :| 0 <= j < |crs| && crs[j] == wanted[name] && crs[j].cr.name == name
               && forall k :: j < k < |crs| ==> crs[k].cr.name != name;
      assert forall i :: 0 <= i < |crs| && crs[i].cr.name == name ==> i <= j;
    }
  }

  /** A sweep of what was listed attempts exactly what the interleaving below deletes. */
  lemma AttemptedAreTheOrphans(
    listing: seq<Listed>, names: set<string>, attempted: seq<Id>, at: seq<nat>,
    listed: map<Id, TagMap>, orders: map<Id, seq<string>>)
    requires SweptUpTo(listing, names, attempted, at, |listing|)
    requires forall l :: l in listing ==> l.id in listed && l.id in orders && listed[l.id] == l.tags && orders[l.id] == l.order
    requires forall id :: id in listed ==> exists l :: l in listing && l.id == id
    ensures forall id :: id in attempted <==> id in OrphansAmong(listed, orders, names)
  {
    forall id | id in attempted ensures id in OrphansAmong(listed, orders, names) {
      var j :| 0 <= j < |attempted| && attempted[j] == id;
      assert at[j] in at && listing[at[j]] in listing;
    }
    forall id | id in OrphansAmong(listed, orders, names) ensures id in attempted {
      var l :| l in listing && l.id == id;
      var k :| 0 <= k < |listing| && listing[k] == l;
      assert k in at;
      var j :| 0 <= j < |at| && at[j] == k;
      assert attempted[j] == id;
    }
  }

  /**
   A listed cluster can be swept, in some order of its tags, if and only if one of its ownership claims
   names a cluster without an object. Its own object does not protect a cluster whose user tags claim
   another name.
   */
  lemma SweptInSomeOrderIff(tags: TagMap, names: set<string>)
    ensures (exists order :: Enumerates(order, tags.Keys) && Orphan(tags, order, names))
       <==> exists k :: Claims(tags, k) && ClaimedName(k) != "" && ClaimedName(k) !in names
  {
    if order :| Enumerates(order, tags.Keys) && Orphan(tags, order, names) {
      FirstOwnerIsAClaim(tags, order);
    }
    if k :| Claims(tags, k) && ClaimedName(k) != "" && ClaimedName(k) !in names {
      var rest := Enumeration(tags.Keys - {k});
      assert Enumerates([k] + rest, tags.Keys);
      assert Orphan(tags, [k] + rest, names);
    }
  }

  lemma {:induction false} FirstOwnerIsAClaim(tags: TagMap, order: seq<string>)
    requires FirstOwner(tags, order) != ""
    ensures exists k :: Claims(tags, k) && ClaimedName(k) == FirstOwner(tags, order)
  {
    if !Claims(tags, order[0]) {
      FirstOwnerIsAClaim(tags, order[1..]);
    }
  }

  // ---------------------------------------------------------------- interleaving

  /** A Cluster object; one that is deleted and created again under its name is another object. */
  datatype Object = Object(cr: ClusterCr, uid: nat)

  datatype Sweeping =
    | Idle
    | HaveClusters(listed: map<Id, TagMap>)      // clusters listed, Cluster objects not yet
    | HaveNames(names: set<string>)              // the reversed order
    | Deleting(todo: set<Id>)

  /**
   `holder` has the object whose control plane created a cluster or adopted it last, `creator` the one it was
   created for. `listedAt` is the first uid after the last listing of the objects, and `retagged` has the
   clusters held by no object whose tags somebody changed since the last listing of the clusters.
   */
  datatype World = World(
    objects: set<Object>, nextUid: nat, clusters: map<Id, TagMap>, next: Id, sweeping: Sweeping,
    creator: map<Id, Object>, holder: map<Id, Object>, listedAt: nat, retagged: set<Id>)

  datatype Step =
    | CreateCr(cr: ClusterCr)
    | DeleteCr(o: Object)
    | CreateCluster(o: Object, tags: TagMap)         // by the control plane of that object
    | Adopt(id: Id, o: Object)                       // by the control plane of that object, on a name conflict
    | Retag(id: Id, tags: TagMap)                    // tag reconciliation, at any point of its plan
    | ForeignCluster(tags: TagMap)
    | DropCluster(id: Id)                            // deleted by its controller or by anyone
    | ListClusters
    | ListCrs(orders: map<Id, seq<string>>)          // with the orders the tag ranges will take
    | SweepOne(id: Id, ok: bool)
    | EndSweep

  /** A cluster this provider tagged: it carries its name's claim and no other. */
  ghost predicate TaggedFor(tags: TagMap, name: string) {
    IsOwned(tags, name) && forall k :: Claims(tags, k) ==> k == OwnedTagKey(name)
  }

  /** The tags a control plane creates a cluster with qualify exactly when no user tag claims another name. */
  lemma DesiredIsTaggedForIff(name: string, user: TagMap)
    ensures TaggedFor(Desired(name, ROLE_APISERVER, user), name)
       <==> forall k :: Claims(user, k) ==> k == OwnedTagKey(name)
  {
    RoleKeyIsNotAClaim();
    ClaimedNameInverts(name, "");
    var tags := Desired(name, ROLE_APISERVER, user);
    forall k ensures k != OwnedTagKey(name) ==> (Claims(tags, k) <==> Claims(user, k)) {
      if k == ROLE_TAG_KEY {
        assert !Claims(tags, k);
      }
    }
  }

  /** And tag reconciliation keeps it so at every point of its plan, wherever a run of writes is cut. */
  lemma TagPlanStaysTaggedFor(cur: TagMap, name: string, user: TagMap, plan: seq<ClusterTags.Write>, cut: nat)
    requires TaggedFor(cur, name) && TaggedFor(Desired(name, ROLE_APISERVER, user), name)
    requires ClusterTags.IsPlan(cur, Desired(name, ROLE_APISERVER, user), name, plan) && cut <= |plan|
    ensures TaggedFor(ClusterTags.Apply(cur, plan[..cut]), name)
  {
    hide OwnedTagKey, Desired;
    var want := Desired(name, ROLE_APISERVER, user);
    var done := plan[..cut];
    var mid := ClusterTags.Apply(cur, done);
    ClusterTags.ApplyMeansEachWriteOnce(cur, done);
    forall k ensures (k in mid ==> (k in cur && mid[k] == cur[k]) || (k in want && mid[k] == want[k])) {
      if w :| w in done && w.key == k {
        assert w in plan;
        match w
        case Create(c, v) => assert ClusterTags.Create(c, v) in plan;
        case Delete(c) => assert k !in mid;
      }
    }
    var own := OwnedTagKey(name);
    forall w | w in done ensures w.key != own {
      assert w in plan;
      match w
      case Create(c, v) => assert ClusterTags.Drifted(cur, want, c);
      case Delete(c) => assert ClusterTags.Stale(cur, want, name, c);
    }
    assert own in mid && mid[own] == cur[own];
    forall k | Claims(mid, k) ensures k == own {
      assert Claims(cur, k) || Claims(want, k);
    }
  }

  ghost predicate EnumeratesAll(orders: map<Id, seq<string>>, clusters: map<Id, TagMap>) {
    forall id :: id in clusters ==> id in orders && Enumerates(orders[id], clusters[id].Keys)
  }

  /** A control plane whose object was deleted may still be in the middle of its last pass. */
  ghost predicate Enabled(w: World, s: Step) {
    match s
    case CreateCr(_) => true
    case DeleteCr(o) => o in w.objects
    case CreateCluster(o, tags) => o.uid < w.nextUid && TaggedFor(tags, o.cr.name)
    case Adopt(id, o) => o.uid < w.nextUid && id in w.clusters && TaggedFor(w.clusters[id], o.cr.name)
    case Retag(id, tags) => id in w.clusters && (id in w.holder ==> TaggedFor(tags, w.holder[id].cr.name))
    case ForeignCluster(_) => true
    case DropCluster(id) => id in w.clusters
    case ListClusters => w.sweeping.Idle? || w.sweeping.HaveNames?
    case ListCrs(orders) =>
      w.sweeping.Idle? || (w.sweeping.HaveClusters? && EnumeratesAll(orders, w.sweeping.listed))
    case SweepOne(id, _) => w.sweeping.Deleting? && id in w.sweeping.todo
    case EndSweep => w.sweeping.Deleting?
  }

  ghost function LiveNames(w: World): set<string> {
    NamesOf(set o | o in w.objects :: o.cr)
  }

  ghost function OrphansAmong(listed: map<Id, TagMap>, orders: map<Id, seq<string>>, names: set<string>): set<Id> {
    set id | id in listed && id in orders && Orphan(listed[id], orders[id], names)
  }

  ghost function Next(w: World, s: Step): World {
    match s
    case CreateCr(cr) => w.(objects := w.objects + {Object(cr, w.nextUid)}, nextUid := w.nextUid + 1)
    case DeleteCr(o) => w.(objects := w.objects - {o})
    case CreateCluster(o, tags) =>
      w.(clusters := w.clusters[w.next := tags], next := w.next + 1,
         creator := w.creator[w.next := o], holder := w.holder[w.next := o])
    case Adopt(id, o) => w.(holder := w.holder[id := o])
    case Retag(id, tags) =>
      w.(clusters := w.clusters[id := tags], retagged := w.retagged + (if id in w.holder then {} else {id}))
    case ForeignCluster(tags) => w.(clusters := w.clusters[w.next := tags], next := w.next + 1)
    case DropCluster(id) => w.(clusters := w.clusters - {id})
    case ListClusters =>
      w.(sweeping := if w.sweeping.HaveNames? then Deleting(OrphansInSomeOrder(w.clusters, w.sweeping.names))
                     else HaveClusters(w.clusters),
         retagged := {})
    case ListCrs(orders) =>
      w.(sweeping := if w.sweeping.HaveClusters? then Deleting(OrphansAmong(w.sweeping.listed, orders, LiveNames(w)))
                     else HaveNames(LiveNames(w)),
         listedAt := w.nextUid)
    case SweepOne(id, ok) =>
      w.(clusters := if ok then w.clusters - {id} else w.clusters,
         sweeping := Deleting((if w.sweeping.Deleting? then w.sweeping.todo else {}) - {id}))
    case EndSweep => w.(sweeping := Idle)
  }

  ghost function OrphansInSomeOrder(clusters: map<Id, TagMap>, names: set<string>): set<Id> {
    set id | id in clusters && exists order :: Enumerates(order, clusters[id].Keys) && Orphan(clusters[id], order, names)
  }

  /** The order the code uses for clusters: clusters first. */
  ghost predicate ClustersFirst(w: World, s: Step) {
    s.ListCrs? ==> w.sweeping.HaveClusters?
  }

  ghost function After(w: World, steps: seq<Step>): World {
    if steps == [] then w else Next(After(w, steps[..|steps| - 1]), steps[|steps| - 1])
  }

  /** A run of steps, with the two listings of each sweep in either order. */
  ghost predicate PossibleInAnyOrder(w: World, steps: seq<Step>) {
    steps == []
    || (PossibleInAnyOrder(w, steps[..|steps| - 1]) && Enabled(After(w, steps[..|steps| - 1]), steps[|steps| - 1]))
  }

  ghost predicate Possible(w: World, steps: seq<Step>) {
    steps == []
    || (Possible(w, steps[..|steps| - 1]) && Enabled(After(w, steps[..|steps| - 1]), steps[|steps| - 1])
        && ClustersFirst(After(w, steps[..|steps| - 1]), steps[|steps| - 1]))
  }

  ghost predicate Initial(w: World) {
    && w.creator == map[] && w.holder == map[] && w.sweeping == Idle && w.retagged == {}
    && (forall id :: id in w.clusters ==> id < w.next)
    && w.listedAt <= w.nextUid && forall o :: o in w.objects ==> o.uid < w.nextUid
  }

  // ---- what both orders keep

  /** IDs and uids were handed out, and a cluster of ours carries its name's claim and no other. */
  ghost predicate Tracked(w: World) {
    && w.listedAt <= w.nextUid
    && (forall o :: o in w.objects ==> o.uid < w.nextUid)
    && (forall id :: id in w.clusters || id in w.holder || id in w.creator ==> id < w.next)
    && (forall id :: id in w.holder ==> w.holder[id].uid < w.nextUid)
    && (forall id :: id in w.creator ==>
          w.creator[id].uid < w.nextUid && id in w.holder && w.creator[id].cr.name == w.holder[id].cr.name)
    && (forall id :: id in w.retagged ==> id < w.next && id !in w.creator)
    && (forall id :: id in w.clusters && id in w.holder ==> TaggedFor(w.clusters[id], w.holder[id].cr.name))
  }

  /** Two tag maps qualify for the same names. */
  ghost predicate SameClaims(a: TagMap, b: TagMap) {
    forall n :: TaggedFor(a, n) <==> TaggedFor(b, n)
  }

  /** Every living object of a name the tags qualify for is younger than the last object listing. */
  ghost predicate OnlyNewcomers(w: World, tags: TagMap) {
    forall o :: o in w.objects && TaggedFor(tags, o.cr.name) ==> w.listedAt <= o.uid
  }

  ghost predicate SweepInv(w: World) {
    match w.sweeping
    case Idle => true
    case HaveClusters(listed) =>
      forall id :: id in listed ==> id < w.next && (id in w.clusters && id !in w.retagged ==> SameClaims(listed[id], w.clusters[id]))
    case HaveNames(names) => forall o :: o in w.objects && o.uid < w.listedAt ==> o.cr.name in names
    case Deleting(todo) =>
      forall id :: id in todo ==> id < w.next && (id in w.clusters && id !in w.retagged ==> OnlyNewcomers(w, w.clusters[id]))
  }

  /** Tags that qualify for two names qualify for one. */
  lemma OneNameOnly(tags: TagMap, a: string, b: string)
    requires TaggedFor(tags, a) && TaggedFor(tags, b)
    ensures a == b
  {
    ClaimedNameInverts(a, OwnedTagKey(b));
    ClaimedNameInverts(b, OwnedTagKey(a));
    assert Claims(tags, OwnedTagKey(b));
  }

  lemma SameNameSameClaims(a: TagMap, b: TagMap, name: string)
    requires TaggedFor(a, name) && TaggedFor(b, name)
    ensures SameClaims(a, b)
  {
    forall n ensures TaggedFor(a, n) <==> TaggedFor(b, n) {
      if TaggedFor(a, n) { OneNameOnly(a, name, n); }
      if TaggedFor(b, n) { OneNameOnly(b, name, n); }
    }
  }

  /** No living object has the name of an orphan's only claim. */
  lemma OrphanHasNoObject(tags: TagMap, order: seq<string>, names: set<string>, name: string)
    requires Enumerates(order, tags.Keys) && Orphan(tags, order, names) && TaggedFor(tags, name)
    ensures name !in names
  {
    assert OwnedTagKey(name) in order;
    OnlyClaimIsFirst(tags, order, name);
  }

  lemma StepKeepsTracked(w: World, s: Step)
    requires Tracked(w) && Enabled(w, s)
    ensures Tracked(Next(w, s))
  {
    hide TaggedFor, Orphan, NamesOf;
    if s.Adopt? && s.id in w.holder { OneNameOnly(w.clusters[s.id], s.o.cr.name, w.holder[s.id].cr.name); }
  }

  lemma LivingIsNamed(w: World)
    ensures forall o :: o in w.objects ==> o.cr.name in LiveNames(w)
  {
    var crs := set o | o in w.objects :: o.cr;
    assert forall o :: o in w.objects ==> o.cr in crs;
  }

  /** The object listing of a sweep that has its clusters. */
  lemma ListingObjectsKeeps(w: World, orders: map<Id, seq<string>>)
    requires Tracked(w) && SweepInv(w) && Enabled(w, ListCrs(orders)) && w.sweeping.HaveClusters?
    ensures SweepInv(Next(w, ListCrs(orders)))
  {
    hide TaggedFor, Orphan, NamesOf;
    LivingIsNamed(w);
    var v := Next(w, ListCrs(orders));
    forall id | id in v.sweeping.todo && id in v.clusters && id !in v.retagged ensures OnlyNewcomers(v, v.clusters[id]) {
      assert SameClaims(w.sweeping.listed[id], w.clusters[id]);
      forall name | TaggedFor(v.clusters[id], name) ensures name !in LiveNames(w) {
        OrphanHasNoObject(w.sweeping.listed[id], orders[id], LiveNames(w), name);
      }
    }
  }

  /** The cluster listing of a sweep that has its objects. */
  lemma ListingClustersKeeps(w: World)
    requires Tracked(w) && SweepInv(w) && w.sweeping.HaveNames?
    ensures SweepInv(Next(w, ListClusters))
  {
    hide TaggedFor, Orphan;
    var v := Next(w, ListClusters);
    forall id | id in v.sweeping.todo ensures OnlyNewcomers(v, v.clusters[id]) {
      var order :| Enumerates(order, w.clusters[id].Keys) && Orphan(w.clusters[id], order, w.sweeping.names);
      forall o | o in v.objects && TaggedFor(v.clusters[id], o.cr.name) ensures v.listedAt <= o.uid {
        OrphanHasNoObject(w.clusters[id], order, w.sweeping.names, o.cr.name);
      }
    }
  }

  lemma StepKeepsSweepInv(w: World, s: Step)
    requires Tracked(w) && SweepInv(w) && Enabled(w, s)
    ensures SweepInv(Next(w, s))
  {
    hide TaggedFor, Orphan, NamesOf;
    match s {
      case ListCrs(orders) =>
        if w.sweeping.HaveClusters? {
          ListingObjectsKeeps(w, orders);
        } else {
          LivingIsNamed(w);
        }
      case ListClusters =>
        if w.sweeping.HaveNames? { ListingClustersKeeps(w); }
      case Retag(id, tags) =>
        if id in w.holder { SameNameSameClaims(w.clusters[id], tags, w.holder[id].cr.name); }
      case _ =>
    }
  }

  lemma {:induction false} RunKeepsInv(w: World, steps: seq<Step>)
    requires Initial(w) && PossibleInAnyOrder(w, steps)
    ensures Tracked(After(w, steps)) && SweepInv(After(w, steps))
  {
    if steps != [] {
      RunKeepsInv(w, steps[..|steps| - 1]);
      StepKeepsTracked(After(w, steps[..|steps| - 1]), steps[|steps| - 1]);
      StepKeepsSweepInv(After(w, steps[..|steps| - 1]), steps[|steps| - 1]);
    }
  }

  // ---- what a sweep deletes

  /**
   In every interleaving, and in either order of the two listings: when a cluster that carries one name's claim is
   about to be deleted, every living object of that name was created after the sweep listed the objects; so was the
   object that holds it, if that is alive. The one exception is a cluster held by nobody that someone retagged since.
   */
  lemma SweptOnlyUnderNewcomers(w: World, steps: seq<Step>, id: Id)
    requires Initial(w) && PossibleInAnyOrder(w, steps) && Enabled(After(w, steps), SweepOne(id, true))
    requires id in After(w, steps).clusters && id !in After(w, steps).retagged
    ensures var end := After(w, steps);
            && (forall o :: o in end.objects && TaggedFor(end.clusters[id], o.cr.name) ==> end.listedAt <= o.uid)
            && (id in end.holder && end.holder[id] in end.objects ==> end.listedAt <= end.holder[id].uid)
  {
    RunKeepsInv(w, steps);
  }

  /** What was listed before the objects were was created for an object older than that. */
  ghost predicate OlderCreators(w: World) {
    && !w.sweeping.HaveNames?
    && (w.sweeping.Deleting? ==> forall id :: id in w.sweeping.todo && id in w.creator ==> w.creator[id].uid < w.listedAt)
  }

  lemma StepKeepsOlderCreators(w: World, s: Step)
    requires Tracked(w) && SweepInv(w) && OlderCreators(w) && Enabled(w, s) && ClustersFirst(w, s)
    ensures OlderCreators(Next(w, s))
  {
    hide TaggedFor, Orphan, NamesOf, SameClaims, OnlyNewcomers;
  }

  lemma {:induction false} ClustersFirstKeeps(w: World, steps: seq<Step>)
    requires Initial(w) && Possible(w, steps)
    ensures PossibleInAnyOrder(w, steps) && OlderCreators(After(w, steps))
  {
    hide Tracked, SweepInv, Enabled, Next;
    if steps != [] {
      var n := |steps| - 1;
      ClustersFirstKeeps(w, steps[..n]);
      RunKeepsInv(w, steps[..n]);
      StepKeepsOlderCreators(After(w, steps[..n]), steps[n]);
    }
  }

  /**
   With the clusters listed first, the object a swept cluster was created for is gone, whatever was created under its
   name since; and so is the one that holds it, unless it was created after the object listing and adopted the cluster.
   */
  lemma SweptClustersLostTheirObject(w: World, steps: seq<Step>, id: Id)
    requires Initial(w) && Possible(w, steps) && Enabled(After(w, steps), SweepOne(id, true))
    requires id in After(w, steps).clusters && id in After(w, steps).creator
    ensures var end := After(w, steps);
            && end.creator[id] !in end.objects
            && id in end.holder
            && (end.holder[id] in end.objects ==> end.listedAt <= end.holder[id].uid && end.holder[id] != end.creator[id])
  {
    ClustersFirstKeeps(w, steps);
    RunKeepsInv(w, steps);
    SweptOnlyUnderNewcomers(w, steps, id);
  }

  /** Such an adoption is possible whenever a cluster is about to be swept: the Cluster is created again, its control
      plane adopts the cluster, and the sweep deletes it under a living object. */
  lemma ARecreatedClusterIsSwept(w: World, id: Id, cr: ClusterCr)
    requires w.sweeping.Deleting? && id in w.sweeping.todo && id in w.clusters && TaggedFor(w.clusters[id], cr.name)
    ensures var o := Object(cr, w.nextUid);
            var adopted := Next(Next(w, CreateCr(cr)), Adopt(id, o));
            && Enabled(w, CreateCr(cr)) && Enabled(Next(w, CreateCr(cr)), Adopt(id, o))
            && Enabled(adopted, SweepOne(id, true))
            && adopted.holder[id] == o && o in adopted.objects && id !in Next(adopted, SweepOne(id, true)).clusters
  {
  }

  /** The exception is real: a cluster nobody holds, listed under the claim of a name without an object and then tagged
      anew for a living one, is swept although that object was listed. */
  lemma ARetaggedClusterIsSwept(
    w: World, o: Object, name: string, tags: TagMap, later: TagMap, orders: map<Id, seq<string>>)
    requires Initial(w) && o in w.objects && name != "" && name !in LiveNames(w)
    requires TaggedFor(tags, name) && TaggedFor(later, o.cr.name) && EnumeratesAll(orders, w.clusters[w.next := tags])
    ensures var id := w.next;
            var w1 := Next(w, ForeignCluster(tags));
            var w2 := Next(w1, ListClusters);
            var w3 := Next(w2, ListCrs(orders));
            var w4 := Next(w3, Retag(id, later));
            && Enabled(w, ForeignCluster(tags)) && Enabled(w1, ListClusters) && Enabled(w2, ListCrs(orders))
            && Enabled(w3, Retag(id, later)) && Enabled(w4, SweepOne(id, true))
            && w4.clusters == w.clusters[id := later] && id in w4.retagged && o in w4.objects && o.uid < w4.listedAt
            && Next(w4, SweepOne(id, true)).clusters == w.clusters
  {
    assert OwnedTagKey(name) in orders[w.next];
    OnlyClaimIsFirst(tags, orders[w.next], name);
    ClaimedNameInverts(name, "");
  }

  /**
   The order of the listings is what protects new objects. Listing the objects first lets an object and its cluster
   appear between the two listings, and the cluster is swept with its object in place.
   */
  lemma ListingObjectsFirstSweepsALiveCluster(w: World, cr: ClusterCr, tags: TagMap)
    requires Initial(w) && cr.name != "" && cr.name !in LiveNames(w) && TaggedFor(tags, cr.name)
    ensures var o := Object(cr, w.nextUid);
            var w1 := Next(w, ListCrs(map[]));
            var w2 := Next(w1, CreateCr(cr));
            var w3 := Next(w2, CreateCluster(o, tags));
            var w4 := Next(w3, ListClusters);
            && Enabled(w, ListCrs(map[])) && Enabled(w1, CreateCr(cr)) && Enabled(w2, CreateCluster(o, tags))
            && Enabled(w3, ListClusters) && Enabled(w4, SweepOne(w.next, true))
            && w4.creator[w.next] == w4.holder[w.next] == o && o in w4.objects
  {
    ClaimedNameInverts(cr.name, OwnedTagKey(cr.name));
    SweptInSomeOrderIff(tags, LiveNames(w));
    assert Claims(tags, OwnedTagKey(cr.name));
  }
}
