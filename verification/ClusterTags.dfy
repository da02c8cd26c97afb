/**
 Converging a cluster's tags under the platform's cap of tags per resource. The writes of a plan are
 applied one at a time, so a statement about every prefix of a plan covers a batch call that dies half
 way as well as a run cut between the two batch calls.
 */
module ClusterTags {
  import opened Tags

  const MAX_RESOURCE_TAGS := 20
  const MAX_ADDITIONAL_TAGS := MAX_RESOURCE_TAGS - 2

  datatype Write = Delete(key: string) | Create(key: string, value: string)

  /** `want` asks for something at `key` that `cur` does not have there. */
  predicate Drifted(cur: TagMap, want: TagMap, key: string) {
    key in want && !(key in cur && cur[key] == want[key])
  }

  /** The key is left over from an earlier desired set and may go. */
  predicate Stale(cur: TagMap, want: TagMap, cluster: string, key: string) {
    key in cur && key !in want && !Reserved(key, cluster)
  }

  ghost predicate DeletesFirst(writes: seq<Write>) {
    forall i, j :: 0 <= i < j < |writes| && writes[j].Delete? ==> writes[i].Delete?
  }

  ghost predicate OneWritePerKey(writes: seq<Write>) {
    forall i, j :: 0 <= i < j < |writes| ==> writes[i].key != writes[j].key
  }

  /** The plans `PlanClusterTags` may return: exactly the needed writes, each once, deletions first. */
  ghost predicate IsPlan(cur: TagMap, want: TagMap, cluster: string, writes: seq<Write>) {
    && DeletesFirst(writes)
    && OneWritePerKey(writes)
    && (forall k :: Delete(k) in writes <==> Stale(cur, want, cluster, k))
    && (forall k, v :: Create(k, v) in writes <==> Drifted(cur, want, k) && want[k] == v)
  }

  method ClusterTagsDiff(cur: TagMap, want: TagMap, ownedKey: string) returns (add: seq<Tag>, del: seq<string>)
    ensures forall i, j :: 0 <= i < j < |add| ==> add[i].key != add[j].key
    ensures forall t :: t in add <==> Drifted(cur, want, t.key) && want[t.key] == t.value
    ensures forall i, j :: 0 <= i < j < |del| ==> del[i] != del[j]
    ensures forall k :: k in del <==> k in cur && k !in want && k != ownedKey
  {
    add, del := [], [];
    var left := want.Keys;
    while left != {}
      invariant left <= want.Keys
      invariant forall i, j :: 0 <= i < j < |add| ==> add[i].key != add[j].key
      invariant forall t :: t in add <==> t.key !in left && Drifted(cur, want, t.key) && want[t.key] == t.value
    {
      var k :| k in left;
      left := left - {k};
      if k !in cur || cur[k] != want[k] {
        assert forall t :: t in add ==> t.key != k;
        add := add + [Tag(k, want[k])];
      }
    }
    left := cur.Keys;
    while left != {}
      invariant left <= cur.Keys
      invariant forall i, j :: 0 <= i < j < |del| ==> del[i] != del[j]
      invariant forall k :: k in del <==> k in cur && k !in left && k !in want && k != ownedKey
    {
      var k :| k in left;
      left := left - {k};
      if k !in want && k != ownedKey {
        del := del + [k];
      }
    }
  }

  method PlanClusterTags(cur: TagMap, want: TagMap, cluster: string) returns (writes: seq<Write>)
    ensures IsPlan(cur, want, cluster, writes)
  {
    hide OwnedTagKey;
    var add, del := ClusterTagsDiff(cur, want, OwnedTagKey(cluster));
    writes := [];
    for i := 0 to |del|
      invariant forall w :: w in writes ==> w.Delete?
      invariant OneWritePerKey(writes)
      invariant forall k :: Delete(k) in writes <==> k in del[..i] && k != ROLE_TAG_KEY
    {
      assert forall w :: w in writes ==> w == Delete(w.key);
      if del[i] != ROLE_TAG_KEY {
        writes := writes + [Delete(del[i])];
      }
    }
    assert del[..|del|] == del;
    assert forall k :: Delete(k) in writes <==> Stale(cur, want, cluster, k);
    ghost var deletes := writes;
    for i := 0 to |add|
      invariant DeletesFirst(writes) && OneWritePerKey(writes)
      invariant forall k :: Delete(k) in writes <==> Delete(k) in deletes
      invariant forall k, v :: Create(k, v) in writes <==> Tag(k, v) in add[..i]
    {
      forall w | w in writes ensures w.key != add[i].key {
        if w.Create? { assert Tag(w.key, w.value) in add[..i]; } else { assert Delete(w.key) in writes; }
        assert add[i] in add;
      }
      writes := writes + [Create(add[i].key, add[i].value)];
    }
    assert add[..|add|] == add;
  }

  // ---------------------------------------------------------------- what the platform does

  function Applied(tags: TagMap, w: Write): TagMap {
    match w
    case Delete(k) => tags - {k}
    case Create(k, v) => tags[k := v]
  }

  function Apply(tags: TagMap, writes: seq<Write>): TagMap {
    if writes == [] then tags else Applied(Apply(tags, writes[..|writes| - 1]), writes[|writes| - 1])
  }

  lemma {:induction false} ApplyMeansEachWriteOnce(tags: TagMap, writes: seq<Write>)
    requires OneWritePerKey(writes)
    ensures forall k :: (forall w :: w in writes ==> w.key != k) ==>
              (k in Apply(tags, writes) <==> k in tags) && (k in tags ==> Apply(tags, writes)[k] == tags[k])
    ensures forall k :: Delete(k) in writes ==> k !in Apply(tags, writes)
    ensures forall k, v :: Create(k, v) in writes ==> k in Apply(tags, writes) && Apply(tags, writes)[k] == v
  {
    if writes != [] {
      var n := |writes| - 1;
      ApplyMeansEachWriteOnce(tags, writes[..n]);
      assert writes == writes[..n] + [writes[n]];
      assert forall w :: w in writes[..n] ==> w.key != writes[n].key;
    }
  }

  // ---------------------------------------------------------------- convergence

  /** A full plan reaches the desired set exactly, from any current tags, reserved leftovers apart. */
  lemma PlanConvergesIff(cur: TagMap, want: TagMap, cluster: string, writes: seq<Write>)
    requires IsPlan(cur, want, cluster, writes)
    ensures Apply(cur, writes) == want
       <==> forall k :: k in cur && Reserved(k, cluster) ==> k in want
  {
    hide OwnedTagKey;
    ApplyMeansEachWriteOnce(cur, writes);
    var end := Apply(cur, writes);
    forall k | k in want ensures k in end && end[k] == want[k] {
      if Drifted(cur, want, k) {
        assert Create(k, want[k]) in writes;
      } else {
        NoWriteAt(cur, want, cluster, writes, k);
      }
    }
    forall k | k !in want ensures k in end <==> k in cur && Reserved(k, cluster) {
      if Stale(cur, want, cluster, k) {
        assert Delete(k) in writes;
      } else {
        NoWriteAt(cur, want, cluster, writes, k);
      }
    }
  }

  lemma NoWriteAt(cur: TagMap, want: TagMap, cluster: string, writes: seq<Write>, k: string)
    requires IsPlan(cur, want, cluster, writes)
    requires !Drifted(cur, want, k) && !Stale(cur, want, cluster, k)
    ensures forall w :: w in writes ==> w.key != k
  {
  }

  /** Planning again from where a run was cut asks for the writes that were left, and no others. */
  lemma RestIsAPlan(cur: TagMap, want: TagMap, cluster: string, writes: seq<Write>, cut: nat)
    requires IsPlan(cur, want, cluster, writes) && cut <= |writes|
    ensures IsPlan(Apply(cur, writes[..cut]), want, cluster, writes[cut..])
  {
    hide Stale, Apply;
    var done, rest := writes[..cut], writes[cut..];
    var mid := Apply(cur, done);
    assert writes == done + rest;
    PartsKeepOrder(done, rest);
    forall k
      ensures Delete(k) in rest <==> Stale(mid, want, cluster, k)
      ensures Drifted(mid, want, k) <==> k in want && Create(k, want[k]) in rest
    {
      RestAt(cur, want, cluster, done, rest, k);
    }
    forall k, v ensures Create(k, v) in rest <==> Drifted(mid, want, k) && want[k] == v {
      assert Create(k, v) in rest ==> Create(k, v) in writes;
    }
  }

  lemma PartsKeepOrder(done: seq<Write>, rest: seq<Write>)
    requires DeletesFirst(done + rest) && OneWritePerKey(done + rest)
    ensures DeletesFirst(rest) && OneWritePerKey(rest) && OneWritePerKey(done)
    ensures forall w, v | w in done && v in rest :: w.key != v.key
  {
    var all := done + rest;
    assert forall i :: 0 <= i < |done| ==> all[i] == done[i];
    assert forall j :: 0 <= j < |rest| ==> all[|done| + j] == rest[j];
    forall w, v | w in done && v in rest ensures w.key != v.key {
      var i :| 0 <= i < |done| && done[i] == w;
      var j :| 0 <= j < |rest| && rest[j] == v;
      assert all[i].key != all[|done| + j].key;
    }
  }

  lemma RestAt(cur: TagMap, want: TagMap, cluster: string, done: seq<Write>, rest: seq<Write>, k: string)
    requires IsPlan(cur, want, cluster, done + rest)
    requires OneWritePerKey(done)
    requires forall w, v | w in done && v in rest :: w.key != v.key
    ensures var mid := Apply(cur, done);
            && (Delete(k) in rest <==> Stale(mid, want, cluster, k))
            && (Drifted(mid, want, k) <==> k in want && Create(k, want[k]) in rest)
  {
    hide OwnedTagKey;
    ApplyMeansEachWriteOnce(cur, done);
    var mid := Apply(cur, done);
    assert Delete(k) in done + rest <==> Stale(cur, want, cluster, k);
    if exists w :: w in done && w.key == k {
      var w :| w in done && w.key == k;
      assert w in done + rest;
      match w
      case Delete(d) =>
        assert k !in mid && k !in want;
      case Create(c, v) =>
        assert Drifted(cur, want, c) && want[c] == v;
        assert k in mid && mid[k] == want[k];
    } else {
      assert Delete(k) !in done;
      if k in want {
        assert Create(k, want[k]) !in done;
        assert Create(k, want[k]) in done + rest <==> Drifted(cur, want, k);
      }
    }
  }

  /** Nothing is written to a cluster that already carries the desired set, and only then. */
  lemma InSyncIffNoWrites(cur: TagMap, want: TagMap, cluster: string, writes: seq<Write>)
    requires IsPlan(cur, want, cluster, writes)
    requires forall k :: Reserved(k, cluster) ==> k in want
    ensures writes == [] <==> cur == want
  {
    hide OwnedTagKey;
    if writes == [] {
      PlanConvergesIff(cur, want, cluster, writes);
    } else {
      match writes[0]
      case Delete(k) => assert Delete(k) in writes;
      case Create(k, v) => assert Create(k, v) in writes;
    }
  }

  // ---------------------------------------------------------------- the cap

  lemma EveryDeletePrecedes(writes: seq<Write>, n: nat)
    requires DeletesFirst(writes) && 0 < n <= |writes| && writes[n - 1].Create?
    ensures forall k :: Delete(k) in writes ==> Delete(k) in writes[..n]
  {
  }

  /** With deletions first, no prefix of a plan ever needs more slots than the two end states do. */
  lemma PlanStaysUnderCap(cur: TagMap, want: TagMap, cluster: string, writes: seq<Write>, n: nat)
    requires IsPlan(cur, want, cluster, writes) && n <= |writes|
    requires forall k :: Reserved(k, cluster) ==> k in want
    requires |cur| <= MAX_RESOURCE_TAGS && |want| <= MAX_RESOURCE_TAGS
    ensures |Apply(cur, writes[..n])| <= MAX_RESOURCE_TAGS
  {
    hide OwnedTagKey;
    var done := writes[..n];
    ApplyMeansEachWriteOnce(cur, done);
    var mid := Apply(cur, done);
    if n == 0 || writes[n - 1].Delete? {
      assert forall w :: w in done ==> w.Delete?;
      assert mid.Keys <= cur.Keys;
      SubsetSize(mid.Keys, cur.Keys);
    } else {
      EveryDeletePrecedes(writes, n);
      forall k | k in mid.Keys ensures k in want.Keys {
        assert Delete(k) in writes <==> Stale(cur, want, cluster, k);
        if k !in cur {
          var w :| w in done && w.key == k;
          assert w in writes;
          assert w == Create(k, w.value);
        }
      }
      SubsetSize(mid.Keys, want.Keys);
    }
  }

  /**
   Creating first instead would need room for both sets at once: after the creations the resource
   carries the union. From a full resource a single new key is already one too many.
   */
  lemma CreatesFirstPeaksAtTheUnion(cur: TagMap, want: TagMap, creates: seq<Write>)
    requires OneWritePerKey(creates) && forall w :: w in creates ==> w.Create?
    requires forall k, v :: Create(k, v) in creates <==> Drifted(cur, want, k) && want[k] == v
    ensures Apply(cur, creates).Keys == cur.Keys + want.Keys
    ensures |cur| == MAX_RESOURCE_TAGS && !(want.Keys <= cur.Keys) ==> |Apply(cur, creates)| > MAX_RESOURCE_TAGS
  {
    ApplyMeansEachWriteOnce(cur, creates);
    var peak := Apply(cur, creates);
    forall k ensures k in peak <==> k in cur || k in want {
      if w :| w in creates && w.key == k {
        assert w == Create(k, w.value);
      } else if k in want {
        assert Create(k, want[k]) !in creates;
      }
    }
    assert peak.Keys == cur.Keys + want.Keys;
    SubsetSize(cur.Keys, peak.Keys);
  }

  /** Eighteen user tags leave room for the owned and the role tag, which are always among the wanted. */
  lemma DesiredFits(cluster: string, user: TagMap)
    requires |user| <= MAX_ADDITIONAL_TAGS
    ensures |Desired(cluster, ROLE_APISERVER, user)| <= MAX_RESOURCE_TAGS
    ensures forall k :: Reserved(k, cluster) ==> k in Desired(cluster, ROLE_APISERVER, user)
  {
    hide OwnedTagKey;
    DesiredSize(cluster, ROLE_APISERVER, user);
  }

  /**
   A cluster resource. The platform refuses a write that would exceed the cap; a call on an unreliable
   platform may also die at any write.
   */
  class Cluster {
    var tags: TagMap
    const reliable: bool

    constructor (tags: TagMap, reliable: bool)
      ensures this.tags == tags && this.reliable == reliable
    {
      this.tags, this.reliable := tags, reliable;
    }

    method Batch(writes: seq<Write>) returns (ok: bool, ghost done: nat)
      modifies this
      ensures done <= |writes| && tags == Apply(old(tags), writes[..done])
      ensures ok <==> done == |writes|
      ensures reliable && (forall n :: 0 <= n <= |writes| ==> |Apply(old(tags), writes[..n])| <= MAX_RESOURCE_TAGS) ==> ok
    {
      done := 0;
      for i := 0 to |writes|
        invariant done == i && tags == Apply(old(tags), writes[..i])
      {
        var after := Applied(tags, writes[i]);
        assert writes[..i + 1][..i] == writes[..i];
        assert after == Apply(old(tags), writes[..i + 1]);
        if |after| > MAX_RESOURCE_TAGS { return false, i; }
        if !reliable {
          if * { return false, i; }
        }
        tags := after;
        done := i + 1;
      }
      assert writes[..|writes|] == writes;
      ok := true;
    }

    /**
     ReconcileClusterTags: whatever fails, the tags moved along some plan; success means the desired set;
     and with at most eighteen user tags the cap is never in the way.
     */
    method ReconcileClusterTags(cluster: string, user: TagMap) returns (ok: bool, ghost plan: seq<Write>,
        ghost done: nat)
      modifies this
      ensures IsPlan(old(tags), Desired(cluster, ROLE_APISERVER, user), cluster, plan)
      ensures done <= |plan| && tags == Apply(old(tags), plan[..done])
      ensures ok ==> tags == Desired(cluster, ROLE_APISERVER, user)
      ensures reliable && |old(tags)| <= MAX_RESOURCE_TAGS && |user| <= MAX_ADDITIONAL_TAGS ==> ok
    {
      hide OwnedTagKey, Desired, IsPlan, Apply;
      var want := Wanted(cluster, ROLE_APISERVER, user);
      var writes := PlanClusterTags(tags, want, cluster);
      plan, done := writes, 0;
      EmptyRun(tags, plan);
      if !reliable {
        if * { return false, plan, 0; }   // ShowCluster failed
      }
      var toDelete, toCreate := Split(writes, tags, want, cluster);
      BatchesRunThePlan(tags, cluster, user, toDelete, toCreate);
      if |toDelete| > 0 {
        ok, done := Batch(toDelete);
        if !ok { return; }
      }
      if |toCreate| > 0 {
        ghost var more;
        ok, more := Batch(toCreate);
        done := |toDelete| + more;
        if !ok { return; }
      }
      ok := true;
    }
  }

  lemma EmptyRun(tags: TagMap, plan: seq<Write>)
    ensures tags == Apply(tags, plan[..0]) && tags == Apply(tags, [])
  {
  }

  /** The two batches are the plan, cut in two; the cap holds at every point of both. */
  lemma BatchesRunThePlan(cur: TagMap, cluster: string, user: TagMap, deletes: seq<Write>, creates: seq<Write>)
    requires IsPlan(cur, Desired(cluster, ROLE_APISERVER, user), cluster, deletes + creates)
    ensures forall n :: 0 <= n <= |deletes| ==> deletes[..n] == (deletes + creates)[..n]
    ensures deletes[..|deletes|] == deletes
    ensures forall n :: 0 <= n <= |creates| ==>
              Apply(Apply(cur, deletes), creates[..n]) == Apply(cur, (deletes + creates)[..|deletes| + n])
    ensures Apply(Apply(cur, deletes), creates[..|creates|]) == Desired(cluster, ROLE_APISERVER, user)
    ensures Apply(Apply(cur, deletes), []) == Apply(cur, deletes)
    ensures creates == [] ==> Apply(cur, deletes) == Desired(cluster, ROLE_APISERVER, user)
    ensures |cur| <= MAX_RESOURCE_TAGS && |user| <= MAX_ADDITIONAL_TAGS ==>
              && (forall n :: 0 <= n <= |deletes| ==> |Apply(cur, deletes[..n])| <= MAX_RESOURCE_TAGS)
              && (forall n :: 0 <= n <= |creates| ==> |Apply(Apply(cur, deletes), creates[..n])| <= MAX_RESOURCE_TAGS)
  {
    hide *;
    var plan := deletes + creates;
    PrefixesOfTwoParts(cur, deletes, creates);
    WantedReached(cur, cluster, user, plan);
    EmptyRun(Apply(cur, deletes), []);
    if |cur| <= MAX_RESOURCE_TAGS && |user| <= MAX_ADDITIONAL_TAGS {
      PrefixesFit(cur, cluster, user, plan);
    }
  }

  lemma PrefixesOfTwoParts(cur: TagMap, a: seq<Write>, b: seq<Write>)
    ensures forall n :: 0 <= n <= |a| ==> a[..n] == (a + b)[..n]
    ensures a[..|a|] == a && b[..|b|] == b && (a + b)[..|a| + |b|] == a + b
    ensures forall n :: 0 <= n <= |b| ==> Apply(Apply(cur, a), b[..n]) == Apply(cur, (a + b)[..|a| + n])
    ensures b == [] ==> a + b == a
  {
    hide Apply;
    forall n | 0 <= n <= |b| ensures Apply(Apply(cur, a), b[..n]) == Apply(cur, (a + b)[..|a| + n]) {
      RunsOn(cur, a, b, n);
    }
  }

  lemma RunsOn(cur: TagMap, a: seq<Write>, b: seq<Write>, n: nat)
    requires n <= |b|
    ensures Apply(Apply(cur, a), b[..n]) == Apply(cur, (a + b)[..|a| + n])
  {
    hide Apply;
    assert a + b[..n] == (a + b)[..|a| + n];
    ApplyInTwoParts(cur, a, b[..n]);
  }

  /** The service sorts the planned writes into its two batch requests. */
  method Split(writes: seq<Write>, ghost cur: TagMap, ghost want: TagMap, ghost cluster: string)
    returns (deletes: seq<Write>, creates: seq<Write>)
    requires IsPlan(cur, want, cluster, writes)
    ensures writes == deletes + creates
  {
    hide Stale, Drifted;
    deletes, creates := [], [];
    for i := 0 to |writes|
      invariant writes[..i] == deletes + creates
      invariant |deletes| <= i && (|deletes| < i ==> writes[|deletes|].Create?)
    {
      assert writes[..i + 1] == writes[..i] + [writes[i]];
      if writes[i].Delete? {
        deletes := deletes + [writes[i]];
      } else {
        creates := creates + [writes[i]];
      }
    }
    assert writes[..|writes|] == writes;
  }

  lemma PrefixesFit(cur: TagMap, cluster: string, user: TagMap, writes: seq<Write>)
    requires IsPlan(cur, Desired(cluster, ROLE_APISERVER, user), cluster, writes)
    requires |cur| <= MAX_RESOURCE_TAGS && |user| <= MAX_ADDITIONAL_TAGS
    ensures forall n :: 0 <= n <= |writes| ==> |Apply(cur, writes[..n])| <= MAX_RESOURCE_TAGS
  {
    hide Desired, OwnedTagKey;
    DesiredFits(cluster, user);
    forall n | 0 <= n <= |writes| ensures |Apply(cur, writes[..n])| <= MAX_RESOURCE_TAGS {
      PlanStaysUnderCap(cur, Desired(cluster, ROLE_APISERVER, user), cluster, writes, n);
    }
  }

  lemma WantedReached(cur: TagMap, cluster: string, user: TagMap, writes: seq<Write>)
    requires IsPlan(cur, Desired(cluster, ROLE_APISERVER, user), cluster, writes)
    ensures Apply(cur, writes) == Desired(cluster, ROLE_APISERVER, user)
  {
    PlanConvergesIff(cur, Desired(cluster, ROLE_APISERVER, user), cluster, writes);
  }

  lemma {:induction false} ApplyInTwoParts(tags: TagMap, a: seq<Write>, b: seq<Write>)
    ensures Apply(Apply(tags, a), b) == Apply(tags, a + b)
  {
    if b == [] {
      assert a + b == a;
    } else {
      ApplyInTwoParts(tags, a, b[..|b| - 1]);
      assert (a + b)[..|a + b| - 1] == a + b[..|b| - 1];
    }
  }
}
