/**
 A cloud-side collection addressed by ID, the writes a reconciler plans against it, and the index by name
 it builds from one listing. Shared by the declarative-set reconcilers.
 */
module CloudWrites {
  import opened Options
  import Tags

  type Id = nat

  datatype Cloud<T> = Cloud(items: map<Id, T>, next: Id)

  datatype Write<T> = Create(value: T) | Update(id: Id, value: T) | Delete(id: Id)

  /** IDs are handed out once, in order. */
  predicate Fresh<T>(c: Cloud<T>) {
    forall id :: id in c.items ==> id < c.next
  }

  function Applied<T>(c: Cloud<T>, w: Write<T>): Cloud<T> {
    match w
    case Create(v) => Cloud(c.items[c.next := v], c.next + 1)
    case Update(id, v) => if id in c.items then c.(items := c.items[id := v]) else c
    case Delete(id) => c.(items := c.items - {id})
  }

  function Apply<T>(c: Cloud<T>, writes: seq<Write<T>>): Cloud<T> {
    if writes == [] then c else Applied(Apply(c, writes[..|writes| - 1]), writes[|writes| - 1])
  }

  lemma {:induction false} ApplyInTwoParts<T>(c: Cloud<T>, a: seq<Write<T>>, b: seq<Write<T>>)
    ensures Apply(Apply(c, a), b) == Apply(c, a + b)
  {
    if b == [] {
      assert a + b == a;
    } else {
      ApplyInTwoParts(c, a, b[..|b| - 1]);
      assert (a + b)[..|a + b| - 1] == a + b[..|b| - 1];
    }
  }

  lemma ApplyOneMore<T>(c: Cloud<T>, writes: seq<Write<T>>, w: Write<T>)
    ensures Apply(c, writes + [w]) == Applied(Apply(c, writes), w)
  {
  }

  lemma EmptyRun<T(!new)>(c: Cloud<T>)
    ensures Apply(c, []) == c && forall ws: seq<Write<T>> :: Apply(c, ws[..0]) == c
  {
  }

  /** Running two stretches of writes one after the other, cut anywhere in the second. */
  lemma PlanPrefixes<T>(c: Cloud<T>, a: seq<Write<T>>, b: seq<Write<T>>)
    ensures forall n :: 0 <= n <= |a| ==> (a + b)[..n] == a[..n]
    ensures forall n :: 0 <= n <= |b| ==> Apply(Apply(c, a), b[..n]) == Apply(c, (a + b)[..|a| + n])
    ensures Apply(Apply(c, a), b) == Apply(c, (a + b)[..|a| + |b|])
  {
    hide Apply;
    forall n | 0 <= n <= |b| ensures Apply(Apply(c, a), b[..n]) == Apply(c, (a + b)[..|a| + n]) {
      RunsOn(c, a, b, n);
    }
    assert b[..|b|] == b;
  }

  lemma RunsOn<T>(c: Cloud<T>, a: seq<Write<T>>, b: seq<Write<T>>, n: nat)
    requires n <= |b|
    ensures Apply(Apply(c, a), b[..n]) == Apply(c, (a + b)[..|a| + n])
  {
    hide Apply;
    ApplyInTwoParts(c, a, b[..n]);
    assert (a + b)[..|a| + n] == a + b[..n];
  }

  /** No two writes address the same ID, and none addresses an ID not handed out yet. */
  ghost predicate OncePerId<T(!new)>(c: Cloud<T>, writes: seq<Write<T>>) {
    && (forall i, j :: 0 <= i < j < |writes| && !writes[i].Create? && !writes[j].Create? ==> writes[i].id != writes[j].id)
    && (forall w :: w in writes && !w.Create? ==> w.id in c.items)
  }

  ghost predicate Writes<T(!new)>(writes: seq<Write<T>>, id: Id) {
    exists w :: w in writes && !w.Create? && w.id == id
  }

  /** What a run of writes leaves: existing entries as written, new entries exactly the created values. */
  ghost predicate Effect<T(!new)>(c: Cloud<T>, writes: seq<Write<T>>, after: Cloud<T>) {
    && Fresh(after) && c.next <= after.next
    && (forall id: Id :: id < c.next && Delete(id) in writes ==> id !in after.items)
    && (forall id, v :: Update(id, v) in writes ==> id in after.items && after.items[id] == v)
    && (forall id: Id :: id < c.next && !Writes(writes, id) ==>
          (id in after.items <==> id in c.items) && (id in c.items ==> after.items[id] == c.items[id]))
    && (forall id :: id in after.items && c.next <= id ==> Create(after.items[id]) in writes)
    && (forall v :: Create(v) in writes ==> exists id :: c.next <= id && id in after.items && after.items[id] == v)
  }

  lemma {:induction false} ApplyHasEffect<T(!new)>(c: Cloud<T>, writes: seq<Write<T>>)
    requires Fresh(c) && OncePerId(c, writes)
    ensures Effect(c, writes, Apply(c, writes))
  {
    if writes != [] {
      var n := |writes| - 1;
      var init, last := writes[..n], writes[n];
      ApplyHasEffect(c, init);
      assert writes == init + [last];
      assert forall w :: w in init && !w.Create? && !last.Create? ==> w.id != last.id;
      EffectExtends(c, init, last, Apply(c, init));
    }
  }

  lemma EffectExtends<T(!new)>(c: Cloud<T>, init: seq<Write<T>>, last: Write<T>, mid: Cloud<T>)
    requires Fresh(c) && Effect(c, init, mid)
    requires forall w :: w in init && !w.Create? && !last.Create? ==> w.id != last.id
    requires !last.Create? ==> last.id in c.items
    ensures Effect(c, init + [last], Applied(mid, last))
  {
    var writes := init + [last];
    var after := Applied(mid, last);
    assert last in writes && forall w :: w in writes <==> w in init || w == last;
    forall id | Writes(init, id) ensures Writes(writes, id) {
      var w :| w in init && !w.Create? && w.id == id;
      assert w in writes;
    }
    if !last.Create? {
      assert !Writes(init, last.id);
      assert last.id in mid.items;
      assert Writes(writes, last.id);
    }
    forall v | Create(v) in writes
      ensures exists id :: c.next <= id && id in after.items && after.items[id] == v
    {
      if last == Create(v) {
        assert after.items[mid.next] == v;
      } else {
        var id :| c.next <= id && id in mid.items && mid.items[id] == v;
        assert id in after.items && after.items[id] == v;
      }
    }
  }

  ghost predicate CreatesDiffer<T(!new)>(writes: seq<Write<T>>) {
    forall i, j :: 0 <= i < j < |writes| && writes[i].Create? && writes[j].Create? ==> writes[i] != writes[j]
  }

  lemma JoinOncePerId<T(!new)>(c: Cloud<T>, a: seq<Write<T>>, b: seq<Write<T>>)
    requires OncePerId(c, a) && OncePerId(c, b) && CreatesDiffer(a)
    requires forall w :: w in b ==> w.Delete?
    requires forall w, v :: w in a && v in b && !w.Create? ==> w.id != v.id
    ensures OncePerId(c, a + b) && CreatesDiffer(a + b)
  {
    var all := a + b;
    forall k | |a| <= k < |all| ensures all[k].Delete? { assert all[k] in b; }
    forall i, j | 0 <= i < j < |all| && !all[i].Create? && !all[j].Create? ensures all[i].id != all[j].id {
      if i < |a| <= j { assert all[i] in a && all[j] in b; }
      if |a| <= i { assert b[i - |a|].id != b[j - |a|].id; }
    }
    forall i, j | 0 <= i < j < |all| && all[i].Create? && all[j].Create? ensures all[i] != all[j] {
    }
  }

  lemma HasAMember<T(!new)>(writes: seq<Write<T>>)
    ensures writes == [] || exists w :: w in writes
  {
    if writes != [] { assert writes[0] in writes; }
  }

  /** Different values created get different IDs, and the same value is not created twice. */
  lemma {:induction false} NewEntriesDiffer<T(!new)>(c: Cloud<T>, writes: seq<Write<T>>)
    requires Fresh(c) && OncePerId(c, writes) && CreatesDiffer(writes)
    ensures DifferFrom(c.next, Apply(c, writes))
  {
    if writes != [] {
      var n := |writes| - 1;
      var init, last := writes[..n], writes[n];
      assert forall w :: w in init ==> w in writes;
      NewEntriesDiffer(c, init);
      ApplyHasEffect(c, init);
      if last.Create? {
        CreatedOnce(writes);
      }
      OneMoreDiffers(c, init, last, Apply(c, init));
    }
  }

  /** No two entries with IDs from `from` on are equal. */
  predicate DifferFrom<T(==)>(from: Id, c: Cloud<T>) {
    forall i, j :: i in c.items && j in c.items && from <= i && from <= j && c.items[i] == c.items[j] ==> i == j
  }

  lemma CreatedOnce<T(!new)>(writes: seq<Write<T>>)
    requires CreatesDiffer(writes) && writes != [] && writes[|writes| - 1].Create?
    ensures writes[|writes| - 1] !in writes[..|writes| - 1]
  {
  }

  lemma OneMoreDiffers<T(!new)>(c: Cloud<T>, init: seq<Write<T>>, last: Write<T>, mid: Cloud<T>)
    requires Fresh(c) && Effect(c, init, mid) && DifferFrom(c.next, mid)
    requires if last.Create? then last !in init else last.id in c.items
    ensures DifferFrom(c.next, Applied(mid, last))
  {
  }

  /** Without any order or uniqueness: an entry no write addresses stays as it was. */
  ghost predicate TouchesOnly<T(!new)>(c: Cloud<T>, writes: seq<Write<T>>, after: Cloud<T>) {
    && Fresh(after) && c.next <= after.next
    && (forall id :: id in c.items && id !in after.items ==> Delete(id) in writes)
    && (forall id :: id in c.items && id in after.items && after.items[id] != c.items[id] ==>
          Update(id, after.items[id]) in writes)
    && (forall id :: id in after.items && id !in c.items ==> c.next <= id && Create(after.items[id]) in writes)
  }

  lemma {:induction false} ApplyTouchesOnly<T(!new)>(c: Cloud<T>, writes: seq<Write<T>>)
    requires Fresh(c) && forall w :: w in writes && !w.Create? ==> w.id in c.items
    ensures TouchesOnly(c, writes, Apply(c, writes))
  {
    if writes != [] {
      var n := |writes| - 1;
      ApplyTouchesOnly(c, writes[..n]);
      assert forall w :: w in writes <==> w in writes[..n] || w == writes[n];
    }
  }

  /** What a run of writes creates is there at its end. */
  lemma {:induction false} CreatedIsThere<T(!new)>(c: Cloud<T>, writes: seq<Write<T>>, value: T) returns (id: Id)
    requires Fresh(c) && Create(value) in writes
    requires forall w :: w in writes && !w.Create? ==> w.id in c.items
    ensures c.next <= id && id in Apply(c, writes).items && Apply(c, writes).items[id] == value
  {
    var n := |writes| - 1;
    var mid := Apply(c, writes[..n]);
    ApplyTouchesOnly(c, writes[..n]);
    if writes[n] == Create(value) {
      id := mid.next;
    } else {
      assert Create(value) in writes[..n];
      id := CreatedIsThere(c, writes[..n], value);
    }
  }

  // ---------------------------------------------------------------- one listing, indexed by name

  /** The last listed entry of that name: building a map from a list, later entries overwrite. */
  function LastNamed(listing: seq<Id>, names: map<Id, string>, name: string): (r: Option<Id>)
    ensures r.Some? ==> r.value in listing && r.value in names && names[r.value] == name
    ensures r.None? ==> forall id :: id in listing && id in names ==> names[id] != name
  {
    if listing == [] then None
    else
      var id := listing[|listing| - 1];
      if id in names && names[id] == name then Some(id) else LastNamed(listing[..|listing| - 1], names, name)
  }

  method IndexByName(listing: seq<Id>, names: map<Id, string>) returns (index: map<string, Id>)
    ensures forall n :: n in index <==> LastNamed(listing, names, n).Some?
    ensures forall n :: n in index ==> LastNamed(listing, names, n) == Some(index[n])
  {
    index := map[];
    for i := 0 to |listing|
      invariant forall n :: n in index <==> LastNamed(listing[..i], names, n).Some?
      invariant forall n :: n in index ==> LastNamed(listing[..i], names, n) == Some(index[n])
    {
      assert listing[..i + 1][..i] == listing[..i];
      if listing[i] in names { index := index[names[listing[i]] := listing[i]]; }
    }
    assert listing[..|listing|] == listing;
  }

  /** A listing returns every item once, in an order of the platform's choosing. */
  ghost predicate Lists<T>(listing: seq<Id>, c: Cloud<T>) {
    Tags.Enumerates(listing, c.items.Keys)
  }

  ghost predicate UniqueNames(names: map<Id, string>) {
    forall i, j :: i in names && j in names && names[i] == names[j] ==> i == j
  }

  /** Where names are unique the order of the listing makes no difference. */
  lemma UniqueNameFound(listing: seq<Id>, names: map<Id, string>, id: Id)
    requires UniqueNames(names) && id in listing && id in names
    ensures LastNamed(listing, names, names[id]) == Some(id)
  {
  }
}
