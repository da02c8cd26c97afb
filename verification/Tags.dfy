/**
 The ownership tag scheme: building the desired tag set of a cluster or node pool, and reading the
 owner back. Go ranges over a map in any order, so a range loop whose result depends on the order
 takes the order as an argument; every other range loop picks any key still left.
 */
module Tags {
  type TagMap = map<string, string>

  datatype Tag = Tag(key: string, value: string)

  const OWNED_TAG_PREFIX := "cluster-api-provider-cce.cluster"
  const ROLE_TAG_KEY := "cluster-api-provider-cce.role"
  const OWNED := "owned"
  const ROLE_APISERVER := "apiserver"
  const ROLE_NODE := "node"

  function OwnedTagKey(cluster: string): string {
    OWNED_TAG_PREFIX + "." + cluster
  }

  predicate IsOwned(tags: TagMap, cluster: string) {
    var key := OwnedTagKey(cluster);
    key in tags && tags[key] == OWNED
  }

  /** The entry under `key` reads as an ownership claim by some cluster. */
  predicate Claims(tags: TagMap, key: string) {
    key in tags && tags[key] == OWNED && OWNED_TAG_PREFIX + "." <= key
  }

  function ClaimedName(key: string): string
    requires OWNED_TAG_PREFIX + "." <= key
  {
    key[|OWNED_TAG_PREFIX + "."|..]
  }

  lemma ClaimedNameInverts(cluster: string, key: string)
    ensures OWNED_TAG_PREFIX + "." <= OwnedTagKey(cluster) && ClaimedName(OwnedTagKey(cluster)) == cluster
    ensures OWNED_TAG_PREFIX + "." <= key && ClaimedName(key) == cluster ==> key == OwnedTagKey(cluster)
  {
  }

  lemma RoleKeyIsNotAClaim()
    ensures !(OWNED_TAG_PREFIX + "." <= ROLE_TAG_KEY)
    ensures forall cluster :: OwnedTagKey(cluster) != ROLE_TAG_KEY
  {
  }

  // ---------------------------------------------------------------- desired tags

  /** skipReservedTagKey: the internal keys win over user tags of the same key. */
  predicate Reserved(key: string, cluster: string) {
    key == OwnedTagKey(cluster) || key == ROLE_TAG_KEY
  }

  /** What a resource must carry: the owned tag, the role tag, and every user tag under another key. */
  function Desired(cluster: string, role: string, user: TagMap): TagMap {
    (map k | k in user && !Reserved(k, cluster) :: user[k])
      [OwnedTagKey(cluster) := OWNED][ROLE_TAG_KEY := role]
  }

  /** `list` holds exactly the entries of `m`, each once. */
  predicate Lists(list: seq<Tag>, m: TagMap) {
    && (forall i, j :: 0 <= i < j < |list| ==> list[i].key != list[j].key)
    && (forall t :: t in list ==> t.key in m && m[t.key] == t.value)
    && (forall k :: k in m ==> Tag(k, m[k]) in list)
  }

  /** toClusterTags and toUserTags differ only in the role. */
  method ToTags(cluster: string, role: string, user: TagMap) returns (out: seq<Tag>)
    ensures Lists(out, Desired(cluster, role, user))
  {
    hide OwnedTagKey, Lists, Desired;
    out := [Tag(OwnedTagKey(cluster), OWNED), Tag(ROLE_TAG_KEY, role)];
    ListsInternalTags(cluster, role);
    var left := user.Keys;
    ghost var seen: TagMap := map[];
    while left != {}
      invariant left <= user.Keys
      invariant seen == user - left
      invariant Lists(out, Desired(cluster, role, seen))
    {
      var k :| k in left;
      left := left - {k};
      DesiredExtends(cluster, role, seen, k, user[k]);
      if !Reserved(k, cluster) {
        ListsExtend(out, Desired(cluster, role, seen), Tag(k, user[k]));
        out := out + [Tag(k, user[k])];
      }
      seen := seen[k := user[k]];
    }
    assert seen == user;
  }

  lemma ListsInternalTags(cluster: string, role: string)
    ensures Lists([Tag(OwnedTagKey(cluster), OWNED), Tag(ROLE_TAG_KEY, role)], Desired(cluster, role, map[]))
  {
  }

  lemma ListsExtend(list: seq<Tag>, m: TagMap, t: Tag)
    requires Lists(list, m) && t.key !in m
    ensures Lists(list + [t], m[t.key := t.value])
  {
  }

  lemma DesiredExtends(cluster: string, role: string, user: TagMap, key: string, value: string)
    requires key !in user
    ensures Desired(cluster, role, user[key := value]) ==
            if Reserved(key, cluster) then Desired(cluster, role, user)
            else Desired(cluster, role, user)[key := value]
    ensures !Reserved(key, cluster) ==> key !in Desired(cluster, role, user)
  {
  }

  /** The loop that turns the SDK's tag array back into a map. */
  method AsMap(list: seq<Tag>, ghost entries: TagMap) returns (m: TagMap)
    requires Lists(list, entries)
    ensures m == entries
  {
    m := map[];
    for i := 0 to |list|
      invariant forall k :: k in m ==> k in entries && m[k] == entries[k]
      invariant forall j :: 0 <= j < i ==> list[j].key in m
    {
      assert list[i] in list;
      m := m[list[i].key := list[i].value];
    }
    forall k | k in entries ensures k in m {
      assert Tag(k, entries[k]) in list;
    }
  }

  method Wanted(cluster: string, role: string, user: TagMap) returns (want: TagMap)
    ensures want == Desired(cluster, role, user)
  {
    var list := ToTags(cluster, role, user);
    want := AsMap(list, Desired(cluster, role, user));
  }

  /** Two slots on top of the user tags are enough. */
  lemma DesiredSize(cluster: string, role: string, user: TagMap)
    ensures |Desired(cluster, role, user)| <= |user| + 2
  {
    hide OwnedTagKey, Reserved;
    var rest := map k | k in user && !Reserved(k, cluster) :: user[k];
    assert rest.Keys <= user.Keys;
    SubsetSize(rest.Keys, user.Keys);
    var one := rest[OwnedTagKey(cluster) := OWNED];
    assert one.Keys == rest.Keys + {OwnedTagKey(cluster)};
    assert Desired(cluster, role, user).Keys == one.Keys + {ROLE_TAG_KEY};
  }

  lemma {:induction false} SubsetSize<T>(a: set<T>, b: set<T>)
    requires a <= b
    ensures |a| <= |b|
    ensures |a| == |b| ==> a == b
    decreases |a|
  {
    if a == {} {
      assert |b| == 0 ==> b == {};
    } else {
      var x :| x in a;
      SubsetSize(a - {x}, b - {x});
      assert a == (a - {x}) + {x} && b == (b - {x}) + {x};
    }
  }

  // ---------------------------------------------------------------- reading the owner back

  ghost predicate Enumerates<T(!new)>(order: seq<T>, s: set<T>) {
    && (forall i, j :: 0 <= i < j < |order| ==> order[i] != order[j])
    && (forall x :: x in order <==> x in s)
  }

  function FirstOwner(tags: TagMap, order: seq<string>): string {
    if order == [] then ""
    else if Claims(tags, order[0]) then ClaimedName(order[0])
    else FirstOwner(tags, order[1..])
  }

  method OwnedClusterName(tags: TagMap, order: seq<string>) returns (name: string)
    requires Enumerates(order, tags.Keys)
    ensures name == FirstOwner(tags, order)
    ensures name != "" ==> IsOwned(tags, name)
    ensures forall i :: 0 <= i < |order| && tags[order[i]] == OWNED && OWNED_TAG_PREFIX + "." <= order[i]
                        && (forall j :: 0 <= j < i ==> tags[order[j]] != OWNED || !(OWNED_TAG_PREFIX + "." <= order[j]))
                        ==> name == order[i][|OWNED_TAG_PREFIX| + 1..]
  {
    for i := 0 to |order|
      invariant FirstOwner(tags, order) == FirstOwner(tags, order[i..])
      invariant forall j :: 0 <= j < i ==> tags[order[j]] != OWNED || !(OWNED_TAG_PREFIX + "." <= order[j])
    {
      var k := order[i];
      assert order[i..][1..] == order[i + 1..];
      if tags[k] == OWNED && OWNED_TAG_PREFIX + "." <= k {
        ClaimedNameInverts(ClaimedName(k), k);
        return ClaimedName(k);
      }
    }
    return "";
  }

  /** Every order of the range loop reads `cluster` from these tags. */
  ghost predicate AlwaysReads(tags: TagMap, cluster: string) {
    forall order :: Enumerates(order, tags.Keys) ==> FirstOwner(tags, order) == cluster
  }

  /**
   The owner of a cluster is read back whatever the map order, exactly when no user tag under another
   key claims ownership too. A user tag `cluster-api-provider-cce.cluster.other=owned` is therefore
   enough to make a cluster read as `other`'s in some order.
   */
  lemma OwnerReadBackIff(cluster: string, role: string, user: TagMap)
    ensures AlwaysReads(Desired(cluster, role, user), cluster)
       <==> forall k :: Claims(user, k) ==> k == OwnedTagKey(cluster)
  {
    RoleKeyIsNotAClaim();
    ClaimedNameInverts(cluster, "");
    var tags := Desired(cluster, role, user);
    if forall k :: Claims(user, k) ==> k == OwnedTagKey(cluster) {
      forall k | Claims(tags, k) ensures k == OwnedTagKey(cluster) {
        assert k != OwnedTagKey(cluster) && k != ROLE_TAG_KEY ==> Claims(user, k);
      }
      forall order | Enumerates(order, tags.Keys) ensures FirstOwner(tags, order) == cluster {
        OnlyClaimIsFirst(tags, order, cluster);
      }
    } else {
      var k :| Claims(user, k) && k != OwnedTagKey(cluster);
      var rest := Enumeration(tags.Keys - {k});
      assert Enumerates([k] + rest, tags.Keys);
      assert FirstOwner(tags, [k] + rest) == ClaimedName(k);
      ClaimedNameInverts(cluster, k);
    }
  }

  lemma {:induction false} OnlyClaimIsFirst(tags: TagMap, order: seq<string>, cluster: string)
    requires IsOwned(tags, cluster) && OwnedTagKey(cluster) in order
    requires forall k :: Claims(tags, k) ==> k == OwnedTagKey(cluster)
    ensures FirstOwner(tags, order) == cluster
  {
    ClaimedNameInverts(cluster, "");
    if order[0] != OwnedTagKey(cluster) {
      assert order == [order[0]] + order[1..];
      OnlyClaimIsFirst(tags, order[1..], cluster);
    }
  }

  lemma {:induction false} Enumeration<T(!new)>(s: set<T>) returns (order: seq<T>)
    ensures Enumerates(order, s)
  {
    if s == {} {
      order := [];
    } else {
      var x :| x in s;
      var rest := Enumeration(s - {x});
      order := [x] + rest;
    }
  }
}
