/** Pod-identity passes reach one and the same set of associations, wherever they are cut and restarted. */
module PodIdentityRestart {
  import opened Options
  import opened CloudWrites
  import opened PodIdentity

  /** What can be told about the association of a key, its ID apart. */
  datatype Seen = Seen(agency: string, owned: bool)

  function SeenOf(a: Assoc): Seen { Seen(a.agency, a.owned) }

  /** The platform holds at most one association per service account. */
  ghost predicate Known(c: Cloud<Assoc>) {
    Fresh(c) && UniqueNames(Keys(c))
  }

  ghost function At(c: Cloud<Assoc>, key: string): Option<Seen> {
    if id :| id in c.items && Keys(c)[id] == key then Some(SeenOf(c.items[id])) else None
  }

  lemma AtIs(c: Cloud<Assoc>, id: Id)
    requires Known(c) && id in c.items
    ensures At(c, Keys(c)[id]) == Some(SeenOf(c.items[id]))
  {
  }

  ghost function AgencyOf(spec: seq<Want>, key: string): string
    requires Declares(spec, key)
  {
    var i :| 0 <= i < |spec| && WantKey(spec[i]) == key;
    spec[i].agency
  }

  /** Where a key ends up: kept if declared or not ours, created if declared and missing, else gone. */
  ghost function Target(c: Cloud<Assoc>, spec: seq<Want>, key: string): Option<Seen> {
    match At(c, key)
    case None => if Declares(spec, key) then Some(Seen(AgencyOf(spec, key), true)) else None
    case Some(s) => if Declares(spec, key) || !s.owned then Some(s) else None
  }

  // ---------------------------------------------------------------- one write towards the target

  /** The write brings its own key to the target. */
  ghost predicate Pending(c: Cloud<Assoc>, spec: seq<Want>, w: Write<Assoc>) {
    match w
    case Create(a) => exists i :: 0 <= i < |spec| && a == Owned(spec[i]) && At(c, WantKey(spec[i])) == None
    case Delete(id) => id in c.items && c.items[id].owned && !Declares(spec, Keys(c)[id])
    case Update(_, _) => false
  }

  function WriteKey(c: Cloud<Assoc>, w: Write<Assoc>): string {
    match w
    case Create(a) => KeyOf(a.namespace, a.account)
    case Update(id, _) => if id in c.items then Keys(c)[id] else ""
    case Delete(id) => if id in c.items then Keys(c)[id] else ""
  }

  lemma PendingWriteReachesItsTarget(c: Cloud<Assoc>, spec: seq<Want>, w: Write<Assoc>, key: string)
    requires Known(c) && DistinctKeys(spec) && Pending(c, spec, w)
    ensures Known(Applied(c, w))
    ensures At(Applied(c, w), key) == if key == WriteKey(c, w) then Target(c, spec, key) else At(c, key)
    ensures Target(Applied(c, w), spec, key) == Target(c, spec, key)
  {
    match w
    case Create(a) =>
      var i :| 0 <= i < |spec| && a == Owned(spec[i]) && At(c, WantKey(spec[i])) == None;
      CreateAt(c, a, key);
      assert AgencyOf(spec, WantKey(spec[i])) == spec[i].agency;
    case Delete(id) =>
      AtIs(c, id);
      DeleteAt(c, id, key);
  }

  lemma CreateAt(c: Cloud<Assoc>, a: Assoc, key: string)
    requires Known(c) && At(c, KeyOf(a.namespace, a.account)) == None
    ensures Known(Applied(c, Create(a)))
    ensures At(Applied(c, Create(a)), key) == if key == KeyOf(a.namespace, a.account) then Some(SeenOf(a)) else At(c, key)
  {
    var after := Applied(c, Create(a));
    assert Keys(after) == Keys(c)[c.next := KeyOf(a.namespace, a.account)];
    AtIs(after, c.next);
    if key != KeyOf(a.namespace, a.account) { SameElsewhere(c, after, key); }
  }

  lemma DeleteAt(c: Cloud<Assoc>, id: Id, key: string)
    requires Known(c) && id in c.items
    ensures Known(Applied(c, Delete(id)))
    ensures At(Applied(c, Delete(id)), key) == if key == Keys(c)[id] then None else At(c, key)
  {
    var after := Applied(c, Delete(id));
    assert Keys(after) == Keys(c) - {id};
    if key != Keys(c)[id] { SameElsewhere(c, after, key); }
  }

  lemma SameElsewhere(c: Cloud<Assoc>, d: Cloud<Assoc>, key: string)
    requires Known(c) && Known(d)
    requires forall i :: i in c.items && Keys(c)[i] == key ==> i in d.items && c.items[i] == d.items[i]
    requires forall i :: i in d.items && Keys(d)[i] == key ==> i in c.items && c.items[i] == d.items[i]
    ensures At(c, key) == At(d, key)
  {
    if i :| i in c.items && Keys(c)[i] == key {
      AtIs(c, i);
      AtIs(d, i);
    }
  }

  ghost predicate AllPending(c: Cloud<Assoc>, spec: seq<Want>, writes: seq<Write<Assoc>>) {
    && (forall i :: 0 <= i < |writes| ==> Pending(c, spec, writes[i]))
    && KeysDiffer(c, writes)
  }

  ghost predicate KeysDiffer(c: Cloud<Assoc>, writes: seq<Write<Assoc>>) {
    forall i, j :: 0 <= i < j < |writes| ==> WriteKey(c, writes[i]) != WriteKey(c, writes[j])
  }

  lemma JoinKeysDiffer(c: Cloud<Assoc>, a: seq<Write<Assoc>>, b: seq<Write<Assoc>>)
    requires KeysDiffer(c, a) && KeysDiffer(c, b)
    requires forall w, v :: w in a && v in b ==> WriteKey(c, w) != WriteKey(c, v)
    ensures KeysDiffer(c, a + b)
  {
  }

  lemma StillPending(c: Cloud<Assoc>, spec: seq<Want>, first: Write<Assoc>, w: Write<Assoc>)
    requires Known(c) && DistinctKeys(spec) && Pending(c, spec, first) && Pending(c, spec, w)
    requires WriteKey(c, first) != WriteKey(c, w)
    ensures Pending(Applied(c, first), spec, w) && WriteKey(Applied(c, first), w) == WriteKey(c, w)
  {
  }

  /** Running pending writes with different keys: each key written reaches its target, the others stay. */
  lemma {:induction false} PendingRun(c: Cloud<Assoc>, spec: seq<Want>, writes: seq<Write<Assoc>>, key: string)
    requires Known(c) && DistinctKeys(spec) && AllPending(c, spec, writes)
    ensures Known(Apply(c, writes))
    ensures Target(Apply(c, writes), spec, key) == Target(c, spec, key)
    ensures At(Apply(c, writes), key) ==
            if exists i :: 0 <= i < |writes| && WriteKey(c, writes[i]) == key then Target(c, spec, key) else At(c, key)
    decreases |writes|
  {
    if writes != [] {
      hide Pending, At, Target, Known, WriteKey, Apply, Applied;
      var first, rest := writes[0], writes[1..];
      var mid := Applied(c, first);
      PendingWriteReachesItsTarget(c, spec, first, key);
      RestStaysPending(c, spec, writes);
      PendingRun(mid, spec, rest, key);
      FirstThenRest(c, writes);
      if i :| 0 <= i < |rest| && WriteKey(mid, rest[i]) == key { assert WriteKey(c, writes[i + 1]) == key; }
      if i :| 0 <= i < |writes| && WriteKey(c, writes[i]) == key {
        if i > 0 { assert WriteKey(mid, rest[i - 1]) == key; }
      }
    } else {
      EmptyRun(c);
    }
  }

  lemma RestStaysPending(c: Cloud<Assoc>, spec: seq<Want>, writes: seq<Write<Assoc>>)
    requires Known(c) && DistinctKeys(spec) && AllPending(c, spec, writes) && writes != []
    ensures AllPending(Applied(c, writes[0]), spec, writes[1..])
    ensures forall i :: 0 <= i < |writes| - 1 ==> WriteKey(Applied(c, writes[0]), writes[1..][i]) == WriteKey(c, writes[i + 1])
  {
    hide Pending, Known, WriteKey, Applied;
    var mid, rest := Applied(c, writes[0]), writes[1..];
    forall i | 0 <= i < |rest|
      ensures Pending(mid, spec, rest[i]) && WriteKey(mid, rest[i]) == WriteKey(c, writes[i + 1])
    {
      assert rest[i] == writes[i + 1];
      StillPending(c, spec, writes[0], rest[i]);
    }
  }

  lemma FirstThenRest(c: Cloud<Assoc>, writes: seq<Write<Assoc>>)
    requires writes != []
    ensures Apply(c, writes) == Apply(Applied(c, writes[0]), writes[1..])
  {
    var first := writes[0];
    EmptyRun(c);
    ApplyOneMore(c, [], first);
    assert [] + [first] == [first];
    ApplyInTwoParts(c, [first], writes[1..]);
    assert writes == [first] + writes[1..];
  }

  // ---------------------------------------------------------------- a plan is pending writes, and all of them

  ghost predicate CreatesOf(c: Cloud<Assoc>, listing: seq<Id>, spec: seq<Want>, w: Write<Assoc>) {
    exists i :: 0 <= i < |spec| && w == Create(Owned(spec[i])) && LastNamed(listing, Keys(c), WantKey(spec[i])).None?
  }

  lemma {:induction false} CreatesHold(c: Cloud<Assoc>, listing: seq<Id>, spec: seq<Want>)
    requires DistinctKeys(spec)
    ensures forall w :: w in Creates(c, listing, spec) <==> CreatesOf(c, listing, spec, w)
    ensures KeysDiffer(c, Creates(c, listing, spec))
  {
    if spec != [] {
      hide LastNamed, Keys, Creates, WriteKey;
      var n := |spec| - 1;
      var init := spec[..n];
      assert DistinctKeys(init);
      CreatesHold(c, listing, init);
      assert spec[..n + 1] == spec;
      CreatesNext(c, listing, spec, n);
      forall w ensures CreatesOf(c, listing, spec, w) <==> CreatesOf(c, listing, init, w) || CreatesOf(c, listing, [spec[n]], w) {
        CreatesOfSplit(c, listing, spec, w);
      }
      OneCreate(c, listing, spec[n]);
      forall w | w in Creates(c, listing, init) ensures WriteKey(c, w) != WantKey(spec[n]) {
        var i :| 0 <= i < n && w == Create(Owned(init[i])) && LastNamed(listing, Keys(c), WantKey(init[i])).None?;
        OneCreate(c, listing, init[i]);
        assert init[i] == spec[i];
      }
      JoinKeysDiffer(c, Creates(c, listing, init), [Create(Owned(spec[n]))]);
    }
  }

  lemma CreatesOfSplit(c: Cloud<Assoc>, listing: seq<Id>, spec: seq<Want>, w: Write<Assoc>)
    requires spec != []
    ensures CreatesOf(c, listing, spec, w) <==>
            CreatesOf(c, listing, spec[..|spec| - 1], w) || CreatesOf(c, listing, [spec[|spec| - 1]], w)
  {
    hide LastNamed, Keys;
    var n := |spec| - 1;
    var init := spec[..n];
    if i :| 0 <= i < |spec| && w == Create(Owned(spec[i])) && LastNamed(listing, Keys(c), WantKey(spec[i])).None? {
      if i < n { assert init[i] == spec[i]; } else { assert [spec[n]][0] == spec[i]; }
    }
    if i :| 0 <= i < n && w == Create(Owned(init[i])) && LastNamed(listing, Keys(c), WantKey(init[i])).None? {
      assert init[i] == spec[i];
    }
    if i :| 0 <= i < 1 && w == Create(Owned([spec[n]][i])) && LastNamed(listing, Keys(c), WantKey([spec[n]][i])).None? {
      assert [spec[n]][i] == spec[n];
    }
  }

  lemma OneCreate(c: Cloud<Assoc>, listing: seq<Id>, want: Want)
    ensures forall w :: CreatesOf(c, listing, [want], w) <==>
              w == Create(Owned(want)) && LastNamed(listing, Keys(c), WantKey(want)).None?
    ensures WriteKey(c, Create(Owned(want))) == WantKey(want)
  {
    hide LastNamed, Keys;
    assert [want][0] == want;
  }

  ghost predicate DeletesOf(c: Cloud<Assoc>, listing: seq<Id>, spec: seq<Want>, order: seq<string>, w: Write<Assoc>) {
    exists k :: k in order && !Declares(spec, k) && LastNamed(listing, OwnedKeys(c), k).Some?
                && w == Delete(LastNamed(listing, OwnedKeys(c), k).value)
  }

  lemma {:induction false} DeletesHold(c: Cloud<Assoc>, listing: seq<Id>, spec: seq<Want>, order: seq<string>)
    requires forall i, j :: 0 <= i < j < |order| ==> order[i] != order[j]
    ensures forall w :: w in Deletes(c, listing, spec, order) <==> DeletesOf(c, listing, spec, order, w)
    ensures KeysDiffer(c, Deletes(c, listing, spec, order))
  {
    if order != [] {
      var n := |order| - 1;
      var init := order[..n];
      DeletesHold(c, listing, spec, init);
      assert forall k :: k in order <==> k in init || k == order[n];
      forall w | w in Deletes(c, listing, spec, init) ensures WriteKey(c, w) != order[n] {
        var k :| k in init && !Declares(spec, k) && LastNamed(listing, OwnedKeys(c), k).Some?
                 && w == Delete(LastNamed(listing, OwnedKeys(c), k).value);
      }
      var found := LastNamed(listing, OwnedKeys(c), order[n]);
      if found.Some? {
        var last: Write<Assoc> := Delete(found.value);
        assert KeysDiffer(c, [last]) && WriteKey(c, last) == order[n];
        JoinKeysDiffer(c, Deletes(c, listing, spec, init), [last]);
      }
    }
  }

  lemma PlanIsPending(c: Cloud<Assoc>, listing: seq<Id>, spec: seq<Want>, order: seq<string>)
    requires Known(c) && DistinctKeys(spec) && Lists(listing, c) && RangesOver(order, c, listing)
    ensures AllPending(c, spec, Plan(c, listing, spec, order))
    ensures forall key :: At(c, key) != Target(c, spec, key) ==>
              exists w :: w in Plan(c, listing, spec, order) && WriteKey(c, w) == key
  {
    CreatesHold(c, listing, spec);
    DeletesHold(c, listing, spec, order);
    var a, b := Creates(c, listing, spec), Deletes(c, listing, spec, order);
    forall w | w in a ensures Pending(c, spec, w) && Declares(spec, WriteKey(c, w)) {
      CreateIsPending(c, listing, spec, w);
    }
    forall w | w in b ensures Pending(c, spec, w) && !Declares(spec, WriteKey(c, w)) {
    }
    JoinKeysDiffer(c, a, b);
    forall key | At(c, key) != Target(c, spec, key) ensures exists w :: w in a + b && WriteKey(c, w) == key {
      MissingKeyIsPlanned(c, listing, spec, order, key);
    }
  }

  lemma CreateIsPending(c: Cloud<Assoc>, listing: seq<Id>, spec: seq<Want>, w: Write<Assoc>)
    requires Known(c) && Lists(listing, c) && CreatesOf(c, listing, spec, w)
    ensures Pending(c, spec, w) && Declares(spec, WriteKey(c, w))
  {
  }

  lemma MissingKeyIsPlanned(c: Cloud<Assoc>, listing: seq<Id>, spec: seq<Want>, order: seq<string>, key: string)
    requires Known(c) && DistinctKeys(spec) && Lists(listing, c) && RangesOver(order, c, listing)
    requires At(c, key) != Target(c, spec, key)
    ensures exists w :: w in Plan(c, listing, spec, order) && WriteKey(c, w) == key
  {
    CreatesHold(c, listing, spec);
    DeletesHold(c, listing, spec, order);
    match At(c, key)
    case None =>
      var i :| 0 <= i < |spec| && WantKey(spec[i]) == key;
      var w: Write<Assoc> := Create(Owned(spec[i]));
      assert CreatesOf(c, listing, spec, w);
      assert w in Plan(c, listing, spec, order);
    case Some(_) =>
      var id :| id in c.items && Keys(c)[id] == key;
      AtIs(c, id);
      assert OwnedKeys(c)[id] == key && id in listing;
      var found := LastNamed(listing, OwnedKeys(c), key);
      assert found.Some? && key in order;
      var w: Write<Assoc> := Delete(found.value);
      assert DeletesOf(c, listing, spec, order, w);
      assert w in Plan(c, listing, spec, order);
  }

  // ---------------------------------------------------------------- the theorems

  /** A pass cut after any number of calls keeps every key's target; run to the end, it reaches all of them. */
  lemma PassKeepsTargets(c: Cloud<Assoc>, listing: seq<Id>, spec: seq<Want>, order: seq<string>, calls: nat)
    requires Known(c) && DistinctKeys(spec) && Lists(listing, c) && RangesOver(order, c, listing)
    ensures var after := Pass(c, listing, spec, order, calls);
            && Known(after)
            && (forall key :: Target(after, spec, key) == Target(c, spec, key))
            && (calls > |Plan(c, listing, spec, order)| ==> forall key :: At(after, key) == Target(c, spec, key))
  {
    PlanIsPending(c, listing, spec, order);
    var plan := Plan(c, listing, spec, order);
    var sent := plan[..Sent(c, listing, spec, order, calls)];
    var after := Pass(c, listing, spec, order, calls);
    hide Pending, At, Target, WriteKey, Plan, Known;
    PendingRun(c, spec, sent, "");
    forall key
      ensures Target(after, spec, key) == Target(c, spec, key)
      ensures calls > |plan| ==> At(after, key) == Target(c, spec, key)
    {
      PendingRun(c, spec, sent, key);
      if calls > |plan| && At(c, key) != Target(c, spec, key) {
        var w :| w in plan && WriteKey(c, w) == key;
        assert sent == plan;
        assert w in sent;
      }
    }
  }

  /** One attempt: the listing and the map order it happens to see, and the calls that succeed. */
  datatype Attempt = Attempt(listing: seq<Id>, order: seq<string>, calls: nat)

  ghost predicate PossibleAt(c: Cloud<Assoc>, a: Attempt) {
    Lists(a.listing, c) && RangesOver(a.order, c, a.listing)
  }

  ghost function After(c: Cloud<Assoc>, spec: seq<Want>, attempts: seq<Attempt>): Cloud<Assoc> {
    if attempts == [] then c
    else
      var a := attempts[|attempts| - 1];
      Pass(After(c, spec, attempts[..|attempts| - 1]), a.listing, spec, a.order, a.calls)
  }

  ghost predicate PossibleRun(c: Cloud<Assoc>, spec: seq<Want>, attempts: seq<Attempt>) {
    attempts == []
    || (PossibleRun(c, spec, attempts[..|attempts| - 1])
        && PossibleAt(After(c, spec, attempts[..|attempts| - 1]), attempts[|attempts| - 1]))
  }

  lemma {:induction false} AttemptsKeepTargets(c: Cloud<Assoc>, spec: seq<Want>, attempts: seq<Attempt>)
    requires Known(c) && DistinctKeys(spec) && PossibleRun(c, spec, attempts)
    ensures Known(After(c, spec, attempts))
    ensures forall key :: Target(After(c, spec, attempts), spec, key) == Target(c, spec, key)
  {
    hide Target, Known, Pass;
    if attempts != [] {
      var init, a := attempts[..|attempts| - 1], attempts[|attempts| - 1];
      AttemptsKeepTargets(c, spec, init);
      PassKeepsTargets(After(c, spec, init), a.listing, spec, a.order, a.calls);
    }
  }

  ghost predicate RunsToTheEnd(c: Cloud<Assoc>, spec: seq<Want>, a: Attempt) {
    a.calls > |Plan(c, a.listing, spec, a.order)|
  }

  /**
   Restart safety: any number of cut passes followed by one that runs to the end leaves, key by key, the
   same agencies and ownership as one uninterrupted pass would have, whatever the listing and map orders.
   */
  lemma RestartSafety(c: Cloud<Assoc>, spec: seq<Want>, cuts: seq<Attempt>, last: Attempt, uninterrupted: Attempt,
      key: string)
    requires Known(c) && DistinctKeys(spec) && PossibleRun(c, spec, cuts)
    requires PossibleAt(After(c, spec, cuts), last) && RunsToTheEnd(After(c, spec, cuts), spec, last)
    requires PossibleAt(c, uninterrupted) && RunsToTheEnd(c, spec, uninterrupted)
    ensures At(After(c, spec, cuts + [last]), key) == At(After(c, spec, [uninterrupted]), key) == Target(c, spec, key)
  {
    hide Target, Known, Pass, At;
    AttemptsKeepTargets(c, spec, cuts);
    var mid := After(c, spec, cuts);
    PassKeepsTargets(mid, last.listing, spec, last.order, last.calls);
    PassKeepsTargets(c, uninterrupted.listing, spec, uninterrupted.order, uninterrupted.calls);
    assert (cuts + [last])[..|cuts|] == cuts;
    assert After(c, spec, cuts + [last]) == Pass(mid, last.listing, spec, last.order, last.calls);
    assert [uninterrupted][..0] == [];
    assert After(c, spec, [uninterrupted]) == Pass(c, uninterrupted.listing, spec, uninterrupted.order, uninterrupted.calls);
  }

  /** What the target means: owned keys are declared, and what carries no tag is never changed nor removed. */
  lemma TargetRespectsOwnership(c: Cloud<Assoc>, spec: seq<Want>, key: string)
    requires Known(c)
    ensures Target(c, spec, key).Some? && Target(c, spec, key).value.owned ==> Declares(spec, key)
    ensures Declares(spec, key) ==> Target(c, spec, key).Some?
    ensures At(c, key).Some? && !At(c, key).value.owned ==> Target(c, spec, key) == At(c, key)
    ensures At(c, key).Some? && Declares(spec, key) ==> Target(c, spec, key) == At(c, key)
  {
  }

  /** At the target a pass plans nothing. */
  lemma AtTargetNothingIsPlanned(c: Cloud<Assoc>, listing: seq<Id>, spec: seq<Want>, order: seq<string>)
    requires Known(c) && DistinctKeys(spec) && Lists(listing, c) && RangesOver(order, c, listing)
    requires forall key :: At(c, key) == Target(c, spec, key)
    ensures Plan(c, listing, spec, order) == []
  {
    PlanIsPending(c, listing, spec, order);
    var plan := Plan(c, listing, spec, order);
    hide Pending;
    if |plan| > 0 { PlannedKeyIsOff(c, spec, plan[0]); }
  }

  lemma PlannedKeyIsOff(c: Cloud<Assoc>, spec: seq<Want>, w: Write<Assoc>)
    requires Known(c) && Pending(c, spec, w)
    ensures At(c, WriteKey(c, w)) != Target(c, spec, WriteKey(c, w))
  {
  }
}
