/**
 Reconciling pod-identity associations. Ownership is a tag on the association itself, so there is nothing
 to persist: cutting a pass anywhere and running it again leads to the same associations.
 */
module PodIdentity {
  import opened Options
  import opened CloudWrites
  import LogConfig

  datatype Assoc = Assoc(namespace: string, account: string, agency: string, owned: bool)

  datatype Want = Want(namespace: string, account: string, agency: string)

  function KeyOf(namespace: string, account: string): string { namespace + "/" + account }

  function WantKey(w: Want): string { KeyOf(w.namespace, w.account) }

  /** The joined key stands for one service account, as those names hold no slash. */
  lemma KeyIsInjective(n: string, a: string, m: string, b: string)
    requires LogConfig.SlashFree(a) && LogConfig.SlashFree(b)
    ensures KeyOf(n, a) == KeyOf(m, b) <==> n == m && a == b
  {
    if KeyOf(n, a) == KeyOf(m, b) { LogConfig.LastSlashSplits(n, a, m, b); }
  }

  function Keys(c: Cloud<Assoc>): map<Id, string> {
    map id | id in c.items :: KeyOf(c.items[id].namespace, c.items[id].account)
  }

  function OwnedKeys(c: Cloud<Assoc>): map<Id, string> {
    map id | id in c.items && c.items[id].owned :: KeyOf(c.items[id].namespace, c.items[id].account)
  }

  predicate Declares(spec: seq<Want>, key: string) {
    exists i :: 0 <= i < |spec| && WantKey(spec[i]) == key
  }

  ghost predicate DistinctKeys(spec: seq<Want>) {
    forall i, j :: 0 <= i < j < |spec| ==> WantKey(spec[i]) != WantKey(spec[j])
  }

  // ---------------------------------------------------------------- specification of a pass

  function Owned(w: Want): Assoc { Assoc(w.namespace, w.account, w.agency, true) }

  /** Create what is missing. A declared association that exists unowned is left alone, and so is agency drift. */
  function Creates(c: Cloud<Assoc>, listing: seq<Id>, spec: seq<Want>): seq<Write<Assoc>> {
    if spec == [] then []
    else
      var w := spec[|spec| - 1];
      Creates(c, listing, spec[..|spec| - 1])
      + if LastNamed(listing, Keys(c), WantKey(w)).None? then [Create(Owned(w))] else []
  }

  /** Delete what is owned and not declared, in the order the range over the map of owned ones happens to take. */
  function Deletes(c: Cloud<Assoc>, listing: seq<Id>, spec: seq<Want>, order: seq<string>): seq<Write<Assoc>> {
    if order == [] then []
    else
      var k := order[|order| - 1];
      Deletes(c, listing, spec, order[..|order| - 1])
      + match LastNamed(listing, OwnedKeys(c), k)
        case Some(id) => if Declares(spec, k) then [] else [Delete(id)]
        case None => []
  }

  function Plan(c: Cloud<Assoc>, listing: seq<Id>, spec: seq<Want>, order: seq<string>): seq<Write<Assoc>> {
    Creates(c, listing, spec) + Deletes(c, listing, spec, order)
  }

  /** The order enumerates the keys of the owned associations. */
  ghost predicate RangesOver(order: seq<string>, c: Cloud<Assoc>, listing: seq<Id>) {
    && (forall i, j :: 0 <= i < j < |order| ==> order[i] != order[j])
    && (forall k :: k in order <==> LastNamed(listing, OwnedKeys(c), k).Some?)
  }

  function Sent(c: Cloud<Assoc>, listing: seq<Id>, spec: seq<Want>, order: seq<string>, calls: nat): (n: nat)
    ensures n <= |Plan(c, listing, spec, order)|
  {
    var plan := Plan(c, listing, spec, order);
    if calls == 0 then 0 else if calls - 1 < |plan| then calls - 1 else |plan|
  }

  function Pass(c: Cloud<Assoc>, listing: seq<Id>, spec: seq<Want>, order: seq<string>, calls: nat): Cloud<Assoc> {
    Apply(c, Plan(c, listing, spec, order)[..Sent(c, listing, spec, order, calls)])
  }

  // ---------------------------------------------------------------- the code

  class Reconciler {
    var cloud: Cloud<Assoc>
    var condition: bool
    var calls: nat

    constructor (cloud: Cloud<Assoc>, condition: bool, calls: nat)
      ensures this.cloud == cloud && this.condition == condition && this.calls == calls
    {
      this.cloud, this.condition, this.calls := cloud, condition, calls;
    }

    method Send(w: Write<Assoc>) returns (ok: bool)
      modifies this`cloud, this`calls
      ensures ok == (old(calls) > 0)
      ensures calls == if ok then old(calls) - 1 else 0
      ensures cloud == if ok then Applied(old(cloud), w) else old(cloud)
    {
      if calls == 0 { return false; }
      calls := calls - 1;
      cloud := Applied(cloud, w);
      return true;
    }

    method CreateMissing(spec: seq<Want>, owned: map<string, Id>, present: map<string, Id>, ghost listing: seq<Id>)
      returns (ok: bool)
      requires forall k :: k in present <==> LastNamed(listing, Keys(cloud), k).Some?
      requires forall k :: k in owned ==> k in present
      modifies this`cloud, this`calls
      ensures ok <==> |Creates(old(cloud), listing, spec)| <= old(calls)
      ensures ok ==> calls == old(calls) - |Creates(old(cloud), listing, spec)|
      ensures ok ==> cloud == Apply(old(cloud), Creates(old(cloud), listing, spec))
      ensures !ok ==> cloud == Apply(old(cloud), Creates(old(cloud), listing, spec)[..old(calls)])
    {
      hide LastNamed, Keys, Apply;
      ghost var was := cloud;
      EmptyRun(was);
      for i := 0 to |spec|
        invariant |Creates(was, listing, spec[..i])| + calls == old(calls)
        invariant cloud == Apply(was, Creates(was, listing, spec[..i]))
      {
        CreatesStep(was, listing, spec, i);
        var k := WantKey(spec[i]);
        if k !in owned && k !in present {
          var done := Send(Create(Owned(spec[i])));
          if !done { return false; }
        }
      }
      assert spec[..|spec|] == spec;
      ok := true;
    }

    method DeleteUndeclared(was: Cloud<Assoc>, spec: seq<Want>, owned: map<string, Id>, order: seq<string>,
        ghost listing: seq<Id>)
      returns (ok: bool)
      requires forall k :: k in order <==> k in owned
      requires forall k :: k in owned ==> LastNamed(listing, OwnedKeys(was), k) == Some(owned[k])
      modifies this`cloud, this`calls
      ensures ok <==> |Deletes(was, listing, spec, order)| <= old(calls)
      ensures ok ==> cloud == Apply(old(cloud), Deletes(was, listing, spec, order))
      ensures !ok ==> cloud == Apply(old(cloud), Deletes(was, listing, spec, order)[..old(calls)])
    {
      hide LastNamed, OwnedKeys, Apply;
      EmptyRun(cloud);
      for i := 0 to |order|
        invariant |Deletes(was, listing, spec, order[..i])| + calls == old(calls)
        invariant cloud == Apply(old(cloud), Deletes(was, listing, spec, order[..i]))
      {
        DeletesStep(old(cloud), was, listing, spec, order, i);
        var k := order[i];
        assert k in order;
        if !Declares(spec, k) {
          var done := Send(Delete(owned[k]));
          if !done { return false; }
        }
      }
      assert order[..|order|] == order;
      ok := true;
    }

    /** The caller marks the condition whatever the result; the gate is read before. */
    method ReconcilePodIdentityAssociations(spec: seq<Want>, listing: seq<Id>, order: seq<string>) returns (ok: bool)
      requires Lists(listing, cloud) && RangesOver(order, cloud, listing)
      modifies this
      ensures condition
      ensures spec == [] && !old(condition) ==> ok && cloud == old(cloud)
      ensures spec != [] || old(condition) ==>
        && cloud == Pass(old(cloud), listing, spec, order, old(calls))
        && (ok <==> old(calls) > |Plan(old(cloud), listing, spec, order)|)
    {
      hide LastNamed, Keys, OwnedKeys, Creates, Deletes, Apply;
      var first := !condition;
      condition := true;
      EmptyRun(cloud);
      if |spec| == 0 && first { return true; }
      if calls == 0 { return false; }
      calls := calls - 1;                // ListPodIdentityAssociations
      var was := cloud;
      var present := IndexByName(listing, Keys(was));
      var owned := IndexByName(listing, OwnedKeys(was));
      OwnedArePresent(was, listing);
      PlanPrefixes(was, Creates(was, listing, spec), Deletes(was, listing, spec, order));
      ok := CreateMissing(spec, owned, present, listing);
      if !ok { return; }
      ok := DeleteUndeclared(was, spec, owned, order, listing);
    }
  }

  lemma OwnedArePresent(c: Cloud<Assoc>, listing: seq<Id>)
    ensures forall k :: LastNamed(listing, OwnedKeys(c), k).Some? ==> LastNamed(listing, Keys(c), k).Some?
  {
  }

  lemma CreatesStep(c: Cloud<Assoc>, listing: seq<Id>, spec: seq<Want>, i: nat)
    requires i < |spec|
    ensures var now, w := Creates(c, listing, spec[..i]), Create(Owned(spec[i]));
            && now <= Creates(c, listing, spec) && now == Creates(c, listing, spec)[..|now|]
            && Creates(c, listing, spec[..i + 1])
               == (if LastNamed(listing, Keys(c), WantKey(spec[i])).None? then now + [w] else now)
            && Creates(c, listing, spec[..i + 1]) <= Creates(c, listing, spec)
            && Apply(c, now + [w]) == Applied(Apply(c, now), w)
  {
    hide Creates, LastNamed, Keys, Apply;
    CreatesNext(c, listing, spec, i);
    CreatesGrow(c, listing, spec, i);
    CreatesGrow(c, listing, spec, i + 1);
    ApplyOneMore(c, Creates(c, listing, spec[..i]), Create(Owned(spec[i])));
  }

  lemma CreatesNext(c: Cloud<Assoc>, listing: seq<Id>, spec: seq<Want>, i: nat)
    requires i < |spec|
    ensures var now := Creates(c, listing, spec[..i]);
            Creates(c, listing, spec[..i + 1])
              == if LastNamed(listing, Keys(c), WantKey(spec[i])).None? then now + [Create(Owned(spec[i]))] else now
  {
    hide LastNamed, Keys;
    assert spec[..i + 1][..i] == spec[..i];
  }

  lemma {:induction false} CreatesGrow(c: Cloud<Assoc>, listing: seq<Id>, spec: seq<Want>, i: nat)
    requires i <= |spec|
    ensures Creates(c, listing, spec[..i]) <= Creates(c, listing, spec)
    decreases |spec| - i
  {
    hide Creates, LastNamed, Keys;
    if i == |spec| {
      assert spec[..i] == spec;
    } else {
      CreatesGrow(c, listing, spec, i + 1);
      CreatesNext(c, listing, spec, i);
    }
  }

  lemma DeletesStep(base: Cloud<Assoc>, c: Cloud<Assoc>, listing: seq<Id>, spec: seq<Want>, order: seq<string>, i: nat)
    requires i < |order|
    ensures var now, found := Deletes(c, listing, spec, order[..i]), LastNamed(listing, OwnedKeys(c), order[i]);
            && now <= Deletes(c, listing, spec, order) && now == Deletes(c, listing, spec, order)[..|now|]
            && Deletes(c, listing, spec, order[..i + 1])
               == (if found.Some? && !Declares(spec, order[i]) then now + [Delete(found.value)] else now)
            && Deletes(c, listing, spec, order[..i + 1]) <= Deletes(c, listing, spec, order)
            && (found.Some? ==> Apply(base, now + [Delete(found.value)]) == Applied(Apply(base, now), Delete(found.value)))
  {
    hide Deletes, LastNamed, OwnedKeys, Declares, Apply;
    DeletesNext(c, listing, spec, order, i);
    DeletesGrow(c, listing, spec, order, i);
    DeletesGrow(c, listing, spec, order, i + 1);
    var found := LastNamed(listing, OwnedKeys(c), order[i]);
    if found.Some? { ApplyOneMore(base, Deletes(c, listing, spec, order[..i]), Delete(found.value)); }
  }

  lemma DeletesNext(c: Cloud<Assoc>, listing: seq<Id>, spec: seq<Want>, order: seq<string>, i: nat)
    requires i < |order|
    ensures var now, found := Deletes(c, listing, spec, order[..i]), LastNamed(listing, OwnedKeys(c), order[i]);
            Deletes(c, listing, spec, order[..i + 1])
              == if found.Some? && !Declares(spec, order[i]) then now + [Delete(found.value)] else now
  {
    hide LastNamed, OwnedKeys, Declares;
    assert order[..i + 1][..i] == order[..i];
  }

  lemma {:induction false} DeletesGrow(c: Cloud<Assoc>, listing: seq<Id>, spec: seq<Want>, order: seq<string>, i: nat)
    requires i <= |order|
    ensures Deletes(c, listing, spec, order[..i]) <= Deletes(c, listing, spec, order)
    decreases |order| - i
  {
    hide Deletes, LastNamed, OwnedKeys, Declares;
    if i == |order| {
      assert order[..i] == order;
    } else {
      DeletesGrow(c, listing, spec, order, i + 1);
      DeletesNext(c, listing, spec, order, i);
    }
  }
}
