/**
 Reconciling the declared access policies with the account's. Policies are account-wide, so a pass works
 only on those scoped to this cluster; what this provider created is remembered in a ledger written after
 a fully successful pass; and an in-scope policy outside the ledger under a declared name is an error.
 */
module AccessPolicies {
  import opened Options
  import opened CloudWrites

  datatype Policy = Policy(
    name: string, policyType: string, principalType: string, principals: seq<string>,
    namespaces: seq<string>, clusters: seq<string>)

  datatype Want = Want(
    name: string, policyType: string, principalType: string, principals: seq<string>, namespaces: seq<string>)

  datatype State = State(cloud: Cloud<Policy>, ledger: seq<string>, condition: bool)

  predicate InScope(p: Policy, cluster: string) {
    exists i :: 0 <= i < |p.clusters| && (p.clusters[i] == cluster || p.clusters[i] == "*")
  }

  function Names(c: Cloud<Policy>, cluster: string): map<Id, string> {
    map id | id in c.items && InScope(c.items[id], cluster) :: c.items[id].name
  }

  predicate Declares(spec: seq<Want>, name: string) {
    exists i :: 0 <= i < |spec| && spec[i].name == name
  }

  ghost predicate DistinctNames(spec: seq<Want>) {
    forall i, j :: 0 <= i < j < |spec| ==> spec[i].name != spec[j].name
  }

  // ---------------------------------------------------------------- writing a policy and reading it back

  predicate KnownPrincipal(t: string) { t in {"user", "group", "agency"} }

  function Namespaces(ns: seq<string>): seq<string> { if ns == [] then ["*"] else ns }

  /** toAccessPolicyModel: the SDK enum has three principal types, and anything else is sent as user. */
  function ModelOf(cluster: string, w: Want): Policy {
    Policy(w.name, w.policyType, if w.principalType in {"group", "agency"} then w.principalType else "user",
           w.principals, Namespaces(w.namespaces), [cluster])
  }

  predicate Drifted(got: Policy, want: Want) {
    || got.policyType != want.policyType || got.principalType != want.principalType
    || got.principals != want.principals || got.namespaces != Namespaces(want.namespaces)
  }

  /** The policy has what is declared: type, principal type, principals, and namespaces, all of them if none is given. */
  predicate AsDeclared(got: Policy, want: Want) {
    && got.policyType == want.policyType && got.principalType == want.principalType
    && got.principals == want.principals && got.namespaces == if want.namespaces == [] then ["*"] else want.namespaces
  }

  /** What is written is in the cluster's scope, has the declared name and all that is declared but for an unknown
      principal type; it reads back without drift, empty namespaces included, exactly for the known ones. */
  lemma WriteReadsBackIff(cluster: string, w: Want)
    ensures InScope(ModelOf(cluster, w), cluster) && ModelOf(cluster, w).name == w.name
    ensures ModelOf(cluster, w).clusters == [cluster]
    ensures AsDeclared(ModelOf(cluster, w), if w.principalType in {"user", "group", "agency"} then w
                                            else w.(principalType := "user"))
    ensures !Drifted(ModelOf(cluster, w), w) <==> w.principalType in {"user", "group", "agency"}
  {
    assert ModelOf(cluster, w).clusters[0] == cluster;
  }

  /** Drift is any difference from what is declared. */
  lemma DriftedIff(got: Policy, want: Want)
    ensures Drifted(got, want) <==> !AsDeclared(got, want)
  {
  }

  /** A policy is in scope when it names the cluster or all clusters. */
  lemma InScopeIff(p: Policy, cluster: string)
    ensures InScope(p, cluster) <==> cluster in p.clusters || "*" in p.clusters
  {
  }

  // ---------------------------------------------------------------- specification of a pass

  predicate Collides(c: Cloud<Policy>, listing: seq<Id>, cluster: string, ledger: seq<string>, want: Want) {
    LastNamed(listing, Names(c, cluster), want.name).Some? && want.name !in ledger
  }

  /** The first declared policy that collides, or the length of the spec. */
  function FirstCollision(c: Cloud<Policy>, listing: seq<Id>, cluster: string, spec: seq<Want>,
      ledger: seq<string>): (k: nat)
    ensures k <= |spec|
    ensures forall i :: 0 <= i < k ==> !Collides(c, listing, cluster, ledger, spec[i])
    ensures k < |spec| ==> Collides(c, listing, cluster, ledger, spec[k])
  {
    if spec == [] then 0
    else
      var k := FirstCollision(c, listing, cluster, spec[..|spec| - 1], ledger);
      if k < |spec| - 1 || Collides(c, listing, cluster, ledger, spec[|spec| - 1]) then
        assert k < |spec| - 1 ==> spec[..|spec| - 1][k] == spec[k];
        k
      else |spec|
  }

  function UpsertOf(c: Cloud<Policy>, listing: seq<Id>, cluster: string, want: Want): (ws: seq<Write<Policy>>)
    ensures |ws| <= 1
  {
    match LastNamed(listing, Names(c, cluster), want.name)
    case None => [Create(ModelOf(cluster, want))]
    case Some(id) => if Drifted(c.items[id], want) then [Update(id, ModelOf(cluster, want))] else []
  }

  function Upserts(c: Cloud<Policy>, listing: seq<Id>, cluster: string, spec: seq<Want>): seq<Write<Policy>> {
    if spec == [] then []
    else Upserts(c, listing, cluster, spec[..|spec| - 1]) + UpsertOf(c, listing, cluster, spec[|spec| - 1])
  }

  predicate Removable(c: Cloud<Policy>, cluster: string, spec: seq<Want>, ledger: seq<string>, id: Id) {
    && id in c.items && !Declares(spec, c.items[id].name)
    && c.items[id].name in ledger && InScope(c.items[id], cluster)
  }

  function Removals(c: Cloud<Policy>, listing: seq<Id>, cluster: string, spec: seq<Want>,
      ledger: seq<string>): seq<Write<Policy>> {
    if listing == [] then []
    else
      var id := listing[|listing| - 1];
      Removals(c, listing[..|listing| - 1], cluster, spec, ledger)
      + if Removable(c, cluster, spec, ledger, id) then [Delete(id)] else []
  }

  /** The writes up to the first collision; without one, the removals too. */
  function Plan(c: Cloud<Policy>, listing: seq<Id>, cluster: string, spec: seq<Want>,
      ledger: seq<string>): seq<Write<Policy>> {
    var k := FirstCollision(c, listing, cluster, spec, ledger);
    Upserts(c, listing, cluster, spec[..k])
    + if k < |spec| then [] else Removals(c, listing, cluster, spec, ledger)
  }

  predicate Skipped(s: State, spec: seq<Want>) { spec == [] && !s.condition }

  function Sent(s: State, listing: seq<Id>, cluster: string, spec: seq<Want>, calls: nat): (n: nat)
    ensures n <= |Plan(s.cloud, listing, cluster, spec, s.ledger)|
  {
    var plan := Plan(s.cloud, listing, cluster, spec, s.ledger);
    if Skipped(s, spec) || calls == 0 then 0 else if calls - 1 < |plan| then calls - 1 else |plan|
  }

  predicate Succeeds(s: State, listing: seq<Id>, cluster: string, spec: seq<Want>, calls: nat) {
    Skipped(s, spec)
    || (calls > |Plan(s.cloud, listing, cluster, spec, s.ledger)|
        && FirstCollision(s.cloud, listing, cluster, spec, s.ledger) == |spec|)
  }

  function NamesOf(spec: seq<Want>): (names: seq<string>)
    ensures |names| == |spec| && forall i :: 0 <= i < |spec| ==> names[i] == spec[i].name
  {
    seq(|spec|, i requires 0 <= i < |spec| => spec[i].name)
  }

  function Pass(s: State, listing: seq<Id>, cluster: string, spec: seq<Want>, calls: nat): State {
    var plan := Plan(s.cloud, listing, cluster, spec, s.ledger);
    State(
      Apply(s.cloud, plan[..Sent(s, listing, cluster, spec, calls)]),
      if !Skipped(s, spec) && Succeeds(s, listing, cluster, spec, calls) then NamesOf(spec) else s.ledger,
      true)
  }

  // ---------------------------------------------------------------- the code

  class Reconciler {
    var cloud: Cloud<Policy>
    var ledger: seq<string>
    var condition: bool
    var calls: nat

    function View(): State
      reads this
    {
      State(cloud, ledger, condition)
    }

    constructor (s: State, calls: nat)
      ensures View() == s && this.calls == calls
    {
      cloud, ledger, condition := s.cloud, s.ledger, s.condition;
      this.calls := calls;
    }

    method Send(w: Write<Policy>) returns (ok: bool)
      modifies this`cloud, this`calls
      ensures ok == (old(calls) > 0)
      ensures calls == if ok then old(calls) - 1 else 0
      ensures cloud == if ok then Applied(old(cloud), w) else old(cloud)
    {
      if calls == 0 { return false; }
      calls := calls - 1;
      cloud := Applied(cloud, w);
      return true;
    }

    method CreateAndUpdate(cluster: string, spec: seq<Want>, index: map<string, Id>, ghost listing: seq<Id>)
      returns (ok: bool)
      requires forall n :: n in index <==> LastNamed(listing, Names(cloud, cluster), n).Some?
      requires forall n :: n in index ==> LastNamed(listing, Names(cloud, cluster), n) == Some(index[n])
      modifies this`cloud, this`calls
      ensures var k := FirstCollision(old(cloud), listing, cluster, spec, ledger);
              var writes := Upserts(old(cloud), listing, cluster, spec[..k]);
              && (ok <==> k == |spec| && |writes| <= old(calls))
              && (ok ==> calls == old(calls) - |writes|)
              && (|writes| <= old(calls) ==> cloud == Apply(old(cloud), writes))
              && (|writes| > old(calls) ==> cloud == Apply(old(cloud), writes[..old(calls)]))
    {
      hide Upserts, Apply, LastNamed, FirstCollision, ModelOf, Drifted;
      var was := cloud;
      ghost var k := FirstCollision(was, listing, cluster, spec, ledger);
      NoneYet(was, listing, cluster, spec);
      for i := 0 to |spec|
        invariant i <= k
        invariant |Upserts(was, listing, cluster, spec[..i])| + calls == old(calls)
        invariant cloud == Apply(was, Upserts(was, listing, cluster, spec[..i]))
      {
        var want := spec[i];
        if want.name in index && want.name !in ledger {
          assert k == i;
          return false;
        }
        assert i < k;
        UpsertsStep(was, listing, cluster, spec, k, i);
        var done := true;
        if want.name !in index {
          done := Send(Create(ModelOf(cluster, want)));
        } else if Drifted(was.items[index[want.name]], want) {
          done := Send(Update(index[want.name], ModelOf(cluster, want)));
        }
        if !done { return false; }
      }
      assert spec[..|spec|] == spec;
      ok := true;
    }

    method RemoveUndeclared(was: Cloud<Policy>, listing: seq<Id>, cluster: string, spec: seq<Want>) returns (ok: bool)
      requires forall id :: id in listing ==> id in was.items
      modifies this`cloud, this`calls
      ensures ok <==> |Removals(was, listing, cluster, spec, ledger)| <= old(calls)
      ensures ok ==> cloud == Apply(old(cloud), Removals(was, listing, cluster, spec, ledger))
      ensures !ok ==> cloud == Apply(old(cloud), Removals(was, listing, cluster, spec, ledger)[..old(calls)])
    {
      for i := 0 to |listing|
        invariant |Removals(was, listing[..i], cluster, spec, ledger)| + calls == old(calls)
        invariant cloud == Apply(old(cloud), Removals(was, listing[..i], cluster, spec, ledger))
      {
        RemovalsStep(old(cloud), was, listing, cluster, spec, ledger, i);
        var got := was.items[listing[i]];
        if !Declares(spec, got.name) && got.name in ledger && InScope(got, cluster) {
          var done := Send(Delete(listing[i]));
          if !done { return false; }
        }
      }
      assert listing[..|listing|] == listing;
      ok := true;
    }

    method ReconcileAccessPolicies(cluster: string, spec: seq<Want>, listing: seq<Id>) returns (ok: bool)
      requires Lists(listing, cloud)
      modifies this
      ensures View() == Pass(old(View()), listing, cluster, spec, old(calls))
      ensures ok == Succeeds(old(View()), listing, cluster, spec, old(calls))
      ensures condition
      ensures spec == [] && !old(condition) ==> ok && cloud == old(cloud) && ledger == old(ledger) && calls == old(calls)
      ensures (spec != [] || old(condition)) && old(calls) == 0 ==> !ok && cloud == old(cloud) && ledger == old(ledger)
      ensures !ok ==> ledger == old(ledger)
      ensures ok && (spec != [] || old(condition)) ==>
                |ledger| == |spec| && forall i :: 0 <= i < |spec| ==> ledger[i] == spec[i].name
    {
      hide Upserts, Removals, FirstCollision, Plan, Apply, Names, LastNamed;
      ghost var s := View();
      var first := !condition;
      condition := true;
      EmptyRun(cloud);
      if |spec| == 0 && first { return true; }
      if calls == 0 { return false; }
      calls := calls - 1;                // ListAccessPolicies
      var was := cloud;
      var index := IndexByName(listing, Names(was, cluster));
      PlanShape(was, listing, cluster, spec, ledger);
      ok := CreateAndUpdate(cluster, spec, index, listing);
      if !ok { return; }
      ok := RemoveUndeclared(was, listing, cluster, spec);
      if !ok { return; }
      ledger := NamesOf(spec);
    }
  }

  lemma PlanShape(c: Cloud<Policy>, listing: seq<Id>, cluster: string, spec: seq<Want>, ledger: seq<string>)
    ensures var k := FirstCollision(c, listing, cluster, spec, ledger);
            var ups, rest := Upserts(c, listing, cluster, spec[..k]), Removals(c, listing, cluster, spec, ledger);
            var plan := Plan(c, listing, cluster, spec, ledger);
            && |plan| == |ups| + (if k < |spec| then 0 else |rest|)
            && (forall n :: 0 <= n <= |ups| ==> plan[..n] == ups[..n])
            && plan[..|ups|] == ups && (|plan| == |ups| ==> plan[..|plan|] == ups)
            && (k == |spec| ==>
                  && (forall n :: 0 <= n <= |rest| ==> Apply(Apply(c, ups), rest[..n]) == Apply(c, plan[..|ups| + n]))
                  && Apply(Apply(c, ups), rest) == Apply(c, plan[..|plan|]))
  {
    hide Upserts, Removals, FirstCollision, Apply;
    var k := FirstCollision(c, listing, cluster, spec, ledger);
    var ups, rest := Upserts(c, listing, cluster, spec[..k]), Removals(c, listing, cluster, spec, ledger);
    PlanPrefixes(c, ups, rest);
    assert ups + [] == ups;
  }

  lemma NoneYet(c: Cloud<Policy>, listing: seq<Id>, cluster: string, spec: seq<Want>)
    ensures Upserts(c, listing, cluster, spec[..0]) == [] && Apply(c, Upserts(c, listing, cluster, spec[..0])) == c
  {
  }

  lemma UpsertsStep(c: Cloud<Policy>, listing: seq<Id>, cluster: string, spec: seq<Want>, k: nat, i: nat)
    requires i < k <= |spec|
    ensures var now, one := Upserts(c, listing, cluster, spec[..i]), UpsertOf(c, listing, cluster, spec[i]);
            && Upserts(c, listing, cluster, spec[..i + 1]) == now + one
            && now + one <= Upserts(c, listing, cluster, spec[..k])
            && now == Upserts(c, listing, cluster, spec[..k])[..|now|]
            && (one == [] ==> Apply(c, now + one) == Apply(c, now))
            && (one != [] ==> Apply(c, now + one) == Applied(Apply(c, now), one[0]))
  {
    hide Upserts, UpsertOf, Apply;
    UpsertsNext(c, listing, cluster, spec, i);
    UpsertsGrow(c, listing, cluster, spec, k, i + 1);
    var now, one := Upserts(c, listing, cluster, spec[..i]), UpsertOf(c, listing, cluster, spec[i]);
    if one == [] { assert now + one == now; } else { assert one == [one[0]]; ApplyOneMore(c, now, one[0]); }
  }

  lemma UpsertsNext(c: Cloud<Policy>, listing: seq<Id>, cluster: string, spec: seq<Want>, i: nat)
    requires i < |spec|
    ensures Upserts(c, listing, cluster, spec[..i + 1])
         == Upserts(c, listing, cluster, spec[..i]) + UpsertOf(c, listing, cluster, spec[i])
  {
    assert spec[..i + 1][..i] == spec[..i];
  }

  lemma {:induction false} UpsertsGrow(c: Cloud<Policy>, listing: seq<Id>, cluster: string, spec: seq<Want>, k: nat,
      i: nat)
    requires i <= k <= |spec|
    ensures Upserts(c, listing, cluster, spec[..i]) <= Upserts(c, listing, cluster, spec[..k])
    decreases k - i
  {
    hide Upserts;
    if i < k {
      UpsertsGrow(c, listing, cluster, spec, k, i + 1);
      UpsertsNext(c, listing, cluster, spec, i);
    }
  }

  lemma RemovalsStep(base: Cloud<Policy>, c: Cloud<Policy>, listing: seq<Id>, cluster: string, spec: seq<Want>,
      ledger: seq<string>, i: nat)
    requires i < |listing|
    ensures var now := Removals(c, listing[..i], cluster, spec, ledger);
            && now <= Removals(c, listing, cluster, spec, ledger)
            && now == Removals(c, listing, cluster, spec, ledger)[..|now|]
            && Removals(c, listing[..i + 1], cluster, spec, ledger)
               == (if Removable(c, cluster, spec, ledger, listing[i]) then now + [Delete(listing[i])] else now)
            && Removals(c, listing[..i + 1], cluster, spec, ledger) <= Removals(c, listing, cluster, spec, ledger)
            && Apply(base, now + [Delete(listing[i])]) == Applied(Apply(base, now), Delete(listing[i]))
  {
    hide Removals, Removable, Apply;
    RemovalsNext(c, listing, cluster, spec, ledger, i);
    RemovalsGrow(c, listing, cluster, spec, ledger, i);
    RemovalsGrow(c, listing, cluster, spec, ledger, i + 1);
    ApplyOneMore(base, Removals(c, listing[..i], cluster, spec, ledger), Delete(listing[i]));
  }

  lemma RemovalsNext(c: Cloud<Policy>, listing: seq<Id>, cluster: string, spec: seq<Want>, ledger: seq<string>, i: nat)
    requires i < |listing|
    ensures var now := Removals(c, listing[..i], cluster, spec, ledger);
            Removals(c, listing[..i + 1], cluster, spec, ledger)
              == if Removable(c, cluster, spec, ledger, listing[i]) then now + [Delete(listing[i])] else now
  {
    assert listing[..i + 1][..i] == listing[..i];
  }

  lemma {:induction false} RemovalsGrow(c: Cloud<Policy>, listing: seq<Id>, cluster: string, spec: seq<Want>,
      ledger: seq<string>, i: nat)
    requires i <= |listing|
    ensures Removals(c, listing[..i], cluster, spec, ledger) <= Removals(c, listing, cluster, spec, ledger)
    decreases |listing| - i
  {
    hide Removals, Removable;
    if i == |listing| {
      assert listing[..i] == listing;
    } else {
      RemovalsGrow(c, listing, cluster, spec, ledger, i + 1);
      RemovalsNext(c, listing, cluster, spec, ledger, i);
    }
  }
}
