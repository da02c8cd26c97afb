/**
 Reconciling the declared addons with the cluster's. Addons carry no tags, so what this provider created
 is remembered in a ledger kept in the object's status and written only after a fully successful pass.
 */
module Addons {
  import opened Options
  import opened CloudWrites

  /** An addon instance; the version the platform picks for an empty one is not modelled. */
  datatype Addon = Addon(name: string, version: string)

  datatype State = State(cloud: Cloud<Addon>, ledger: seq<string>, condition: bool)

  function Names(c: Cloud<Addon>): map<Id, string> {
    map id | id in c.items :: c.items[id].name
  }

  predicate Declares(spec: seq<Addon>, name: string) {
    exists i :: 0 <= i < |spec| && spec[i].name == name
  }

  ghost predicate DistinctNames(spec: seq<Addon>) {
    forall i, j :: 0 <= i < j < |spec| ==> spec[i].name != spec[j].name
  }

  // ---------------------------------------------------------------- specification of a pass

  predicate Drifted(got: Addon, want: Addon) {
    want.version != "" && want.version != got.version
  }

  /** The write one declared addon asks for, if any. */
  function UpsertOf(c: Cloud<Addon>, listing: seq<Id>, want: Addon): (ws: seq<Write<Addon>>)
    ensures |ws| <= 1
  {
    match LastNamed(listing, Names(c), want.name)
    case None => [Create(want)]
    case Some(id) => if Drifted(c.items[id], want) then [Update(id, want)] else []
  }

  function Upserts(c: Cloud<Addon>, listing: seq<Id>, spec: seq<Addon>): seq<Write<Addon>> {
    if spec == [] then []
    else Upserts(c, listing, spec[..|spec| - 1]) + UpsertOf(c, listing, spec[|spec| - 1])
  }

  predicate Removable(c: Cloud<Addon>, spec: seq<Addon>, ledger: seq<string>, id: Id) {
    id in c.items && !Declares(spec, c.items[id].name) && c.items[id].name in ledger
  }

  function Removals(c: Cloud<Addon>, listing: seq<Id>, spec: seq<Addon>, ledger: seq<string>): seq<Write<Addon>> {
    if listing == [] then []
    else
      var id := listing[|listing| - 1];
      Removals(c, listing[..|listing| - 1], spec, ledger)
      + if Removable(c, spec, ledger, id) then [Delete(id)] else []
  }

  function Plan(c: Cloud<Addon>, listing: seq<Id>, spec: seq<Addon>, ledger: seq<string>): seq<Write<Addon>> {
    Upserts(c, listing, spec) + Removals(c, listing, spec, ledger)
  }

  /** The new ledger: declared names owned before, or created by this pass. */
  function Latched(c: Cloud<Addon>, listing: seq<Id>, spec: seq<Addon>, ledger: seq<string>): seq<string> {
    if spec == [] then []
    else
      var name := spec[|spec| - 1].name;
      Latched(c, listing, spec[..|spec| - 1], ledger)
      + if name in ledger || LastNamed(listing, Names(c), name).None? then [name] else []
  }

  predicate Skipped(s: State, spec: seq<Addon>) { spec == [] && !s.condition }

  /** How many of the planned writes go out before a call fails; the listing takes one. */
  function Sent(s: State, listing: seq<Id>, spec: seq<Addon>, calls: nat): (n: nat)
    ensures n <= |Plan(s.cloud, listing, spec, s.ledger)|
  {
    var plan := Plan(s.cloud, listing, spec, s.ledger);
    if Skipped(s, spec) || calls == 0 then 0 else if calls - 1 < |plan| then calls - 1 else |plan|
  }

  predicate Succeeds(s: State, listing: seq<Id>, spec: seq<Addon>, calls: nat) {
    Skipped(s, spec) || calls > |Plan(s.cloud, listing, spec, s.ledger)|
  }

  /** Every pass leaves the condition set, to true or to false. */
  function Pass(s: State, listing: seq<Id>, spec: seq<Addon>, calls: nat): State {
    var plan := Plan(s.cloud, listing, spec, s.ledger);
    State(
      Apply(s.cloud, plan[..Sent(s, listing, spec, calls)]),
      if !Skipped(s, spec) && Succeeds(s, listing, spec, calls) then Latched(s.cloud, listing, spec, s.ledger) else s.ledger,
      true)
  }

  // ---------------------------------------------------------------- the code

  class Reconciler {
    var cloud: Cloud<Addon>
    var ledger: seq<string>
    var condition: bool
    var calls: nat

    function View(): State
      reads this
    {
      State(cloud, ledger, condition)
    }

    constructor (s: State, calls: nat)
      ensures View() == s && this.calls == calls
    {
      cloud, ledger, condition := s.cloud, s.ledger, s.condition;
      this.calls := calls;
    }

    method Send(w: Write<Addon>) returns (ok: bool)
      modifies this`cloud, this`calls
      ensures ok == (old(calls) > 0)
      ensures calls == if ok then old(calls) - 1 else 0
      ensures cloud == if ok then Applied(old(cloud), w) else old(cloud)
    {
      if calls == 0 { return false; }
      calls := calls - 1;
      cloud := Applied(cloud, w);
      return true;
    }

    method CreateAndUpgrade(spec: seq<Addon>, index: map<string, Id>, ghost listing: seq<Id>)
      returns (created: set<string>, ok: bool)
      requires forall n :: n in index <==> LastNamed(listing, Names(cloud), n).Some?
      requires forall n :: n in index ==> LastNamed(listing, Names(cloud), n) == Some(index[n])
      modifies this`cloud, this`calls
      ensures ok <==> |Upserts(old(cloud), listing, spec)| <= old(calls)
      ensures ok ==> calls == old(calls) - |Upserts(old(cloud), listing, spec)|
      ensures ok ==> cloud == Apply(old(cloud), Upserts(old(cloud), listing, spec))
      ensures !ok ==> cloud == Apply(old(cloud), Upserts(old(cloud), listing, spec)[..old(calls)])
      ensures ok ==> forall n :: n in created <==> n !in index && Declares(spec, n)
    {
      hide Upserts, Apply, Declares, LastNamed;
      var was := cloud;
      created := {};
      NoneYet(was, listing, spec);
      for i := 0 to |spec|
        invariant |Upserts(was, listing, spec[..i])| + calls == old(calls)
        invariant cloud == Apply(was, Upserts(was, listing, spec[..i]))
        invariant forall n :: n in created <==> n !in index && Declares(spec[..i], n)
      {
        UpsertsStep(was, listing, spec, i);
        var want := spec[i];
        var done := true;
        if want.name !in index {
          done := Send(Create(want));
          created := created + {want.name};
        } else if want.version != "" && want.version != was.items[index[want.name]].version {
          done := Send(Update(index[want.name], want));
        }
        if !done { return created, false; }
        DeclaresStep(spec, i);
      }
      assert spec[..|spec|] == spec;
      ok := true;
    }

    method RemoveUndeclared(was: Cloud<Addon>, listing: seq<Id>, spec: seq<Addon>) returns (ok: bool)
      requires forall id :: id in listing ==> id in was.items
      modifies this`cloud, this`calls
      ensures ok <==> |Removals(was, listing, spec, ledger)| <= old(calls)
      ensures ok ==> cloud == Apply(old(cloud), Removals(was, listing, spec, ledger))
      ensures !ok ==> cloud == Apply(old(cloud), Removals(was, listing, spec, ledger)[..old(calls)])
    {
      hide Removals, Declares, Apply;
      NoneRemovedYet(cloud, was, listing, spec, ledger);
      for i := 0 to |listing|
        invariant |Removals(was, listing[..i], spec, ledger)| + calls == old(calls)
        invariant cloud == Apply(old(cloud), Removals(was, listing[..i], spec, ledger))
      {
        RemovalsStep(old(cloud), was, listing, spec, ledger, i);
        var got := was.items[listing[i]];
        if !Declares(spec, got.name) && got.name in ledger {
          var done := Send(Delete(listing[i]));
          if !done { return false; }
        }
      }
      assert listing[..|listing|] == listing;
      ok := true;
    }

    method ReconcileAddons(spec: seq<Addon>, listing: seq<Id>) returns (ok: bool)
      requires Lists(listing, cloud)
      modifies this
      ensures View() == Pass(old(View()), listing, spec, old(calls))
      ensures ok == Succeeds(old(View()), listing, spec, old(calls))
      ensures condition
      ensures spec == [] && !old(condition) ==> ok && cloud == old(cloud) && ledger == old(ledger) && calls == old(calls)
      ensures (spec != [] || old(condition)) && old(calls) == 0 ==> !ok && cloud == old(cloud) && ledger == old(ledger)
      ensures !ok ==> ledger == old(ledger)
    {
      hide Upserts, Removals, Latched, Plan, Apply, Names, LastNamed;
      ghost var s := View();
      var first := !condition;
      condition := true;                 // MarkTrue or MarkFalse follows whatever happens below
      EmptyRun(cloud);
      if |spec| == 0 && first { return true; }
      if calls == 0 { return false; }
      calls := calls - 1;                // ListAddonInstances
      var was := cloud;
      var index := IndexByName(listing, Names(was));
      PlanShape(was, listing, spec, ledger);
      var created;
      created, ok := CreateAndUpgrade(spec, index, listing);
      if !ok { return; }
      ok := RemoveUndeclared(was, listing, spec);
      if !ok { return; }
      ledger := NewLedger(was, listing, spec, ledger, created);
    }
  }

  lemma PlanShape(c: Cloud<Addon>, listing: seq<Id>, spec: seq<Addon>, ledger: seq<string>)
    ensures var ups, rest := Upserts(c, listing, spec), Removals(c, listing, spec, ledger);
            var plan := Plan(c, listing, spec, ledger);
            && |plan| == |ups| + |rest|
            && (forall n :: 0 <= n <= |ups| ==> plan[..n] == ups[..n])
            && (forall n :: 0 <= n <= |rest| ==> Apply(Apply(c, ups), rest[..n]) == Apply(c, plan[..|ups| + n]))
            && Apply(Apply(c, ups), rest) == Apply(c, plan[..|plan|])
  {
    hide Upserts, Removals, Apply;
    PlanPrefixes(c, Upserts(c, listing, spec), Removals(c, listing, spec, ledger));
  }

  /** The names owned before the pass or created by it, in the order declared. */
  method NewLedger(ghost c: Cloud<Addon>, ghost listing: seq<Id>, spec: seq<Addon>, ledger: seq<string>,
      created: set<string>)
    returns (applied: seq<string>)
    requires forall n :: n in created <==> LastNamed(listing, Names(c), n).None? && Declares(spec, n)
    ensures applied == Latched(c, listing, spec, ledger)
  {
    hide Latched;
    applied := [];
    NoneLatchedYet(c, listing, spec, ledger);
    for i := 0 to |spec|
      invariant applied == Latched(c, listing, spec[..i], ledger)
    {
      LatchedStep(c, listing, spec, ledger, i);
      if spec[i].name in ledger || spec[i].name in created { applied := applied + [spec[i].name]; }
    }
    assert spec[..|spec|] == spec;
  }

  lemma NoneYet(c: Cloud<Addon>, listing: seq<Id>, spec: seq<Addon>)
    ensures Upserts(c, listing, spec[..0]) == [] && Apply(c, Upserts(c, listing, spec[..0])) == c
    ensures forall n :: !Declares(spec[..0], n)
  {
  }

  lemma NoneRemovedYet(base: Cloud<Addon>, c: Cloud<Addon>, listing: seq<Id>, spec: seq<Addon>, ledger: seq<string>)
    ensures Removals(c, listing[..0], spec, ledger) == [] && Apply(base, []) == base
  {
  }

  lemma NoneLatchedYet(c: Cloud<Addon>, listing: seq<Id>, spec: seq<Addon>, ledger: seq<string>)
    ensures Latched(c, listing, spec[..0], ledger) == []
  {
  }

  lemma UpsertsStep(c: Cloud<Addon>, listing: seq<Id>, spec: seq<Addon>, i: nat)
    requires i < |spec|
    ensures var now, one := Upserts(c, listing, spec[..i]), UpsertOf(c, listing, spec[i]);
            && Upserts(c, listing, spec[..i + 1]) == now + one
            && now + one <= Upserts(c, listing, spec)
            && now == Upserts(c, listing, spec)[..|now|]
            && (one == [] ==> Apply(c, now + one) == Apply(c, now))
            && (one != [] ==> Apply(c, now + one) == Applied(Apply(c, now), one[0]))
  {
    hide Upserts, UpsertOf, Apply;
    UpsertsNext(c, listing, spec, i);
    UpsertsGrow(c, listing, spec, i + 1);
    var now, one := Upserts(c, listing, spec[..i]), UpsertOf(c, listing, spec[i]);
    if one == [] { assert now + one == now; } else { assert one == [one[0]]; ApplyOneMore(c, now, one[0]); }
  }

  lemma UpsertsNext(c: Cloud<Addon>, listing: seq<Id>, spec: seq<Addon>, i: nat)
    requires i < |spec|
    ensures Upserts(c, listing, spec[..i + 1]) == Upserts(c, listing, spec[..i]) + UpsertOf(c, listing, spec[i])
  {
    assert spec[..i + 1][..i] == spec[..i];
  }

  lemma {:induction false} UpsertsGrow(c: Cloud<Addon>, listing: seq<Id>, spec: seq<Addon>, i: nat)
    requires i <= |spec|
    ensures Upserts(c, listing, spec[..i]) <= Upserts(c, listing, spec)
    decreases |spec| - i
  {
    hide Upserts;
    if i == |spec| {
      assert spec[..i] == spec;
    } else {
      UpsertsGrow(c, listing, spec, i + 1);
      UpsertsNext(c, listing, spec, i);
    }
  }

  lemma DeclaresStep(spec: seq<Addon>, i: nat)
    requires i < |spec|
    ensures forall n :: Declares(spec[..i + 1], n) <==> Declares(spec[..i], n) || n == spec[i].name
  {
  }

  lemma RemovalsStep(base: Cloud<Addon>, c: Cloud<Addon>, listing: seq<Id>, spec: seq<Addon>, ledger: seq<string>,
      i: nat)
    requires i < |listing|
    ensures var now := Removals(c, listing[..i], spec, ledger);
            && now <= Removals(c, listing, spec, ledger)
            && now == Removals(c, listing, spec, ledger)[..|now|]
            && Removals(c, listing[..i + 1], spec, ledger)
               == (if Removable(c, spec, ledger, listing[i]) then now + [Delete(listing[i])] else now)
            && Removals(c, listing[..i + 1], spec, ledger) <= Removals(c, listing, spec, ledger)
            && Apply(base, now + [Delete(listing[i])]) == Applied(Apply(base, now), Delete(listing[i]))
  {
    hide Removals, Removable, Apply;
    RemovalsNext(c, listing, spec, ledger, i);
    RemovalsGrow(c, listing, spec, ledger, i);
    RemovalsGrow(c, listing, spec, ledger, i + 1);
    ApplyOneMore(base, Removals(c, listing[..i], spec, ledger), Delete(listing[i]));
  }

  lemma RemovalsNext(c: Cloud<Addon>, listing: seq<Id>, spec: seq<Addon>, ledger: seq<string>, i: nat)
    requires i < |listing|
    ensures var now := Removals(c, listing[..i], spec, ledger);
            Removals(c, listing[..i + 1], spec, ledger)
              == if Removable(c, spec, ledger, listing[i]) then now + [Delete(listing[i])] else now
  {
    assert listing[..i + 1][..i] == listing[..i];
  }

  lemma {:induction false} RemovalsGrow(c: Cloud<Addon>, listing: seq<Id>, spec: seq<Addon>, ledger: seq<string>,
      i: nat)
    requires i <= |listing|
    ensures Removals(c, listing[..i], spec, ledger) <= Removals(c, listing, spec, ledger)
    decreases |listing| - i
  {
    hide Removals, Removable;
    if i == |listing| {
      assert listing[..i] == listing;
    } else {
      RemovalsGrow(c, listing, spec, ledger, i + 1);
      RemovalsNext(c, listing, spec, ledger, i);
    }
  }

  lemma LatchedStep(c: Cloud<Addon>, listing: seq<Id>, spec: seq<Addon>, ledger: seq<string>, i: nat)
    requires i < |spec|
    ensures Latched(c, listing, spec[..i + 1], ledger) == Latched(c, listing, spec[..i], ledger)
      + if spec[i].name in ledger || LastNamed(listing, Names(c), spec[i].name).None? then [spec[i].name] else []
    ensures Declares(spec, spec[i].name)
  {
    assert spec[..i + 1][..i] == spec[..i];
  }
}
