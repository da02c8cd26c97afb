/** What one fully successful addon pass achieves, and that the next one has nothing left to do. */
module AddonConvergence {
  import opened Options
  import opened CloudWrites
  import opened Addons
  import opened AddonRuns

  lemma SameNameSameWant(spec: seq<Addon>, a: Addon, b: Addon)
    requires DistinctNames(spec) && a in spec && b in spec && a.name == b.name
    ensures a == b
  {
  }

  lemma {:induction false} UpsertsOncePerId(c: Cloud<Addon>, listing: seq<Id>, spec: seq<Addon>)
    requires DistinctNames(spec)
    ensures OncePerId(c, Upserts(c, listing, spec)) && CreatesDiffer(Upserts(c, listing, spec))
  {
    if spec != [] {
      var n := |spec| - 1;
      var init := spec[..n];
      assert DistinctNames(init);
      UpsertsOncePerId(c, listing, init);
      UpsertsHold(c, listing, init);
      forall w | w in Upserts(c, listing, init)
        ensures w.Create? ==> w.value.name != spec[n].name
        ensures w.Update? ==> w.id in c.items && c.items[w.id].name != spec[n].name
        ensures !w.Delete?
      {
        var i :| 0 <= i < n && w in UpsertOf(c, listing, init[i]);
        assert init[i] == spec[i];
      }
    }
  }

  lemma {:induction false} RemovalsOncePerId(c: Cloud<Addon>, listing: seq<Id>, spec: seq<Addon>, ledger: seq<string>)
    requires forall i, j :: 0 <= i < j < |listing| ==> listing[i] != listing[j]
    ensures OncePerId(c, Removals(c, listing, spec, ledger)) && CreatesDiffer(Removals(c, listing, spec, ledger))
  {
    if listing != [] {
      var n := |listing| - 1;
      RemovalsOncePerId(c, listing[..n], spec, ledger);
      RemovalsHold(c, listing[..n], spec, ledger);
    }
  }

  lemma PlanOncePerId(c: Cloud<Addon>, listing: seq<Id>, spec: seq<Addon>, ledger: seq<string>)
    requires Lists(listing, c) && DistinctNames(spec)
    ensures OncePerId(c, Plan(c, listing, spec, ledger)) && CreatesDiffer(Plan(c, listing, spec, ledger))
  {
    UpsertsOncePerId(c, listing, spec);
    RemovalsOncePerId(c, listing, spec, ledger);
    RemovalsHold(c, listing, spec, ledger);
    UpsertsHold(c, listing, spec);
    hide Upserts, Removals;
    forall w | w in Upserts(c, listing, spec)
      ensures w.Update? ==> w.id in c.items && Declares(spec, c.items[w.id].name)
      ensures !w.Delete?
    {
      var i :| 0 <= i < |spec| && w in UpsertOf(c, listing, spec[i]);
    }
    JoinOncePerId(c, Upserts(c, listing, spec), Removals(c, listing, spec, ledger));
  }

  /** The declared state holds: every declared addon is there, at its version if one is declared. */
  ghost predicate AllPresent(c: Cloud<Addon>, spec: seq<Addon>) {
    forall want :: want in spec ==>
      exists id :: id in c.items && c.items[id].name == want.name && AtVersion(c.items[id], want)
  }

  /** The addon has the declared version, if one is declared. */
  predicate AtVersion(got: Addon, want: Addon) {
    want.version == "" || got.version == want.version
  }

  /** Nothing is left of what was owned and is not declared; the rest is as it was. */
  ghost predicate OnlyOursChanged(before: Cloud<Addon>, after: Cloud<Addon>, spec: seq<Addon>, ledger: seq<string>) {
    && (forall id :: id in after.items && after.items[id].name in ledger ==> Declares(spec, after.items[id].name))
    && (forall id :: id in before.items && !Declares(spec, before.items[id].name) && before.items[id].name !in ledger ==>
          id in after.items && after.items[id] == before.items[id])
    && (forall id :: id in after.items && !Declares(spec, after.items[id].name) ==>
          id in before.items && before.items[id] == after.items[id])
    && (forall id, want :: id in before.items && want in spec && before.items[id].name == want.name ==>
          id in after.items
          && after.items[id] == if want.version != "" && before.items[id].version != want.version then want
                                else before.items[id])
  }

  lemma PlanReachesSpec(c: Cloud<Addon>, listing: seq<Id>, spec: seq<Addon>, ledger: seq<string>)
    requires Fresh(c) && Lists(listing, c) && DistinctNames(spec) && UniqueNames(Names(c))
    ensures var after := Apply(c, Plan(c, listing, spec, ledger));
            Fresh(after) && UniqueNames(Names(after)) && AllPresent(after, spec) && OnlyOursChanged(c, after, spec, ledger)
  {
    var plan := Plan(c, listing, spec, ledger);
    var after := Apply(c, plan);
    PlanOncePerId(c, listing, spec, ledger);
    ApplyHasEffect(c, plan);
    NewEntriesDiffer(c, plan);
    hide Plan, Apply;
    NamesStayUnique(c, listing, spec, ledger, after);
    OursChanged(c, listing, spec, ledger, after);
    forall want | want in spec
      ensures exists id :: id in after.items && after.items[id].name == want.name && AtVersion(after.items[id], want)
    {
      WantPresent(c, listing, spec, ledger, want, after);
    }
  }

  lemma NamesStayUnique(c: Cloud<Addon>, listing: seq<Id>, spec: seq<Addon>, ledger: seq<string>, after: Cloud<Addon>)
    requires Fresh(c) && Lists(listing, c) && DistinctNames(spec) && UniqueNames(Names(c))
    requires Effect(c, Plan(c, listing, spec, ledger), after) && DifferFrom(c.next, after)
    ensures UniqueNames(Names(after))
  {
    hide Plan, Effect, DistinctNames;
    forall i, j | i in after.items && j in after.items && after.items[i].name == after.items[j].name ensures i == j {
      if i in c.items {
        ExistingAfter(c, listing, spec, ledger, i, after);
      } else {
        NewAfter(c, listing, spec, ledger, i, after);
      }
      if j in c.items {
        ExistingAfter(c, listing, spec, ledger, j, after);
      } else {
        NewAfter(c, listing, spec, ledger, j, after);
      }
      if i in c.items && j in c.items {
        assert Names(c)[i] == Names(c)[j];
      } else if i !in c.items && j !in c.items {
        SameNameSameWant(spec, after.items[i], after.items[j]);
      }
    }
  }

  lemma OursChanged(c: Cloud<Addon>, listing: seq<Id>, spec: seq<Addon>, ledger: seq<string>, after: Cloud<Addon>)
    requires Fresh(c) && Lists(listing, c) && DistinctNames(spec) && UniqueNames(Names(c))
    requires Effect(c, Plan(c, listing, spec, ledger), after)
    ensures OnlyOursChanged(c, after, spec, ledger)
  {
    hide Plan, Effect, DistinctNames, UniqueNames;
    forall id | id in c.items
      ensures Removable(c, spec, ledger, id) ==> id !in after.items
      ensures !Removable(c, spec, ledger, id) ==> id in after.items && after.items[id].name == c.items[id].name
      ensures !Declares(spec, c.items[id].name) && !Removable(c, spec, ledger, id) ==> after.items[id] == c.items[id]
      ensures forall want :: want in spec && want.name == c.items[id].name ==>
                id in after.items && after.items[id] == if Drifted(c.items[id], want) then want else c.items[id]
    {
      ExistingAfter(c, listing, spec, ledger, id, after);
    }
    forall id | id in after.items && id !in c.items ensures Declares(spec, after.items[id].name) {
      NewAfter(c, listing, spec, ledger, id, after);
    }
  }

  lemma ExistingAfter(c: Cloud<Addon>, listing: seq<Id>, spec: seq<Addon>, ledger: seq<string>, id: Id,
      after: Cloud<Addon>)
    requires Fresh(c) && Lists(listing, c) && DistinctNames(spec) && UniqueNames(Names(c))
    requires Effect(c, Plan(c, listing, spec, ledger), after) && id in c.items
    ensures Removable(c, spec, ledger, id) ==> id !in after.items
    ensures !Removable(c, spec, ledger, id) ==> id in after.items && after.items[id].name == c.items[id].name
    ensures !Declares(spec, c.items[id].name) && !Removable(c, spec, ledger, id) ==> after.items[id] == c.items[id]
    ensures forall want :: want in spec && want.name == c.items[id].name ==>
              id in after.items && after.items[id] == if Drifted(c.items[id], want) then want else c.items[id]
  {
    var plan := Plan(c, listing, spec, ledger);
    RemovalsHold(c, listing, spec, ledger);
    UpsertsHold(c, listing, spec);
    if Removable(c, spec, ledger, id) {
      assert Delete(id) in plan;
      forall want | want in spec ensures want.name != c.items[id].name { }
    } else if i :| 0 <= i < |spec| && spec[i].name == c.items[id].name {
      UniqueNameFound(listing, Names(c), id);
      if Drifted(c.items[id], spec[i]) {
        assert Update(id, spec[i]) in UpsertOf(c, listing, spec[i]);
        assert Update(id, spec[i]) in plan;
      } else {
        Untouched(c, listing, spec, ledger, id);
      }
      forall want | want in spec && want.name == c.items[id].name ensures want == spec[i] {
        SameNameSameWant(spec, want, spec[i]);
      }
    } else {
      Untouched(c, listing, spec, ledger, id);
    }
  }

  lemma Untouched(c: Cloud<Addon>, listing: seq<Id>, spec: seq<Addon>, ledger: seq<string>, id: Id)
    requires Lists(listing, c) && DistinctNames(spec) && id in c.items && !Removable(c, spec, ledger, id)
    requires forall want :: want in spec && want.name == c.items[id].name ==> !Drifted(c.items[id], want)
    ensures !Writes(Plan(c, listing, spec, ledger), id)
  {
    forall w | w in Plan(c, listing, spec, ledger) && !w.Create? ensures w.id != id {
      PlanHolds(c, listing, spec, ledger, w);
    }
  }

  /** An update of a declared addon is planned exactly when a version is declared and it has another one. */
  lemma UpdatePlannedIff(c: Cloud<Addon>, listing: seq<Id>, spec: seq<Addon>, ledger: seq<string>, id: Id, want: Addon)
    requires Lists(listing, c) && DistinctNames(spec) && UniqueNames(Names(c)) && want in spec
    requires id in c.items && c.items[id].name == want.name
    ensures (exists v :: Update(id, v) in Plan(c, listing, spec, ledger))
            <==> want.version != "" && c.items[id].version != want.version
  {
    hide Plan;
    PlanOfBoth(c, listing, spec, ledger);
    UpsertsHold(c, listing, spec);
    UniqueNameFound(listing, Names(c), id);
    if Drifted(c.items[id], want) {
      var i :| 0 <= i < |spec| && spec[i] == want;
      assert Update(id, want) in UpsertOf(c, listing, spec[i]);
      assert Update(id, want) in Plan(c, listing, spec, ledger);
    } else {
      forall w | w in spec && w.name == c.items[id].name ensures w == want { SameNameSameWant(spec, w, want); }
      if !Removable(c, spec, ledger, id) { Untouched(c, listing, spec, ledger, id); }
    }
  }

  lemma PlanOfBoth(c: Cloud<Addon>, listing: seq<Id>, spec: seq<Addon>, ledger: seq<string>)
    ensures forall w :: w in Plan(c, listing, spec, ledger) <==>
              w in Upserts(c, listing, spec) || w in Removals(c, listing, spec, ledger)
  {
  }

  lemma NewAfter(c: Cloud<Addon>, listing: seq<Id>, spec: seq<Addon>, ledger: seq<string>, id: Id, after: Cloud<Addon>)
    requires Fresh(c) && Lists(listing, c) && Effect(c, Plan(c, listing, spec, ledger), after)
    requires id in after.items && id !in c.items
    ensures c.next <= id && after.items[id] in spec && forall i :: i in c.items ==> c.items[i].name != after.items[id].name
  {
    var plan := Plan(c, listing, spec, ledger);
    forall w | w in plan && !w.Create? ensures w.id != id { PlanHolds(c, listing, spec, ledger, w); }
    assert !Writes(plan, id);
    PlanHolds(c, listing, spec, ledger, Create(after.items[id]));
    assert forall i :: i in c.items ==> Names(c)[i] == c.items[i].name;
  }

  lemma WantPresent(c: Cloud<Addon>, listing: seq<Id>, spec: seq<Addon>, ledger: seq<string>, want: Addon,
      after: Cloud<Addon>)
    requires Fresh(c) && Lists(listing, c) && DistinctNames(spec) && UniqueNames(Names(c)) && want in spec
    requires Effect(c, Plan(c, listing, spec, ledger), after)
    ensures exists id :: id in after.items && after.items[id].name == want.name && AtVersion(after.items[id], want)
  {
    match LastNamed(listing, Names(c), want.name)
    case Some(id) =>
      ExistingAfter(c, listing, spec, ledger, id, after);
    case None =>
      var i :| 0 <= i < |spec| && spec[i] == want;
      UpsertsHold(c, listing, spec);
      assert Create(want) in UpsertOf(c, listing, spec[i]);
      assert Create(want) in Plan(c, listing, spec, ledger);
  }

  /** Where everything declared is present and nothing owned is undeclared, any listing plans no write. */
  lemma NothingPlanned(c: Cloud<Addon>, listing: seq<Id>, spec: seq<Addon>, ledger: seq<string>)
    requires Lists(listing, c) && UniqueNames(Names(c)) && AllPresent(c, spec)
    requires forall n :: n in ledger ==> Declares(spec, n)
    ensures Plan(c, listing, spec, ledger) == []
  {
    forall i | 0 <= i < |spec| ensures UpsertOf(c, listing, spec[i]) == [] {
      assert spec[i] in spec;
      var id :| id in c.items && c.items[id].name == spec[i].name && AtVersion(c.items[id], spec[i]);
      UniqueNameFound(listing, Names(c), id);
    }
    UpsertsHold(c, listing, spec);
    RemovalsHold(c, listing, spec, ledger);
    HasAMember(Plan(c, listing, spec, ledger));
  }

  /** One call for the listing, one for each declared addon and one for each listed one are enough. */
  lemma EnoughCallsSucceed(s: State, listing: seq<Id>, spec: seq<Addon>, calls: nat)
    requires calls > |spec| + |listing|
    ensures Succeeds(s, listing, spec, calls)
  {
    UpsertsAreFew(s.cloud, listing, spec);
    RemovalsAreFew(s.cloud, listing, spec, s.ledger);
  }

  lemma {:induction false} UpsertsAreFew(c: Cloud<Addon>, listing: seq<Id>, spec: seq<Addon>)
    ensures |Upserts(c, listing, spec)| <= |spec|
  {
    if spec != [] { UpsertsAreFew(c, listing, spec[..|spec| - 1]); }
  }

  lemma {:induction false} RemovalsAreFew(c: Cloud<Addon>, listing: seq<Id>, spec: seq<Addon>, ledger: seq<string>)
    ensures |Removals(c, listing, spec, ledger)| <= |listing|
  {
    if listing != [] { RemovalsAreFew(c, listing[..|listing| - 1], spec, ledger); }
  }

  /**
   A fully successful pass with distinct declared names, where the platform holds one instance per name,
   reaches the declared set: every declared addon present and undrifted, every owned undeclared one gone,
   everything else unchanged; and no following pass, whatever the order of its listing, writes anything.
   */
  lemma PassConverges(s: State, listing: seq<Id>, spec: seq<Addon>, calls: nat)
    requires Fresh(s.cloud) && Lists(listing, s.cloud) && UniqueNames(Names(s.cloud)) && DistinctNames(spec)
    requires !Skipped(s, spec) && Succeeds(s, listing, spec, calls)
    ensures var after := Pass(s, listing, spec, calls);
            && AllPresent(after.cloud, spec)
            && OnlyOursChanged(s.cloud, after.cloud, spec, s.ledger)
            && (forall next, budget: nat :: Lists(next, after.cloud) ==>
                  Pass(after, next, spec, budget).cloud == after.cloud && (Succeeds(after, next, spec, budget) <==> budget > 0))
            && (forall next :: Lists(next, after.cloud) ==> Plan(after.cloud, next, spec, after.ledger) == [])
  {
    var plan := Plan(s.cloud, listing, spec, s.ledger);
    assert plan[..|plan|] == plan;
    PlanReachesSpec(s.cloud, listing, spec, s.ledger);
    LatchedHolds(s.cloud, listing, spec, s.ledger);
    var after := Pass(s, listing, spec, calls);
    forall next | Lists(next, after.cloud) ensures Plan(after.cloud, next, spec, after.ledger) == [] {
      NothingPlanned(after.cloud, next, spec, after.ledger);
    }
  }

  /**
   The ledger knows names, not instances: whoever installed the addon that has a ledger name now, also
   after someone deleted ours, a successful pass that no longer declares the name deletes it.
   */
  lemma LedgerNameIsDeletedWhoeverInstalledIt(s: State, listing: seq<Id>, spec: seq<Addon>, calls: nat, id: Id)
    requires Lists(listing, s.cloud) && Fresh(s.cloud) && UniqueNames(Names(s.cloud)) && DistinctNames(spec)
    requires !Skipped(s, spec) && Succeeds(s, listing, spec, calls)
    requires id in s.cloud.items
    ensures s.cloud.items[id].name in s.ledger && !Declares(spec, s.cloud.items[id].name)
       <==> id !in Pass(s, listing, spec, calls).cloud.items
  {
    var plan := Plan(s.cloud, listing, spec, s.ledger);
    assert plan[..|plan|] == plan;
    PlanOncePerId(s.cloud, listing, spec, s.ledger);
    ApplyHasEffect(s.cloud, plan);
    hide Plan, Effect, Apply;
    ExistingAfter(s.cloud, listing, spec, s.ledger, id, Apply(s.cloud, plan));
  }
}
