/** What one fully successful access-policy pass achieves, and that the next one has nothing left to do. */
module AccessPolicyConvergence {
  import opened Options
  import opened CloudWrites
  import opened AccessPolicies
  import opened AccessPolicyRuns

  lemma SameNameSameWant(spec: seq<Want>, a: Want, b: Want)
    requires DistinctNames(spec) && a in spec && b in spec && a.name == b.name
    ensures a == b
  {
  }

  lemma {:induction false} UpsertsOncePerId(c: Cloud<Policy>, listing: seq<Id>, cluster: string, spec: seq<Want>)
    requires DistinctNames(spec)
    ensures OncePerId(c, Upserts(c, listing, cluster, spec)) && CreatesDiffer(Upserts(c, listing, cluster, spec))
  {
    if spec != [] {
      var n := |spec| - 1;
      var init := spec[..n];
      assert DistinctNames(init);
      UpsertsOncePerId(c, listing, cluster, init);
      UpsertsHold(c, listing, cluster, init);
      forall w | w in Upserts(c, listing, cluster, init)
        ensures w.Create? ==> w.value.name != spec[n].name
        ensures w.Update? ==> w.id in c.items && c.items[w.id].name != spec[n].name
        ensures !w.Delete?
      {
        var i :| 0 <= i < n && w in UpsertOf(c, listing, cluster, init[i]);
        assert init[i] == spec[i];
      }
    }
  }

  lemma {:induction false} RemovalsOncePerId(c: Cloud<Policy>, listing: seq<Id>, cluster: string, spec: seq<Want>,
      ledger: seq<string>)
    requires forall i, j :: 0 <= i < j < |listing| ==> listing[i] != listing[j]
    ensures OncePerId(c, Removals(c, listing, cluster, spec, ledger))
  {
    if listing != [] {
      var n := |listing| - 1;
      RemovalsOncePerId(c, listing[..n], cluster, spec, ledger);
      RemovalsHold(c, listing[..n], cluster, spec, ledger);
    }
  }

  /** The plan of a pass that does not collide. */
  function FullPlan(c: Cloud<Policy>, listing: seq<Id>, cluster: string, spec: seq<Want>,
      ledger: seq<string>): seq<Write<Policy>> {
    Upserts(c, listing, cluster, spec) + Removals(c, listing, cluster, spec, ledger)
  }

  ghost predicate NoCollision(c: Cloud<Policy>, listing: seq<Id>, cluster: string, spec: seq<Want>,
      ledger: seq<string>) {
    FirstCollision(c, listing, cluster, spec, ledger) == |spec|
  }

  lemma PlanIsFull(c: Cloud<Policy>, listing: seq<Id>, cluster: string, spec: seq<Want>, ledger: seq<string>)
    requires NoCollision(c, listing, cluster, spec, ledger)
    ensures Plan(c, listing, cluster, spec, ledger) == FullPlan(c, listing, cluster, spec, ledger)
  {
    assert spec[..|spec|] == spec;
  }

  lemma FullPlanOncePerId(c: Cloud<Policy>, listing: seq<Id>, cluster: string, spec: seq<Want>, ledger: seq<string>)
    requires Lists(listing, c) && DistinctNames(spec)
    ensures OncePerId(c, FullPlan(c, listing, cluster, spec, ledger)) && CreatesDiffer(FullPlan(c, listing, cluster, spec, ledger))
  {
    UpsertsOncePerId(c, listing, cluster, spec);
    RemovalsOncePerId(c, listing, cluster, spec, ledger);
    RemovalsHold(c, listing, cluster, spec, ledger);
    UpsertsHold(c, listing, cluster, spec);
    hide Upserts, Removals;
    forall w | w in Upserts(c, listing, cluster, spec)
      ensures w.Update? ==> w.id in c.items && Declares(spec, c.items[w.id].name)
      ensures !w.Delete?
    {
      var i :| 0 <= i < |spec| && w in UpsertOf(c, listing, cluster, spec[i]);
    }
    JoinOncePerId(c, Upserts(c, listing, cluster, spec), Removals(c, listing, cluster, spec, ledger));
  }

  // ---------------------------------------------------------------- the reached state

  ghost predicate AllPresent(c: Cloud<Policy>, cluster: string, spec: seq<Want>) {
    forall want :: want in spec ==>
      exists id :: id in c.items && InScope(c.items[id], cluster) && c.items[id].name == want.name && AsDeclared(c.items[id], want)
  }

  predicate Ours(p: Policy, cluster: string, spec: seq<Want>, ledger: seq<string>) {
    InScope(p, cluster) && (Declares(spec, p.name) || p.name in ledger)
  }

  /** Nothing in scope is left of what was owned and is not declared; the rest, out of scope or not ours, is as it was. */
  ghost predicate OnlyOursChanged(before: Cloud<Policy>, after: Cloud<Policy>, cluster: string, spec: seq<Want>,
      ledger: seq<string>) {
    && (forall id :: id in after.items && InScope(after.items[id], cluster) && after.items[id].name in ledger ==>
          Declares(spec, after.items[id].name))
    && (forall id :: id in before.items && !Ours(before.items[id], cluster, spec, ledger) ==>
          id in after.items && after.items[id] == before.items[id])
    && (forall id :: id in after.items && id !in before.items ==> Declares(spec, after.items[id].name))
    && (forall id, want :: id in before.items && InScope(before.items[id], cluster) && want in spec
                           && want.name == before.items[id].name && AsDeclared(before.items[id], want) ==>
          id in after.items && after.items[id] == before.items[id])
    && (forall id, want :: id in before.items && InScope(before.items[id], cluster) && want in spec
                           && want.name == before.items[id].name && !AsDeclared(before.items[id], want) ==>
          id in after.items && AsDeclared(after.items[id], KnownWant(want)) && after.items[id].clusters == [cluster])
  }

  /** A declared policy as it is sent: an unknown principal type becomes a user. */
  function KnownWant(want: Want): Want {
    if want.principalType in {"user", "group", "agency"} then want else want.(principalType := "user")
  }

  /** What becomes of an existing policy. */
  lemma ExistingAfter(c: Cloud<Policy>, listing: seq<Id>, cluster: string, spec: seq<Want>, ledger: seq<string>,
      id: Id, after: Cloud<Policy>)
    requires Fresh(c) && Lists(listing, c) && DistinctNames(spec) && UniqueNames(Names(c, cluster))
    requires NoCollision(c, listing, cluster, spec, ledger)
    requires Effect(c, Plan(c, listing, cluster, spec, ledger), after) && id in c.items
    ensures Removable(c, cluster, spec, ledger, id) <==> id !in after.items
    ensures !InScope(c.items[id], cluster) ==> id in after.items && after.items[id] == c.items[id]
    ensures !Declares(spec, c.items[id].name) && id in after.items ==> after.items[id] == c.items[id]
    ensures InScope(c.items[id], cluster) ==> forall want :: want in spec && want.name == c.items[id].name ==>
              id in after.items && after.items[id] == if Drifted(c.items[id], want) then ModelOf(cluster, want) else c.items[id]
  {
    hide ModelOf, Drifted, InScope;
    var plan := Plan(c, listing, cluster, spec, ledger);
    PlanIsFull(c, listing, cluster, spec, ledger);
    RemovalsHold(c, listing, cluster, spec, ledger);
    UpsertsHold(c, listing, cluster, spec);
    hide Plan, NoCollision;
    if Removable(c, cluster, spec, ledger, id) {
      assert Delete(id) in plan;
      forall want | want in spec ensures want.name != c.items[id].name { }
    } else if i :| InScope(c.items[id], cluster) && 0 <= i < |spec| && spec[i].name == c.items[id].name {
      UniqueNameFound(listing, Names(c, cluster), id);
      forall want | want in spec && want.name == c.items[id].name ensures want == spec[i] {
        SameNameSameWant(spec, want, spec[i]);
      }
      if Drifted(c.items[id], spec[i]) {
        assert Update(id, ModelOf(cluster, spec[i])) in UpsertOf(c, listing, cluster, spec[i]);
        assert Update(id, ModelOf(cluster, spec[i])) in plan;
      } else {
        Untouched(c, listing, cluster, spec, ledger, id);
      }
    } else {
      assert forall want :: want in spec && InScope(c.items[id], cluster) ==> want.name != c.items[id].name;
      Untouched(c, listing, cluster, spec, ledger, id);
    }
  }

  lemma Untouched(c: Cloud<Policy>, listing: seq<Id>, cluster: string, spec: seq<Want>, ledger: seq<string>, id: Id)
    requires Lists(listing, c) && id in c.items && !Removable(c, cluster, spec, ledger, id)
    requires forall want :: want in spec && InScope(c.items[id], cluster) && want.name == c.items[id].name ==>
               !Drifted(c.items[id], want)
    ensures !Writes(Plan(c, listing, cluster, spec, ledger), id)
  {
    hide ModelOf, Drifted, InScope, Plan;
    forall w | w in Plan(c, listing, cluster, spec, ledger) && !w.Create? ensures w.id != id {
      PlanHolds(c, listing, cluster, spec, ledger, w);
      if w.Update? {
        var want :| want in spec && w.value == ModelOf(cluster, want) && Drifted(c.items[w.id], want);
        assert ModelOf(cluster, want).name == want.name by { WriteReadsBackIff(cluster, want); }
      }
    }
  }

  /** An update of an owned, declared policy is planned exactly when its type, principal type, principals or namespaces are
      not the declared ones. */
  lemma UpdatePlannedIff(c: Cloud<Policy>, listing: seq<Id>, cluster: string, spec: seq<Want>, ledger: seq<string>,
      id: Id, want: Want)
    requires Lists(listing, c) && DistinctNames(spec) && UniqueNames(Names(c, cluster))
    requires NoCollision(c, listing, cluster, spec, ledger) && want in spec
    requires id in c.items && InScope(c.items[id], cluster) && c.items[id].name == want.name
    ensures (exists v :: Update(id, v) in Plan(c, listing, cluster, spec, ledger))
            <==> || c.items[id].policyType != want.policyType || c.items[id].principalType != want.principalType
                 || c.items[id].principals != want.principals
                 || c.items[id].namespaces != if want.namespaces == [] then ["*"] else want.namespaces
  {
    hide Plan, ModelOf, InScope, NoCollision;
    PlanIsFull(c, listing, cluster, spec, ledger);
    UpsertsHold(c, listing, cluster, spec);
    UniqueNameFound(listing, Names(c, cluster), id);
    if Drifted(c.items[id], want) {
      var i :| 0 <= i < |spec| && spec[i] == want;
      assert Update(id, ModelOf(cluster, want)) in UpsertOf(c, listing, cluster, spec[i]);
      assert Update(id, ModelOf(cluster, want)) in Plan(c, listing, cluster, spec, ledger);
    } else {
      forall w | w in spec && w.name == c.items[id].name ensures w == want { SameNameSameWant(spec, w, want); }
      if !Removable(c, cluster, spec, ledger, id) { Untouched(c, listing, cluster, spec, ledger, id); }
    }
  }

  lemma NewAfter(c: Cloud<Policy>, listing: seq<Id>, cluster: string, spec: seq<Want>, ledger: seq<string>, id: Id,
      after: Cloud<Policy>)
      returns (want: Want)
    requires Fresh(c) && Lists(listing, c) && Effect(c, Plan(c, listing, cluster, spec, ledger), after)
    requires id in after.items && id !in c.items
    ensures c.next <= id && want in spec && after.items[id] == ModelOf(cluster, want) && after.items[id].name == want.name
    ensures InScope(after.items[id], cluster)
    ensures forall i :: i in c.items && InScope(c.items[i], cluster) ==> c.items[i].name != want.name
  {
    hide Plan, ModelOf, InScope, Drifted;
    var plan := Plan(c, listing, cluster, spec, ledger);
    forall w | w in plan && !w.Create? ensures w.id != id { PlanHolds(c, listing, cluster, spec, ledger, w); }
    assert !Writes(plan, id);
    PlanHolds(c, listing, cluster, spec, ledger, Create(after.items[id]));
    want :| want in spec && after.items[id] == ModelOf(cluster, want);
    WriteReadsBackIff(cluster, want);
    assert forall i :: i in c.items && InScope(c.items[i], cluster) ==> Names(c, cluster)[i] == c.items[i].name;
  }

  lemma WantPresent(c: Cloud<Policy>, listing: seq<Id>, cluster: string, spec: seq<Want>, ledger: seq<string>,
      want: Want, after: Cloud<Policy>)
    requires Fresh(c) && Lists(listing, c) && DistinctNames(spec) && UniqueNames(Names(c, cluster)) && want in spec
    requires NoCollision(c, listing, cluster, spec, ledger) && KnownPrincipal(want.principalType)
    requires Effect(c, Plan(c, listing, cluster, spec, ledger), after)
    ensures exists id :: id in after.items && InScope(after.items[id], cluster)
                         && after.items[id].name == want.name && AsDeclared(after.items[id], want)
  {
    hide ModelOf, Drifted, InScope, AsDeclared;
    WriteReadsBackIff(cluster, want);
    match LastNamed(listing, Names(c, cluster), want.name)
    case Some(id) =>
      ExistingAfter(c, listing, cluster, spec, ledger, id, after);
      DriftedIff(c.items[id], want);
    case None =>
      var i :| 0 <= i < |spec| && spec[i] == want;
      UpsertsHold(c, listing, cluster, spec);
      PlanIsFull(c, listing, cluster, spec, ledger);
      var w: Write<Policy> := Create(ModelOf(cluster, want));
      assert w in UpsertOf(c, listing, cluster, spec[i]);
      assert w in Plan(c, listing, cluster, spec, ledger);
  }

  lemma NamesStayUnique(c: Cloud<Policy>, listing: seq<Id>, cluster: string, spec: seq<Want>, ledger: seq<string>,
      after: Cloud<Policy>)
    requires Fresh(c) && Lists(listing, c) && DistinctNames(spec) && UniqueNames(Names(c, cluster))
    requires NoCollision(c, listing, cluster, spec, ledger)
    requires Effect(c, Plan(c, listing, cluster, spec, ledger), after) && DifferFrom(c.next, after)
    ensures UniqueNames(Names(after, cluster))
  {
    hide Plan, Effect, DistinctNames, NoCollision, ModelOf, Drifted, InScope;
    forall i, j | i in after.items && j in after.items && InScope(after.items[i], cluster) && InScope(after.items[j], cluster)
                  && after.items[i].name == after.items[j].name
      ensures i == j
    {
      var a, b := Want("", "", "", [], []), Want("", "", "", [], []);
      if i in c.items {
        KeepsNameAndScope(c, listing, cluster, spec, ledger, i, after);
      } else {
        a := NewAfter(c, listing, cluster, spec, ledger, i, after);
      }
      if j in c.items {
        KeepsNameAndScope(c, listing, cluster, spec, ledger, j, after);
      } else {
        b := NewAfter(c, listing, cluster, spec, ledger, j, after);
      }
      if i in c.items && j in c.items {
        assert Names(c, cluster)[i] == Names(c, cluster)[j];
      } else if i !in c.items && j !in c.items {
        SameNameSameWant(spec, a, b);
      }
    }
  }

  lemma KeepsNameAndScope(c: Cloud<Policy>, listing: seq<Id>, cluster: string, spec: seq<Want>, ledger: seq<string>,
      id: Id, after: Cloud<Policy>)
    requires Fresh(c) && Lists(listing, c) && DistinctNames(spec) && UniqueNames(Names(c, cluster))
    requires NoCollision(c, listing, cluster, spec, ledger)
    requires Effect(c, Plan(c, listing, cluster, spec, ledger), after) && id in c.items && id in after.items
    ensures after.items[id].name == c.items[id].name && (InScope(after.items[id], cluster) <==> InScope(c.items[id], cluster))
  {
    hide Plan, Effect, NoCollision, Drifted, InScope;
    ExistingAfter(c, listing, cluster, spec, ledger, id, after);
    if i :| 0 <= i < |spec| && spec[i].name == c.items[id].name {
      WriteReadsBackIff(cluster, spec[i]);
    }
  }

  lemma OursChanged(c: Cloud<Policy>, listing: seq<Id>, cluster: string, spec: seq<Want>, ledger: seq<string>,
      after: Cloud<Policy>)
    requires Fresh(c) && Lists(listing, c) && DistinctNames(spec) && UniqueNames(Names(c, cluster))
    requires NoCollision(c, listing, cluster, spec, ledger)
    requires Effect(c, Plan(c, listing, cluster, spec, ledger), after)
    ensures OnlyOursChanged(c, after, cluster, spec, ledger)
  {
    hide Plan, Effect, DistinctNames, UniqueNames, NoCollision, ModelOf, Drifted, InScope, AsDeclared;
    forall id, want | id in c.items && InScope(c.items[id], cluster) && want in spec && want.name == c.items[id].name
      ensures id in after.items
      ensures if AsDeclared(c.items[id], want) then after.items[id] == c.items[id]
              else AsDeclared(after.items[id], KnownWant(want)) && after.items[id].clusters == [cluster]
    {
      ExistingAfter(c, listing, cluster, spec, ledger, id, after);
      DriftedIff(c.items[id], want);
      WriteReadsBackIff(cluster, want);
    }
    forall id | id in c.items
      ensures Removable(c, cluster, spec, ledger, id) <==> id !in after.items
      ensures !InScope(c.items[id], cluster) ==> id in after.items && after.items[id] == c.items[id]
      ensures !Declares(spec, c.items[id].name) && id in after.items ==> after.items[id] == c.items[id]
      ensures id in after.items ==> after.items[id].name == c.items[id].name
                                    && (InScope(after.items[id], cluster) <==> InScope(c.items[id], cluster))
    {
      ExistingAfter(c, listing, cluster, spec, ledger, id, after);
      if id in after.items { KeepsNameAndScope(c, listing, cluster, spec, ledger, id, after); }
    }
    forall id | id in after.items && id !in c.items ensures Declares(spec, after.items[id].name) {
      var want := NewAfter(c, listing, cluster, spec, ledger, id, after);
    }
  }

  /** Where every declared policy is present and owned, any listing plans no write and nothing collides. */
  lemma NothingPlanned(c: Cloud<Policy>, listing: seq<Id>, cluster: string, spec: seq<Want>)
    requires Lists(listing, c) && UniqueNames(Names(c, cluster)) && AllPresent(c, cluster, spec)
    ensures NoCollision(c, listing, cluster, spec, NamesOf(spec)) && Plan(c, listing, cluster, spec, NamesOf(spec)) == []
  {
    var ledger := NamesOf(spec);
    forall i | 0 <= i < |spec|
      ensures UpsertOf(c, listing, cluster, spec[i]) == [] && !Collides(c, listing, cluster, ledger, spec[i])
    {
      assert spec[i] in spec && ledger[i] == spec[i].name;
      var id :| id in c.items && InScope(c.items[id], cluster) && c.items[id].name == spec[i].name && AsDeclared(c.items[id], spec[i]);
      UniqueNameFound(listing, Names(c, cluster), id);
    }
    PlanIsFull(c, listing, cluster, spec, ledger);
    UpsertsHold(c, listing, cluster, spec);
    RemovalsHold(c, listing, cluster, spec, ledger);
    forall id ensures !Removable(c, cluster, spec, ledger, id) { NamesAreDeclared(spec); }
    HasAMember(FullPlan(c, listing, cluster, spec, ledger));
  }

  lemma NamesAreDeclared(spec: seq<Want>)
    ensures forall n :: n in NamesOf(spec) ==> Declares(spec, n)
  {
  }

  /**
   A fully successful pass with distinct declared names and known principal types, where in-scope names
   are unique, reaches the declared set: every declared policy in scope and undrifted, every owned
   in-scope undeclared one gone, everything out of scope or not ours unchanged; and every following pass
   given one call, whatever the order of its listing, succeeds without writing.
   */
  lemma PassConverges(s: State, listing: seq<Id>, cluster: string, spec: seq<Want>, calls: nat)
    requires Fresh(s.cloud) && Lists(listing, s.cloud) && UniqueNames(Names(s.cloud, cluster)) && DistinctNames(spec)
    requires forall want :: want in spec ==> KnownPrincipal(want.principalType)
    requires !Skipped(s, spec) && Succeeds(s, listing, cluster, spec, calls)
    ensures var after := Pass(s, listing, cluster, spec, calls);
            && AllPresent(after.cloud, cluster, spec)
            && OnlyOursChanged(s.cloud, after.cloud, cluster, spec, s.ledger)
            && (forall next, budget: nat :: Lists(next, after.cloud) && budget > 0 ==>
                  Pass(after, next, cluster, spec, budget) == after && Succeeds(after, next, cluster, spec, budget))
  {
    var plan := Plan(s.cloud, listing, cluster, spec, s.ledger);
    var after := Pass(s, listing, cluster, spec, calls);
    assert plan[..|plan|] == plan;
    assert after == State(Apply(s.cloud, plan), NamesOf(spec), true);
    assert NoCollision(s.cloud, listing, cluster, spec, s.ledger);
    hide *;
    PlanReachesSpec(s.cloud, listing, cluster, spec, s.ledger);
    forall next, budget: nat | Lists(next, after.cloud) && budget > 0
      ensures Pass(after, next, cluster, spec, budget) == after && Succeeds(after, next, cluster, spec, budget)
    {
      NothingPlanned(after.cloud, next, cluster, spec);
      QuietPass(after, next, cluster, spec, budget);
    }
  }

  lemma QuietPass(s: State, listing: seq<Id>, cluster: string, spec: seq<Want>, calls: nat)
    requires s.ledger == NamesOf(spec) && s.condition && calls > 0
    requires NoCollision(s.cloud, listing, cluster, spec, s.ledger) && Plan(s.cloud, listing, cluster, spec, s.ledger) == []
    ensures Pass(s, listing, cluster, spec, calls) == s && Succeeds(s, listing, cluster, spec, calls)
  {
  }

  lemma PlanReachesSpec(c: Cloud<Policy>, listing: seq<Id>, cluster: string, spec: seq<Want>, ledger: seq<string>)
    requires Fresh(c) && Lists(listing, c) && DistinctNames(spec) && UniqueNames(Names(c, cluster))
    requires NoCollision(c, listing, cluster, spec, ledger)
    requires forall want :: want in spec ==> KnownPrincipal(want.principalType)
    ensures var after := Apply(c, Plan(c, listing, cluster, spec, ledger));
            && UniqueNames(Names(after, cluster)) && AllPresent(after, cluster, spec)
            && OnlyOursChanged(c, after, cluster, spec, ledger)
  {
    hide NoCollision, Plan, FullPlan, Apply, Names, DistinctNames, UniqueNames;
    var plan := Plan(c, listing, cluster, spec, ledger);
    var after := Apply(c, plan);
    PlanIsFull(c, listing, cluster, spec, ledger);
    FullPlanOncePerId(c, listing, cluster, spec, ledger);
    ApplyHasEffect(c, plan);
    NewEntriesDiffer(c, plan);
    NamesStayUnique(c, listing, cluster, spec, ledger, after);
    OursChanged(c, listing, cluster, spec, ledger, after);
    forall want | want in spec
      ensures exists id :: id in after.items && InScope(after.items[id], cluster)
                           && after.items[id].name == want.name && AsDeclared(after.items[id], want)
    {
      WantPresent(c, listing, cluster, spec, ledger, want, after);
    }
  }
}
