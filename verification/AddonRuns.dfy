/** Addon reconciliation over whole runs: what the ledger guarantees, what it forgets, and convergence. */
module AddonRuns {
  import opened Options
  import opened CloudWrites
  import opened Addons

  // ---------------------------------------------------------------- what is in a plan

  ghost predicate Upserted(c: Cloud<Addon>, listing: seq<Id>, spec: seq<Addon>, w: Write<Addon>) {
    exists i :: 0 <= i < |spec| && w in UpsertOf(c, listing, spec[i])
  }

  lemma {:induction false} UpsertsHold(c: Cloud<Addon>, listing: seq<Id>, spec: seq<Addon>)
    ensures forall w :: w in Upserts(c, listing, spec) <==> Upserted(c, listing, spec, w)
  {
    if spec != [] {
      var n := |spec| - 1;
      UpsertsHold(c, listing, spec[..n]);
      forall w ensures w in Upserts(c, listing, spec) <==> Upserted(c, listing, spec, w) {
        if Upserted(c, listing, spec[..n], w) {
          var i :| 0 <= i < n && w in UpsertOf(c, listing, spec[..n][i]);
          assert w in UpsertOf(c, listing, spec[i]);
        }
        if Upserted(c, listing, spec, w) {
          var i :| 0 <= i < |spec| && w in UpsertOf(c, listing, spec[i]);
          if i < n { assert w in UpsertOf(c, listing, spec[..n][i]); }
        }
      }
    }
  }

  lemma {:induction false} RemovalsHold(c: Cloud<Addon>, listing: seq<Id>, spec: seq<Addon>, ledger: seq<string>)
    ensures forall w :: w in Removals(c, listing, spec, ledger) <==>
                        w.Delete? && w.id in listing && Removable(c, spec, ledger, w.id)
  {
    if listing != [] {
      var n := |listing| - 1;
      RemovalsHold(c, listing[..n], spec, ledger);
      assert forall id :: id in listing <==> id in listing[..n] || id == listing[n];
    }
  }

  lemma {:induction false} LatchedHolds(c: Cloud<Addon>, listing: seq<Id>, spec: seq<Addon>, ledger: seq<string>)
    ensures forall n :: n in Latched(c, listing, spec, ledger) <==>
                        Declares(spec, n) && (n in ledger || LastNamed(listing, Names(c), n).None?)
  {
    hide LastNamed, Names;
    if spec != [] {
      var k := |spec| - 1;
      LatchedHolds(c, listing, spec[..k], ledger);
      DeclaresStep(spec, k);
      assert spec[..k + 1] == spec;
    }
  }

  /** Every planned write concerns the spec or the ledger, and existing addons only. */
  lemma PlanHolds(c: Cloud<Addon>, listing: seq<Id>, spec: seq<Addon>, ledger: seq<string>, w: Write<Addon>)
    requires Lists(listing, c) && w in Plan(c, listing, spec, ledger)
    ensures w.Create? ==> w.value in spec && LastNamed(listing, Names(c), w.value.name).None?
    ensures w.Update? ==>
              w.value in spec && w.id in c.items && c.items[w.id].name == w.value.name && Drifted(c.items[w.id], w.value)
    ensures w.Delete? ==> w.id in c.items && Removable(c, spec, ledger, w.id)
  {
    UpsertsHold(c, listing, spec);
    RemovalsHold(c, listing, spec, ledger);
    if w in Upserts(c, listing, spec) {
      var i :| 0 <= i < |spec| && w in UpsertOf(c, listing, spec[i]);
      assert spec[i] in spec;
    }
  }

  // ---------------------------------------------------------------- safety over whole runs

  /** The object and the cloud, and every name this provider ever created. */
  datatype Run = Run(s: State, created: set<string>)

  datatype Event =
    | PassEvent(spec: seq<Addon>, listing: seq<Id>, calls: nat, persisted: bool)   // persisted: the object patch went through
    | Foreign(cloud: Cloud<Addon>)                                                  // anyone else changed the addons

  ghost predicate Possible(r: Run, e: Event) {
    match e
    case PassEvent(_, listing, _, _) => Lists(listing, r.s.cloud)
    case Foreign(c) => Fresh(c) && r.s.cloud.next <= c.next
  }

  ghost function CreatedBy(writes: seq<Write<Addon>>): set<string> {
    set w | w in writes && w.Create? :: w.value.name
  }

  ghost function Step(r: Run, e: Event): Run {
    match e
    case Foreign(c) => r.(s := r.s.(cloud := c))
    case PassEvent(spec, listing, calls, persisted) =>
      var after := Pass(r.s, listing, spec, calls);
      var sent := Plan(r.s.cloud, listing, spec, r.s.ledger)[..Sent(r.s, listing, spec, calls)];
      Run(if persisted then after else r.s.(cloud := after.cloud), r.created + CreatedBy(sent))
  }

  ghost predicate PossibleRun(r: Run, events: seq<Event>) {
    events == [] || (PossibleRun(r, events[..|events| - 1]) && Possible(After(r, events[..|events| - 1]), events[|events| - 1]))
  }

  ghost function After(r: Run, events: seq<Event>): Run {
    if events == [] then r else Step(After(r, events[..|events| - 1]), events[|events| - 1])
  }

  /** The ledger holds only names this provider created, and a ledger implies the condition the gate reads. */
  ghost predicate Inv(r: Run) {
    && Fresh(r.s.cloud)
    && (forall n :: n in r.s.ledger ==> n in r.created)
    && (r.s.ledger != [] ==> r.s.condition)
  }

  lemma SentWritesAreInRange(s: State, listing: seq<Id>, spec: seq<Addon>, calls: nat)
    requires Lists(listing, s.cloud)
    ensures var sent := Plan(s.cloud, listing, spec, s.ledger)[..Sent(s, listing, spec, calls)];
            forall w :: w in sent && !w.Create? ==> w.id in s.cloud.items
  {
    var plan := Plan(s.cloud, listing, spec, s.ledger);
    forall w | w in plan[..Sent(s, listing, spec, calls)] && !w.Create? ensures w.id in s.cloud.items {
      assert w in plan;
      PlanHolds(s.cloud, listing, spec, s.ledger, w);
    }
  }

  /** A name a successful pass finds nowhere in the cloud is created by that pass. */
  lemma MissingNamesAreCreated(c: Cloud<Addon>, listing: seq<Id>, spec: seq<Addon>, ledger: seq<string>, n: string)
    requires Declares(spec, n) && LastNamed(listing, Names(c), n).None?
    ensures n in CreatedBy(Plan(c, listing, spec, ledger))
  {
    var i :| 0 <= i < |spec| && spec[i].name == n;
    UpsertsHold(c, listing, spec);
    assert Create(spec[i]) in UpsertOf(c, listing, spec[i]);
    assert Create(spec[i]) in Plan(c, listing, spec, ledger);
  }

  lemma StepKeepsInv(r: Run, e: Event)
    requires Inv(r) && Possible(r, e)
    ensures Inv(Step(r, e))
  {
    match e {
      case Foreign(_) =>
      case PassEvent(spec, listing, calls, persisted) =>
        var plan := Plan(r.s.cloud, listing, spec, r.s.ledger);
        SentWritesAreInRange(r.s, listing, spec, calls);
        ApplyTouchesOnly(r.s.cloud, plan[..Sent(r.s, listing, spec, calls)]);
        if Succeeds(r.s, listing, spec, calls) && !Skipped(r.s, spec) {
          assert plan[..|plan|] == plan;
          LatchedHolds(r.s.cloud, listing, spec, r.s.ledger);
          forall n | n in Latched(r.s.cloud, listing, spec, r.s.ledger) ensures n in Step(r, e).created {
            if n !in r.s.ledger { MissingNamesAreCreated(r.s.cloud, listing, spec, r.s.ledger, n); }
          }
        }
    }
  }

  lemma {:induction false} RunKeepsInv(r: Run, events: seq<Event>)
    requires Inv(r) && PossibleRun(r, events)
    ensures Inv(After(r, events))
  {
    if events != [] {
      RunKeepsInv(r, events[..|events| - 1]);
      StepKeepsInv(After(r, events[..|events| - 1]), events[|events| - 1]);
    }
  }

  /**
   Ledger safety: after any run, with foreign changes, calls failing anywhere and lost object patches, a
   pass deletes an addon only if its name is in the ledger, hence one this provider created, and no
   longer declared; it changes only declared addons; and when the gate skips the pass the ledger is empty.
   */
  lemma LedgerSafety(r0: Run, events: seq<Event>, spec: seq<Addon>, listing: seq<Id>, calls: nat)
    requires Inv(r0) && PossibleRun(r0, events)
    requires Lists(listing, After(r0, events).s.cloud)
    ensures var r := After(r0, events);
            var before, after := r.s.cloud, Pass(r.s, listing, spec, calls).cloud;
            && (forall n :: n in r.s.ledger ==> n in r.created)
            && (Skipped(r.s, spec) ==> r.s.ledger == [])
            && (forall id :: id in before.items && id !in after.items ==>
                  before.items[id].name in r.s.ledger && !Declares(spec, before.items[id].name))
            && (forall id :: id in before.items && id in after.items && after.items[id] != before.items[id] ==>
                  after.items[id].name == before.items[id].name && after.items[id] in spec)
            && (forall id :: id in after.items && id !in before.items ==> after.items[id] in spec)
  {
    RunKeepsInv(r0, events);
    var r := After(r0, events);
    var plan := Plan(r.s.cloud, listing, spec, r.s.ledger);
    var sent := plan[..Sent(r.s, listing, spec, calls)];
    SentWritesAreInRange(r.s, listing, spec, calls);
    ApplyTouchesOnly(r.s.cloud, sent);
    forall w | w in sent
      ensures w.Delete? ==> Removable(r.s.cloud, spec, r.s.ledger, w.id)
      ensures w.Update? ==> w.value in spec && w.id in r.s.cloud.items && r.s.cloud.items[w.id].name == w.value.name
      ensures w.Create? ==> w.value in spec
    {
      assert w in plan;
      PlanHolds(r.s.cloud, listing, spec, r.s.ledger, w);
    }
  }

  // ---------------------------------------------------------------- what a cut pass forgets

  /** A name not in the ledger, but listed, never gets into it: the pass that created it was cut. */
  lemma NotLedgeredIsNeverOwned(s: State, listing: seq<Id>, spec: seq<Addon>, calls: nat, id: Id)
    requires Lists(listing, s.cloud) && id in s.cloud.items && s.cloud.items[id].name !in s.ledger
    ensures s.cloud.items[id].name !in Pass(s, listing, spec, calls).ledger
    ensures Fresh(s.cloud) ==>
              id in Pass(s, listing, spec, calls).cloud.items
              && Pass(s, listing, spec, calls).cloud.items[id].name == s.cloud.items[id].name
  {
    LatchedHolds(s.cloud, listing, spec, s.ledger);
    var plan := Plan(s.cloud, listing, spec, s.ledger);
    var sent := plan[..Sent(s, listing, spec, calls)];
    if Fresh(s.cloud) {
      SentWritesAreInRange(s, listing, spec, calls);
      ApplyTouchesOnly(s.cloud, sent);
      forall w | w in sent
        ensures w != Delete(id)
        ensures w.Update? && w.id == id ==> w.value.name == s.cloud.items[id].name
      {
        assert w in plan;
        PlanHolds(s.cloud, listing, spec, s.ledger, w);
      }
    }
  }

  predicate NoneNamed(c: Cloud<Addon>, name: string) {
    forall id :: id in c.items ==> c.items[id].name != name
  }

  /** A name a pass created is there afterwards, and is owned exactly when it was before, or the pass succeeded and its
      object patch went through. */
  lemma CreatedIsOwnedIff(
    r: Run, spec: seq<Addon>, listing: seq<Id>, calls: nat, persisted: bool, name: string)
    requires Lists(listing, r.s.cloud) && Fresh(r.s.cloud)
    requires name in CreatedBy(Plan(r.s.cloud, listing, spec, r.s.ledger)[..Sent(r.s, listing, spec, calls)])
    ensures !NoneNamed(Step(r, PassEvent(spec, listing, calls, persisted)).s.cloud, name)
    ensures name in Step(r, PassEvent(spec, listing, calls, persisted)).s.ledger
            <==> name in r.s.ledger || (persisted && Succeeds(r.s, listing, spec, calls))
  {
    var plan := Plan(r.s.cloud, listing, spec, r.s.ledger);
    var w :| w in plan[..Sent(r.s, listing, spec, calls)] && w.Create? && w.value.name == name;
    assert w in plan;
    PlanHolds(r.s.cloud, listing, spec, r.s.ledger, w);
    LatchedHolds(r.s.cloud, listing, spec, r.s.ledger);
    SentWritesAreInRange(r.s, listing, spec, calls);
    var id := CreatedIsThere(r.s.cloud, plan[..Sent(r.s, listing, spec, calls)], w.value);
  }

  /** A successful, persisted pass that declares the name and finds no addon of it. */
  ghost predicate TakesOwnership(r: Run, e: Event, name: string) {
    && e.PassEvent? && e.persisted && !Skipped(r.s, e.spec) && Succeeds(r.s, e.listing, e.spec, e.calls)
    && Declares(e.spec, name) && NoneNamed(r.s.cloud, name)
  }

  lemma StepOwnsIff(r: Run, e: Event, name: string)
    requires Possible(r, e) && name !in r.s.ledger
    ensures name in Step(r, e).s.ledger <==> TakesOwnership(r, e, name)
  {
    if e.PassEvent? {
      LatchedHolds(r.s.cloud, e.listing, e.spec, r.s.ledger);
      assert LastNamed(e.listing, Names(r.s.cloud), name).None? <==> NoneNamed(r.s.cloud, name);
    }
  }

  ghost predicate OwnedAtSomePoint(r: Run, events: seq<Event>, name: string) {
    events != [] && (name in After(r, events).s.ledger || OwnedAtSomePoint(r, events[..|events| - 1], name))
  }

  ghost predicate TakenAtSomePoint(r: Run, events: seq<Event>, name: string) {
    events != []
    && (TakesOwnership(After(r, events[..|events| - 1]), events[|events| - 1], name)
        || TakenAtSomePoint(r, events[..|events| - 1], name))
  }

  /** Over any run, with foreign changes, a name outside the ledger gets into it exactly when some successful, persisted
      pass declares it at a time when no addon has it: somebody else has to remove the one there is. */
  lemma {:induction false} UnownedUntilMadeAnewIff(r: Run, events: seq<Event>, name: string)
    requires PossibleRun(r, events) && name !in r.s.ledger
    ensures OwnedAtSomePoint(r, events, name) <==> TakenAtSomePoint(r, events, name)
    ensures !OwnedAtSomePoint(r, events, name) ==> name !in After(r, events).s.ledger
  {
    hide Step, Possible, TakesOwnership;
    if events != [] {
      var n := |events| - 1;
      UnownedUntilMadeAnewIff(r, events[..n], name);
      if !OwnedAtSomePoint(r, events[..n], name) {
        StepOwnsIff(After(r, events[..n]), events[n], name);
      }
    }
  }

  /** Nobody else removes or renames the addon. */
  ghost predicate OthersKeep(events: seq<Event>, id: Id, name: string) {
    forall e :: e in events && e.Foreign? ==> id in e.cloud.items && e.cloud.items[id].name == name
  }

  /**
   An addon outside the ledger, as a pass leaves it that is cut after the creation or loses its patch, stays
   unowned and undeleted for as long as the others leave it: through any passes, with any specs, including
   ones that no longer declare it.
   */
  lemma {:induction false} CutCreateIsNeverRemoved(r: Run, events: seq<Event>, id: Id)
    requires Inv(r) && PossibleRun(r, events)
    requires id in r.s.cloud.items && r.s.cloud.items[id].name !in r.s.ledger
    requires OthersKeep(events, id, r.s.cloud.items[id].name)
    ensures var s := After(r, events).s;
            id in s.cloud.items && s.cloud.items[id].name == r.s.cloud.items[id].name
            && r.s.cloud.items[id].name !in s.ledger
  {
    if events != [] {
      var n := |events| - 1;
      assert forall e :: e in events[..n] ==> e in events;
      CutCreateIsNeverRemoved(r, events[..n], id);
      RunKeepsInv(r, events[..n]);
      var mid := After(r, events[..n]);
      assert events[n] in events;
      if events[n].PassEvent? {
        NotLedgeredIsNeverOwned(mid.s, events[n].listing, events[n].spec, events[n].calls, id);
      }
    }
  }

  /**
   Such a cut pass exists: two calls, the listing and the creation of the first of two declared addons, whether or not
   the object patch goes through. The addon it leaves behind stays as long as the others leave it.
   */
  lemma ACutPassLeavesAnUnownedAddon(
    r: Run, listing: seq<Id>, spec: seq<Addon>, persisted: bool, events: seq<Event>)
    requires Inv(r) && Lists(listing, r.s.cloud) && |spec| == 2 && spec[0].name != spec[1].name
    requires forall i :: 0 <= i < 2 ==> LastNamed(listing, Names(r.s.cloud), spec[i].name).None? && spec[i].name !in r.s.ledger
    requires OthersKeep(events, r.s.cloud.next, spec[0].name)
    requires PossibleRun(Step(r, PassEvent(spec, listing, 2, persisted)), events)
    ensures !Succeeds(r.s, listing, spec, 2)
    ensures var s := After(Step(r, PassEvent(spec, listing, 2, persisted)), events).s;
            r.s.cloud.next in s.cloud.items && s.cloud.items[r.s.cloud.next].name == spec[0].name
            && spec[0].name !in s.ledger
  {
    hide PossibleRun, After;
    var c := r.s.cloud;
    var cut := PassEvent(spec, listing, 2, persisted);
    CutPlan(c, listing, spec, r.s.ledger);
    var plan := Plan(c, listing, spec, r.s.ledger);
    var first: Write<Addon> := Create(spec[0]);
    assert plan[..1] == [] + [first];
    ApplyOneMore(c, [], first);
    EmptyRun(c);
    StepKeepsInv(r, cut);
    CutCreateIsNeverRemoved(Step(r, cut), events, c.next);
  }

  lemma CutPlan(c: Cloud<Addon>, listing: seq<Id>, spec: seq<Addon>, ledger: seq<string>)
    requires |spec| == 2
    requires forall i :: 0 <= i < 2 ==> LastNamed(listing, Names(c), spec[i].name).None?
    ensures |Plan(c, listing, spec, ledger)| >= 2 && Plan(c, listing, spec, ledger)[0] == Create(spec[0])
  {
    assert spec[..1][..0] == [] && spec[..1][0] == spec[0];
    assert Upserts(c, listing, []) == [];
    assert Upserts(c, listing, spec[..1]) == [Create(spec[0])];
    assert Upserts(c, listing, spec) == [Create(spec[0])] + [Create(spec[1])];
  }
}
