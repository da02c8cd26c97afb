/** Access-policy reconciliation over whole runs: ledger safety, the wedge after a cut pass, convergence. */
module AccessPolicyRuns {
  import opened Options
  import opened CloudWrites
  import opened AccessPolicies

  // ---------------------------------------------------------------- what is in a plan

  ghost predicate Upserted(c: Cloud<Policy>, listing: seq<Id>, cluster: string, spec: seq<Want>, w: Write<Policy>) {
    exists i :: 0 <= i < |spec| && w in UpsertOf(c, listing, cluster, spec[i])
  }

  lemma {:induction false} UpsertsHold(c: Cloud<Policy>, listing: seq<Id>, cluster: string, spec: seq<Want>)
    ensures forall w :: w in Upserts(c, listing, cluster, spec) <==> Upserted(c, listing, cluster, spec, w)
  {
    if spec != [] {
      var n := |spec| - 1;
      UpsertsHold(c, listing, cluster, spec[..n]);
      forall w ensures w in Upserts(c, listing, cluster, spec) <==> Upserted(c, listing, cluster, spec, w) {
        if Upserted(c, listing, cluster, spec[..n], w) {
          var i :| 0 <= i < n && w in UpsertOf(c, listing, cluster, spec[..n][i]);
          assert w in UpsertOf(c, listing, cluster, spec[i]);
        }
        if Upserted(c, listing, cluster, spec, w) {
          var i :| 0 <= i < |spec| && w in UpsertOf(c, listing, cluster, spec[i]);
          if i < n { assert w in UpsertOf(c, listing, cluster, spec[..n][i]); }
        }
      }
    }
  }

  lemma {:induction false} RemovalsHold(c: Cloud<Policy>, listing: seq<Id>, cluster: string, spec: seq<Want>,
      ledger: seq<string>)
    ensures forall w :: w in Removals(c, listing, cluster, spec, ledger) <==>
                        w.Delete? && w.id in listing && Removable(c, cluster, spec, ledger, w.id)
  {
    if listing != [] {
      var n := |listing| - 1;
      RemovalsHold(c, listing[..n], cluster, spec, ledger);
      assert forall id :: id in listing <==> id in listing[..n] || id == listing[n];
    }
  }

  /** Updates and deletes address in-scope policies with ledger names; creations, declared names not in scope. */
  lemma PlanHolds(c: Cloud<Policy>, listing: seq<Id>, cluster: string, spec: seq<Want>, ledger: seq<string>,
      w: Write<Policy>)
    requires Lists(listing, c) && w in Plan(c, listing, cluster, spec, ledger)
    ensures w.Create? ==> LastNamed(listing, Names(c, cluster), w.value.name).None?
                          && exists want :: want in spec && w.value == ModelOf(cluster, want)
    ensures w.Update? ==>
              && w.id in c.items && InScope(c.items[w.id], cluster) && c.items[w.id].name in ledger
              && w.value.name == c.items[w.id].name
              && exists want :: want in spec && w.value == ModelOf(cluster, want) && Drifted(c.items[w.id], want)
    ensures w.Delete? ==> Removable(c, cluster, spec, ledger, w.id)
  {
    hide ModelOf, Drifted, FirstCollision;
    var k := FirstCollision(c, listing, cluster, spec, ledger);
    UpsertsHold(c, listing, cluster, spec[..k]);
    RemovalsHold(c, listing, cluster, spec, ledger);
    if w in Upserts(c, listing, cluster, spec[..k]) {
      var i :| 0 <= i < k && w in UpsertOf(c, listing, cluster, spec[..k][i]);
      assert spec[..k][i] == spec[i] && spec[i] in spec;
      assert !Collides(c, listing, cluster, ledger, spec[i]);
      WriteReadsBackIff(cluster, spec[i]);
    }
  }

  // ---------------------------------------------------------------- safety over whole runs

  datatype Run = Run(s: State, created: set<string>)

  datatype Event =
    | PassEvent(spec: seq<Want>, listing: seq<Id>, calls: nat, persisted: bool)
    | Foreign(cloud: Cloud<Policy>)

  ghost predicate Possible(r: Run, e: Event) {
    match e
    case PassEvent(_, listing, _, _) => Lists(listing, r.s.cloud)
    case Foreign(c) => Fresh(c) && r.s.cloud.next <= c.next
  }

  ghost function CreatedBy(writes: seq<Write<Policy>>): set<string> {
    set w | w in writes && w.Create? :: w.value.name
  }

  ghost function SentBy(s: State, cluster: string, spec: seq<Want>, listing: seq<Id>, calls: nat): seq<Write<Policy>> {
    Plan(s.cloud, listing, cluster, spec, s.ledger)[..Sent(s, listing, cluster, spec, calls)]
  }

  ghost function Step(r: Run, cluster: string, e: Event): Run {
    match e
    case Foreign(c) => r.(s := r.s.(cloud := c))
    case PassEvent(spec, listing, calls, persisted) =>
      var after := Pass(r.s, listing, cluster, spec, calls);
      Run(if persisted then after else r.s.(cloud := after.cloud),
          r.created + CreatedBy(SentBy(r.s, cluster, spec, listing, calls)))
  }

  ghost predicate PossibleRun(r: Run, cluster: string, events: seq<Event>) {
    events == []
    || (PossibleRun(r, cluster, events[..|events| - 1])
        && Possible(After(r, cluster, events[..|events| - 1]), events[|events| - 1]))
  }

  ghost function After(r: Run, cluster: string, events: seq<Event>): Run {
    if events == [] then r else Step(After(r, cluster, events[..|events| - 1]), cluster, events[|events| - 1])
  }

  ghost predicate Inv(r: Run) {
    && Fresh(r.s.cloud)
    && (forall n :: n in r.s.ledger ==> n in r.created)
    && (r.s.ledger != [] ==> r.s.condition)
  }

  lemma SentTouchesOnly(s: State, cluster: string, spec: seq<Want>, listing: seq<Id>, calls: nat)
    requires Lists(listing, s.cloud) && Fresh(s.cloud)
    ensures TouchesOnly(s.cloud, SentBy(s, cluster, spec, listing, calls), Pass(s, listing, cluster, spec, calls).cloud)
    ensures forall w :: w in SentBy(s, cluster, spec, listing, calls) ==> w in Plan(s.cloud, listing, cluster, spec, s.ledger)
  {
    hide Plan;
    var plan := Plan(s.cloud, listing, cluster, spec, s.ledger);
    var sent := SentBy(s, cluster, spec, listing, calls);
    forall w | w in sent ensures w in plan && (!w.Create? ==> w.id in s.cloud.items) {
      PlanHolds(s.cloud, listing, cluster, spec, s.ledger, w);
    }
    ApplyTouchesOnly(s.cloud, sent);
  }

  /** A successful pass latches the declared names, each of which it created or owned before. */
  lemma LatchedNamesAreOurs(s: State, cluster: string, spec: seq<Want>, listing: seq<Id>, calls: nat, name: string)
    requires !Skipped(s, spec) && Succeeds(s, listing, cluster, spec, calls) && name in NamesOf(spec)
    ensures name in s.ledger || name in CreatedBy(SentBy(s, cluster, spec, listing, calls))
  {
    hide FirstCollision;
    var i :| 0 <= i < |spec| && NamesOf(spec)[i] == name;
    assert !Collides(s.cloud, listing, cluster, s.ledger, spec[i]);
    var plan := Plan(s.cloud, listing, cluster, spec, s.ledger);
    assert spec[..|spec|] == spec && plan[..|plan|] == plan;
    if name !in s.ledger {
      UpsertsHold(s.cloud, listing, cluster, spec);
      WriteReadsBackIff(cluster, spec[i]);
      var w: Write<Policy> := Create(ModelOf(cluster, spec[i]));
      assert w in UpsertOf(s.cloud, listing, cluster, spec[i]);
      assert w in plan;
    }
  }

  lemma StepKeepsInv(r: Run, cluster: string, e: Event)
    requires Inv(r) && Possible(r, e)
    ensures Inv(Step(r, cluster, e))
  {
    match e {
      case Foreign(_) =>
      case PassEvent(spec, listing, calls, persisted) =>
        hide Plan, Sent, Succeeds, SentBy, CreatedBy;
        SentTouchesOnly(r.s, cluster, spec, listing, calls);
        if !Skipped(r.s, spec) && Succeeds(r.s, listing, cluster, spec, calls) {
          forall n | n in NamesOf(spec) ensures n in Step(r, cluster, e).created {
            LatchedNamesAreOurs(r.s, cluster, spec, listing, calls, n);
          }
        }
    }
  }

  lemma {:induction false} RunKeepsInv(r: Run, cluster: string, events: seq<Event>)
    requires Inv(r) && PossibleRun(r, cluster, events)
    ensures Inv(After(r, cluster, events))
  {
    if events != [] {
      RunKeepsInv(r, cluster, events[..|events| - 1]);
      StepKeepsInv(After(r, cluster, events[..|events| - 1]), cluster, events[|events| - 1]);
    }
  }

  /**
   Ledger safety: after any run, with foreign changes, calls failing anywhere and lost object patches,
   every ledger name is one this provider created; a pass updates and deletes only policies in this
   cluster's scope under ledger names; and when the gate skips the pass the ledger is empty.
   */
  lemma LedgerSafety(r0: Run, cluster: string, events: seq<Event>, spec: seq<Want>, listing: seq<Id>, calls: nat)
    requires Inv(r0) && PossibleRun(r0, cluster, events)
    requires Lists(listing, After(r0, cluster, events).s.cloud)
    ensures var r := After(r0, cluster, events);
            var before, after := r.s.cloud, Pass(r.s, listing, cluster, spec, calls).cloud;
            && (forall n :: n in r.s.ledger ==> n in r.created)
            && (Skipped(r.s, spec) ==> r.s.ledger == [])
            && (forall id :: id in before.items && (id !in after.items || after.items[id] != before.items[id]) ==>
                  InScope(before.items[id], cluster) && before.items[id].name in r.s.ledger)
            && (forall id :: id in before.items && id !in after.items ==> !Declares(spec, before.items[id].name))
            && (forall id :: id in after.items && id !in before.items ==>
                  exists want :: want in spec && after.items[id] == ModelOf(cluster, want))
  {
    RunKeepsInv(r0, cluster, events);
    var s := After(r0, cluster, events).s;
    SentTouchesOnly(s, cluster, spec, listing, calls);
    hide Plan, ModelOf, SentBy, Pass, After, Inv, InScope;
    var before, after := s.cloud, Pass(s, listing, cluster, spec, calls).cloud;
    forall id | id in before.items && id !in after.items
      ensures Removable(before, cluster, spec, s.ledger, id)
    {
      PlanHolds(before, listing, cluster, spec, s.ledger, Delete(id));
    }
    forall id | id in before.items && id in after.items && after.items[id] != before.items[id]
      ensures InScope(before.items[id], cluster) && before.items[id].name in s.ledger
    {
      PlanHolds(before, listing, cluster, spec, s.ledger, Update(id, after.items[id]));
    }
    forall id | id in after.items && id !in before.items
      ensures exists want :: want in spec && after.items[id] == ModelOf(cluster, want)
    {
      PlanHolds(before, listing, cluster, spec, s.ledger, Create(after.items[id]));
    }
  }

  // ---------------------------------------------------------------- the wedge

  /** An in-scope policy outside the ledger makes every pass that declares its name fail, whatever the calls do. */
  lemma UnledgeredPolicyFailsThePass(s: State, cluster: string, spec: seq<Want>, listing: seq<Id>, calls: nat, id: Id)
    requires Lists(listing, s.cloud) && Fresh(s.cloud)
    requires id in s.cloud.items && InScope(s.cloud.items[id], cluster) && s.cloud.items[id].name !in s.ledger
    ensures Declares(spec, s.cloud.items[id].name) ==> !Succeeds(s, listing, cluster, spec, calls)
    ensures var after := Pass(s, listing, cluster, spec, calls);
            id in after.cloud.items && after.cloud.items[id] == s.cloud.items[id] && s.cloud.items[id].name !in after.ledger
  {
    var name := s.cloud.items[id].name;
    if i :| 0 <= i < |spec| && spec[i].name == name {
      assert Names(s.cloud, cluster)[id] == name;
      assert Collides(s.cloud, listing, cluster, s.ledger, spec[i]);
    } else {
      assert name !in NamesOf(spec);
    }
    hide Plan, FirstCollision;
    SentTouchesOnly(s, cluster, spec, listing, calls);
    var after := Pass(s, listing, cluster, spec, calls).cloud;
    if id !in after.items {
      PlanHolds(s.cloud, listing, cluster, spec, s.ledger, Delete(id));
    } else if after.items[id] != s.cloud.items[id] {
      PlanHolds(s.cloud, listing, cluster, spec, s.ledger, Update(id, after.items[id]));
    }
  }

  /** Nobody else removes or changes the policy. */
  ghost predicate OthersKeep(events: seq<Event>, id: Id, policy: Policy) {
    forall e :: e in events && e.Foreign? ==> id in e.cloud.items && e.cloud.items[id] == policy
  }

  /**
   A policy of the provider's own outside the ledger, as a pass leaves it that is cut after the creation or
   loses its patch, looks foreign: as long as the others leave it, through any passes with any specs and any
   number of successful calls, it stays, stays outside the ledger, and no pass that declares it succeeds.
   */
  lemma {:induction false} CutCreateWedges(r: Run, cluster: string, events: seq<Event>, id: Id)
    requires Inv(r) && PossibleRun(r, cluster, events)
    requires id in r.s.cloud.items && InScope(r.s.cloud.items[id], cluster) && r.s.cloud.items[id].name !in r.s.ledger
    requires OthersKeep(events, id, r.s.cloud.items[id])
    ensures var s := After(r, cluster, events).s;
            && id in s.cloud.items && s.cloud.items[id] == r.s.cloud.items[id]
            && r.s.cloud.items[id].name !in s.ledger
            && (forall spec, listing, calls: nat :: Lists(listing, s.cloud) && Declares(spec, r.s.cloud.items[id].name) ==>
                  !Succeeds(s, listing, cluster, spec, calls))
  {
    if events != [] {
      var n := |events| - 1;
      assert forall e :: e in events[..n] ==> e in events;
      CutCreateWedges(r, cluster, events[..n], id);
      RunKeepsInv(r, cluster, events[..n]);
      assert events[n] in events;
      hide Succeeds, Pass;
      if events[n].PassEvent? {
        UnledgeredPolicyFailsThePass(After(r, cluster, events[..n]).s, cluster, events[n].spec, events[n].listing, events[n].calls, id);
      }
    }
    RunKeepsInv(r, cluster, events);
    var s := After(r, cluster, events).s;
    forall spec, listing, calls: nat | Lists(listing, s.cloud) && Declares(spec, r.s.cloud.items[id].name)
      ensures !Succeeds(s, listing, cluster, spec, calls)
    {
      UnledgeredPolicyFailsThePass(s, cluster, spec, listing, calls, id);
    }
  }

  ghost predicate InScopeNamed(c: Cloud<Policy>, cluster: string, name: string) {
    exists id :: id in c.items && InScope(c.items[id], cluster) && c.items[id].name == name
  }

  /** The name is taken in this cluster's scope, by a policy this provider does not own. */
  ghost predicate Wedged(s: State, cluster: string, name: string) {
    name !in s.ledger && InScopeNamed(s.cloud, cluster, name)
  }

  /** A pass wedges a name it creates exactly when the name was not owned before, and the pass fails or its object patch
      is lost. */
  lemma CutCreateWedgesIff(
    r: Run, cluster: string, spec: seq<Want>, listing: seq<Id>, calls: nat, persisted: bool, name: string)
    requires Lists(listing, r.s.cloud) && Fresh(r.s.cloud)
    requires name in CreatedBy(SentBy(r.s, cluster, spec, listing, calls))
    ensures Wedged(Step(r, cluster, PassEvent(spec, listing, calls, persisted)).s, cluster, name)
            <==> name !in r.s.ledger && !(persisted && Succeeds(r.s, listing, cluster, spec, calls))
  {
    hide Plan, ModelOf, InScope, FirstCollision;
    var sent := SentBy(r.s, cluster, spec, listing, calls);
    SentTouchesOnly(r.s, cluster, spec, listing, calls);
    var w :| w in sent && w.Create? && w.value.name == name;
    forall v | v in sent ensures !v.Create? ==> v.id in r.s.cloud.items {
      PlanHolds(r.s.cloud, listing, cluster, spec, r.s.ledger, v);
    }
    PlanHolds(r.s.cloud, listing, cluster, spec, r.s.ledger, w);
    var want :| want in spec && w.value == ModelOf(cluster, want);
    WriteReadsBackIff(cluster, want);
    var id := CreatedIsThere(r.s.cloud, sent, w.value);
    var i :| 0 <= i < |spec| && spec[i] == want;
    assert NamesOf(spec)[i] == name;
  }

  /** A pass given enough calls succeeds exactly when none of its declared names is wedged. */
  lemma PassSucceedsIff(s: State, cluster: string, spec: seq<Want>, listing: seq<Id>, calls: nat)
    requires Lists(listing, s.cloud) && !Skipped(s, spec)
    requires calls > |Plan(s.cloud, listing, cluster, spec, s.ledger)|
    ensures Succeeds(s, listing, cluster, spec, calls)
            <==> forall i :: 0 <= i < |spec| ==> !Wedged(s, cluster, spec[i].name)
  {
    hide Plan;
    forall i | 0 <= i < |spec|
      ensures Collides(s.cloud, listing, cluster, s.ledger, spec[i]) <==> Wedged(s, cluster, spec[i].name)
    {
      NamedIffListed(s.cloud, cluster, listing, spec[i].name);
    }
  }

  lemma NamedIffListed(c: Cloud<Policy>, cluster: string, listing: seq<Id>, name: string)
    requires Lists(listing, c)
    ensures LastNamed(listing, Names(c, cluster), name).Some? <==> InScopeNamed(c, cluster, name)
  {
    hide InScope;
    if id :| id in c.items && InScope(c.items[id], cluster) && c.items[id].name == name {
      assert id in listing && Names(c, cluster)[id] == name;
    }
  }

  ghost predicate WedgedThroughout(r: Run, cluster: string, events: seq<Event>, name: string) {
    Wedged(After(r, cluster, events).s, cluster, name)
    && (events != [] ==> WedgedThroughout(r, cluster, events[..|events| - 1], name))
  }

  /** No pass of the run that declares the name succeeds. */
  ghost predicate NeverConfigured(r: Run, cluster: string, events: seq<Event>, name: string) {
    events != [] ==>
      && NeverConfigured(r, cluster, events[..|events| - 1], name)
      && var (s, e) := (After(r, cluster, events[..|events| - 1]).s, events[|events| - 1]);
         e.PassEvent? && Declares(e.spec, name) ==> !Succeeds(s, e.listing, cluster, e.spec, e.calls)
  }

  /** Each time somebody else acts, an in-scope policy of the name is still there. */
  ghost predicate NobodyFrees(events: seq<Event>, cluster: string, name: string) {
    forall e :: e in events && e.Foreign? ==> InScopeNamed(e.cloud, cluster, name)
  }

  /** Over any run a name stays wedged, and no pass that declares it succeeds, exactly until somebody else frees it. */
  lemma {:induction false} WedgedUntilFreedIff(r: Run, cluster: string, events: seq<Event>, name: string)
    requires Inv(r) && PossibleRun(r, cluster, events) && Wedged(r.s, cluster, name)
    ensures WedgedThroughout(r, cluster, events, name) <==> NobodyFrees(events, cluster, name)
    ensures WedgedThroughout(r, cluster, events, name) ==> NeverConfigured(r, cluster, events, name)
  {
    hide Wedged, InScopeNamed, Succeeds, Possible;
    if events != [] {
      var n := |events| - 1;
      WedgedUntilFreedIff(r, cluster, events[..n], name);
      assert forall e :: e in events <==> e in events[..n] || e == events[n];
      if WedgedThroughout(r, cluster, events[..n], name) {
        RunKeepsInv(r, cluster, events[..n]);
        WedgedStep(After(r, cluster, events[..n]), cluster, events[n], name);
      }
    }
  }

  lemma WedgedStep(r: Run, cluster: string, e: Event, name: string)
    requires Inv(r) && Possible(r, e) && Wedged(r.s, cluster, name)
    ensures Wedged(Step(r, cluster, e).s, cluster, name) <==> (e.Foreign? ==> InScopeNamed(e.cloud, cluster, name))
    ensures e.PassEvent? && Declares(e.spec, name) ==> !Succeeds(r.s, e.listing, cluster, e.spec, e.calls)
  {
    hide Pass, Succeeds, InScope;
    if e.PassEvent? {
      var id :| id in r.s.cloud.items && InScope(r.s.cloud.items[id], cluster) && r.s.cloud.items[id].name == name;
      UnledgeredPolicyFailsThePass(r.s, cluster, e.spec, e.listing, e.calls, id);
      assert id in Step(r, cluster, e).s.cloud.items;
    }
  }

  function Without(c: Cloud<Policy>, cluster: string, name: string): Cloud<Policy> {
    c.(items := map id | id in c.items && !(InScope(c.items[id], cluster) && c.items[id].name == name) :: c.items[id])
  }

  /** Freeing the name ends it, provided no other declared name is wedged: the next pass that is given its calls and whose
      patch goes through succeeds and owns the name. */
  lemma FreeingEndsTheWedge(r: Run, cluster: string, spec: seq<Want>, listing: seq<Id>, calls: nat, name: string)
    requires Inv(r) && Wedged(r.s, cluster, name) && Declares(spec, name)
    requires forall i :: 0 <= i < |spec| && spec[i].name != name ==> !Wedged(r.s, cluster, spec[i].name)
    requires Lists(listing, Without(r.s.cloud, cluster, name))
    requires calls > |Plan(Without(r.s.cloud, cluster, name), listing, cluster, spec, r.s.ledger)|
    ensures var freed := Foreign(Without(r.s.cloud, cluster, name));
            var mid := Step(r, cluster, freed);
            var pass := PassEvent(spec, listing, calls, true);
            && Possible(r, freed) && Possible(mid, pass) && Succeeds(mid.s, listing, cluster, spec, calls)
            && name in Step(mid, cluster, pass).s.ledger && !Wedged(Step(mid, cluster, pass).s, cluster, name)
  {
    hide Plan, InScope;
    var mid := Step(r, cluster, Foreign(Without(r.s.cloud, cluster, name)));
    PassSucceedsIff(mid.s, cluster, spec, listing, calls);
    forall i | 0 <= i < |spec| ensures !Wedged(mid.s, cluster, spec[i].name) {
      if id :| id in mid.s.cloud.items && InScope(mid.s.cloud.items[id], cluster) && mid.s.cloud.items[id].name == spec[i].name {
        assert id in r.s.cloud.items && InScope(r.s.cloud.items[id], cluster) && r.s.cloud.items[id].name == spec[i].name;
      }
    }
    var i :| 0 <= i < |spec| && spec[i].name == name;
    assert NamesOf(spec)[i] == name;
  }

  /** Such a cut pass exists: two calls, the listing and the creation of the first of two declared policies. */
  lemma ACutPassLeavesAnUnledgeredPolicy(s: State, cluster: string, listing: seq<Id>, spec: seq<Want>)
    requires Lists(listing, s.cloud) && Fresh(s.cloud) && |spec| == 2 && spec[0].name != spec[1].name
    requires forall i :: 0 <= i < 2 ==> LastNamed(listing, Names(s.cloud, cluster), spec[i].name).None? && spec[i].name !in s.ledger
    ensures !Succeeds(s, listing, cluster, spec, 2)
    ensures var after := Pass(s, listing, cluster, spec, 2);
            && s.cloud.next in after.cloud.items && after.cloud.items[s.cloud.next] == ModelOf(cluster, spec[0])
            && InScope(after.cloud.items[s.cloud.next], cluster) && after.ledger == s.ledger
  {
    var c := s.cloud;
    assert FirstCollision(c, listing, cluster, spec, s.ledger) == 2;
    assert spec[..2] == spec && spec[..1][..0] == [] && spec[..1][0] == spec[0];
    var first: Write<Policy> := Create(ModelOf(cluster, spec[0]));
    var second: Write<Policy> := Create(ModelOf(cluster, spec[1]));
    assert Upserts(c, listing, cluster, []) == [];
    assert Upserts(c, listing, cluster, spec[..1]) == [first];
    assert Upserts(c, listing, cluster, spec) == [first] + [second];
    var plan := Plan(c, listing, cluster, spec, s.ledger);
    assert plan[..1] == [] + [first];
    ApplyOneMore(c, [], first);
    WriteReadsBackIff(cluster, spec[0]);
  }
}
