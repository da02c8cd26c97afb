/**
 The public IP of the API server: created, tagged and bound in one attempt per pass until one succeeds,
 with a best-effort release when an attempt fails half way, and unbound and released at teardown.
 */
module ApiServerEip {
  import opened Options

  type Id = nat

  datatype Eip = Eip(tagged: bool, boundTo: Option<Id>)

  datatype Platform = Platform(eips: map<Id, Eip>, next: Id)

  /** Which calls of one attempt succeed. */
  datatype Replies = Replies(create: bool, tag: bool, bind: bool, release: bool)

  predicate Fresh(p: Platform) {
    forall id :: id in p.eips ==> id < p.next
  }

  predicate Succeeds(r: Replies) { r.create && r.tag && r.bind }

  /** The attempt created an address, failed, and could not take it back; its ID is not returned. */
  predicate Leaks(r: Replies) { r.create && !(r.tag && r.bind) && !r.release }

  /** What an attempt leaves: a bound address, a leaked one (tagged if the tagging went through), or nothing. */
  function AfterBind(p: Platform, cluster: Id, r: Replies): Platform {
    if !r.create then p
    else
      Platform(if Succeeds(r) then p.eips[p.next := Eip(true, Some(cluster))]
               else if Leaks(r) then p.eips[p.next := Eip(r.tag, None)]
               else p.eips,
               p.next + 1)
  }

  class Client {
    var eips: map<Id, Eip>
    var next: Id

    function View(): Platform
      reads this
    {
      Platform(eips, next)
    }

    constructor (p: Platform)
      ensures View() == p
    {
      eips, next := p.eips, p.next;
    }

    method DeletePublicip(id: Id, works: bool)
      modifies this`eips
      ensures eips == if works then old(eips) - {id} else old(eips)
    {
      if works { eips := eips - {id}; }
    }

    /** An ID comes back exactly when all three calls succeed, of a new address that is tagged and bound to the cluster;
        otherwise nothing is left, unless the release fails too. */
    method BindClusterEip(cluster: Id, r: Replies) returns (id: Option<Id>)
      requires Fresh(View())
      modifies this
      ensures Fresh(View()) && View() == AfterBind(old(View()), cluster, r)
      ensures id.Some? <==> r.create && r.tag && r.bind
      ensures id.Some? ==> id.value !in old(eips) && eips == old(eips)[id.value := Eip(true, Some(cluster))]
      ensures id.None? && (!r.create || r.release) ==> eips == old(eips)
      ensures id.None? && r.create && !r.release ==>
                old(next) !in old(eips) && eips == old(eips)[old(next) := Eip(r.tag, None)]
    {
      if !r.create { return None; }
      var eip := next;
      next := next + 1;
      eips := eips[eip := Eip(false, None)];
      if !r.tag {
        DeletePublicip(eip, r.release);
        return None;
      }
      eips := eips[eip := Eip(true, None)];
      if !r.bind {
        DeletePublicip(eip, r.release);
        return None;
      }
      eips := eips[eip := Eip(true, Some(cluster))];
      return Some(eip);
    }

    /**
     Unbind, then release; each call works when it succeeds or finds nothing. The unbind request names the cluster
     only, so it takes off whatever address is bound to it. Success means the address is gone; an address is removed or
     unbound only if it is that one or was bound to the cluster; and repeating the call continues where it failed.
     */
    method UnbindClusterEip(cluster: Id, eip: Option<Id>, unbindWorks: bool, releaseWorks: bool) returns (ok: bool)
      modifies this`eips
      ensures ok <==> eip == None || (unbindWorks && releaseWorks)
      ensures eip == None ==> eips == old(eips)
      ensures eip.Some? && !unbindWorks ==> eips == old(eips)
      ensures eip.Some? && unbindWorks ==>
                forall id :: id in eips ==>
                  && id in old(eips) && eips[id].tagged == old(eips)[id].tagged
                  && eips[id].boundTo == if old(eips)[id].boundTo == Some(cluster) then None else old(eips)[id].boundTo
      ensures forall id :: id in old(eips) && Some(id) != eip ==> id in eips
      ensures eip.Some? ==> (eip.value in eips <==> eip.value in old(eips) && !ok)
    {
      if eip == None { return true; }
      if !unbindWorks { return false; }
      eips := map id | id in eips :: if eips[id].boundTo == Some(cluster) then eips[id].(boundTo := None) else eips[id];
      if !releaseWorks { return false; }
      eips := eips - {eip.value};
      return true;
    }
  }

  // ---------------------------------------------------------------- attempts over passes

  /** Passes try again until an attempt succeeds and its ID is recorded. */
  function AfterAttempts(p: Platform, cluster: Id, attempts: seq<Replies>): Platform
    decreases |attempts|
  {
    if attempts == [] then p
    else if Succeeds(attempts[0]) then AfterBind(p, cluster, attempts[0])
    else AfterAttempts(AfterBind(p, cluster, attempts[0]), cluster, attempts[1..])
  }

  function Made(attempts: seq<Replies>): nat {
    if attempts == [] then 0
    else if Succeeds(attempts[0]) then 1
    else (if Leaks(attempts[0]) then 1 else 0) + Made(attempts[1..])
  }

  predicate Bound(attempts: seq<Replies>) {
    exists i :: 0 <= i < |attempts| && Succeeds(attempts[i])
  }

  /**
   Conservation: the addresses a run of attempts adds are the one bound, if any, and one for each attempt
   that leaked before it; addresses that were there stay as they were.
   */
  lemma {:induction false} AttemptsAddExactly(p: Platform, cluster: Id, attempts: seq<Replies>)
    requires Fresh(p)
    ensures var after := AfterAttempts(p, cluster, attempts);
            && Fresh(after) && |after.eips| == |p.eips| + Made(attempts)
            && (forall id :: id in p.eips ==> id in after.eips && after.eips[id] == p.eips[id])
    decreases |attempts|
  {
    if attempts != [] {
      OneAttemptAdds(p, cluster, attempts[0]);
      if !Succeeds(attempts[0]) {
        AttemptsAddExactly(AfterBind(p, cluster, attempts[0]), cluster, attempts[1..]);
      }
    }
  }

  lemma OneAttemptAdds(p: Platform, cluster: Id, r: Replies)
    requires Fresh(p)
    ensures var after := AfterBind(p, cluster, r);
            && Fresh(after) && |after.eips| == |p.eips| + (if Succeeds(r) || Leaks(r) then 1 else 0)
            && (forall id :: id in p.eips ==> id in after.eips && after.eips[id] == p.eips[id])
  {
    var after := AfterBind(p, cluster, r);
    if Succeeds(r) || Leaks(r) { assert after.eips.Keys == p.eips.Keys + {p.next}; }
  }

  /** A run of attempts leaks nothing exactly when no attempt before the first success fails to release. */
  lemma {:induction false} NothingLeaksIff(p: Platform, cluster: Id, attempts: seq<Replies>)
    requires Fresh(p)
    ensures |AfterAttempts(p, cluster, attempts).eips| == |p.eips| + (if Bound(attempts) then 1 else 0)
       <==> forall i :: 0 <= i < |attempts| && !Bound(attempts[..i]) && attempts[i].create && !attempts[i].release ==>
              attempts[i].tag && attempts[i].bind
  {
    AttemptsAddExactly(p, cluster, attempts);
    MadeCounts(attempts);
  }

  lemma {:induction false} MadeCounts(attempts: seq<Replies>)
    ensures Made(attempts) >= if Bound(attempts) then 1 else 0
    ensures Made(attempts) == (if Bound(attempts) then 1 else 0)
       <==> forall i :: 0 <= i < |attempts| && !Bound(attempts[..i]) ==> !Leaks(attempts[i])
  {
    if attempts != [] {
      var first, rest := attempts[0], attempts[1..];
      MadeCounts(rest);
      BoundFrom(attempts, |attempts|);
      forall i | 0 <= i < |rest|
        ensures Bound(attempts[..i + 1]) <==> Succeeds(first) || Bound(rest[..i])
      {
        BoundFrom(attempts[..i + 1], i + 1);
        assert attempts[..i + 1][1..] == rest[..i];
      }
      assert !Bound(attempts[..0]);
      if Succeeds(first) {
        forall i | 0 < i < |attempts| ensures Bound(attempts[..i]) { assert Bound(attempts[..(i - 1) + 1]); }
      } else {
        forall i | 0 < i < |attempts| ensures Bound(attempts[..i]) <==> Bound(rest[..i - 1]) {
          assert Bound(attempts[..(i - 1) + 1]) <==> Bound(rest[..i - 1]);
        }
        assert forall i :: 0 <= i < |rest| ==> rest[i] == attempts[i + 1];
      }
    }
  }

  lemma BoundFrom(attempts: seq<Replies>, n: nat)
    requires attempts != [] && n == |attempts|
    ensures Bound(attempts) <==> Succeeds(attempts[0]) || Bound(attempts[1..])
  {
    if i :| 0 <= i < n && Succeeds(attempts[i]) {
      if i > 0 { assert Succeeds(attempts[1..][i - 1]); }
    }
    if i :| 0 <= i < n - 1 && Succeeds(attempts[1..][i]) {
      assert Succeeds(attempts[i + 1]);
    }
  }
}
