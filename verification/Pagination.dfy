/**
 Following page markers to the end of a listing. The server pages through a fixed sequence of items; an
 item without an ID cannot serve as a marker, and the gateway listing drops such items from the page
 before the loop measures its length.
 */
module Pagination {
  import opened Options

  datatype Item = Item(id: Option<nat>, payload: int)

  /** Plain: the page as it came, marker from its last item. Skipping: items with IDs only (NAT gateways). Marked: the
      page as it came, marker from the server, which gives one while more items follow (nodes). */
  datatype Adapter = Plain | Skipping | Marked

  ghost predicate DistinctIds(items: seq<Item>) {
    forall i, j :: 0 <= i < j < |items| && items[i].id.Some? ==> items[i].id != items[j].id
  }

  predicate AllHaveIds(items: seq<Item>) {
    forall x :: x in items ==> x.id.Some?
  }

  function WithIds(items: seq<Item>): (r: seq<Item>)
    ensures |r| <= |items|
  {
    if items == [] then []
    else if items[0].id.Some? then [items[0]] + WithIds(items[1..])
    else WithIds(items[1..])
  }

  lemma {:induction false} FullIffAllHaveIds(items: seq<Item>)
    ensures |WithIds(items)| == |items| <==> AllHaveIds(items)
    ensures AllHaveIds(items) ==> WithIds(items) == items
  {
    if items != [] {
      assert items == [items[0]] + items[1..];
      FullIffAllHaveIds(items[1..]);
    }
  }

  lemma {:induction false} WithIdsAppend(a: seq<Item>, b: seq<Item>)
    ensures WithIds(a + b) == WithIds(a) + WithIds(b)
  {
    if a == [] {
      assert a + b == b;
    } else {
      hide WithIds;
      WithIdsOfFirst(a, b);
      WithIdsAppend(a[1..], b);
      Regroup(if a[0].id.Some? then [a[0]] else [], WithIds(a[1..]), WithIds(b));
    }
  }

  lemma Regroup(a: seq<Item>, b: seq<Item>, c: seq<Item>)
    ensures a + (b + c) == a + b + c
  {
  }

  lemma WithIdsOfFirst(a: seq<Item>, b: seq<Item>)
    requires a != []
    ensures WithIds(a) == (if a[0].id.Some? then [a[0]] else []) + WithIds(a[1..])
    ensures WithIds(a + b) == (if a[0].id.Some? then [a[0]] else []) + WithIds(a[1..] + b)
  {
    assert (a + b)[0] == a[0] && (a + b)[1..] == a[1..] + b;
  }

  function Refs(kind: Adapter, page: seq<Item>): (r: seq<Item>)
    ensures |r| <= |page|
  {
    if kind.Skipping? then WithIds(page) else page
  }

  function LastId(refs: seq<Item>): Option<nat> {
    if refs == [] then None else refs[|refs| - 1].id
  }

  function Page(items: seq<Item>, size: nat, start: nat): seq<Item>
    requires start <= |items|
  {
    if start + size <= |items| then items[start..start + size] else items[start..]
  }

  /** The marker a page comes with. */
  function Marker(kind: Adapter, items: seq<Item>, size: nat, start: nat): Option<nat>
    requires start <= |items|
  {
    if !kind.Marked? then LastId(Refs(kind, Page(items, size, start)))
    else if start + size < |items| then Some(start + size) else None
  }

  /** The marker a request carries stands for this position: a server's own, or the ID of the last item seen. */
  predicate StandsFor(kind: Adapter, items: seq<Item>, marker: Option<nat>, start: nat)
    requires start <= |items|
  {
    if marker == None then start == 0
    else if kind.Marked? then marker == Some(start)
    else start > 0 && items[start - 1].id == marker
  }

  /** The loop stops on an empty page, a page without a marker, or a page that looks short. */
  predicate Stops(kind: Adapter, items: seq<Item>, size: nat, start: nat)
    requires start <= |items|
  {
    var refs := Refs(kind, Page(items, size, start));
    refs == [] || Marker(kind, items, size, start) == None || |refs| < size
  }

  /** What following the markers from `start` returns when every request succeeds. */
  function Collected(kind: Adapter, items: seq<Item>, size: nat, start: nat): seq<Item>
    requires size > 0 && start <= |items|
    decreases |items| - start
  {
    var refs := Refs(kind, Page(items, size, start));
    if Stops(kind, items, size, start) then refs else refs + Collected(kind, items, size, start + size)
  }

  class Lister {
    const items: seq<Item>
    const size: nat
    const kind: Adapter
    var calls: nat        // requests that still succeed

    ghost predicate Valid() {
      size > 0 && DistinctIds(items)
    }

    constructor (items: seq<Item>, size: nat, kind: Adapter, calls: nat)
      requires size > 0 && DistinctIds(items)
      ensures Valid() && this.items == items && this.size == size && this.kind == kind && this.calls == calls
    {
      this.items, this.size, this.kind, this.calls := items, size, kind, calls;
    }

    /** The server's page after a marker. */
    method Fetch(marker: Option<nat>, ghost start: nat) returns (refs: seq<Item>, last: Option<nat>, ok: bool)
      requires Valid() && start <= |items|
      requires StandsFor(kind, items, marker, start)
      modifies this
      ensures ok ==> refs == Refs(kind, Page(items, size, start)) && last == Marker(kind, items, size, start)
      ensures ok == (old(calls) > 0)
      ensures calls == if ok then old(calls) - 1 else old(calls)
    {
      if calls == 0 { return [], None, false; }
      calls := calls - 1;
      var seen := 0;
      if marker.Some? && kind.Marked? {
        seen := marker.value;
      } else if marker.Some? {
        while seen < |items| && items[seen].id != marker
          invariant seen < start
        {
          seen := seen + 1;
        }
        seen := seen + 1;
      }
      refs := Refs(kind, Page(items, size, seen));
      last := Marker(kind, items, size, seen);
      ok := true;
    }

    /** Success returns what following the markers collects; a failed request, a prefix of it. */
    method PaginateAll() returns (all: seq<Item>, ok: bool)
      requires Valid()
      modifies this
      ensures all <= Collected(kind, items, size, 0)
      ensures ok ==> all == Collected(kind, items, size, 0)
      ensures old(calls) > |items| ==> ok
    {
      hide DistinctIds, Collected, Page, Refs, Marker;
      all := [];
      var marker: Option<nat> := None;
      ghost var start: nat := 0;
      while true
        invariant start <= |items|
        invariant all + Collected(kind, items, size, start) == Collected(kind, items, size, 0)
        invariant StandsFor(kind, items, marker, start)
        invariant old(calls) <= calls + start
        decreases |items| - start
      {
        var refs, last, fetched := Fetch(marker, start);
        if !fetched { return all, false; }
        CollectedStep(kind, items, size, start, all);
        all := all + refs;
        if |refs| == 0 || last == None || |refs| < size { return all, true; }
        marker := last;
        start := start + size;
      }
    }
  }

  /** One turn of the loop: the page joins what was collected, and the loop stops or goes on behind it. */
  lemma CollectedStep(kind: Adapter, items: seq<Item>, size: nat, start: nat, all: seq<Item>)
    requires size > 0 && start <= |items|
    ensures var refs := Refs(kind, Page(items, size, start));
            if Stops(kind, items, size, start) then Collected(kind, items, size, start) == refs
            else start + size <= |items| && StandsFor(kind, items, Marker(kind, items, size, start), start + size)
                 && all + Collected(kind, items, size, start) == all + refs + Collected(kind, items, size, start + size)
  {
    hide WithIds;
    var refs := Refs(kind, Page(items, size, start));
    if !Stops(kind, items, size, start) {
      FullPage(kind, items, size, start);
      hide Refs;
      assert all + (refs + Collected(kind, items, size, start + size))
          == all + refs + Collected(kind, items, size, start + size);
    }
  }

  /** A page the loop goes on from was full on the server too, and its marker is the server's last item. */
  lemma FullPage(kind: Adapter, items: seq<Item>, size: nat, start: nat)
    requires size > 0 && start <= |items|
    requires !Stops(kind, items, size, start)
    ensures start + size <= |items|
    ensures Refs(kind, Page(items, size, start)) == items[start..start + size]
    ensures StandsFor(kind, items, Marker(kind, items, size, start), start + size)
  {
    hide WithIds, AllHaveIds;
    FullIffAllHaveIds(Page(items, size, start));
  }

  /** With an ID on every item, or markers of the server's own, the whole listing comes back in order, whatever its length
      modulo the page size. */
  lemma {:induction false} EverythingIsListed(kind: Adapter, items: seq<Item>, size: nat, start: nat)
    requires size > 0 && start <= |items| && (kind.Marked? || AllHaveIds(items))
    ensures Collected(kind, items, size, start) == items[start..]
    decreases |items| - start
  {
    hide WithIds, AllHaveIds, Refs, Page, Marker, Stops;
    var page := Page(items, size, start);
    WholePage(kind, items, size, start);
    if !Stops(kind, items, size, start) {
      EverythingIsListed(kind, items, size, start + size);
      assert items[start..] == page + items[start + size..];
    }
  }

  /** A page whose items all have IDs is kept whole, and the loop stops after the last items only. */
  lemma WholePage(kind: Adapter, items: seq<Item>, size: nat, start: nat)
    requires size > 0 && start <= |items| && (kind.Marked? || AllHaveIds(items))
    ensures var page := Page(items, size, start);
            && Refs(kind, page) == page
            && (if Stops(kind, items, size, start) then page == items[start..]
                else start + size <= |items| && page == items[start..start + size])
  {
    hide WithIds;
    var page := Page(items, size, start);
    if !kind.Marked? {
      PartHasIds(items, page);
      FullIffAllHaveIds(page);
      if page != [] { LastHasId(page); }
    }
  }

  lemma PartHasIds(items: seq<Item>, part: seq<Item>)
    requires AllHaveIds(items) && forall x :: x in part ==> x in items
    ensures AllHaveIds(part)
  {
  }

  /** No full page that ends with an ID-less item is followed by more items. */
  ghost predicate MarkersReachTheEnd(items: seq<Item>, size: nat, start: nat)
    requires size > 0 && start <= |items|
    decreases |items| - start
  {
    start + size < |items| ==>
      items[start + size - 1].id.Some? && MarkersReachTheEnd(items, size, start + size)
  }

  /** A listing that keeps every item is complete if and only if every full page with items behind it ends with an item that
      has an ID; ID-less items elsewhere do no harm. */
  lemma {:induction false} PlainListingCompleteIff(items: seq<Item>, size: nat, start: nat)
    requires size > 0 && start <= |items|
    ensures Collected(Plain, items, size, start) == items[start..] <==> MarkersReachTheEnd(items, size, start)
    decreases |items| - start
  {
    hide Collected;
    PlainStep(items, size, start);
    if start + size < |items| {
      var page, rest := items[start..start + size], items[start + size..];
      Rejoin(items, start, start + size);
      PlainListingCompleteIff(items, size, start + size);
      if items[start + size - 1].id.Some? {
        Cancel(page, Collected(Plain, items, size, start + size), rest);
      } else {
        assert |page| < |items[start..]|;
      }
    } else if start + size == |items| {
      EndOfItems(items, size);
      assert items[start..] == items[start..start + size] + [];
    }
  }

  lemma Rejoin(items: seq<Item>, a: nat, b: nat)
    requires a <= b <= |items|
    ensures items[a..] == items[a..b] + items[b..]
  {
  }

  /** One page of a listing that keeps every item. */
  lemma PlainStep(items: seq<Item>, size: nat, start: nat)
    requires size > 0 && start <= |items|
    ensures Collected(Plain, items, size, start)
            == if start + size > |items| then items[start..]
               else if items[start + size - 1].id.None? then items[start..start + size]
               else items[start..start + size] + Collected(Plain, items, size, start + size)
  {
  }

  lemma EndOfItems(items: seq<Item>, size: nat)
    requires size > 0
    ensures Collected(Plain, items, size, |items|) == []
  {
  }

  /** No page that has an ID-less gateway comes before one that has a gateway with an ID. */
  ghost predicate NoShortPageBefore(items: seq<Item>, size: nat, start: nat)
    requires size > 0 && start <= |items|
    decreases |items| - start
  {
    start + size <= |items| ==>
      && (AllHaveIds(items[start..start + size]) || WithIds(items[start + size..]) == [])
      && NoShortPageBefore(items, size, start + size)
  }

  /**
   The gateway listing is complete if and only if no page with an ID-less gateway is followed by a
   gateway that has an ID: such a page looks short and ends the loop early.
   */
  lemma {:induction false} GatewayListingCompleteIff(items: seq<Item>, size: nat, start: nat)
    requires size > 0 && start <= |items|
    ensures Collected(Skipping, items, size, start) == WithIds(items[start..])
       <==> NoShortPageBefore(items, size, start)
    decreases |items| - start
  {
    hide WithIds, AllHaveIds;
    var page := Page(items, size, start);
    if start + size <= |items| {
      var rest := items[start + size..];
      assert items[start..] == page + rest;
      WithIdsAppend(page, rest);
      FullIffAllHaveIds(page);
      GatewayListingCompleteIff(items, size, start + size);
      if AllHaveIds(page) {
        LastHasId(page);
        Cancel(page, Collected(Skipping, items, size, start + size), WithIds(rest));
      } else {
        NothingLeftIsComplete(items, size, start + size);
        assert WithIds(page) + WithIds(rest) == WithIds(page) <==> WithIds(rest) == [];
      }
    }
  }

  lemma Cancel(a: seq<Item>, b: seq<Item>, c: seq<Item>)
    ensures a + b == a + c <==> b == c
  {
    assert b == (a + b)[|a|..] && c == (a + c)[|a|..];
  }

  lemma LastHasId(page: seq<Item>)
    requires page != [] && AllHaveIds(page)
    ensures LastId(page) != None
  {
  }

  lemma {:induction false} NothingLeftIsComplete(items: seq<Item>, size: nat, start: nat)
    requires size > 0 && start <= |items|
    ensures WithIds(items[start..]) == [] ==> NoShortPageBefore(items, size, start)
    decreases |items| - start
  {
    if WithIds(items[start..]) == [] && start + size <= |items| {
      assert items[start..] == items[start..start + size] + items[start + size..];
      WithIdsAppend(items[start..start + size], items[start + size..]);
      NothingLeftIsComplete(items, size, start + size);
    }
  }

  /** Two pages of two: the first holds a gateway without an ID, so the second is never asked for. */
  lemma AnIdlessGatewayHidesTheRest()
    ensures var items := [Item(Some(1), 0), Item(None, 0), Item(Some(2), 0), Item(Some(3), 0)];
            Collected(Skipping, items, 2, 0) == [Item(Some(1), 0)]
  {
    var items := [Item(Some(1), 0), Item(None, 0), Item(Some(2), 0), Item(Some(3), 0)];
    assert Page(items, 2, 0) == [items[0], items[1]];
    assert WithIds([items[1]]) == [] && [items[0], items[1]][1..] == [items[1]];
  }
}
