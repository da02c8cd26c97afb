/**
 The declared ingress and egress rules of the managed security group. A pass lists the group's rules once and creates
 what the listing does not show; nothing is removed.
 */
module SecurityGroupRules {

  datatype Direction = Ingress | Egress

  /** What two rules are compared by; the description is not part of it. */
  datatype Rule = Rule(direction: Direction, protocol: string, portMin: int, portMax: int, prefix: string, group: string)

  /** The rules a pass creates, in the order declared: those the listing does not show. */
  function Missing(declared: seq<Rule>, listed: seq<Rule>): (m: seq<Rule>)
    ensures |m| <= |declared|
    ensures forall r :: r in m <==> r in declared && r !in listed
  {
    if declared == [] then []
    else
      Missing(declared[..|declared| - 1], listed)
      + if declared[|declared| - 1] in listed then [] else [declared[|declared| - 1]]
  }

  class Group {
    var rules: seq<Rule>  // in the order they were created
    var calls: nat        // requests that still succeed

    constructor (rules: seq<Rule>, calls: nat)
      ensures this.rules == rules && this.calls == calls
    {
      this.rules, this.calls := rules, calls;
    }

    method EnsureRule(rule: Rule, listed: seq<Rule>) returns (ok: bool)
      modifies this
      ensures ok <==> rule in listed || old(calls) > 0
      ensures rules == if ok && rule !in listed then old(rules) + [rule] else old(rules)
      ensures calls == if ok && rule !in listed then old(calls) - 1 else old(calls)
    {
      if rule in listed { return true; }
      if calls == 0 { return false; }
      calls := calls - 1;
      rules := rules + [rule];
      return true;
    }

    /** Creates the missing rules in order until a call fails. */
    method EnsureAll(declared: seq<Rule>, listed: seq<Rule>) returns (ok: bool)
      modifies this
      ensures ok <==> |Missing(declared, listed)| <= old(calls)
      ensures rules == old(rules) + if ok then Missing(declared, listed) else Missing(declared, listed)[..old(calls)]
      ensures calls == if ok then old(calls) - |Missing(declared, listed)| else 0
    {
      hide Missing;
      NoneYet(declared, listed);
      for i := 0 to |declared|
        invariant |Missing(declared[..i], listed)| + calls == old(calls)
        invariant rules == old(rules) + Missing(declared[..i], listed)
      {
        MissingGrows(declared, listed, i);
        ok := EnsureRule(declared[i], listed);
        if !ok { return; }
      }
      assert declared[..|declared|] == declared;
      ok := true;
    }

    /** The ingress rules, then the egress rules, against one listing. */
    method EnsureSecurityGroupRules(ingress: seq<Rule>, egress: seq<Rule>, listed: seq<Rule>) returns (ok: bool)
      modifies this
      ensures var missing := Missing(ingress + egress, listed);
              && (ok <==> |missing| <= old(calls))
              && rules == old(rules) + if ok then missing else missing[..old(calls)]
    {
      hide Missing;
      MissingAppends(ingress, egress, listed);
      ok := EnsureAll(ingress, listed);
      if ok { ok := EnsureAll(egress, listed); }
    }
  }

  lemma NoneYet(declared: seq<Rule>, listed: seq<Rule>)
    ensures Missing(declared[..0], listed) == []
  {
  }

  lemma MissingNext(declared: seq<Rule>, listed: seq<Rule>, i: nat)
    requires i < |declared|
    ensures Missing(declared[..i + 1], listed)
            == Missing(declared[..i], listed) + if declared[i] in listed then [] else [declared[i]]
  {
    assert declared[..i + 1][..i] == declared[..i];
  }

  lemma {:induction false} MissingPrefix(declared: seq<Rule>, listed: seq<Rule>, i: nat)
    requires i <= |declared|
    ensures Missing(declared[..i], listed) <= Missing(declared, listed)
    decreases |declared| - i
  {
    hide Missing;
    if i == |declared| {
      assert declared[..i] == declared;
    } else {
      MissingPrefix(declared, listed, i + 1);
      MissingNext(declared, listed, i);
    }
  }

  lemma MissingGrows(declared: seq<Rule>, listed: seq<Rule>, i: nat)
    requires i < |declared|
    ensures var now := Missing(declared[..i], listed);
            && Missing(declared[..i + 1], listed) == now + (if declared[i] in listed then [] else [declared[i]])
            && Missing(declared[..i + 1], listed) <= Missing(declared, listed)
            && now == Missing(declared, listed)[..|now|]
  {
    hide Missing;
    MissingNext(declared, listed, i);
    MissingPrefix(declared, listed, i);
    MissingPrefix(declared, listed, i + 1);
  }

  lemma {:induction false} MissingAppends(a: seq<Rule>, b: seq<Rule>, listed: seq<Rule>)
    ensures Missing(a + b, listed) == Missing(a, listed) + Missing(b, listed)
  {
    if b == [] {
      assert a + b == a;
    } else {
      assert (a + b)[..|a + b| - 1] == a + b[..|b| - 1];
      MissingAppends(a, b[..|b| - 1], listed);
    }
  }

  lemma {:induction false} MissingCounts(declared: seq<Rule>, listed: seq<Rule>, r: Rule)
    ensures multiset(Missing(declared, listed))[r] == if r in listed then 0 else multiset(declared)[r]
  {
    if declared != [] {
      var init, last := declared[..|declared| - 1], declared[|declared| - 1];
      MissingCounts(init, listed, r);
      assert declared == init + [last];
      assert r in listed ==> r !in Missing(declared, listed);
    }
  }

  /** A pass whose calls succeed leaves every declared rule in the group, removes none and adds declared ones only; where
      a rule was there at most once, it is there twice afterwards exactly when it was not listed and was either declared
      twice, or declared and hidden by the listing. */
  lemma DuplicatedIff(rules: seq<Rule>, declared: seq<Rule>, listed: seq<Rule>, r: Rule)
    requires multiset(rules)[r] <= 1 && (r in listed ==> r in rules)
    ensures var after := rules + Missing(declared, listed);
            && (r in after <==> r in rules || r in declared)
            && (multiset(after)[r] > 1 <==> r !in listed && (multiset(declared)[r] > 1 || (r in rules && r in declared)))
  {
    MissingCounts(declared, listed, r);
    assert r in declared <==> r in multiset(declared);
    assert r in rules <==> r in multiset(rules);
  }

  lemma {:induction false} NothingMissing(declared: seq<Rule>, listed: seq<Rule>)
    requires forall r :: r in declared ==> r in listed
    ensures Missing(declared, listed) == []
  {
    if declared != [] { NothingMissing(declared[..|declared| - 1], listed); }
  }

  /** So a listing that shows them all makes a pass repeatable: the next one creates nothing. */
  lemma NextPassCreatesNothing(rules: seq<Rule>, declared: seq<Rule>, listed: seq<Rule>, next: seq<Rule>)
    requires forall r :: r in listed ==> r in rules
    requires forall r :: r in rules + Missing(declared, listed) ==> r in next
    ensures Missing(declared, next) == []
  {
    forall r | r in declared ensures r in next {
      assert r in rules || r in Missing(declared, listed);
    }
    NothingMissing(declared, next);
  }
}
