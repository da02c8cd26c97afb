/** Comparing a cluster's log configuration with the declared one, and updating it on drift. */
module LogConfig {
  import opened Options

  datatype Item = Item(name: string, logType: string, enable: bool)
  datatype Config = Config(ttl: int, logs: seq<Item>)

  const CONTROL := "control"

  predicate SlashFree(s: string) { '/' !in s }

  predicate SlashFreeTypes(logs: seq<Item>) {
    forall l :: l in logs ==> SlashFree(l.logType)
  }

  /** An empty type means control. */
  function Defaulted(l: Item): Item {
    if l.logType == "" then l.(logType := CONTROL) else l
  }

  function FormatBool(b: bool): string { if b then "true" else "false" }

  /** The string the comparison counts items by. */
  function KeyOf(l: Item): string {
    l.name + "/" + Defaulted(l).logType + "/" + FormatBool(l.enable)
  }

  function Keys(logs: seq<Item>): (ks: seq<string>)
    ensures |ks| == |logs| && forall i :: 0 <= i < |logs| ==> ks[i] == KeyOf(logs[i])
  {
    seq(|logs|, i requires 0 <= i < |logs| => KeyOf(logs[i]))
  }

  function AllDefaulted(logs: seq<Item>): (ds: seq<Item>)
    ensures |ds| == |logs| && forall i :: 0 <= i < |logs| ==> ds[i] == Defaulted(logs[i])
  {
    seq(|logs|, i requires 0 <= i < |logs| => Defaulted(logs[i]))
  }

  // ---------------------------------------------------------------- comparison

  function Count(set': map<string, nat>, k: string): nat { if k in set' then set'[k] else 0 }

  /** logConfigEqual: count the items of one side, then use the counts up with the other. */
  method LogConfigEqual(a: Config, b: Config) returns (equal: bool)
    ensures equal <==> a.ttl == b.ttl && multiset(Keys(a.logs)) == multiset(Keys(b.logs))
  {
    if a.ttl != b.ttl { return false; }
    assert |multiset(Keys(a.logs))| == |a.logs| && |multiset(Keys(b.logs))| == |b.logs|;
    if |a.logs| != |b.logs| { return false; }
    var counts := CountKeys(a.logs);
    equal := UseUp(counts, b.logs, multiset(Keys(a.logs)));
    if equal { SubMultisetOfSameSize(multiset(Keys(b.logs)), multiset(Keys(a.logs))); }
  }

  method CountKeys(logs: seq<Item>) returns (counts: map<string, nat>)
    ensures forall k :: Count(counts, k) == multiset(Keys(logs))[k]
  {
    hide KeyOf;
    ghost var keys := Keys(logs);
    counts := map[];
    for i := 0 to |logs|
      invariant forall k :: Count(counts, k) == multiset(keys[..i])[k]
    {
      assert keys[..i + 1] == keys[..i] + [keys[i]];
      var k := KeyOf(logs[i]);
      counts := counts[k := Count(counts, k) + 1];
    }
    assert keys[..|keys|] == keys;
  }

  method UseUp(counts: map<string, nat>, logs: seq<Item>, ghost have: multiset<string>) returns (covered: bool)
    requires forall k :: Count(counts, k) == have[k]
    ensures covered <==> multiset(Keys(logs)) <= have
  {
    hide KeyOf, Keys;
    ghost var keys := Keys(logs);
    ghost var used: multiset<string> := multiset{};
    var left: map<string, nat> := counts;
    for i := 0 to |logs|
      invariant used == multiset(keys[..i])
      invariant forall k :: Count(left, k) + used[k] == have[k]
    {
      NextKey(keys, i);
      var k := KeyOf(logs[i]);
      if Count(left, k) == 0 { return false; }
      left := left[k := Count(left, k) - 1];
      used := used + multiset{k};
    }
    assert keys[..|keys|] == keys;
    return true;
  }

  lemma NextKey(keys: seq<string>, i: nat)
    requires i < |keys|
    ensures multiset(keys[..i + 1]) == multiset(keys[..i]) + multiset{keys[i]}
    ensures multiset(keys)[keys[i]] > multiset(keys[..i])[keys[i]]
  {
    assert keys[..i + 1] == keys[..i] + [keys[i]];
    assert keys == keys[..i + 1] + keys[i + 1..];
  }

  lemma SubMultisetOfSameSize<T>(a: multiset<T>, b: multiset<T>)
    requires a <= b && |a| == |b|
    ensures a == b
  {
    assert b == a + (b - a);
  }

  lemma NoSlashAfter(a: string, b: string)
    requires SlashFree(b)
    ensures forall i :: |a| < i < |a + "/" + b| ==> (a + "/" + b)[i] != '/'
  {
  }

  lemma LastSlashSplits(a: string, b: string, c: string, d: string)
    requires a + "/" + b == c + "/" + d && SlashFree(b) && SlashFree(d)
    ensures a == c && b == d
  {
    var s := a + "/" + b;
    assert s[|a|] == '/' && s[|c|] == '/';
    NoSlashAfter(a, b);
    NoSlashAfter(c, d);
    assert |a| == |c|;
    assert a == s[..|a|] && c == s[..|c|];
    assert b == s[|a| + 1..] && d == s[|c| + 1..];
  }

  /** The key tells items apart as long as types hold no slash; names may. */
  lemma KeyIsInjective(l: Item, m: Item)
    requires SlashFree(l.logType) && SlashFree(m.logType) && KeyOf(l) == KeyOf(m)
    ensures Defaulted(l) == Defaulted(m)
  {
    var x, y := Defaulted(l), Defaulted(m);
    LastSlashSplits(l.name + "/" + x.logType, FormatBool(l.enable), m.name + "/" + y.logType, FormatBool(m.enable));
    LastSlashSplits(l.name, x.logType, m.name, y.logType);
  }

  lemma {:induction false} KeyCountsItems(logs: seq<Item>, l: Item)
    requires SlashFreeTypes(logs) && SlashFree(l.logType) && Defaulted(l) == l
    ensures multiset(Keys(logs))[KeyOf(l)] == multiset(AllDefaulted(logs))[l]
  {
    hide KeyOf, Defaulted;
    if logs != [] {
      var rest, last := logs[..|logs| - 1], logs[|logs| - 1];
      KeyCountsItems(rest, l);
      assert Keys(logs) == Keys(rest) + [KeyOf(last)];
      assert AllDefaulted(logs) == AllDefaulted(rest) + [Defaulted(last)];
      assert last in logs;
      KeyMatchesIff(last, l);
    }
  }

  lemma KeyMatchesIff(m: Item, l: Item)
    requires SlashFree(m.logType) && SlashFree(l.logType) && Defaulted(l) == l
    ensures KeyOf(m) == KeyOf(l) <==> Defaulted(m) == l
  {
    if KeyOf(m) == KeyOf(l) { KeyIsInjective(m, l); }
  }

  /** The same items up to order, an empty type counting as control. */
  ghost predicate SameLogs(a: seq<Item>, b: seq<Item>) {
    multiset(AllDefaulted(a)) == multiset(AllDefaulted(b))
  }

  /** With slash-free types the comparison is exact, hence reflexive, symmetric and transitive. */
  lemma KeysEqualIffSameLogs(a: seq<Item>, b: seq<Item>)
    requires SlashFreeTypes(a) && SlashFreeTypes(b)
    ensures multiset(Keys(a)) == multiset(Keys(b)) <==> SameLogs(a, b)
  {
    if multiset(Keys(a)) == multiset(Keys(b)) {
      ItemsFollowKeys(a, b);
    } else if SameLogs(a, b) {
      KeysFollowItems(a, b);
    }
  }

  lemma ItemsFollowKeys(a: seq<Item>, b: seq<Item>)
    requires SlashFreeTypes(a) && SlashFreeTypes(b) && multiset(Keys(a)) == multiset(Keys(b))
    ensures SameLogs(a, b)
  {
    hide KeyOf;
    var da, db := multiset(AllDefaulted(a)), multiset(AllDefaulted(b));
    forall l: Item ensures da[l] == db[l] {
      if l in da || l in db {
        var src := if l in da then a else b;
        assert l in AllDefaulted(src);
        var i :| 0 <= i < |src| && AllDefaulted(src)[i] == l;
        assert src[i] in src;
        KeyCountsItems(a, l);
        KeyCountsItems(b, l);
      }
    }
  }

  lemma SameKeyDefaulted(l: Item)
    ensures KeyOf(Defaulted(l)) == KeyOf(l)
  {
  }

  lemma KeysFollowItems(a: seq<Item>, b: seq<Item>)
    requires SlashFreeTypes(a) && SlashFreeTypes(b) && SameLogs(a, b)
    ensures multiset(Keys(a)) == multiset(Keys(b))
  {
    hide KeyOf;
    var ka, kb := multiset(Keys(a)), multiset(Keys(b));
    forall k: string ensures ka[k] == kb[k] {
      if k in ka || k in kb {
        var src := if k in ka then a else b;
        assert k in Keys(src);
        var i :| 0 <= i < |src| && Keys(src)[i] == k;
        assert src[i] in src;
        KeyCountsItems(a, Defaulted(src[i]));
        KeyCountsItems(b, Defaulted(src[i]));
        SameKeyDefaulted(src[i]);
      }
    }
  }

  /** With a slash in a type, different items can share a key and the drift goes unseen. */
  lemma ASlashInATypeHidesDrift()
    ensures var a, b := Item("x", "y/control", true), Item("x/y", "control", true);
            KeyOf(a) == KeyOf(b) && !SameLogs([a], [b])
  {
    var a, b := Item("x", "y/control", true), Item("x/y", "control", true);
    assert KeyOf(a) == "x/y/control/true" == KeyOf(b);
    assert AllDefaulted([a]) == [a] && AllDefaulted([b]) == [b];
    assert a in multiset([a]) && a !in multiset([b]);
  }

  // ---------------------------------------------------------------- reconciling

  predicate KnownType(t: string) { t in {"", CONTROL, "audit", "system-addon"} }

  /** logConfigType: the SDK enum has three values; anything else is sent as control. */
  function Stored(l: Item): Item {
    l.(logType := if l.logType in {"audit", "system-addon"} then l.logType else CONTROL)
  }

  function AllStored(logs: seq<Item>): (r: seq<Item>)
    ensures |r| == |logs| && forall i :: 0 <= i < |logs| ==> r[i] == Stored(logs[i])
  {
    seq(|logs|, i requires 0 <= i < |logs| => Stored(logs[i]))
  }

  predicate InSync(got: Config, want: Config) {
    got.ttl == want.ttl && multiset(Keys(got.logs)) == multiset(Keys(want.logs))
  }

  class Cluster {
    var config: Config
    var calls: nat        // API calls that still succeed

    constructor (config: Config, calls: nat)
      ensures this.config == config && this.calls == calls
    {
      this.config, this.calls := config, calls;
    }

    /** reconcileLogging: no declaration, no opinion; otherwise one read, and one write if it drifted. */
    method ReconcileLogging(declared: Option<Config>) returns (ok: bool, wrote: bool)
      modifies this
      ensures wrote <==> ok && declared.Some? && !InSync(old(config), declared.value)
      ensures config == if wrote then Config(declared.value.ttl, AllStored(declared.value.logs)) else old(config)
      ensures old(calls) >= 2 ==>
        (ok <==> declared.None? || InSync(old(config), declared.value) || 0 <= declared.value.ttl <= 30)
    {
      wrote := false;
      if declared.None? { return true, false; }
      var want := declared.value;
      if calls == 0 { return false, false; }
      calls := calls - 1;
      var equal := LogConfigEqual(config, want);
      if equal { return true, false; }
      if want.ttl < 0 || want.ttl > 30 { return false, false; }
      if calls == 0 { return false, false; }
      calls := calls - 1;
      var sent: seq<Item> := [];
      for i := 0 to |want.logs|
        invariant |sent| == i && forall j :: 0 <= j < i ==> sent[j] == Stored(want.logs[j])
      {
        var t := if want.logs[i].logType == "" then CONTROL else want.logs[i].logType;
        sent := sent + [Stored(want.logs[i].(logType := t))];
      }
      assert sent == AllStored(want.logs);
      config := Config(want.ttl, sent);
      return true, true;
    }
  }

  /**
   What an update writes compares equal with the declaration, so that the next pass writes nothing, if
   and only if every declared type is one the SDK knows. An unknown type is written anew on every pass.
   */
  lemma UpdateIsStableIff(want: Config)
    requires SlashFreeTypes(want.logs)
    ensures InSync(Config(want.ttl, AllStored(want.logs)), want)
       <==> forall l :: l in want.logs ==> KnownType(l.logType)
  {
    hide KeyOf;
    var sent := AllStored(want.logs);
    if forall l :: l in want.logs ==> KnownType(l.logType) {
      forall i | 0 <= i < |sent| ensures KeyOf(sent[i]) == KeyOf(want.logs[i]) {
        assert want.logs[i] in want.logs;
        KnownTypesKeepTheirKey(want.logs[i]);
      }
      assert Keys(sent) == Keys(want.logs);
    } else {
      var l :| l in want.logs && !KnownType(l.logType);
      var i :| 0 <= i < |want.logs| && want.logs[i] == l;
      assert Keys(want.logs)[i] == KeyOf(l) && KeyOf(l) in multiset(Keys(want.logs));
      forall j | 0 <= j < |sent| ensures Keys(sent)[j] != KeyOf(l) {
        UnknownTypeLosesItsKey(want.logs[j], l);
      }
      assert KeyOf(l) !in multiset(Keys(sent));
    }
  }

  lemma KnownTypesKeepTheirKey(l: Item)
    requires KnownType(l.logType)
    ensures KeyOf(Stored(l)) == KeyOf(l)
  {
  }

  lemma UnknownTypeLosesItsKey(m: Item, l: Item)
    requires SlashFree(l.logType) && !KnownType(l.logType)
    ensures KeyOf(Stored(m)) != KeyOf(l)
  {
    hide KeyOf;
    var stored := Stored(m);
    assert SlashFree("audit") && SlashFree("system-addon") && SlashFree(CONTROL);
    assert Defaulted(stored).logType != Defaulted(l).logType;
    if KeyOf(stored) == KeyOf(l) { KeyIsInjective(stored, l); }
  }
}
