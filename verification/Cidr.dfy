/** IP prefixes of one family as blocks of addresses, after Go's net/netip. */
module Cidr {
  import opened Options
  import opened Powers

  datatype Family = V4 | V6

  function Width(f: Family): nat { if f.V4? then 32 else 128 }

  datatype Address = Address(family: Family, value: nat)

  datatype Prefix = Prefix(family: Family, addr: nat, bits: nat)

  /** A CIDR field: empty, text ParseCIDR rejects, or a prefix. */
  datatype CidrText = Absent | Malformed | Parsed(prefix: Prefix)

  predicate ValidAddress(a: Address) { a.value < Pow2(Width(a.family)) }

  predicate ValidPrefix(p: Prefix) { p.bits <= Width(p.family) && p.addr < Pow2(Width(p.family)) }

  /** Parsing yields only valid prefixes. */
  predicate ValidText(c: CidrText) { c.Parsed? ==> ValidPrefix(c.prefix) }

  /** The number of addresses the prefix leaves free. */
  function Block(p: Prefix): (n: nat)
    requires ValidPrefix(p)
    ensures n >= 1
  {
    Pow2(Width(p.family) - p.bits)
  }

  /** netip.Prefix.Contains: same family, and the leading bits agree. */
  predicate Contains(p: Prefix, a: Address)
    requires ValidPrefix(p)
  {
    a.family == p.family && a.value / Block(p) == p.addr / Block(p)
  }

  function Masked(p: Prefix): (m: Prefix)
    requires ValidPrefix(p)
    ensures ValidPrefix(m) && m.family == p.family && m.bits == p.bits
    ensures m.addr <= p.addr
  {
    ModAtMost(p.addr, Block(p));
    Prefix(p.family, p.addr - p.addr % Block(p), p.bits)
  }

  lemma ModAtMost(x: nat, n: nat)
    requires n >= 1
    ensures 0 <= x % n <= x && x % n < n && x == x / n * n + x % n
  {
  }

  function AddrOf(p: Prefix): Address { Address(p.family, p.addr) }

  predicate Overlap(p: Prefix, q: Prefix)
    requires ValidPrefix(p) && ValidPrefix(q)
  {
    var p', q' := Masked(p), Masked(q);
    Contains(p', AddrOf(q')) || Contains(q', AddrOf(p'))
  }

  // ---------------------------------------------------------------- blocks of powers of two

  /** Uniqueness of quotients: what pins a division down. */
  lemma DivIs(x: nat, n: nat, q: nat)
    requires n >= 1 && q * n <= x < q * n + n
    ensures x / n == q
  {
    ModAtMost(x, n);
    var d := x / n;
    if d > q {
      MulStep(d, q, n);
    } else if d < q {
      MulStep(q, d, n);
    }
  }

  lemma {:induction false} MulStep(a: nat, b: nat, n: nat)
    requires a > b
    ensures a * n >= b * n + n
  {
    assert a * n == (a - 1) * n + n;
    if a > b + 1 { MulStep(a - 1, b, n); }
  }

  lemma MulRegroup(a: nat, b: nat, c: nat)
    ensures a * b * c == a * (b * c) == a * c * b == a * (c * b)
  {
  }

  lemma DivDiv(x: nat, n: nat, k: nat)
    requires n >= 1 && k >= 1
    ensures n * k >= 1 && x / n / k == x / (n * k)
  {
    var d := x / n;
    var e := d / k;
    ModAtMost(x, n);
    ModAtMost(d, k);
    MulStep(k, 0, n);
    DivBounds(x, n, k, d, e);
    DivIs(x, n * k, e);
  }

  lemma DivBounds(x: nat, n: nat, k: nat, d: nat, e: nat)
    requires d * n <= x < d * n + n && e * k <= d < e * k + k
    ensures e * (n * k) <= x < e * (n * k) + n * k
  {
    MulRegroup(e, k, n);
    var ek := e * k;
    if ek < d { MulStep(d, ek, n); }
    MulStep(ek + k, d, n);
    assert (ek + k) * n == ek * n + k * n;
  }

  /** Rounding an address down to a small block does not move it between large blocks. */
  lemma RoundingStaysInLargerBlock(x: nat, n: nat, k: nat)
    requires n >= 1 && k >= 1
    ensures n * k >= 1 && x >= x % n && (x - x % n) / (n * k) == x / (n * k)
  {
    ModAtMost(x, n);
    var y := x - x % n;
    assert y == x / n * n;
    DivIs(y, n, x / n);
    DivDiv(x, n, k);
    DivDiv(y, n, k);
  }

  lemma ContainsMasked(p: Prefix, a: Address)
    requires ValidPrefix(p)
    ensures Contains(Masked(p), a) <==> Contains(p, a)
  {
    RoundingStaysInLargerBlock(p.addr, Block(p), 1);
  }

  lemma LongerPrefixIsSmallerBlock(p: Prefix, q: Prefix) returns (k: nat)
    requires ValidPrefix(p) && ValidPrefix(q) && p.family == q.family && p.bits <= q.bits
    ensures k >= 1 && Block(p) == Block(q) * k
  {
    k := Pow2(q.bits - p.bits);
    Pow2Splits(Width(p.family) - q.bits, q.bits - p.bits);
  }

  // ---------------------------------------------------------------- overlap

  /** A common address puts the base of the longer prefix inside the shorter one. */
  lemma CommonAddressPlacesBase(p: Prefix, q: Prefix, x: Address)
    requires ValidPrefix(p) && ValidPrefix(q) && p.bits <= q.bits
    requires Contains(p, x) && Contains(q, x)
    ensures Contains(Masked(p), AddrOf(Masked(q)))
  {
    var k := LongerPrefixIsSmallerBlock(p, q);
    var base := Masked(q).addr;
    RoundingStaysInLargerBlock(q.addr, Block(q), k);
    DivDiv(x.value, Block(q), k);
    DivDiv(q.addr, Block(q), k);
    assert base / Block(p) == x.value / Block(p);
    ContainsMasked(p, AddrOf(Masked(q)));
  }

  /** cidrsOverlap is exact: it holds if and only if some address lies in both prefixes. */
  lemma OverlapIff(p: Prefix, q: Prefix)
    requires ValidPrefix(p) && ValidPrefix(q)
    ensures Overlap(p, q) <==> exists x :: ValidAddress(x) && Contains(p, x) && Contains(q, x)
  {
    var p', q' := Masked(p), Masked(q);
    ContainsMasked(p, AddrOf(p'));
    ContainsMasked(p, AddrOf(q'));
    ContainsMasked(q, AddrOf(q'));
    ContainsMasked(q, AddrOf(p'));
    if Overlap(p, q) {
      var x := if Contains(p', AddrOf(q')) then AddrOf(q') else AddrOf(p');
      assert ValidAddress(x) && Contains(p, x) && Contains(q, x);
    }
    if x :| ValidAddress(x) && Contains(p, x) && Contains(q, x) {
      if p.bits <= q.bits { CommonAddressPlacesBase(p, q, x); } else { CommonAddressPlacesBase(q, p, x); }
    }
  }

  /** Prefixes of the two families never overlap; overlapping ones of one family nest. */
  lemma OverlappingPrefixesNest(p: Prefix, q: Prefix, x: Address)
    requires ValidPrefix(p) && ValidPrefix(q) && Overlap(p, q) && p.bits <= q.bits
    requires Contains(q, x)
    ensures p.family == q.family && Contains(p, x)
  {
    OverlapIff(p, q);
    var y :| ValidAddress(y) && Contains(p, y) && Contains(q, y);
    var k := LongerPrefixIsSmallerBlock(p, q);
    DivDiv(x.value, Block(q), k);
    DivDiv(y.value, Block(q), k);
  }

  // ---------------------------------------------------------------- the default subnet

  const DEFAULT_VPC_CIDR := Prefix(V4, 0x0a00_0000, 16)   // 10.0.0.0/16

  function FirstSlash24(vpc: CidrText): CidrText
    requires ValidText(vpc)
  {
    match vpc
    case Malformed => Malformed
    case Absent => Parsed(FirstSlash24Of(DefaultVpc()))
    case Parsed(p) => Parsed(FirstSlash24Of(p))
  }

  function DefaultVpc(): (p: Prefix)
    ensures ValidPrefix(p) && p == DEFAULT_VPC_CIDR
  {
    assert Pow2(32) == 0x1_0000_0000 by { Pow2Splits(16, 16); Pow2Splits(8, 8); assert Pow2(8) == 256; }
    DEFAULT_VPC_CIDR
  }

  function FirstSlash24Of(p: Prefix): (s: Prefix)
    requires ValidPrefix(p)
    ensures ValidPrefix(s)
  {
    var m := Masked(p);
    if m.bits >= 24 then m else Masked(Prefix(m.family, m.addr, 24))
  }

  /** gatewayIP: the network address plus one; there is none after the last address of the family. */
  function GatewayIP(p: Prefix): Option<Address>
    requires ValidPrefix(p)
  {
    var next := Masked(p).addr + 1;
    if next < Pow2(Width(p.family)) then Some(Address(p.family, next)) else None
  }

  lemma FirstSlash24Inside(p: Prefix, x: Address)
    requires ValidPrefix(p)
    ensures FirstSlash24Of(p).addr == Masked(p).addr
    ensures FirstSlash24Of(p).bits == if p.bits >= 24 then p.bits else 24
    ensures Masked(FirstSlash24Of(p)) == FirstSlash24Of(p)
    ensures Contains(FirstSlash24Of(p), x) ==> Contains(p, x)
  {
    var m := Masked(p);
    ContainsMasked(p, x);
    MultipleOfLargerBlock(p.addr, Block(p), Block(p), 1);
    if m.bits < 24 {
      var s := Prefix(m.family, m.addr, 24);
      var k := LongerPrefixIsSmallerBlock(m, s);
      MultipleOfLargerBlock(p.addr, Block(p), Block(s), k);
      assert Masked(s) == s;
      if Contains(s, x) {
        DivDiv(x.value, Block(s), k);
        DivDiv(m.addr, Block(s), k);
      }
    }
  }

  lemma MultipleOfLargerBlock(x: nat, large: nat, small: nat, k: nat)
    requires large >= 1 && small >= 1 && large == small * k
    ensures x >= x % large && (x - x % large) % small == 0
  {
    ModAtMost(x, large);
    var y := x - x % large;
    var d := x / large;
    assert y == d * (small * k) == (d * k) * small;
    DivIs(y, small, d * k);
  }

  lemma GatewayOfFirstSlash24InsideIff(p: Prefix)
    requires ValidPrefix(p)
    ensures var s := FirstSlash24Of(p);
            (GatewayIP(s).Some? && Contains(s, GatewayIP(s).value) && Contains(p, GatewayIP(s).value))
              <==> p.bits < Width(p.family)
    ensures var s := FirstSlash24Of(p);
            GatewayIP(s).Some? ==> GatewayIP(s).value == Address(s.family, s.addr + 1)
  {
    var s := FirstSlash24Of(p);
    FirstSlash24Inside(p, Address(p.family, Masked(s).addr + 1));
    GatewayInItsOwnPrefixIff(s);
  }

  lemma GatewayInItsOwnPrefixIff(s: Prefix)
    requires ValidPrefix(s)
    ensures GatewayIP(s).Some? && Contains(s, GatewayIP(s).value) <==> s.bits < Width(s.family)
  {
    var w := Width(s.family);
    var n := Block(s);
    var q := s.addr / n;
    ModAtMost(s.addr, n);
    Pow2Splits(s.bits, w - s.bits);
    LastBlockEnds(s.addr, n, Pow2(s.bits));
    assert Masked(s).addr == q * n;
    if s.bits < w {
      assert n == 2 * Pow2(w - s.bits - 1);
      DivIs(q * n + 1, n, q);
      DivIs(q * n, n, q);
    } else {
      assert n == 1;
    }
  }

  lemma LastBlockEnds(x: nat, n: nat, blocks: nat)
    requires n >= 1 && x < blocks * n
    ensures x / n * n + n <= blocks * n
  {
    ModAtMost(x, n);
    var q := x / n;
    if q >= blocks {
      if q > blocks { MulStep(q, blocks, n); }
      assert false;
    }
    if q + 1 < blocks { MulStep(blocks, q + 1, n); }
    assert (q + 1) * n == q * n + n;
  }

  /** The prefix a VPC field stands for; an empty one is the default. */
  function VpcPrefix(vpc: CidrText): (p: Prefix)
    requires ValidText(vpc) && !vpc.Malformed?
    ensures ValidPrefix(p)
  {
    if vpc.Absent? then DefaultVpc() else vpc.prefix
  }

  /** The default node subnet always gets a CIDR text, which parses exactly when the VPC's does. It then starts where
      the VPC does, lies inside it, and is all of it or a /24. */
  lemma DefaultSubnetInsideVpc(vpc: CidrText, x: Address)
    requires ValidText(vpc)
    ensures var s := FirstSlash24(vpc);
            && ValidText(s) && !s.Absent? && (s.Malformed? <==> vpc.Malformed?)
            && (s.Parsed? ==>
                  && s.prefix.addr == Masked(VpcPrefix(vpc)).addr
                  && s.prefix.bits == (if VpcPrefix(vpc).bits >= 24 then VpcPrefix(vpc).bits else 24)
                  && (Contains(s.prefix, x) ==> Contains(VpcPrefix(vpc), x)))
  {
    hide Contains, Masked, FirstSlash24Of;
    if !vpc.Malformed? { FirstSlash24Inside(VpcPrefix(vpc), x); }
  }

  /** gatewayIP of a CIDR text: none when it does not parse. */
  function GatewayOf(cidr: CidrText): Option<Address>
    requires ValidText(cidr)
  {
    if cidr.Parsed? then GatewayIP(cidr.prefix) else None
  }

  /** The default subnet has a gateway, inside subnet and VPC, exactly when the VPC's CIDR parses, or is empty, and
      leaves at least one host bit. */
  lemma GatewayInsideIff(vpc: CidrText)
    requires ValidText(vpc)
    ensures ValidText(FirstSlash24(vpc))
    ensures var s := FirstSlash24(vpc);
            var gateway := GatewayOf(s);
            && (s.Parsed? && gateway.Some? ==> gateway.value == Address(s.prefix.family, s.prefix.addr + 1))
            && ((s.Parsed? && gateway.Some? && Contains(s.prefix, gateway.value) && Contains(VpcPrefix(vpc), gateway.value))
            <==> !vpc.Malformed? && VpcPrefix(vpc).bits < Width(VpcPrefix(vpc).family))
  {
    hide Contains, GatewayIP, FirstSlash24Of;
    if !vpc.Malformed? { GatewayOfFirstSlash24InsideIff(VpcPrefix(vpc)); }
  }
}
