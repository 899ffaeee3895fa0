/** IP addresses and CIDR prefixes (section 3.1 of RFC 4632) as bit strings, with the
    containment and overlap tests of net/netip and what those tests mean for addresses. */
module Prefixes {
  import opened Options

  datatype Family = IPv4 | IPv6

  function Width(family: Family): nat { if family.IPv4? then 32 else 128 }

  datatype AnyAddress = Address(family: Family, bits: seq<bool>)
  type Address = a: AnyAddress | |a.bits| == Width(a.family) witness Address(IPv4, seq(32, _ => false))

  datatype AnyPrefix = Prefix(addr: Address, len: nat)
  type Prefix = p: AnyPrefix | p.len <= Width(p.addr.family) witness Prefix(Address(IPv4, seq(32, _ => false)), 0)

  /** Prefix.Contains of net/netip. */
  predicate Contains(p: Prefix, a: Address) {
    p.addr.family == a.family && p.addr.bits[..p.len] == a.bits[..p.len]
  }

  /** Prefix.Overlaps of net/netip: compare the shorter length. */
  predicate Overlaps(p: Prefix, q: Prefix) {
    var n := if p.len <= q.len then p.len else q.len;
    p.addr.family == q.addr.family && p.addr.bits[..n] == q.addr.bits[..n]
  }

  /** The containment test the gateway uses: no longer than `q`, and holding its address. */
  predicate Covers(p: Prefix, q: Prefix) { p.len <= q.len && Contains(p, q.addr) }

  predicate IsSingle(p: Prefix) { p.len == Width(p.addr.family) }

  predicate IsMasked(p: Prefix) { forall i :: p.len <= i < |p.addr.bits| ==> !p.addr.bits[i] }

  /** Membership, bit by bit. */
  lemma ContainsComparesBits(p: Prefix, a: Address)
    ensures Contains(p, a) <==> p.addr.family == a.family && forall i :: 0 <= i < p.len ==> p.addr.bits[i] == a.bits[i]
  {
    if p.addr.family == a.family {
      assert forall i :: 0 <= i < p.len ==> p.addr.bits[..p.len][i] == p.addr.bits[i] && a.bits[..p.len][i] == a.bits[i];
      if forall i :: 0 <= i < p.len ==> p.addr.bits[i] == a.bits[i] {
        assert p.addr.bits[..p.len] == a.bits[..p.len];
      }
    }
  }

  /** `a` with bit `i` flipped. */
  function Flip(a: Address, i: nat): (b: Address)
    requires i < |a.bits|
    ensures b.family == a.family && b.bits[..i] == a.bits[..i] && b.bits[i] != a.bits[i]
  {
    Address(a.family, a.bits[i := !a.bits[i]])
  }

  lemma SinglePrefixHoldsOneAddress(p: Prefix, a: Address)
    requires IsSingle(p)
    ensures Contains(p, a) <==> a == p.addr
  {
    assert p.addr.bits[..p.len] == p.addr.bits;
    if Contains(p, a) {
      assert a.bits[..p.len] == a.bits;
    }
  }

  lemma CoversKeepsMembers(p: Prefix, q: Prefix, a: Address)
    requires Covers(p, q) && Contains(q, a)
    ensures Contains(p, a)
  {
    assert p.addr.bits[..p.len] == q.addr.bits[..q.len][..p.len];
    assert a.bits[..p.len] == a.bits[..q.len][..p.len];
  }

  /** `Covers` is inclusion of the two address sets. */
  lemma CoversIsInclusion(p: Prefix, q: Prefix)
    ensures Covers(p, q) <==> forall a: Address :: Contains(q, a) ==> Contains(p, a)
  {
    if Covers(p, q) {
      forall a: Address | Contains(q, a) ensures Contains(p, a) { CoversKeepsMembers(p, q, a); }
    } else if Contains(p, q.addr) {
      var other := Flip(q.addr, q.len);
      assert Contains(q, other);
      assert q.addr.bits[..p.len][q.len] != other.bits[..p.len][q.len];
      assert !Contains(p, other);
    } else {
      assert Contains(q, q.addr);
    }
  }

  /** `Overlaps` is having an address in common. */
  lemma OverlapsIsIntersection(p: Prefix, q: Prefix)
    ensures Overlaps(p, q) <==> exists a: Address :: Contains(p, a) && Contains(q, a)
  {
    if Overlaps(p, q) {
      var a := if p.len <= q.len then q.addr else p.addr;
      assert Contains(p, a) && Contains(q, a);
    }
    forall a: Address | Contains(p, a) && Contains(q, a) ensures Overlaps(p, q) {
      var n := if p.len <= q.len then p.len else q.len;
      assert p.addr.bits[..n] == p.addr.bits[..p.len][..n] == a.bits[..n];
      assert q.addr.bits[..n] == q.addr.bits[..q.len][..n] == a.bits[..n];
    }
  }

  // ---- Texts ----

  /** A CIDR text is determined by what netip.ParsePrefix reads in it and by its spelling. */
  datatype CidrText = NotCidr(text: string) | Cidr(prefix: Prefix, spelling: string)

  predicate MentionsColon(raw: CidrText) {
    match raw
    case NotCidr(text) => ':' in text
    case Cidr(prefix, _) => prefix.addr.family.IPv6?
  }

  predicate Is4In6(a: Address) {
    && a.family.IPv6?
    && (forall i :: 0 <= i < 80 ==> !a.bits[i])
    && (forall i :: 80 <= i < 96 ==> a.bits[i])
  }

  function BitValue(bit: bool): nat { if bit then 1 else 0 }

  /** Byte `k` of an address. */
  function Octet(a: Address, k: nat): nat
    requires 8 * k + 8 <= |a.bits|
  {
    var b, i := a.bits, 8 * k;
    128 * BitValue(b[i]) + 64 * BitValue(b[i + 1]) + 32 * BitValue(b[i + 2]) + 16 * BitValue(b[i + 3]) + 8 * BitValue(b[i + 4])
    + 4 * BitValue(b[i + 5]) + 2 * BitValue(b[i + 6]) + BitValue(b[i + 7])
  }

  /** Not unspecified, not limited broadcast, not loopback, not multicast and not link-local. */
  predicate IsGlobalUnicast(a: Address) {
    if a.family.IPv4? then
      && (exists i :: 0 <= i < 32 && a.bits[i])
      && (exists i :: 0 <= i < 32 && !a.bits[i])
      && Octet(a, 0) != 127 && !(224 <= Octet(a, 0) < 240)
      && !(Octet(a, 0) == 169 && Octet(a, 1) == 254)
    else
      && (exists i :: 0 <= i < 127 && a.bits[i])
      && Octet(a, 0) != 255
      && !(Octet(a, 0) == 254 && 128 <= Octet(a, 1) < 192)
  }

  /** canonicalIPPrefix without a length demand; None stands for its error. */
  function Canonical(raw: CidrText): (r: Option<Prefix>)
    ensures r.Some? <==> raw.Cidr? && IsGlobalUnicast(raw.prefix.addr) && !Is4In6(raw.prefix.addr) && IsMasked(raw.prefix)
    ensures r.Some? ==> r.value == raw.prefix
  {
    if raw.Cidr? && !Is4In6(raw.prefix.addr) && IsGlobalUnicast(raw.prefix.addr) && IsMasked(raw.prefix)
    then Some(raw.prefix) else None
  }

  /** canonicalIPPrefix demanding a full-length prefix. */
  function CanonicalHost(raw: CidrText): (r: Option<Prefix>)
    ensures r.Some? <==> Canonical(raw).Some? && IsSingle(Canonical(raw).value)
    ensures r.Some? ==> r == Canonical(raw)
  {
    var p := Canonical(raw);
    if p.Some? && IsSingle(p.value) then p else None
  }

  /** Canonical prefixes are equal exactly when they hold the same addresses, so comparing them compares networks. */
  lemma CanonicalIsItsAddresses(raw: CidrText, other: CidrText)
    requires Canonical(raw).Some? && Canonical(other).Some?
    ensures Canonical(raw) == Canonical(other) <==>
              forall a: Address :: Contains(Canonical(raw).value, a) <==> Contains(Canonical(other).value, a)
  {
    var p, q := Canonical(raw).value, Canonical(other).value;
    if forall a: Address :: Contains(p, a) <==> Contains(q, a) {
      CoversIsInclusion(p, q);
      CoversIsInclusion(q, p);
      assert forall i :: 0 <= i < p.len ==> p.addr.bits[i] == p.addr.bits[..p.len][i] == q.addr.bits[..p.len][i] == q.addr.bits[i];
      assert p.addr.bits == q.addr.bits;
    }
  }

  /** The unspecified addresses are not global unicast, so a canonical prefix is never 0.0.0.0/0 or ::/0. */
  lemma CanonicalIsNotEverything(raw: CidrText)
    requires Canonical(raw).Some?
    ensures Canonical(raw).value.len > 0
  {
  }
}
