/** Finitely many packets stand for all: every packet that some rule of a list matches has a stand-in, built
    from the prefixes, protocols and ports at hand, that the same rules match. */
module PacketClasses {
  import opened Prefixes
  import opened GatewayTypes
  import opened GatewayPeers
  import opened GatewayFirewall

  // ---- Addresses ----

  /** The first `k` bits of a prefix's address, then one chosen bit, then zeros. */
  function Corner(q: Prefix, k: nat, bit: bool): Address {
    var width := Width(q.addr.family);
    if k >= width then q.addr
    else Address(q.addr.family, q.addr.bits[..k] + [bit] + seq(width - k - 1, _ => false))
  }

  function CornersOf(q: Prefix): seq<Address> {
    seq(2 * Width(q.addr.family) + 2, n requires 0 <= n < 2 * Width(q.addr.family) + 2 => Corner(q, n / 2, n % 2 == 1))
  }

  function Corners(prefixes: seq<Prefix>): seq<Address> {
    if prefixes == [] then [] else CornersOf(prefixes[0]) + Corners(prefixes[1..])
  }

  lemma {:induction false} CornerIsListed(prefixes: seq<Prefix>, i: nat, k: nat, bit: bool)
    requires i < |prefixes| && k <= Width(prefixes[i].addr.family)
    ensures Corner(prefixes[i], k, bit) in Corners(prefixes)
  {
    if i == 0 {
      var n := 2 * k + if bit then 1 else 0;
      assert n / 2 == k && (n % 2 == 1) == bit;
      assert CornersOf(prefixes[0])[n] == Corner(prefixes[0], k, bit);
    } else {
      CornerIsListed(prefixes[1..], i - 1, k, bit);
    }
  }

  /** How many leading bits agree. */
  function Shared(x: seq<bool>, y: seq<bool>): (n: nat)
    requires |x| == |y|
    ensures n <= |x| && x[..n] == y[..n]
    ensures forall j :: 0 <= j <= |x| && x[..j] == y[..j] ==> j <= n
  {
    if x == [] || x[0] != y[0] then
      assert forall j :: 0 < j <= |x| && x[..j] == y[..j] ==> x[..j][0] == y[..j][0];
      0
    else
      var n := Shared(x[1..], y[1..]);
      assert x[..n + 1] == [x[0]] + x[1..][..n];
      assert y[..n + 1] == [y[0]] + y[1..][..n];
      assert forall j :: 0 < j <= |x| && x[..j] == y[..j] ==> x[1..][..j - 1] == x[..j][1..] && y[1..][..j - 1] == y[..j][1..];
      n + 1
  }

  predicate SameFamily(q: Prefix, x: Address) { q.addr.family == x.family }

  /** The prefix whose address follows `x` longest. */
  lemma {:induction false} Closest(prefixes: seq<Prefix>, x: Address) returns (i: nat)
    requires exists k :: 0 <= k < |prefixes| && SameFamily(prefixes[k], x)
    ensures i < |prefixes| && SameFamily(prefixes[i], x)
    ensures forall k :: 0 <= k < |prefixes| && SameFamily(prefixes[k], x) ==>
              Shared(prefixes[k].addr.bits, x.bits) <= Shared(prefixes[i].addr.bits, x.bits)
  {
    var rest := prefixes[1..];
    assert forall k :: 1 <= k < |prefixes| ==> rest[k - 1] == prefixes[k];
    if exists k :: 0 <= k < |rest| && SameFamily(rest[k], x) {
      var j := Closest(rest, x);
      i := if SameFamily(prefixes[0], x) && Shared(prefixes[0].addr.bits, x.bits) > Shared(rest[j].addr.bits, x.bits) then 0 else j + 1;
    } else {
      i := 0;
    }
  }

  /** An address that follows `x` one bit past every prefix is in the same prefixes as `x`. */
  lemma SameSide(s: Prefix, x: Address, y: Address, k: nat)
    requires x.family == y.family && k < |x.bits| && y.bits[..k + 1] == x.bits[..k + 1]
    requires SameFamily(s, x) ==> Shared(s.addr.bits, x.bits) <= k
    ensures Contains(s, x) <==> Contains(s, y)
  {
    if SameFamily(s, x) {
      if s.len <= k + 1 {
        assert x.bits[..s.len] == x.bits[..k + 1][..s.len];
        assert y.bits[..s.len] == y.bits[..k + 1][..s.len];
      } else {
        assert s.addr.bits[..k + 1] == s.addr.bits[..s.len][..k + 1];
        assert y.bits[..k + 1] == y.bits[..s.len][..k + 1] && x.bits[..k + 1] == x.bits[..s.len][..k + 1];
      }
    }
  }

  /** The corner of `q` where `x` leaves it follows `x` one bit further. */
  lemma CornerFollows(q: Prefix, x: Address)
    requires SameFamily(q, x)
    ensures var k := Shared(q.addr.bits, x.bits);
            var y := Corner(q, k, k < |x.bits| && x.bits[k]);
            y.family == x.family && if k == |x.bits| then y == x else y.bits[..k + 1] == x.bits[..k + 1]
  {
    var k := Shared(q.addr.bits, x.bits);
    if k == |x.bits| {
      assert q.addr.bits[..k] == q.addr.bits && x.bits[..k] == x.bits;
    } else {
      var y := Corner(q, k, x.bits[k]);
      assert y.bits[..k + 1] == q.addr.bits[..k] + [x.bits[k]];
      assert x.bits[..k + 1] == x.bits[..k] + [x.bits[k]];
    }
  }

  /** Some corner lies in exactly the same prefixes. */
  lemma {:induction false} AddressStandIn(prefixes: seq<Prefix>, x: Address) returns (y: Address)
    requires exists k :: 0 <= k < |prefixes| && SameFamily(prefixes[k], x)
    ensures y in Corners(prefixes)
    ensures forall k :: 0 <= k < |prefixes| ==> (Contains(prefixes[k], x) <==> Contains(prefixes[k], y))
  {
    var i := Closest(prefixes, x);
    var q := prefixes[i];
    var k := Shared(q.addr.bits, x.bits);
    var bit := k < |x.bits| && x.bits[k];
    y := Corner(q, k, bit);
    CornerIsListed(prefixes, i, k, bit);
    CornerFollows(q, x);
    if k < |x.bits| {
      forall n | 0 <= n < |prefixes| ensures Contains(prefixes[n], x) <==> Contains(prefixes[n], y) {
        SameSide(prefixes[n], x, y, k);
      }
    }
  }

  // ---- Packets ----

  function RuleSources(rules: seq<Rule>): seq<Prefix> { seq(|rules|, i requires 0 <= i < |rules| => PrefixOf(rules[i].source)) }
  function RuleDestinations(rules: seq<Rule>): seq<Prefix> { seq(|rules|, i requires 0 <= i < |rules| => PrefixOf(rules[i].destination)) }

  function Side(interface: string, inside: bool): string { if inside then interface else interface + "'" }

  /** A stand-in packet: each of its parts comes from a finite list that the rules fix. */
  function StandIn(interface: string, inward: bool, outward: bool, src: Address, dst: Address, protocol: string, port: Port): Packet {
    Packet(Side(interface, inward), Side(interface, outward), src, dst, protocol, port, New)
  }

  /** The same rules match both packets. */
  ghost predicate Alike(rules: seq<Rule>, interface: string, p: Packet, q: Packet) {
    forall i :: 0 <= i < |rules| ==> (RuleMatches(rules[i], interface, p) <==> RuleMatches(rules[i], interface, q))
  }

  /** A protocol among those of the rules that the same rules name. */
  lemma ProtocolStandIn(rules: seq<Rule>, protocol: string, at: nat) returns (n: nat)
    requires at < |rules| && (rules[at].protocol == "any" || rules[at].protocol == protocol)
    ensures n < |rules|
    ensures forall i :: 0 <= i < |rules| && rules[i].protocol != "any" ==>
              (rules[i].protocol == protocol <==> rules[i].protocol == rules[n].protocol)
  {
    if k :| 0 <= k < |rules| && rules[k].protocol == protocol {
      n := k;
    } else {
      n := at;
    }
  }

  lemma {:induction false} PacketStandIn(rules: seq<Rule>, interface: string, packet: Packet, at: nat)
    returns (src: Address, dst: Address, n: nat)
    requires at < |rules| && RuleMatches(rules[at], interface, packet)
    ensures src in Corners(RuleSources(rules)) && dst in Corners(RuleDestinations(rules)) && n < |rules|
    ensures Alike(rules, interface, packet, StandIn(interface, packet.iif == interface, packet.oif == interface, src, dst,
                                                    rules[n].protocol, packet.dport))
  {
    assert SameFamily(RuleSources(rules)[at], packet.src) && SameFamily(RuleDestinations(rules)[at], packet.dst);
    src := AddressStandIn(RuleSources(rules), packet.src);
    dst := AddressStandIn(RuleDestinations(rules), packet.dst);
    n := ProtocolStandIn(rules, packet.protocol, at);
    var other := StandIn(interface, packet.iif == interface, packet.oif == interface, src, dst, rules[n].protocol, packet.dport);
    assert |Side(interface, false)| != |interface|;
    forall i | 0 <= i < |rules| ensures RuleMatches(rules[i], interface, packet) <==> RuleMatches(rules[i], interface, other) {
      assert RuleSources(rules)[i] == PrefixOf(rules[i].source) && RuleDestinations(rules)[i] == PrefixOf(rules[i].destination);
    }
  }

  // ---- When two rules can match the same packet ----

  predicate TakesTransport(rule: Rule, protocol: string, port: int) {
    rule.protocol == "any" || (rule.protocol == protocol && (rule.ports == [] || port in rule.ports))
  }

  predicate CanMeet(a: Rule, b: Rule) {
    && Overlaps(PrefixOf(a.source), PrefixOf(b.source)) && Overlaps(PrefixOf(a.destination), PrefixOf(b.destination))
    && exists port :: 0 <= port < 0x1_0000 &&
         ((TakesTransport(a, a.protocol, port) && TakesTransport(b, a.protocol, port)) ||
          (TakesTransport(a, b.protocol, port) && TakesTransport(b, b.protocol, port)))
  }

  /** The test is exact: two rules can meet when, and only when, some packet matches both. */
  lemma CanMeetIsExact(a: Rule, b: Rule, interface: string)
    ensures CanMeet(a, b) <==> exists packet :: RuleMatches(a, interface, packet) && RuleMatches(b, interface, packet)
  {
    OverlapsIsIntersection(PrefixOf(a.source), PrefixOf(b.source));
    OverlapsIsIntersection(PrefixOf(a.destination), PrefixOf(b.destination));
    if CanMeet(a, b) {
      var port: Port :|
        (TakesTransport(a, a.protocol, port) && TakesTransport(b, a.protocol, port)) ||
        (TakesTransport(a, b.protocol, port) && TakesTransport(b, b.protocol, port));
      var src: Address :| Contains(PrefixOf(a.source), src) && Contains(PrefixOf(b.source), src);
      var dst: Address :| Contains(PrefixOf(a.destination), dst) && Contains(PrefixOf(b.destination), dst);
      var protocol := if TakesTransport(a, a.protocol, port) && TakesTransport(b, a.protocol, port) then a.protocol else b.protocol;
      var packet := StandIn(interface, true, true, src, dst, protocol, port);
      assert RuleMatches(a, interface, packet) && RuleMatches(b, interface, packet);
    }
    forall packet | RuleMatches(a, interface, packet) && RuleMatches(b, interface, packet) ensures CanMeet(a, b) {
      var port := packet.dport;
      assert TakesTransport(a, packet.protocol, port) && TakesTransport(b, packet.protocol, port);
      assert (TakesTransport(a, a.protocol, port) && TakesTransport(b, a.protocol, port)) ||
             (TakesTransport(a, b.protocol, port) && TakesTransport(b, b.protocol, port));
    }
  }
}
