/** When a failed replacement may fall back to its predecessor: the check the executor makes,
    and exactly what it guarantees about packets. */
module RollbackAccess {
  import opened Options
  import opened Prefixes
  import opened GatewayTypes
  import opened GatewayPeers
  import opened GatewayFirewall
  import opened PacketClasses

  predicate IsAllow(rule: Rule) { rule.effect == "allow" }
  predicate IsDeny(rule: Rule) { rule.effect == "deny" }

  /** rollbackWouldRestoreAccess: a policy change, a removed allow or a new deny. */
  predicate WouldRestoreAccess(previous: Desired, desired: Desired) {
    || previous.policyVersion != desired.policyVersion
    || (previous.wireGuard.Some? &&
        (desired.wireGuard.None? ||
         var before, after := previous.wireGuard.value.rules, desired.wireGuard.value.rules;
         || (exists i :: 0 <= i < |before| && IsAllow(before[i]) && before[i] !in after)
         || (exists i :: 0 <= i < |after| && IsDeny(after[i]) && after[i] !in before)))
  }

  predicate OnlyAllowsAndDenies(rules: seq<Rule>) {
    forall i :: 0 <= i < |rules| ==> IsAllow(rules[i]) || IsDeny(rules[i])
  }

  /** What a passed check says of two rule lists. */
  predicate PassesCheck(before: seq<Rule>, after: seq<Rule>) {
    && (forall i :: 0 <= i < |before| && IsAllow(before[i]) ==> before[i] in after)
    && (forall i :: 0 <= i < |after| && IsDeny(after[i]) ==> after[i] in before)
  }

  // ---- Order ----

  /** First position of a rule, or the length. */
  function IndexOf(rules: seq<Rule>, rule: Rule): (n: nat)
    ensures n <= |rules| && (n < |rules| <==> rule in rules)
    ensures n < |rules| ==> rules[n] == rule
    ensures forall i :: 0 <= i < n ==> rules[i] != rule
  {
    if rules == [] || rules[0] == rule then 0 else 1 + IndexOf(rules[1..], rule)
  }

  predicate Precedes(rules: seq<Rule>, a: Rule, b: Rule) { IndexOf(rules, a) < IndexOf(rules, b) < |rules| }

  /** An allow before a deny in one list, after it in the other. */
  predicate Inverted(before: seq<Rule>, after: seq<Rule>, a: Rule, d: Rule) {
    IsAllow(a) && IsDeny(d) && Precedes(before, a, d) && Precedes(after, d, a)
  }

  /** No earlier rule than `rules[n]` matches. */
  predicate FirstAt(rules: seq<Rule>, n: nat, interface: string, packet: Packet)
    requires n < |rules|
  {
    RuleMatches(rules[n], interface, packet) && forall k :: 0 <= k < n ==> !RuleMatches(rules[k], interface, packet)
  }

  /** The packet meets an inverted pair, and no rule ahead of the pair in either list. */
  predicate Exposes(before: seq<Rule>, after: seq<Rule>, interface: string, packet: Packet) {
    exists i, j :: 0 <= i < |before| && 0 <= j < |after| && Inverted(before, after, before[i], after[j])
                && FirstAt(before, i, interface, packet) && FirstAt(after, j, interface, packet)
  }

  /** The test a caller can make: some stand-in packet exposes an inverted pair. */
  predicate InversionExposed(before: seq<Rule>, after: seq<Rule>, interface: string) {
    var rules := before + after;
    exists src, dst, n, port: int, inward: bool, outward: bool ::
      && src in Corners(RuleSources(rules)) && dst in Corners(RuleDestinations(rules)) && 0 <= n < |rules| && 0 <= port < 0x1_0000
      && Exposes(before, after, interface, StandIn(interface, inward, outward, src, dst, rules[n].protocol, port))
  }

  // ---- Packets ----

  lemma {:induction false} AllowsByFirst(rules: seq<Rule>, interface: string, packet: Packet, n: nat)
    requires n < |rules| && FirstAt(rules, n, interface, packet)
    ensures FirstMatch(rules, interface, packet) == Some(rules[n])
  {
    if n > 0 {
      var rest := rules[1..];
      assert forall k :: 0 <= k < n - 1 ==> rest[k] == rules[k + 1];
      AllowsByFirst(rest, interface, packet, n - 1);
    }
  }

  /** Where a passed check still loses a packet, an inverted pair is exposed by it. */
  lemma {:induction false} LostPacketExposes(before: seq<Rule>, after: seq<Rule>, interface: string, packet: Packet)
    requires OnlyAllowsAndDenies(after) && PassesCheck(before, after)
    requires Allows(before, interface, packet) && !Allows(after, interface, packet)
    ensures Exposes(before, after, interface, packet)
  {
    var i := FirstMatchIndex(before, interface, packet);
    var a := before[i];
    assert a in after;
    var j := FirstMatchIndex(after, interface, packet);
    var d := after[j];
    assert d in before;
    FirstComesFirst(before, i, d, interface, packet);
    FirstComesFirst(after, j, a, interface, packet);
    assert Inverted(before, after, before[i], after[j]);
  }

  /** The first matching rule precedes every other matching one. */
  lemma FirstComesFirst(rules: seq<Rule>, n: nat, other: Rule, interface: string, packet: Packet)
    requires n < |rules| && FirstAt(rules, n, interface, packet)
    requires other in rules && other != rules[n] && RuleMatches(other, interface, packet)
    ensures Precedes(rules, rules[n], other)
  {
    assert IndexOf(rules, rules[n]) <= n;
    assert RuleMatches(rules[IndexOf(rules, other)], interface, packet);
  }

  lemma {:induction false} ExposureLoses(before: seq<Rule>, after: seq<Rule>, interface: string, packet: Packet)
    requires Exposes(before, after, interface, packet)
    ensures Allows(before, interface, packet) && !Allows(after, interface, packet)
  {
    var i, j :| 0 <= i < |before| && 0 <= j < |after| && Inverted(before, after, before[i], after[j])
             && FirstAt(before, i, interface, packet) && FirstAt(after, j, interface, packet);
    AllowsByFirst(before, interface, packet, i);
    AllowsByFirst(after, interface, packet, j);
  }

  /** Exposure depends only on which rules match. */
  lemma {:induction false} ExposureIsShared(before: seq<Rule>, after: seq<Rule>, interface: string, packet: Packet, other: Packet)
    requires Exposes(before, after, interface, packet) && Alike(before + after, interface, packet, other)
    ensures Exposes(before, after, interface, other)
  {
    AlikeParts(before, after, interface, packet, other);
    var i, j :| 0 <= i < |before| && 0 <= j < |after| && Inverted(before, after, before[i], after[j])
             && FirstAt(before, i, interface, packet) && FirstAt(after, j, interface, packet);
    FirstIsShared(before, i, interface, packet, other);
    FirstIsShared(after, j, interface, packet, other);
  }

  lemma AlikeParts(before: seq<Rule>, after: seq<Rule>, interface: string, packet: Packet, other: Packet)
    requires Alike(before + after, interface, packet, other)
    ensures Alike(before, interface, packet, other) && Alike(after, interface, packet, other)
  {
    var rules := before + after;
    assert forall k :: 0 <= k < |before| ==> rules[k] == before[k];
    assert forall k :: 0 <= k < |after| ==> rules[|before| + k] == after[k];
  }

  lemma FirstIsShared(rules: seq<Rule>, n: nat, interface: string, packet: Packet, other: Packet)
    requires n < |rules| && FirstAt(rules, n, interface, packet) && Alike(rules, interface, packet, other)
    ensures FirstAt(rules, n, interface, other)
  {
  }

  /** Exactly when falling back after a passed check loses no packet: no stand-in packet exposes an inversion. */
  lemma {:induction false} NarrowsExactlyWhen(before: seq<Rule>, after: seq<Rule>, interface: string)
    requires OnlyAllowsAndDenies(after) && PassesCheck(before, after)
    ensures (forall packet :: Allows(before, interface, packet) ==> Allows(after, interface, packet))
       <==> !InversionExposed(before, after, interface)
  {
    var rules := before + after;
    if InversionExposed(before, after, interface) {
      var src, dst, n, port: Port, inward: bool, outward: bool :|
        && src in Corners(RuleSources(rules)) && dst in Corners(RuleDestinations(rules)) && 0 <= n < |rules|
        && Exposes(before, after, interface, StandIn(interface, inward, outward, src, dst, rules[n].protocol, port));
      ExposureLoses(before, after, interface, StandIn(interface, inward, outward, src, dst, rules[n].protocol, port));
    }
    forall packet | Allows(before, interface, packet) && !Allows(after, interface, packet)
      ensures InversionExposed(before, after, interface)
    {
      LostPacketExposes(before, after, interface, packet);
      var at := FirstMatchIndex(before, interface, packet);
      assert rules[at] == before[at];
      var src, dst, n := PacketStandIn(rules, interface, packet, at);
      var other := StandIn(interface, packet.iif == interface, packet.oif == interface, src, dst, rules[n].protocol, packet.dport);
      ExposureIsShared(before, after, interface, packet, other);
    }
  }

  /** A simpler test that suffices: every inverted pair is one that cannot meet. */
  ghost predicate KeepsOrder(before: seq<Rule>, after: seq<Rule>) {
    forall a, d :: Inverted(before, after, a, d) ==> !CanMeet(a, d)
  }

  lemma {:induction false} OrderOfMeetingRulesSuffices(before: seq<Rule>, after: seq<Rule>, interface: string)
    requires KeepsOrder(before, after)
    ensures !InversionExposed(before, after, interface)
  {
    forall packet | Exposes(before, after, interface, packet) ensures false {
      var i, j :| 0 <= i < |before| && 0 <= j < |after| && Inverted(before, after, before[i], after[j])
               && FirstAt(before, i, interface, packet) && FirstAt(after, j, interface, packet);
      CanMeetIsExact(before[i], after[j], interface);
    }
  }

  /** And one that is needed: a meeting pair is not inverted where every rule ahead of it in either list
      cannot meet one of the two. */
  lemma {:induction false} LoneInversionWidens(before: seq<Rule>, after: seq<Rule>, interface: string, a: Rule, d: Rule)
    requires Inverted(before, after, a, d) && CanMeet(a, d)
    requires forall k :: 0 <= k < IndexOf(before, a) ==> !CanMeet(before[k], a) || !CanMeet(before[k], d)
    requires forall k :: 0 <= k < IndexOf(after, d) ==> !CanMeet(after[k], a) || !CanMeet(after[k], d)
    ensures exists packet :: Allows(before, interface, packet) && !Allows(after, interface, packet)
  {
    CanMeetIsExact(a, d, interface);
    var packet :| RuleMatches(a, interface, packet) && RuleMatches(d, interface, packet);
    var i, j := IndexOf(before, a), IndexOf(after, d);
    forall k | 0 <= k < i ensures !RuleMatches(before[k], interface, packet) {
      CanMeetIsExact(before[k], a, interface);
      CanMeetIsExact(before[k], d, interface);
    }
    forall k | 0 <= k < j ensures !RuleMatches(after[k], interface, packet) {
      CanMeetIsExact(after[k], a, interface);
      CanMeetIsExact(after[k], d, interface);
    }
    assert FirstAt(before, i, interface, packet) && FirstAt(after, j, interface, packet);
    ExposureLoses(before, after, interface, packet);
  }

  ghost predicate Admits(desired: Desired, packet: Packet) {
    desired.wireGuard.Some? && Allows(desired.wireGuard.value.rules, desired.wireGuard.value.interfaceName, packet)
  }

  /** Between two configurations: the caller's test on their rule lists. */
  predicate ExposesInversion(previous: Desired, desired: Desired) {
    && previous.wireGuard.Some? && desired.wireGuard.Some?
    && InversionExposed(previous.wireGuard.value.rules, desired.wireGuard.value.rules, desired.wireGuard.value.interfaceName)
  }

  /** Rollback never widens access: when the check lets a failed replacement fall back, every packet the predecessor
      admits is one the replacement admits too, exactly when no inverted pair of shared rules is exposed. */
  lemma {:induction false} RollbackNeverWidens(previous: Desired, desired: Desired)
    requires !WouldRestoreAccess(previous, desired)
    requires previous.wireGuard.Some? && desired.wireGuard.Some? ==>
               && previous.wireGuard.value.interfaceName == desired.wireGuard.value.interfaceName
               && OnlyAllowsAndDenies(desired.wireGuard.value.rules)
    ensures (forall packet :: Admits(previous, packet) ==> Admits(desired, packet)) <==> !ExposesInversion(previous, desired)
  {
    if previous.wireGuard.Some? {
      var before, after := previous.wireGuard.value.rules, desired.wireGuard.value.rules;
      assert PassesCheck(before, after);
      NarrowsExactlyWhen(before, after, desired.wireGuard.value.interfaceName);
      assert forall packet :: Admits(previous, packet) <==> Allows(before, desired.wireGuard.value.interfaceName, packet);
      assert forall packet :: Admits(desired, packet) <==> Allows(after, desired.wireGuard.value.interfaceName, packet);
    }
  }

  lemma AcceptedRulesAllowOrDeny(desired: Desired, publicKey: string, now: Time, egress: string)
    requires DesiredOk(desired, publicKey, now, egress) && desired.wireGuard.Some?
    ensures OnlyAllowsAndDenies(desired.wireGuard.value.rules)
  {
    var wg := desired.wireGuard.value;
    forall i | 0 <= i < |wg.rules| ensures IsAllow(wg.rules[i]) || IsDeny(wg.rules[i]) {
      assert PassesAt(wg.rules, i, SourcesOf(wg.peers), LeaseTable(desired.networkLeases), LeaseIds(desired.resourceLeases),
                      desired.validUntil, now);
    }
  }

  // ---- The condition cannot be dropped ----

  const EXAMPLE_END: Time := 100 * SECOND

  /** One peer at `laptop`, a lease for `subnet`, and any rules. */
  function Example(version: int, laptop: CidrText, subnet: CidrText, gateway: CidrText, rules: seq<Rule>): Desired {
    Desired(version, 1, EXAMPLE_END, "full", [NetworkLease("lease", [subnet], "")], [], None,
            Some(WireGuard("gateway", DEFAULT_INTERFACE, "key", [gateway], 51820, 1420, "routed", "deny",
                           [Peer("", "", "laptop", "device", Key("k", "k"), HostName(""), 0, [laptop], 0)],
                           [laptop], rules, "")),
            None, "")
  }

  function AllowServer(laptop: CidrText, server: CidrText): Rule {
    Rule("a", "allow", "lease", "", "", laptop, server, "any", [], Some(EXAMPLE_END))
  }

  function DenySubnet(laptop: CidrText, subnet: CidrText): Rule {
    Rule("d", "deny", "", "", "", laptop, subnet, "any", [], None)
  }

  /** What the example needs of its four addresses. */
  ghost predicate ExampleTexts(laptop: CidrText, server: CidrText, subnet: CidrText, gateway: CidrText) {
    && CanonicalHost(laptop).Some? && CanonicalHost(gateway).Some?
    && Canonical(server).Some? && Canonical(subnet).Some?
    && server.prefix.len > subnet.prefix.len && Covers(subnet.prefix, server.prefix)
  }

  lemma {:induction false} ExamplePeerAccepted(laptop: CidrText)
    requires CanonicalHost(laptop).Some?
    ensures var peers := Example(1, laptop, laptop, laptop, []).wireGuard.value.peers;
            && PeersOk(peers) && RoutesOk([laptop], SourcesOf(peers).routes)
            && laptop.prefix in EndpointSources(peers) && SiteSources(peers) == map[]
  {
    var peers := Example(1, laptop, laptop, laptop, []).wireGuard.value.peers;
    CanonicalIsNotEverything(laptop);
    assert IsIdentifier("laptop") && IsIdentifier("device");
    assert PrefixesOf([laptop])[0] == laptop.prefix;
    assert PrefixesOf([laptop]) == [laptop.prefix];
    assert peers[..|peers| - 1] == [];
    assert AllPrefixes(peers[..|peers| - 1]) == [];
    assert AllPrefixes(peers) == [laptop.prefix];
    assert SetOf([laptop.prefix]) == {laptop.prefix} by { assert [laptop.prefix][0] in SetOf([laptop.prefix]); }
    assert PrefixOf(peers[0].allowedIPs[0]) == laptop.prefix;
  }

  lemma {:induction false} ExampleAllowAccepted(laptop: CidrText, server: CidrText, subnet: CidrText, sources: Sources)
    requires CanonicalHost(laptop).Some? && Canonical(server).Some? && Canonical(subnet).Some? && Covers(subnet.prefix, server.prefix)
    requires laptop.prefix in sources.endpoint
    ensures RuleOk(AllowServer(laptop, server), sources, map["lease" := NetworkLease("lease", [subnet], "")], {}, EXAMPLE_END, 0)
  {
    CanonicalIsNotEverything(server);
    CanonicalIsNotEverything(subnet);
    assert IsIdentifier("a");
    assert CoveredByAny(server.prefix, [subnet]) by { assert Covers(Canonical([subnet][0]).value, server.prefix); }
  }

  lemma {:induction false} ExampleDenyAccepted(laptop: CidrText, subnet: CidrText, sources: Sources, leases: map<string, NetworkLease>)
    requires CanonicalHost(laptop).Some? && Canonical(subnet).Some? && laptop.prefix in sources.endpoint
    ensures RuleOk(DenySubnet(laptop, subnet), sources, leases, {}, EXAMPLE_END, 0)
  {
    CanonicalIsNotEverything(subnet);
    assert IsIdentifier("d");
  }

  /** The subnet's deny is wider than the server's allow, so it may come after it. */
  lemma {:induction false} ExampleDenyDoesNotFollow(later: seq<Rule>, laptop: CidrText, server: CidrText, subnet: CidrText)
    requires Canonical(server).Some? && Canonical(subnet).Some? && server.prefix.len > subnet.prefix.len
    requires later == [] || later == [DenySubnet(laptop, subnet)]
    ensures !ProtectedDenyFollows(later, AllowServer(laptop, server), server.prefix)
  {
  }

  lemma {:induction false} ExampleRulesAccepted(laptop: CidrText, server: CidrText, subnet: CidrText, gateway: CidrText, rules: seq<Rule>)
    requires ExampleTexts(laptop, server, subnet, gateway)
    requires var a, d := AllowServer(laptop, server), DenySubnet(laptop, subnet); rules == [a, d] || rules == [d, a]
    ensures FirewallOk(rules, SourcesOf(Example(1, laptop, subnet, gateway, []).wireGuard.value.peers),
                       LeaseTable([NetworkLease("lease", [subnet], "")]), {}, EXAMPLE_END, 0)
  {
    var sources := SourcesOf(Example(1, laptop, subnet, gateway, []).wireGuard.value.peers);
    ExamplePeerAccepted(laptop);
    var lease := NetworkLease("lease", [subnet], "");
    assert [lease][..0] == [];
    assert LeaseTable([lease]) == map["lease" := lease];
    ExampleAllowAccepted(laptop, server, subnet, sources);
    ExampleDenyAccepted(laptop, subnet, sources, LeaseTable([lease]));
    forall i | 0 <= i < |rules| ensures DeniesComeFirst(rules, i, {}) {
      if rules[i].effect == "allow" {
        ExampleDenyDoesNotFollow(rules[i + 1..], laptop, server, subnet);
      }
    }
  }

  /** Swapping an allow and a deny that both configurations share passes the check and widens access:
      the validator accepts both configurations, and a packet to the server is admitted by the
      predecessor only. Addresses like 10.0.0.2/32, 10.1.0.5/32, 10.1.0.0/24 meet `ExampleTexts`. */
  lemma {:induction false} SwappedRulesWiden(laptop: CidrText, server: CidrText, subnet: CidrText, gateway: CidrText)
    requires ExampleTexts(laptop, server, subnet, gateway)
    ensures var a, d := AllowServer(laptop, server), DenySubnet(laptop, subnet);
            var previous, desired := Example(1, laptop, subnet, gateway, [a, d]), Example(2, laptop, subnet, gateway, [d, a]);
            var packet := Packet(DEFAULT_INTERFACE, "eth0", laptop.prefix.addr, server.prefix.addr, "tcp", 443, New);
            && DesiredOk(previous, "key", 0, "") && DesiredOk(desired, "key", 0, "")
            && !WouldRestoreAccess(previous, desired)
            && Admits(previous, packet) && !Admits(desired, packet)
  {
    var a, d := AllowServer(laptop, server), DenySubnet(laptop, subnet);
    ExamplePeerAccepted(laptop);
    ExampleRulesAccepted(laptop, server, subnet, gateway, [a, d]);
    ExampleRulesAccepted(laptop, server, subnet, gateway, [d, a]);
    var packet := Packet(DEFAULT_INTERFACE, "eth0", laptop.prefix.addr, server.prefix.addr, "tcp", 443, New);
    assert RuleMatches(a, DEFAULT_INTERFACE, packet);
    assert RuleMatches(d, DEFAULT_INTERFACE, packet);
    assert LeaseIds([]) == {};
  }

  const ZERO := [false, false, false, false, false, false, false, false]
  const ONE := [false, false, false, false, false, false, false, true]
  const TWO := [false, false, false, false, false, false, true, false]
  const FIVE := [false, false, false, false, false, true, false, true]
  const TEN := [false, false, false, false, true, false, true, false]

  function Host(third: seq<bool>, fourth: seq<bool>): CidrText
    requires |third| == |fourth| == 8
  {
    Cidr(Prefix(Address(IPv4, TEN + third + ZERO + fourth), 32), "")
  }

  lemma HostIsCanonical(third: seq<bool>, fourth: seq<bool>)
    requires |third| == |fourth| == 8
    ensures CanonicalHost(Host(third, fourth)).Some?
  {
    var bits := Host(third, fourth).prefix.addr.bits;
    assert !bits[0] && !bits[1] && bits[4];
  }

  function Subnet(third: seq<bool>): CidrText
    requires |third| == 8
  {
    Cidr(Prefix(Address(IPv4, TEN + third + ZERO + ZERO), 24), "")
  }

  lemma SubnetCovers(third: seq<bool>, fourth: seq<bool>)
    requires |third| == |fourth| == 8
    ensures Canonical(Subnet(third)).Some? && Covers(Subnet(third).prefix, Host(third, fourth).prefix)
  {
    var network, host := Subnet(third).prefix.addr.bits, Host(third, fourth).prefix.addr.bits;
    assert network[4] && !network[0] && !network[1];
    assert network[..24] == host[..24];
  }

  lemma HostsDiffer(a: seq<bool>, b: seq<bool>, c: seq<bool>, d: seq<bool>)
    requires |a| == |b| == |c| == |d| == 8 && (a != c || b != d)
    ensures Host(a, b).prefix != Host(c, d).prefix
  {
    var left, right := Host(a, b).prefix.addr.bits, Host(c, d).prefix.addr.bits;
    assert left[8..16] == a && left[24..] == b && right[8..16] == c && right[24..] == d;
  }

  /** The laptop 10.0.0.2, the server 10.1.0.5 in 10.1.0.0/24 and the gateway 10.0.0.1, all different. */
  lemma ExampleTextsExist()
    ensures var laptop, server, gateway := Host(ZERO, TWO), Host(ONE, FIVE), Host(ZERO, ONE);
            && ExampleTexts(laptop, server, Subnet(ONE), gateway)
            && laptop.prefix != server.prefix && server.prefix != gateway.prefix && laptop.prefix != gateway.prefix
  {
    HostIsCanonical(ZERO, TWO);
    HostIsCanonical(ONE, FIVE);
    HostIsCanonical(ZERO, ONE);
    SubnetCovers(ONE, FIVE);
    assert ZERO[7] != ONE[7] && TWO[7] != ONE[7];
    HostsDiffer(ZERO, TWO, ONE, FIVE);
    HostsDiffer(ONE, FIVE, ZERO, ONE);
    HostsDiffer(ZERO, TWO, ZERO, ONE);
  }
}
