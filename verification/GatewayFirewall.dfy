/** Lease-bound firewall rules: the validator's loop, first-match packet semantics, and why
    every packet an accepted configuration allows is authorised. */
module GatewayFirewall {
  import opened Options
  import opened Prefixes
  import opened GatewayTypes
  import opened GatewayPeers

  // ---- What the validator accepts ----

  /** Leases by ID; a later lease with the same ID replaces an earlier one. */
  function LeaseTable(leases: seq<NetworkLease>): map<string, NetworkLease> {
    if leases == [] then map[]
    else var last := leases[|leases| - 1]; LeaseTable(leases[..|leases| - 1])[last.id := last]
  }

  function LeaseIds(leases: seq<ResourceLease>): set<string> { set i | 0 <= i < |leases| :: leases[i].id }

  predicate OutlivesLease(expiresAt: Option<Time>, validUntil: Time, now: Time) {
    expiresAt.Some? && expiresAt.value >= validUntil && expiresAt.value > now
  }

  predicate SiteRuleCovered(prefixes: seq<Prefix>, direction: string, source: Prefix, destination: Prefix) {
    var candidate := if direction == "to_wireguard" then destination else source;
    exists k :: 0 <= k < |prefixes| && Covers(prefixes[k], candidate)
  }

  predicate CoveredByAny(candidate: Prefix, raws: seq<CidrText>) {
    exists k :: 0 <= k < |raws| && Canonical(raws[k]).Some? && Covers(Canonical(raws[k]).value, candidate)
  }

  predicate ProtectedDenyFollows(later: seq<Rule>, allowed: Rule, destination: Prefix) {
    exists k :: 0 <= k < |later| && later[k].effect == "deny" && later[k].source == allowed.source
             && Canonical(later[k].destination).Some? && Covers(destination, Canonical(later[k].destination).value)
  }

  predicate RuleShapeOk(rule: Rule) {
    && IsIdentifier(rule.id)
    && Canonical(rule.source).Some?
    && Canonical(rule.destination).Some? && Canonical(rule.destination).value.len != 0
    && rule.effect in ["allow", "deny"]
    && rule.protocol in ["any", "tcp", "udp"]
    && (rule.protocol == "any" ==> rule.ports == [])
    && forall i :: 0 <= i < |rule.ports| ==> 1 <= rule.ports[i] <= 65535
  }

  predicate RuleSourceOk(rule: Rule, sources: Sources, validUntil: Time, now: Time)
    requires RuleShapeOk(rule)
  {
    var source, destination := Canonical(rule.source).value, Canonical(rule.destination).value;
    && (rule.leaseId == "" || rule.siteLinkRuntimeId == "")
    && if rule.siteLinkRuntimeId != "" then
         && rule.siteLinkRuntimeId in sources.site
         && rule.direction in ["from_wireguard", "to_wireguard"]
         && SiteRuleCovered(sources.site[rule.siteLinkRuntimeId], rule.direction, source, destination)
         && OutlivesLease(rule.expiresAt, validUntil, now)
       else
         rule.direction == "" && IsSingle(source) && source in sources.endpoint
  }

  predicate RuleLeaseOk(rule: Rule, leases: map<string, NetworkLease>, resources: set<string>, validUntil: Time, now: Time)
    requires RuleShapeOk(rule)
  {
    rule.effect == "allow" ==>
      && OutlivesLease(rule.expiresAt, validUntil, now)
      && (rule.siteLinkRuntimeId == "" ==>
            && (rule.leaseId in leases || rule.leaseId in resources)
            && (rule.leaseId in leases ==> CoveredByAny(Canonical(rule.destination).value, leases[rule.leaseId].cidrs)))
  }

  predicate RuleOk(rule: Rule, sources: Sources, leases: map<string, NetworkLease>, resources: set<string>,
                   validUntil: Time, now: Time)
  {
    RuleShapeOk(rule) && RuleSourceOk(rule, sources, validUntil, now) && RuleLeaseOk(rule, leases, resources, validUntil, now)
  }

  predicate DeniesComeFirst(rules: seq<Rule>, i: nat, resources: set<string>)
    requires i < |rules|
  {
    rules[i].effect == "allow" && rules[i].leaseId !in resources ==>
      !ProtectedDenyFollows(rules[i + 1..], rules[i], PrefixOf(rules[i].destination))
  }

  predicate FirewallOk(rules: seq<Rule>, sources: Sources, leases: map<string, NetworkLease>, resources: set<string>,
                       validUntil: Time, now: Time)
  {
    && (forall i :: 0 <= i < |rules| ==> PassesAt(rules, i, sources, leases, resources, validUntil, now))
    && (forall i, j :: 0 <= i < j < |rules| ==> rules[i].id != rules[j].id)
  }

  method TabulateLeases(leases: seq<NetworkLease>) returns (table: map<string, NetworkLease>)
    ensures table == LeaseTable(leases)
  {
    table := map[];
    for n := 0 to |leases|
      invariant table == LeaseTable(leases[..n])
    {
      assert leases[..n + 1][..n] == leases[..n];
      table := table[leases[n].id := leases[n]];
    }
    assert leases[..|leases|] == leases;
  }

  /** Everything the validator checks when it reaches rule `n`, apart from ID uniqueness. */
  predicate PassesAt(rules: seq<Rule>, n: nat, sources: Sources, leases: map<string, NetworkLease>, resources: set<string>,
                     validUntil: Time, now: Time)
    requires n < |rules|
  {
    RuleOk(rules[n], sources, leases, resources, validUntil, now) && DeniesComeFirst(rules, n, resources)
  }

  method ValidateFirewall(rules: seq<Rule>, sources: Sources, networkLeases: seq<NetworkLease>,
                          resourceLeases: seq<ResourceLease>, validUntil: Time, now: Time) returns (ok: bool)
    ensures ok <==> FirewallOk(rules, sources, LeaseTable(networkLeases), LeaseIds(resourceLeases), validUntil, now)
  {
    var leases := TabulateLeases(networkLeases);
    var resources := LeaseIds(resourceLeases);
    ok := CheckRules(rules, sources, leases, resources, validUntil, now);
  }

  /** The body of the rule loop for one rule. */
  method CheckRule(rules: seq<Rule>, n: nat, sources: Sources, leases: map<string, NetworkLease>, resources: set<string>,
                   validUntil: Time, now: Time) returns (ok: bool)
    requires n < |rules|
    ensures ok <==> PassesAt(rules, n, sources, leases, resources, validUntil, now)
  {
    if !RuleOk(rules[n], sources, leases, resources, validUntil, now) {
      return false;
    }
    if rules[n].effect == "allow" && rules[n].leaseId !in resources &&
       ProtectedDenyFollows(rules[n + 1..], rules[n], Canonical(rules[n].destination).value) {
      return false;
    }
    return true;
  }

  method CheckRules(rules: seq<Rule>, sources: Sources, leases: map<string, NetworkLease>, resources: set<string>,
                    validUntil: Time, now: Time) returns (ok: bool)
    ensures ok <==> FirewallOk(rules, sources, leases, resources, validUntil, now)
  {
    var seen: set<string> := {};
    for n := 0 to |rules|
      invariant forall i :: 0 <= i < n ==> rules[i].id in seen
      invariant forall id :: id in seen ==> exists i :: 0 <= i < n && rules[i].id == id
      invariant forall i :: 0 <= i < n ==> PassesAt(rules, i, sources, leases, resources, validUntil, now)
      invariant forall i, j :: 0 <= i < j < n ==> rules[i].id != rules[j].id
    {
      if rules[n].id in seen {
        return false;
      }
      seen := seen + {rules[n].id};
      var passes := CheckRule(rules, n, sources, leases, resources, validUntil, now);
      if !passes {
        return false;
      }
    }
    return true;
  }

  predicate SnatFamilyOk(wg: WireGuard, egress: string) {
    wg.routingMode == "snat" ==>
      && IsInterfaceName(egress)
      && (forall i :: 0 <= i < |wg.addresses| ==> !MentionsColon(wg.addresses[i]))
      && (forall i :: 0 <= i < |wg.routes| ==> !MentionsColon(wg.routes[i]))
      && (forall i :: 0 <= i < |wg.rules| ==> !MentionsColon(wg.rules[i].source) && !MentionsColon(wg.rules[i].destination))
  }

  predicate WireGuardOk(wg: WireGuard, publicKey: string, egress: string) {
    && wg.role == "gateway" && wg.interfaceName == DEFAULT_INTERFACE && wg.publicKey == publicKey
    && 1 <= wg.listenPort <= 65535 && 1280 <= wg.mtu <= 1500 && wg.firewallDefault == "deny"
    && wg.routingMode in ["routed", "snat"]
    && SnatFamilyOk(wg, egress)
    && |wg.addresses| == 1 && |wg.peers| <= 1024 && |wg.routes| <= 256 && |wg.rules| <= 4096
    && CanonicalHost(wg.addresses[0]).Some?
  }

  predicate DesiredOk(desired: Desired, publicKey: string, now: Time, egress: string) {
    && desired.configurationVersion > 0 && desired.policyVersion > 0 && desired.validUntil > now
    && match desired.wireGuard
       case None => desired.networkLeases == [] && desired.resourceLeases == [] && desired.accessProfile in ["onboarding", "deny"]
       case Some(wg) =>
         && WireGuardOk(wg, publicKey, egress)
         && PeersOk(wg.peers)
         && RoutesOk(wg.routes, SourcesOf(wg.peers).routes)
         && !(wg.routingMode == "snat" && SourcesOf(wg.peers).site != map[])
         && FirewallOk(wg.rules, SourcesOf(wg.peers), LeaseTable(desired.networkLeases), LeaseIds(desired.resourceLeases),
                       desired.validUntil, now)
  }

  method ValidateGatewayDesired(desired: Desired, publicKey: string, now: Time, egress: string) returns (ok: bool)
    ensures ok <==> DesiredOk(desired, publicKey, now, egress)
  {
    if desired.configurationVersion <= 0 || desired.policyVersion <= 0 || desired.validUntil <= now {
      return false;
    }
    if desired.wireGuard.None? {
      return desired.networkLeases == [] && desired.resourceLeases == [] && desired.accessProfile in ["onboarding", "deny"];
    }
    var wg := desired.wireGuard.value;
    if !WireGuardOk(wg, publicKey, egress) {
      return false;
    }
    var peersOk, sources := ValidatePeers(wg.peers);
    if !peersOk {
      return false;
    }
    var routesOk := ValidateRoutes(wg.routes, sources.routes);
    if !routesOk || (wg.routingMode == "snat" && sources.site != map[]) {
      return false;
    }
    ok := ValidateFirewall(wg.rules, sources, desired.networkLeases, desired.resourceLeases, desired.validUntil, now);
  }

  // ---- What a rule list does to packets ----

  type Port = p: int | 0 <= p < 0x1_0000

  /** What connection tracking says of a packet. */
  datatype Connection = New | Established | Related | Invalid | Untracked

  datatype Packet = Packet(iif: string, oif: string, src: Address, dst: Address, protocol: string, dport: Port, connection: Connection)

  /** Traffic of a connection that is already allowed. */
  predicate IsReturn(packet: Packet) { packet.connection == Established || packet.connection == Related }

  predicate Touches(packet: Packet, interface: string) { packet.iif == interface || packet.oif == interface }

  predicate RuleMatches(rule: Rule, interface: string, packet: Packet) {
    && (if rule.direction == "to_wireguard" then packet.oif == interface else packet.iif == interface)
    && Contains(PrefixOf(rule.source), packet.src)
    && Contains(PrefixOf(rule.destination), packet.dst)
    && (rule.protocol == "any" || (rule.protocol == packet.protocol && (rule.ports == [] || packet.dport in rule.ports)))
  }

  /** The first rule that matches the packet, whatever its expiry. */
  function FirstMatch(rules: seq<Rule>, interface: string, packet: Packet): (r: Option<Rule>)
    ensures r.Some? ==> r.value in rules && RuleMatches(r.value, interface, packet)
    ensures r.None? ==> forall i :: 0 <= i < |rules| ==> !RuleMatches(rules[i], interface, packet)
  {
    if rules == [] then None
    else if RuleMatches(rules[0], interface, packet) then Some(rules[0])
    else FirstMatch(rules[1..], interface, packet)
  }

  predicate Allows(rules: seq<Rule>, interface: string, packet: Packet) {
    var r := FirstMatch(rules, interface, packet);
    r.Some? && r.value.effect == "allow"
  }

  lemma {:induction false} FirstMatchIndex(rules: seq<Rule>, interface: string, packet: Packet) returns (at: nat)
    requires FirstMatch(rules, interface, packet).Some?
    ensures at < |rules| && rules[at] == FirstMatch(rules, interface, packet).value
    ensures RuleMatches(rules[at], interface, packet)
    ensures forall i :: 0 <= i < at ==> !RuleMatches(rules[i], interface, packet)
  {
    if RuleMatches(rules[0], interface, packet) {
      at := 0;
    } else {
      var rest := FirstMatchIndex(rules[1..], interface, packet);
      at := rest + 1;
      assert forall i :: 1 <= i < at ==> rules[i] == rules[1..][i - 1];
    }
  }

  // ---- Soundness ----

  /** The packet end that a site-link rule vouches for. */
  function SiteEnd(rule: Rule, packet: Packet): Address { if rule.direction == "to_wireguard" then packet.dst else packet.src }

  ghost predicate FromEndpointPeer(peers: seq<Peer>, packet: Packet) {
    exists i :: 0 <= i < |peers| && !IsSitePeer(peers[i]) && |peers[i].allowedIPs| == 1
             && PrefixOf(peers[i].allowedIPs[0]) == Prefix(packet.src, Width(packet.src.family))
  }

  ghost predicate InsideSite(peers: seq<Peer>, runtimeId: string, a: Address) {
    exists i :: 0 <= i < |peers| && IsSitePeer(peers[i]) && peers[i].runtimeId == runtimeId && Owns(peers[i], a)
  }

  ghost predicate InsideLease(leases: seq<NetworkLease>, leaseId: string, a: Address) {
    exists n, k :: 0 <= n < |leases| && leases[n].id == leaseId && 0 <= k < |leases[n].cidrs|
                && Canonical(leases[n].cidrs[k]).Some? && Contains(Canonical(leases[n].cidrs[k]).value, a)
  }

  ghost predicate NamesResourceLease(leases: seq<ResourceLease>, leaseId: string) {
    exists n :: 0 <= n < |leases| && leases[n].id == leaseId
  }

  /** Why an allow rule may let this packet through. */
  ghost predicate Justifies(desired: Desired, rule: Rule, packet: Packet, now: Time)
    requires desired.wireGuard.Some?
  {
    var peers := desired.wireGuard.value.peers;
    && rule.effect == "allow"
    && OutlivesLease(rule.expiresAt, desired.validUntil, now)
    && if rule.siteLinkRuntimeId != "" then InsideSite(peers, rule.siteLinkRuntimeId, SiteEnd(rule, packet))
       else
         && packet.iif == desired.wireGuard.value.interfaceName
         && FromEndpointPeer(peers, packet)
         && (NamesResourceLease(desired.resourceLeases, rule.leaseId) ||
             InsideLease(desired.networkLeases, rule.leaseId, packet.dst))
  }

  lemma {:induction false} LeaseTableIsLeases(leases: seq<NetworkLease>)
    ensures forall id :: id in LeaseTable(leases) ==>
              exists n :: 0 <= n < |leases| && leases[n].id == id && LeaseTable(leases)[id] == leases[n]
  {
    if leases != [] {
      LeaseTableIsLeases(leases[..|leases| - 1]);
    }
  }

  lemma {:induction false} SiteRuleStaysInside(peers: seq<Peer>, rule: Rule, packet: Packet, interface: string)
    requires rule.siteLinkRuntimeId in SiteSources(peers) && Canonical(rule.source).Some? && Canonical(rule.destination).Some?
    requires SiteRuleCovered(SiteSources(peers)[rule.siteLinkRuntimeId], rule.direction,
                             Canonical(rule.source).value, Canonical(rule.destination).value)
    requires RuleMatches(rule, interface, packet)
    ensures InsideSite(peers, rule.siteLinkRuntimeId, SiteEnd(rule, packet))
  {
    SiteSourcesAre(peers);
    var name := rule.siteLinkRuntimeId;
    var i :| 0 <= i < |peers| && IsSitePeer(peers[i]) && peers[i].runtimeId == name
          && SiteSources(peers)[name] == PrefixesOf(peers[i].allowedIPs);
    var candidate := PrefixOf(if rule.direction == "to_wireguard" then rule.destination else rule.source);
    var k :| 0 <= k < |peers[i].allowedIPs| && Covers(PrefixesOf(peers[i].allowedIPs)[k], candidate);
    CoversKeepsMembers(PrefixOf(peers[i].allowedIPs[k]), candidate, SiteEnd(rule, packet));
    assert Owns(peers[i], SiteEnd(rule, packet));
  }

  lemma {:induction false} EndpointRuleNamesItsPeer(peers: seq<Peer>, rule: Rule, packet: Packet, interface: string)
    requires PeersOk(peers) && rule.source.Cidr? && IsSingle(rule.source.prefix) && rule.source.prefix in EndpointSources(peers)
    requires RuleMatches(rule, interface, packet)
    ensures FromEndpointPeer(peers, packet)
  {
    var i :| 0 <= i < |peers| && !IsSitePeer(peers[i]) && peers[i].allowedIPs != [] && PrefixOf(peers[i].allowedIPs[0]) == rule.source.prefix;
    assert PeerShapeOk(peers[i]);
    SinglePrefixHoldsOneAddress(rule.source.prefix, packet.src);
  }

  /** Every packet whose first match is an allow is authorised by that allow. */
  lemma {:induction false} AllowedPacketsAreJustified(desired: Desired, publicKey: string, now: Time, egress: string, packet: Packet)
    requires DesiredOk(desired, publicKey, now, egress) && desired.wireGuard.Some?
    requires Allows(desired.wireGuard.value.rules, desired.wireGuard.value.interfaceName, packet)
    ensures var wg := desired.wireGuard.value;
            Justifies(desired, FirstMatch(wg.rules, wg.interfaceName, packet).value, packet, now)
  {
    var wg := desired.wireGuard.value;
    var at := FirstMatchIndex(wg.rules, wg.interfaceName, packet);
    var rule := wg.rules[at];
    var leases, resources := LeaseTable(desired.networkLeases), LeaseIds(desired.resourceLeases);
    assert PassesAt(wg.rules, at, SourcesOf(wg.peers), leases, resources, desired.validUntil, now);
    if rule.siteLinkRuntimeId != "" {
      SiteRuleStaysInside(wg.peers, rule, packet, wg.interfaceName);
    } else {
      EndpointRuleNamesItsPeer(wg.peers, rule, packet, wg.interfaceName);
      if rule.leaseId in leases {
        LeaseTableIsLeases(desired.networkLeases);
        var n :| 0 <= n < |desired.networkLeases| && desired.networkLeases[n].id == rule.leaseId
              && leases[rule.leaseId] == desired.networkLeases[n];
        var cidrs := desired.networkLeases[n].cidrs;
        var destination := Canonical(rule.destination).value;
        var k :| 0 <= k < |cidrs| && Canonical(cidrs[k]).Some? && Covers(Canonical(cidrs[k]).value, destination);
        CoversKeepsMembers(Canonical(cidrs[k]).value, destination, packet.dst);
        assert InsideLease(desired.networkLeases, rule.leaseId, packet.dst);
      }
    }
  }

  /** A deny is never overtaken by a covering non-resource allow with the same source text. */
  lemma {:induction false} DenyBeatsCoveringAllow(desired: Desired, publicKey: string, now: Time, egress: string, packet: Packet, deny: Rule)
    requires DesiredOk(desired, publicKey, now, egress) && desired.wireGuard.Some?
    requires deny in desired.wireGuard.value.rules && deny.effect == "deny"
    requires RuleMatches(deny, desired.wireGuard.value.interfaceName, packet)
    requires Allows(desired.wireGuard.value.rules, desired.wireGuard.value.interfaceName, packet)
    ensures var wg := desired.wireGuard.value;
            var allow := FirstMatch(wg.rules, wg.interfaceName, packet).value;
            || NamesResourceLease(desired.resourceLeases, allow.leaseId)
            || allow.source != deny.source
            || !Covers(PrefixOf(allow.destination), PrefixOf(deny.destination))
  {
    var wg := desired.wireGuard.value;
    var resources := LeaseIds(desired.resourceLeases);
    var at := FirstMatchIndex(wg.rules, wg.interfaceName, packet);
    var d :| 0 <= d < |wg.rules| && wg.rules[d] == deny;
    assert PassesAt(wg.rules, d, SourcesOf(wg.peers), LeaseTable(desired.networkLeases), resources, desired.validUntil, now);
    assert PassesAt(wg.rules, at, SourcesOf(wg.peers), LeaseTable(desired.networkLeases), resources, desired.validUntil, now);
    assert at < d;
    assert wg.rules[at + 1..][d - at - 1] == deny;
  }
}
