/** What the gateway validator refuses, refusal by refusal: a configuration is accepted exactly when nothing in it is
    refused. The refusals are spelled out here on the fields of the configuration. */
module ValidationLaws {
  import opened Options
  import opened Prefixes
  import opened GatewayTypes
  import opened GatewayPeers
  import opened GatewayFirewall

  /** A text that is not the masked form of a global unicast prefix. */
  ghost predicate NotANetwork(raw: CidrText) {
    raw.NotCidr? || Is4In6(raw.prefix.addr) || !IsGlobalUnicast(raw.prefix.addr)
    || exists i :: raw.prefix.len <= i < |raw.prefix.addr.bits| && raw.prefix.addr.bits[i]
  }

  lemma NetworkTest(raw: CidrText)
    ensures Canonical(raw).Some? <==> !NotANetwork(raw)
    ensures !NotANetwork(raw) ==> Canonical(raw).value == PrefixOf(raw) == raw.prefix
  {
  }

  // ---- The interface ----

  ghost predicate WireGuardRefused(wg: WireGuard, publicKey: string, egress: string) {
    || wg.role != "gateway" || wg.interfaceName != "soha0" || wg.publicKey != publicKey
    || wg.listenPort < 1 || wg.listenPort > 65535 || wg.mtu < 1280 || wg.mtu > 1500 || wg.firewallDefault != "deny"
    || (wg.routingMode != "routed" && wg.routingMode != "snat")
    || |wg.addresses| != 1 || |wg.peers| > 1024 || |wg.routes| > 256 || |wg.rules| > 4096
    || NotANetwork(wg.addresses[0]) || wg.addresses[0].prefix.len != Width(wg.addresses[0].prefix.addr.family)
    || (wg.routingMode == "snat" && (!IsInterfaceName(egress) || MentionsSix(wg)))
  }

  /** Some address, route or rule end is written with a colon. */
  ghost predicate MentionsSix(wg: WireGuard) {
    || (exists i :: 0 <= i < |wg.addresses| && MentionsColon(wg.addresses[i]))
    || (exists i :: 0 <= i < |wg.routes| && MentionsColon(wg.routes[i]))
    || (exists i :: 0 <= i < |wg.rules| && (MentionsColon(wg.rules[i].source) || MentionsColon(wg.rules[i].destination)))
  }

  lemma WireGuardTest(wg: WireGuard, publicKey: string, egress: string)
    ensures WireGuardOk(wg, publicKey, egress) <==> !WireGuardRefused(wg, publicKey, egress)
  {
    if |wg.addresses| == 1 {
      NetworkTest(wg.addresses[0]);
    }
  }

  // ---- Peers ----

  /** A peer with an endpoint is a site; without one it is an endpoint device with a single address. */
  ghost predicate PeerRefused(peer: Peer) {
    var site := peer.endpointHost != HostName("") || peer.endpointPort != 0;
    || peer.publicKey.NotKey? || !IsIdentifier(peer.runtimeId) || peer.allowedIPs == [] || |peer.allowedIPs| > 128
    || (site && (peer.deviceId != "" || !IsEndpointHost(peer.endpointHost) || peer.endpointPort < 1 || peer.endpointPort > 65535
                 || peer.keepaliveSeconds < 0 || peer.keepaliveSeconds > 300))
    || (!site && (!IsIdentifier(peer.deviceId) || |peer.allowedIPs| != 1 || peer.keepaliveSeconds != 0))
    || exists k :: 0 <= k < |peer.allowedIPs| && AllowedRefused(peer.allowedIPs[k], site)
  }

  ghost predicate AllowedRefused(raw: CidrText, site: bool) {
    NotANetwork(raw) || raw.prefix.len == 0 || (!site && raw.prefix.len != Width(raw.prefix.addr.family))
  }

  lemma AllowedTest(raw: CidrText, site: bool)
    ensures AllowedIPOk(raw, site) <==> !AllowedRefused(raw, site)
  {
    NetworkTest(raw);
  }

  lemma PeerTest(peer: Peer)
    ensures PeerShapeOk(peer) && AllowedIPsOk(peer) <==> !PeerRefused(peer)
  {
    forall k | 0 <= k < |peer.allowedIPs|
      ensures AllowedIPOk(peer.allowedIPs[k], IsSitePeer(peer)) <==> !AllowedRefused(peer.allowedIPs[k], IsSitePeer(peer))
    {
      AllowedTest(peer.allowedIPs[k], IsSitePeer(peer));
    }
  }

  // ---- Rules ----

  ghost predicate Lapses(expiresAt: Option<Time>, validUntil: Time, now: Time) {
    expiresAt.None? || expiresAt.value < validUntil || expiresAt.value <= now
  }

  ghost predicate RuleRefused(rule: Rule, sources: Sources, leases: map<string, NetworkLease>, resources: set<string>, validUntil: Time, now: Time) {
    || !IsIdentifier(rule.id) || NotANetwork(rule.source) || NotANetwork(rule.destination) || rule.destination.prefix.len == 0
    || (rule.effect != "allow" && rule.effect != "deny")
    || (rule.protocol != "any" && rule.protocol != "tcp" && rule.protocol != "udp")
    || (rule.protocol == "any" && rule.ports != [])
    || (exists i :: 0 <= i < |rule.ports| && (rule.ports[i] < 1 || rule.ports[i] > 65535))
    || (rule.leaseId != "" && rule.siteLinkRuntimeId != "")
    || (rule.siteLinkRuntimeId != "" && SiteRefused(rule, sources.site, validUntil, now))
    || (rule.siteLinkRuntimeId == "" && EndpointRefused(rule, sources.endpoint))
    || (rule.effect == "allow" && Lapses(rule.expiresAt, validUntil, now))
    || (rule.effect == "allow" && rule.siteLinkRuntimeId == "" && LeaseRefused(rule, leases, resources))
  }

  /** A site rule must name a site, a direction and a live expiry, and its site end must lie inside one of its prefixes. */
  ghost predicate SiteRefused(rule: Rule, site: map<string, seq<Prefix>>, validUntil: Time, now: Time)
    requires rule.source.Cidr? && rule.destination.Cidr?
  {
    || rule.siteLinkRuntimeId !in site || Lapses(rule.expiresAt, validUntil, now)
    || (rule.direction != "from_wireguard" && rule.direction != "to_wireguard")
    || forall k :: 0 <= k < |site[rule.siteLinkRuntimeId]| ==>
         !Covers(site[rule.siteLinkRuntimeId][k], if rule.direction == "to_wireguard" then rule.destination.prefix else rule.source.prefix)
  }

  /** An endpoint rule has no direction and comes from the single address of an endpoint peer. */
  ghost predicate EndpointRefused(rule: Rule, endpoint: set<Prefix>)
    requires rule.source.Cidr?
  {
    rule.direction != "" || rule.source.prefix.len != Width(rule.source.prefix.addr.family) || rule.source.prefix !in endpoint
  }

  /** An allow must name a known lease and, of a network lease, stay inside one of its CIDRs. */
  ghost predicate LeaseRefused(rule: Rule, leases: map<string, NetworkLease>, resources: set<string>)
    requires rule.destination.Cidr?
  {
    || (rule.leaseId !in leases && rule.leaseId !in resources)
    || (rule.leaseId in leases &&
        forall k :: 0 <= k < |leases[rule.leaseId].cidrs| ==>
          NotANetwork(leases[rule.leaseId].cidrs[k]) || !Covers(leases[rule.leaseId].cidrs[k].prefix, rule.destination.prefix))
  }

  lemma LeaseTest(rule: Rule, leases: map<string, NetworkLease>, resources: set<string>)
    requires Canonical(rule.destination).Some?
    ensures (&& (rule.leaseId in leases || rule.leaseId in resources)
             && (rule.leaseId in leases ==> CoveredByAny(Canonical(rule.destination).value, leases[rule.leaseId].cidrs)))
       <==> !LeaseRefused(rule, leases, resources)
  {
    if rule.leaseId in leases {
      var cidrs := leases[rule.leaseId].cidrs;
      forall k | 0 <= k < |cidrs| ensures Canonical(cidrs[k]).Some? <==> !NotANetwork(cidrs[k]) {
        NetworkTest(cidrs[k]);
      }
    }
  }

  lemma ShapeTest(rule: Rule)
    ensures RuleShapeOk(rule) <==>
              && IsIdentifier(rule.id) && !NotANetwork(rule.source) && !NotANetwork(rule.destination) && rule.destination.prefix.len != 0
              && (rule.effect == "allow" || rule.effect == "deny")
              && (rule.protocol == "any" || rule.protocol == "tcp" || rule.protocol == "udp")
              && (rule.protocol == "any" ==> rule.ports == [])
              && !exists i :: 0 <= i < |rule.ports| && (rule.ports[i] < 1 || rule.ports[i] > 65535)
  {
    NetworkTest(rule.source);
    NetworkTest(rule.destination);
  }

  lemma RuleTest(rule: Rule, sources: Sources, leases: map<string, NetworkLease>, resources: set<string>, validUntil: Time, now: Time)
    ensures RuleOk(rule, sources, leases, resources, validUntil, now) <==> !RuleRefused(rule, sources, leases, resources, validUntil, now)
  {
    ShapeTest(rule);
    if RuleShapeOk(rule) {
      LeaseTest(rule, leases, resources);
    }
  }

  // ---- The whole configuration ----

  /** A deny of the same source text, inside what an earlier allow without a resource lease lets through. */
  ghost predicate DenyComesTooLate(rules: seq<Rule>, resources: set<string>) {
    exists i, j :: 0 <= i < j < |rules| && Shadows(rules[i], rules[j], resources)
  }

  ghost predicate Shadows(allow: Rule, deny: Rule, resources: set<string>) {
    && allow.effect == "allow" && allow.leaseId !in resources && deny.effect == "deny" && deny.source == allow.source
    && Canonical(deny.destination).Some? && Covers(PrefixOf(allow.destination), Canonical(deny.destination).value)
  }

  ghost predicate RulesRefused(rules: seq<Rule>, sources: Sources, leases: map<string, NetworkLease>, resources: set<string>, validUntil: Time, now: Time) {
    || (exists i :: 0 <= i < |rules| && RuleRefused(rules[i], sources, leases, resources, validUntil, now))
    || (exists i, j :: 0 <= i < j < |rules| && rules[i].id == rules[j].id)
    || DenyComesTooLate(rules, resources)
  }

  lemma LateDenyTest(rules: seq<Rule>, resources: set<string>)
    ensures (forall i :: 0 <= i < |rules| ==> DeniesComeFirst(rules, i, resources)) <==> !DenyComesTooLate(rules, resources)
  {
    if i, j :| 0 <= i < j < |rules| && Shadows(rules[i], rules[j], resources) {
      assert rules[i + 1..][j - i - 1] == rules[j];
      assert !DeniesComeFirst(rules, i, resources);
    }
    forall i | 0 <= i < |rules| && !DeniesComeFirst(rules, i, resources) ensures DenyComesTooLate(rules, resources) {
      var later := rules[i + 1..];
      var k :| 0 <= k < |later| && later[k].effect == "deny" && later[k].source == rules[i].source
            && Canonical(later[k].destination).Some? && Covers(PrefixOf(rules[i].destination), Canonical(later[k].destination).value);
      assert rules[i + 1 + k] == later[k] && Shadows(rules[i], rules[i + 1 + k], resources);
    }
  }

  lemma RulesTest(rules: seq<Rule>, sources: Sources, leases: map<string, NetworkLease>, resources: set<string>, validUntil: Time, now: Time)
    ensures FirewallOk(rules, sources, leases, resources, validUntil, now) <==> !RulesRefused(rules, sources, leases, resources, validUntil, now)
  {
    LateDenyTest(rules, resources);
    forall i | 0 <= i < |rules|
      ensures PassesAt(rules, i, sources, leases, resources, validUntil, now) <==>
                !RuleRefused(rules[i], sources, leases, resources, validUntil, now) && DeniesComeFirst(rules, i, resources)
    {
      RuleTest(rules[i], sources, leases, resources, validUntil, now);
    }
  }

  /** The number, validity and profile checks that come first. */
  ghost predicate HeaderRefused(desired: Desired, now: Time) {
    || desired.configurationVersion <= 0 || desired.policyVersion <= 0 || desired.validUntil <= now
    || (desired.wireGuard.None? &&
        (desired.networkLeases != [] || desired.resourceLeases != [] || (desired.accessProfile != "onboarding" && desired.accessProfile != "deny")))
  }

  ghost predicate PeersRefused(peers: seq<Peer>) {
    || (exists i :: 0 <= i < |peers| && PeerRefused(peers[i]))
    || (exists i, j :: 0 <= i < j < |peers| && SameKey(peers[i], peers[j]))
    || (exists i, j :: 0 <= i < j < |peers| && IsSitePeer(peers[i]) && IsSitePeer(peers[j]) && peers[i].runtimeId == peers[j].runtimeId)
    || !Disjoint(AllPrefixes(peers))
  }

  predicate SameKey(a: Peer, b: Peer) { a.publicKey.Key? && b.publicKey.Key? && a.publicKey.key == b.publicKey.key }

  lemma PeersTest(peers: seq<Peer>)
    ensures PeersOk(peers) <==> !PeersRefused(peers)
  {
    forall i | 0 <= i < |peers| ensures PeerShapeOk(peers[i]) && AllowedIPsOk(peers[i]) <==> !PeerRefused(peers[i]) {
      PeerTest(peers[i]);
    }
    if forall i :: 0 <= i < |peers| ==> PeerShapeOk(peers[i]) {
      assert forall i :: 0 <= i < |peers| ==> peers[i].publicKey.Key?;
      assert DistinctPeers(peers) <==>
             !(exists i, j :: 0 <= i < j < |peers| && SameKey(peers[i], peers[j])) &&
             !(exists i, j :: 0 <= i < j < |peers| && IsSitePeer(peers[i]) && IsSitePeer(peers[j]) && peers[i].runtimeId == peers[j].runtimeId);
    }
  }

  /** A configuration is accepted exactly when its header, interface, peers, routes and rules are not refused, and no site
      is linked in SNAT mode. */
  lemma {:induction false} AcceptedExactlyWhenNothingIsRefused(desired: Desired, publicKey: string, now: Time, egress: string)
    ensures DesiredOk(desired, publicKey, now, egress) <==>
              && !HeaderRefused(desired, now)
              && (desired.wireGuard.Some? ==>
                    var wg := desired.wireGuard.value;
                    && !WireGuardRefused(wg, publicKey, egress) && !PeersRefused(wg.peers) && RoutesOk(wg.routes, SetOf(AllPrefixes(wg.peers)))
                    && !(wg.routingMode == "snat" && exists i :: 0 <= i < |wg.peers| && IsSitePeer(wg.peers[i]))
                    && !RulesRefused(wg.rules, SourcesOf(wg.peers), LeaseTable(desired.networkLeases), LeaseIds(desired.resourceLeases),
                                     desired.validUntil, now))
  {
    if desired.wireGuard.Some? {
      var wg := desired.wireGuard.value;
      WireGuardTest(wg, publicKey, egress);
      PeersTest(wg.peers);
      SitesAreLinked(wg.peers);
      RulesTest(wg.rules, SourcesOf(wg.peers), LeaseTable(desired.networkLeases), LeaseIds(desired.resourceLeases), desired.validUntil, now);
    }
  }

  lemma SitesAreLinked(peers: seq<Peer>)
    ensures SiteSources(peers) != map[] <==> exists i :: 0 <= i < |peers| && IsSitePeer(peers[i])
  {
    SiteSourcesAre(peers);
    if SiteSources(peers) != map[] {
      var name :| name in SiteSources(peers);
    }
  }
}
