/** The nftables side of the gateway: the program compiler, the independent generator of what
    readback must show, and the meaning of a forward chain for packets. */
module Nftables {
  import opened Options
  import opened Prefixes
  import opened GatewayTypes
  import opened GatewayPeers
  import opened GatewayFirewall

  const TABLE := "soha_network_gateway"

  /** One match of a rule. A port set is written sorted, so a multiset stands for it. */
  datatype Expr =
    | MetaIs(key: string, value: string)
    | PayloadIn(protocol: string, field: string, prefix: Prefix)
    | PortIs(protocol: string, port: int)
    | PortIn(protocol: string, ports: multiset<int>)
    | CtStateIn(states: seq<string>)
    | GuardHasMark
    | OtherExpr(json: string)

  datatype NftRule = NftRule(comment: string, exprs: seq<Expr>, verdict: string)

  datatype Program = Program(deletesTable: bool, guardSeconds: Option<int>, forward: seq<NftRule>, postrouting: Option<seq<NftRule>>)

  function NftFamily(p: Prefix): string { if p.addr.family.IPv6? then "ip6" else "ip" }

  // ---- The kernel lease guard ----

  /** Go's truncating conversion of a duration to whole seconds. */
  function WholeSeconds(duration: int): int {
    if duration >= 0 then duration / SECOND else -((-duration) / SECOND)
  }

  /** The timeout of the guard element: None is a refusal, Some(None) an empty guard set. */
  function GuardTimeout(rules: seq<Rule>, deadlines: seq<Time>, now: Time): Option<Option<int>> {
    if rules == [] && deadlines == [] then Some(None)
    else if |deadlines| != 1 then None
    else
      var seconds := WholeSeconds(deadlines[0] - now);
      if seconds < 1 || seconds > 300 then None else Some(Some(seconds))
  }

  /** A guard armed at `now` ends by the deadline and lives at most five minutes. */
  lemma GuardEndsByDeadline(rules: seq<Rule>, deadlines: seq<Time>, now: Time)
    requires GuardTimeout(rules, deadlines, now).Some? && GuardTimeout(rules, deadlines, now).value.Some?
    ensures var seconds := GuardTimeout(rules, deadlines, now).value.value;
            |deadlines| == 1 && 1 <= seconds <= 300 && now + seconds * SECOND <= deadlines[0] < now + (seconds + 1) * SECOND
  {
  }

  // ---- The compiler ----

  function TransportMatch(rule: Rule): seq<Expr> {
    if rule.protocol == "any" then []
    else if |rule.ports| == 0 then [MetaIs("l4proto", rule.protocol)]
    else if |rule.ports| == 1 then [PortIs(rule.protocol, rule.ports[0])]
    else [PortIn(rule.protocol, multiset(rule.ports))]
  }

  function FilterRule(interface: string, rule: Rule): Option<NftRule> {
    var source, destination := Canonical(rule.source), Canonical(rule.destination);
    if !IsIdentifier(rule.id) || rule.effect !in ["allow", "deny"] then None
    else if source.None? then None
    else if destination.None? || source.value.addr.family != destination.value.addr.family || destination.value.len == 0
            || rule.protocol !in ["any", "tcp", "udp"] || (rule.protocol == "any" && rule.ports != []) then None
    else if exists i :: 0 <= i < |rule.ports| && !(1 <= rule.ports[i] <= 65535) then None
    else if rule.direction !in ["to_wireguard", "", "from_wireguard"] then None
    else
      var key := if rule.direction == "to_wireguard" then "oifname" else "iifname";
      Some(NftRule(rule.id,
                   [MetaIs(key, interface),
                    PayloadIn(NftFamily(source.value), "saddr", source.value),
                    PayloadIn(NftFamily(destination.value), "daddr", destination.value)]
                   + TransportMatch(rule)
                   + (if rule.effect == "allow" then [GuardHasMark] else []),
                   if rule.effect == "allow" then "accept" else "drop"))
  }

  function ReturnRule(interface: string): NftRule {
    NftRule("return-established", [MetaIs("oifname", interface), CtStateIn(["established", "related"]), GuardHasMark], "accept")
  }

  function DefaultDenies(interface: string): seq<NftRule> {
    [NftRule("default-deny-from-wireguard", [MetaIs("iifname", interface)], "drop"),
     NftRule("default-deny-to-wireguard", [MetaIs("oifname", interface)], "drop")]
  }

  /** The masquerade rules as the program writes them: always the IPv4 family. */
  function SnatRules(rules: seq<Rule>, egress: string): seq<NftRule> {
    if rules == [] then []
    else
      var last := rules[|rules| - 1];
      SnatRules(rules[..|rules| - 1], egress) +
      if last.effect != "allow" then []
      else [NftRule("snat-" + last.id,
                    [PayloadIn("ip", "saddr", PrefixOf(last.source)), PayloadIn("ip", "daddr", PrefixOf(last.destination)),
                     MetaIs("oifname", egress)], "masquerade")]
  }

  predicate Compiles(wg: WireGuard, egress: string, deadlines: seq<Time>, now: Time) {
    && SnatFamilyOk(wg, egress)
    && IsInterfaceName(wg.interfaceName) && wg.firewallDefault == "deny"
    && GuardTimeout(wg.rules, deadlines, now).Some?
    && forall i :: 0 <= i < |wg.rules| ==> FilterRule(wg.interfaceName, wg.rules[i]).Some?
  }

  function ForwardRules(interface: string, rules: seq<Rule>): seq<NftRule>
    requires forall i :: 0 <= i < |rules| ==> FilterRule(interface, rules[i]).Some?
  {
    seq(|rules|, i requires 0 <= i < |rules| => FilterRule(interface, rules[i]).value)
  }

  method CompileForward(interface: string, rules: seq<Rule>) returns (lines: Option<seq<NftRule>>)
    ensures lines.Some? <==> forall i :: 0 <= i < |rules| ==> FilterRule(interface, rules[i]).Some?
    ensures lines.Some? ==> lines.value == ForwardRules(interface, rules)
  {
    var out := [];
    for n := 0 to |rules|
      invariant |out| == n
      invariant forall i :: 0 <= i < n ==> FilterRule(interface, rules[i]) == Some(out[i])
    {
      var line := FilterRule(interface, rules[n]);
      if line.None? {
        return None;
      }
      out := out + [line.value];
    }
    return Some(out);
  }

  method CompileSnat(rules: seq<Rule>, egress: string) returns (lines: seq<NftRule>)
    ensures lines == SnatRules(rules, egress)
  {
    lines := [];
    for n := 0 to |rules|
      invariant lines == SnatRules(rules[..n], egress)
    {
      assert rules[..n + 1][..n] == rules[..n];
      if rules[n].effect == "allow" {
        lines := lines + [NftRule("snat-" + rules[n].id,
                                  [PayloadIn("ip", "saddr", PrefixOf(rules[n].source)),
                                   PayloadIn("ip", "daddr", PrefixOf(rules[n].destination)),
                                   MetaIs("oifname", egress)], "masquerade")];
      }
    }
    assert rules[..|rules|] == rules;
  }

  method BuildNftProgram(wg: WireGuard, tableExists: bool, egress: string, deadlines: seq<Time>, now: Time)
    returns (program: Option<Program>)
    ensures program.Some? <==> Compiles(wg, egress, deadlines, now)
    ensures program.Some? ==>
              && program.value.deletesTable == tableExists
              && program.value.guardSeconds == GuardTimeout(wg.rules, deadlines, now).value
              && program.value.forward == ExpectedForward(wg)
              && program.value.postrouting ==
                   if wg.routingMode == "snat" then Some(ExpectedPostrouting(wg.rules, egress)) else None
  {
    var guard := GuardTimeout(wg.rules, deadlines, now);
    if !SnatFamilyOk(wg, egress) || !IsInterfaceName(wg.interfaceName) || wg.firewallDefault != "deny" || guard.None? {
      return None;
    }
    var lines := CompileForward(wg.interfaceName, wg.rules);
    if lines.None? {
      return None;
    }
    CompiledChainsAreExpected(wg, egress, deadlines, now);
    var postrouting := None;
    if wg.routingMode == "snat" {
      var snat := CompileSnat(wg.rules, egress);
      postrouting := Some(snat);
    }
    return Some(Program(tableExists, guard.value,
                        [ReturnRule(wg.interfaceName)] + lines.value + DefaultDenies(wg.interfaceName), postrouting));
  }

  // ---- The independent generator ----

  function VerdictOf(effect: string): string {
    if effect == "allow" then "accept" else if effect == "deny" then "drop" else ""
  }

  function ExpectedRule(interface: string, rule: Rule): NftRule {
    var source, destination := PrefixOf(rule.source), PrefixOf(rule.destination);
    var place := [MetaIs(if rule.direction == "to_wireguard" then "oifname" else "iifname", interface),
                  PayloadIn(NftFamily(source), "saddr", source),
                  PayloadIn(NftFamily(destination), "daddr", destination)];
    var transport := if rule.protocol == "any" then []
                     else if rule.ports == [] then [MetaIs("l4proto", rule.protocol)]
                     else if |rule.ports| == 1 then [PortIs(rule.protocol, rule.ports[0])]
                     else [PortIn(rule.protocol, multiset(rule.ports))];
    var guard := if rule.effect == "allow" then [GuardHasMark] else [];
    NftRule(rule.id, place + transport + guard, VerdictOf(rule.effect))
  }

  predicate CanonicalEnds(rule: Rule) { Canonical(rule.source).Some? && Canonical(rule.destination).Some? }

  predicate HasCanonicalEnds(rules: seq<Rule>) {
    forall i :: 0 <= i < |rules| ==> CanonicalEnds(rules[i])
  }

  function ExpectedRules(interface: string, rules: seq<Rule>): seq<NftRule> {
    seq(|rules|, i requires 0 <= i < |rules| => ExpectedRule(interface, rules[i]))
  }

  function ExpectedForward(wg: WireGuard): seq<NftRule> {
    [ReturnRule(wg.interfaceName)] + ExpectedRules(wg.interfaceName, wg.rules) + DefaultDenies(wg.interfaceName)
  }

  function ExpectedPostrouting(rules: seq<Rule>, egress: string): seq<NftRule> {
    if rules == [] then []
    else
      var last := rules[|rules| - 1];
      ExpectedPostrouting(rules[..|rules| - 1], egress) + if last.effect != "allow" then [] else [ExpectedSnatLine(last, egress)]
  }

  function ExpectedSnatLine(rule: Rule, egress: string): NftRule {
    var source, destination := PrefixOf(rule.source), PrefixOf(rule.destination);
    NftRule("snat-" + rule.id,
            [PayloadIn(NftFamily(source), "saddr", source), PayloadIn(NftFamily(destination), "daddr", destination),
             MetaIs("oifname", egress)], "masquerade")
  }

  method ExpectedLines(interface: string, rules: seq<Rule>) returns (lines: Option<seq<NftRule>>)
    ensures lines.Some? <==> HasCanonicalEnds(rules)
    ensures lines.Some? ==> lines.value == ExpectedRules(interface, rules)
  {
    var out := [];
    for n := 0 to |rules|
      invariant forall i :: 0 <= i < n ==> CanonicalEnds(rules[i])
      invariant |out| == n && forall i :: 0 <= i < n ==> out[i] == ExpectedRule(interface, rules[i])
    {
      if !CanonicalEnds(rules[n]) {
        return None;
      }
      out := out + [ExpectedRule(interface, rules[n])];
    }
    return Some(out);
  }

  method GenerateExpected(wg: WireGuard) returns (forward: Option<seq<NftRule>>)
    ensures forward.Some? <==> HasCanonicalEnds(wg.rules)
    ensures forward.Some? ==> forward.value == ExpectedForward(wg)
  {
    var lines := ExpectedLines(wg.interfaceName, wg.rules);
    if lines.None? {
      return None;
    }
    return Some([ReturnRule(wg.interfaceName)] + lines.value + DefaultDenies(wg.interfaceName));
  }

  lemma {:induction false} SnatRulesAreExpected(rules: seq<Rule>, egress: string)
    requires HasCanonicalEnds(rules)
    requires forall i :: 0 <= i < |rules| ==> !MentionsColon(rules[i].source) && !MentionsColon(rules[i].destination)
    ensures SnatRules(rules, egress) == ExpectedPostrouting(rules, egress)
  {
    if rules != [] {
      var front := rules[..|rules| - 1];
      assert forall i :: 0 <= i < |front| ==> front[i] == rules[i];
      SnatRulesAreExpected(front, egress);
      assert CanonicalEnds(rules[|rules| - 1]);
    }
  }

  /** The two generators agree, rule for rule, on everything that compiles. */
  lemma {:induction false} CompiledChainsAreExpected(wg: WireGuard, egress: string, deadlines: seq<Time>, now: Time)
    requires Compiles(wg, egress, deadlines, now)
    ensures HasCanonicalEnds(wg.rules)
    ensures [ReturnRule(wg.interfaceName)] + ForwardRules(wg.interfaceName, wg.rules) + DefaultDenies(wg.interfaceName) == ExpectedForward(wg)
    ensures wg.routingMode == "snat" ==> SnatRules(wg.rules, egress) == ExpectedPostrouting(wg.rules, egress)
  {
    forall i | 0 <= i < |wg.rules|
      ensures CanonicalEnds(wg.rules[i])
      ensures ForwardRules(wg.interfaceName, wg.rules)[i] == ExpectedRules(wg.interfaceName, wg.rules)[i]
    {
    }
    assert ForwardRules(wg.interfaceName, wg.rules) == ExpectedRules(wg.interfaceName, wg.rules);
    if wg.routingMode == "snat" {
      SnatRulesAreExpected(wg.rules, egress);
    }
  }

  /** Validation does not compare address families; apart from that and the deadline, an
      accepted configuration always compiles. */
  lemma {:induction false} AcceptedCompilesExactlyWhen(desired: Desired, publicKey: string, egress: string, validated: Time, built: Time)
    requires DesiredOk(desired, publicKey, validated, egress) && desired.wireGuard.Some?
    ensures Compiles(desired.wireGuard.value, egress, [desired.validUntil], built) <==>
              && SECOND <= desired.validUntil - built < 301 * SECOND
              && forall i :: 0 <= i < |desired.wireGuard.value.rules| ==>
                   PrefixOf(desired.wireGuard.value.rules[i].source).addr.family ==
                   PrefixOf(desired.wireGuard.value.rules[i].destination).addr.family
  {
    var wg := desired.wireGuard.value;
    assert IsInterfaceName(DEFAULT_INTERFACE);
    forall i | 0 <= i < |wg.rules|
      ensures FilterRule(wg.interfaceName, wg.rules[i]).Some? <==>
                PrefixOf(wg.rules[i].source).addr.family == PrefixOf(wg.rules[i].destination).addr.family
    {
      assert PassesAt(wg.rules, i, SourcesOf(wg.peers), LeaseTable(desired.networkLeases), LeaseIds(desired.resourceLeases),
                      desired.validUntil, validated);
    }
    var left := desired.validUntil - built;
    assert SECOND <= left < 301 * SECOND <==> 1 <= WholeSeconds(left) <= 300;
  }

  // ---- What a chain does to a packet ----

  /** How nft spells a connection state. */
  function StateName(connection: Connection): string {
    match connection
    case New => "new"
    case Established => "established"
    case Related => "related"
    case Invalid => "invalid"
    case Untracked => "untracked"
  }

  predicate ExprMatches(e: Expr, packet: Packet, guardLive: bool) {
    match e
    case MetaIs(key, value) =>
      (key == "iifname" && packet.iif == value) || (key == "oifname" && packet.oif == value) ||
      (key == "l4proto" && packet.protocol == value)
    case PayloadIn(protocol, field, prefix) =>
      protocol == NftFamily(prefix) &&
      ((field == "saddr" && Contains(prefix, packet.src)) || (field == "daddr" && Contains(prefix, packet.dst)))
    case PortIs(protocol, port) => packet.protocol == protocol && packet.dport == port
    case PortIn(protocol, ports) => packet.protocol == protocol && packet.dport in ports
    case CtStateIn(states) => StateName(packet.connection) in states
    case GuardHasMark => guardLive
    case OtherExpr(_) => false
  }

  predicate NftMatches(rule: NftRule, packet: Packet, guardLive: bool) {
    forall i :: 0 <= i < |rule.exprs| ==> ExprMatches(rule.exprs[i], packet, guardLive)
  }

  /** First matching rule decides, else the chain's policy. */
  function Evaluate(chain: seq<NftRule>, policy: string, packet: Packet, guardLive: bool): string {
    if chain == [] then policy
    else if NftMatches(chain[0], packet, guardLive) then chain[0].verdict
    else Evaluate(chain[1..], policy, packet, guardLive)
  }

  /** The intended verdict: packets off WireGuard pass; on it, only return traffic into WireGuard and
      packets whose first match is an allow, and only while the kernel guard lives. */
  function Intended(wg: WireGuard, packet: Packet, guardLive: bool): string {
    if !Touches(packet, wg.interfaceName) then "accept"
    else if guardLive && ((packet.oif == wg.interfaceName && IsReturn(packet)) || Allows(wg.rules, wg.interfaceName, packet))
    then "accept" else "drop"
  }

  lemma ExpectedRuleMatches(interface: string, rule: Rule, packet: Packet, guardLive: bool)
    ensures NftMatches(ExpectedRule(interface, rule), packet, guardLive)
       <==> RuleMatches(rule, interface, packet) && (rule.effect == "allow" ==> guardLive)
  {
    var exprs := ExpectedRule(interface, rule).exprs;
    assert exprs[0].MetaIs? && exprs[1].PayloadIn? && exprs[2].PayloadIn?;
    if rule.protocol == "any" {
      assert rule.effect == "allow" ==> exprs[3] == GuardHasMark;
    } else {
      assert rule.effect == "allow" ==> exprs[4] == GuardHasMark;
      assert ExprMatches(exprs[3], packet, guardLive) <==>
             rule.protocol == packet.protocol && (rule.ports == [] || packet.dport in rule.ports);
    }
    if RuleMatches(rule, interface, packet) && (rule.effect == "allow" ==> guardLive) {
      forall i | 0 <= i < |exprs| ensures ExprMatches(exprs[i], packet, guardLive) {
        assert i == 0 || i == 1 || i == 2 || i == 3 || i == 4;
      }
    }
  }

  lemma {:induction false} RulesThenDeny(interface: string, rules: seq<Rule>, packet: Packet, guardLive: bool)
    requires forall i :: 0 <= i < |rules| ==> rules[i].effect in ["allow", "deny"]
    ensures Evaluate(ExpectedRules(interface, rules) + DefaultDenies(interface), "accept", packet, guardLive) ==
              if !Touches(packet, interface) || (guardLive && Allows(rules, interface, packet)) then "accept" else "drop"
  {
    var chain := ExpectedRules(interface, rules) + DefaultDenies(interface);
    if rules == [] {
      assert chain == DefaultDenies(interface);
      var from, to := chain[0], chain[1];
      assert NftMatches(from, packet, guardLive) <==> ExprMatches(from.exprs[0], packet, guardLive);
      assert NftMatches(to, packet, guardLive) <==> ExprMatches(to.exprs[0], packet, guardLive);
      assert chain[1..] == [to] && chain[1..][1..] == [];
      assert Evaluate(chain[1..][1..], "accept", packet, guardLive) == "accept";
    } else {
      assert chain[0] == ExpectedRule(interface, rules[0]);
      assert chain[1..] == ExpectedRules(interface, rules[1..]) + DefaultDenies(interface);
      ExpectedRuleMatches(interface, rules[0], packet, guardLive);
      RulesThenDeny(interface, rules[1..], packet, guardLive);
    }
  }

  /** The expected forward chain means exactly what it should, for every packet. */
  lemma {:induction false} ExpectedChainMeansIntended(wg: WireGuard, packet: Packet, guardLive: bool)
    requires forall i :: 0 <= i < |wg.rules| ==> wg.rules[i].effect in ["allow", "deny"]
    ensures Evaluate(ExpectedForward(wg), "accept", packet, guardLive) == Intended(wg, packet, guardLive)
  {
    var chain := ExpectedForward(wg);
    var back := ReturnRule(wg.interfaceName);
    assert chain[0] == back;
    assert chain[1..] == ExpectedRules(wg.interfaceName, wg.rules) + DefaultDenies(wg.interfaceName);
    assert NftMatches(back, packet, guardLive) <==> packet.oif == wg.interfaceName && IsReturn(packet) && guardLive by {
      assert back.exprs[0].MetaIs? && back.exprs[1].CtStateIn? && back.exprs[2].GuardHasMark?;
      assert StateName(packet.connection) in ["established", "related"] <==> IsReturn(packet);
      if packet.oif == wg.interfaceName && IsReturn(packet) && guardLive {
        assert forall i :: 0 <= i < 3 ==> ExprMatches(back.exprs[i], packet, guardLive);
      }
    }
    RulesThenDeny(wg.interfaceName, wg.rules, packet, guardLive);
  }

  /** Spelled out: while a packet opens a new connection, only an allow rule whose guard lives lets it touch WireGuard. */
  lemma NewConnectionsNeedAnAllow(wg: WireGuard, packet: Packet, guardLive: bool)
    requires forall i :: 0 <= i < |wg.rules| ==> wg.rules[i].effect in ["allow", "deny"]
    requires packet.connection == New && Touches(packet, wg.interfaceName)
    ensures Evaluate(ExpectedForward(wg), "accept", packet, guardLive) ==
              if guardLive && Allows(wg.rules, wg.interfaceName, packet) then "accept" else "drop"
  {
    ExpectedChainMeansIntended(wg, packet, guardLive);
  }

  // ---- Source translation ----

  ghost predicate Masquerades(chain: seq<NftRule>, packet: Packet) {
    exists i :: 0 <= i < |chain| && chain[i].verdict == "masquerade" && NftMatches(chain[i], packet, false)
  }

  /** Traffic of some allow rule that leaves through the egress interface. */
  ghost predicate LeavesTranslated(rules: seq<Rule>, egress: string, packet: Packet) {
    packet.oif == egress &&
    exists i :: 0 <= i < |rules| && rules[i].effect == "allow"
             && Contains(PrefixOf(rules[i].source), packet.src) && Contains(PrefixOf(rules[i].destination), packet.dst)
  }

  lemma SnatLineMatches(rule: Rule, egress: string, packet: Packet, guardLive: bool)
    ensures NftMatches(ExpectedSnatLine(rule, egress), packet, guardLive) <==>
              packet.oif == egress && Contains(PrefixOf(rule.source), packet.src) && Contains(PrefixOf(rule.destination), packet.dst)
  {
    var exprs := ExpectedSnatLine(rule, egress).exprs;
    assert NftMatches(ExpectedSnatLine(rule, egress), packet, guardLive) <==>
           ExprMatches(exprs[0], packet, guardLive) && ExprMatches(exprs[1], packet, guardLive) && ExprMatches(exprs[2], packet, guardLive);
  }

  /** The expected postrouting chain translates exactly the traffic of allow rules that leaves through the egress interface. */
  lemma {:induction false} PostroutingTranslates(rules: seq<Rule>, egress: string, packet: Packet)
    ensures Masquerades(ExpectedPostrouting(rules, egress), packet) <==> LeavesTranslated(rules, egress, packet)
  {
    if rules != [] {
      var n := |rules| - 1;
      var front, last := rules[..n], rules[n];
      PostroutingTranslates(front, egress, packet);
      var before, after := ExpectedPostrouting(front, egress), ExpectedPostrouting(rules, egress);
      assert LeavesTranslated(rules, egress, packet) <==>
             LeavesTranslated(front, egress, packet) ||
             (packet.oif == egress && last.effect == "allow" && Contains(PrefixOf(last.source), packet.src) && Contains(PrefixOf(last.destination), packet.dst)) by {
        assert forall i :: 0 <= i < n ==> front[i] == rules[i];
      }
      if last.effect == "allow" {
        SnatLineMatches(last, egress, packet, false);
        assert after[|before|] == ExpectedSnatLine(last, egress);
      }
      assert forall i :: 0 <= i < |before| ==> after[i] == before[i];
    }
  }
}
