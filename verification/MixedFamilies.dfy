/** An accepted configuration that does not compile: the validator never compares the address families of a
    rule's two ends. */
module MixedFamilies {
  import opened Options
  import opened Prefixes
  import opened GatewayTypes
  import opened GatewayPeers
  import opened GatewayFirewall
  import opened RollbackAccess
  import opened Nftables

  /** An IPv4 peer whose lease, and whose one rule, lead to IPv6 addresses; at time 0 there is time enough left. */
  lemma {:induction false} MixedFamiliesDoNotCompile(laptop: CidrText, server: CidrText, subnet: CidrText, gateway: CidrText, built: Time)
    requires CanonicalHost(laptop).Some? && CanonicalHost(gateway).Some? && Canonical(server).Some? && Canonical(subnet).Some?
    requires Covers(subnet.prefix, server.prefix)
    requires laptop.prefix.addr.family.IPv4? && server.prefix.addr.family.IPv6?
    ensures var desired := Example(1, laptop, subnet, gateway, [AllowServer(laptop, server)]);
            && DesiredOk(desired, "key", 0, "")
            && !Compiles(desired.wireGuard.value, "", [desired.validUntil], built)
            && SECOND <= desired.validUntil - 0 < 301 * SECOND
  {
    var rules := [AllowServer(laptop, server)];
    var desired := Example(1, laptop, subnet, gateway, rules);
    var sources := SourcesOf(desired.wireGuard.value.peers);
    var lease := NetworkLease("lease", [subnet], "");
    ExamplePeerAccepted(laptop);
    assert [lease][..0] == [];
    assert LeaseTable([lease]) == map["lease" := lease];
    assert LeaseIds([]) == {};
    ExampleAllowAccepted(laptop, server, subnet, sources);
    ExampleDenyDoesNotFollowNothing(laptop, server);
    assert FirewallOk(rules, sources, LeaseTable([lease]), {}, EXAMPLE_END, 0);
    assert DesiredOk(desired, "key", 0, "");
    AcceptedCompilesExactlyWhen(desired, "key", "", 0, built);
    assert desired.wireGuard.value.rules[0] == AllowServer(laptop, server);
  }

  lemma ExampleDenyDoesNotFollowNothing(laptop: CidrText, server: CidrText)
    requires Canonical(server).Some?
    ensures DeniesComeFirst([AllowServer(laptop, server)], 0, {})
  {
    assert [AllowServer(laptop, server)][1..] == [];
  }

  function GlobalSix(len: nat): CidrText
    requires 3 <= len <= 128
  {
    Cidr(Prefix(Address(IPv6, [false, false, true] + seq(125, _ => false)), len), "")
  }

  /** 10.0.0.2 and 10.0.0.1 with 2000::/3 and 2000::/128 meet the conditions. */
  lemma MixedTextsExist()
    ensures CanonicalHost(Host(ZERO, TWO)).Some? && CanonicalHost(Host(ZERO, ONE)).Some?
    ensures Canonical(GlobalSix(128)).Some? && Canonical(GlobalSix(3)).Some? && Covers(GlobalSix(3).prefix, GlobalSix(128).prefix)
  {
    HostIsCanonical(ZERO, TWO);
    HostIsCanonical(ZERO, ONE);
    var bits := GlobalSix(3).prefix.addr.bits;
    assert bits == GlobalSix(128).prefix.addr.bits && bits[2] && !bits[0];
  }
}
