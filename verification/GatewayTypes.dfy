/** The desired configuration that network control sends to a gateway. Fields that no
    modelled decision reads are gathered in `rest`, so that equality still means
    "the same enforcement document". Times are nanoseconds. */
module GatewayTypes {
  import opened Options
  import opened Prefixes

  type Time = int

  const SECOND: int := 1_000_000_000

  const DEFAULT_INTERFACE := "soha0"

  /** A WireGuard key text: what wgtypes.ParseKey reads in it, and its spelling. */
  datatype KeyText = NotKey(text: string) | Key(key: string, spelling: string)

  /** An endpoint host: a literal address or any other text. */
  datatype HostText = HostAddress(addr: Address, spelling: string) | HostName(text: string)

  datatype Rule = Rule(id: string, effect: string, leaseId: string, siteLinkRuntimeId: string, direction: string,
                       source: CidrText, destination: CidrText, protocol: string, ports: seq<int>,
                       expiresAt: Option<Time>)

  datatype Peer = Peer(sessionId: string, vpnProfileId: string, runtimeId: string, deviceId: string,
                       publicKey: KeyText, endpointHost: HostText, endpointPort: int,
                       allowedIPs: seq<CidrText>, keepaliveSeconds: int)

  datatype NetworkLease = NetworkLease(id: string, cidrs: seq<CidrText>, rest: string)
  datatype ResourceLease = ResourceLease(id: string, rest: string)

  datatype WireGuard = WireGuard(role: string, interfaceName: string, publicKey: string, addresses: seq<CidrText>,
                                 listenPort: int, mtu: int, routingMode: string, firewallDefault: string,
                                 peers: seq<Peer>, routes: seq<CidrText>, rules: seq<Rule>, rest: string)

  datatype Intervals = Intervals(heartbeatSeconds: int, pollSeconds: int)

  datatype Desired = Desired(configurationVersion: int, policyVersion: int, validUntil: Time, accessProfile: string,
                             networkLeases: seq<NetworkLease>, resourceLeases: seq<ResourceLease>,
                             intervals: Option<Intervals>, wireGuard: Option<WireGuard>,
                             probeGatewayId: Option<string>, rest: string)

  /** The enforcement document: everything but the polling intervals. It stands for the SHA-256
      digest of the same document, which is taken to be injective. */
  function Identity(desired: Desired): Desired { desired.(intervals := None) }

  function InterfaceName(desired: Desired): string {
    if desired.wireGuard.None? then DEFAULT_INTERFACE else desired.wireGuard.value.interfaceName
  }

  // ---- Text patterns ----

  predicate IsAlnum(c: char) { 'A' <= c <= 'Z' || 'a' <= c <= 'z' || '0' <= c <= '9' }

  predicate IsIdentifier(s: string) {
    && 1 <= |s| <= 128
    && IsAlnum(s[0])
    && forall i :: 1 <= i < |s| ==> IsAlnum(s[i]) || s[i] in "._:-"
  }

  predicate IsInterfaceName(s: string) {
    && 1 <= |s| <= 15
    && IsAlnum(s[0])
    && forall i :: 1 <= i < |s| ==> IsAlnum(s[i]) || s[i] in "_.-"
  }

  predicate IsEndpointHost(host: HostText) {
    match host
    case HostAddress(addr, _) => IsGlobalUnicast(addr) && !Is4In6(addr)
    case HostName(s) =>
      && 1 <= |s| <= 253
      && IsAlnum(s[0])
      && IsAlnum(s[|s| - 1])
      && forall i :: 0 <= i < |s| ==> IsAlnum(s[i]) || s[i] in ".-"
  }

  predicate IsSha256Text(s: string) {
    && |s| == 71
    && s[..7] == "sha256:"
    && forall i :: 7 <= i < 71 ==> '0' <= s[i] <= '9' || 'a' <= s[i] <= 'f'
  }
}
