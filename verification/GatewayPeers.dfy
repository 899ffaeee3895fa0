/** Peers and routes: the validators' loops, what they accept, and why cryptokey routing is
    then unambiguous. */
module GatewayPeers {
  import opened Prefixes
  import opened GatewayTypes

  /** What the peer validator hands on to the route and firewall validators. */
  datatype Sources = Sources(endpoint: set<Prefix>, site: map<string, seq<Prefix>>, routes: set<Prefix>)

  // ---- What an accepted peer list is ----

  predicate IsSitePeer(peer: Peer) { peer.endpointHost != HostName("") || peer.endpointPort != 0 }

  predicate PeerKindOk(peer: Peer) {
    if IsSitePeer(peer) then
      && peer.deviceId == ""
      && IsEndpointHost(peer.endpointHost)
      && 1 <= peer.endpointPort <= 65535
      && 0 <= peer.keepaliveSeconds <= 300
    else
      IsIdentifier(peer.deviceId) && |peer.allowedIPs| == 1 && peer.keepaliveSeconds == 0
  }

  predicate PeerShapeOk(peer: Peer) {
    peer.publicKey.Key? && IsIdentifier(peer.runtimeId) && 0 < |peer.allowedIPs| <= 128 && PeerKindOk(peer)
  }

  predicate AllowedIPOk(raw: CidrText, site: bool) {
    var p := Canonical(raw);
    p.Some? && p.value.len != 0 && (site || IsSingle(p.value))
  }

  predicate AllowedIPsOk(peer: Peer) {
    forall k :: 0 <= k < |peer.allowedIPs| ==> AllowedIPOk(peer.allowedIPs[k], IsSitePeer(peer))
  }

  function PrefixOf(raw: CidrText): Prefix {
    if raw.Cidr? then raw.prefix else Prefix(Address(IPv4, seq(32, _ => false)), 0)
  }

  function PrefixesOf(raws: seq<CidrText>): (r: seq<Prefix>)
    ensures |r| == |raws|
  {
    seq(|raws|, i requires 0 <= i < |raws| => PrefixOf(raws[i]))
  }

  /** All AllowedIPs of a peer list, in order. */
  function AllPrefixes(peers: seq<Peer>): seq<Prefix> {
    if peers == [] then [] else AllPrefixes(peers[..|peers| - 1]) + PrefixesOf(peers[|peers| - 1].allowedIPs)
  }

  predicate Disjoint(s: seq<Prefix>) {
    forall i, j :: 0 <= i < j < |s| ==> !Overlaps(s[i], s[j])
  }

  predicate Apart(s: seq<Prefix>, t: seq<Prefix>) {
    forall i, j :: 0 <= i < |s| && 0 <= j < |t| ==> !Overlaps(s[i], t[j])
  }

  predicate DistinctPeers(peers: seq<Peer>) {
    forall i, j :: 0 <= i < j < |peers| ==>
      && peers[i].publicKey.Key? && peers[j].publicKey.Key?
      && peers[i].publicKey.key != peers[j].publicKey.key
      && (IsSitePeer(peers[i]) && IsSitePeer(peers[j]) ==> peers[i].runtimeId != peers[j].runtimeId)
  }

  predicate PeersOk(peers: seq<Peer>) {
    && (forall i :: 0 <= i < |peers| ==> PeerShapeOk(peers[i]) && AllowedIPsOk(peers[i]))
    && DistinctPeers(peers)
    && Disjoint(AllPrefixes(peers))
  }

  function SetOf(s: seq<Prefix>): set<Prefix> { set i | 0 <= i < |s| :: s[i] }

  function EndpointSources(peers: seq<Peer>): set<Prefix> {
    set i | 0 <= i < |peers| && !IsSitePeer(peers[i]) && peers[i].allowedIPs != [] :: PrefixOf(peers[i].allowedIPs[0])
  }

  function SiteSources(peers: seq<Peer>): map<string, seq<Prefix>> {
    if peers == [] then map[]
    else
      var last := peers[|peers| - 1];
      var before := SiteSources(peers[..|peers| - 1]);
      if IsSitePeer(last) then before[last.runtimeId := PrefixesOf(last.allowedIPs)] else before
  }

  function SourcesOf(peers: seq<Peer>): Sources {
    Sources(EndpointSources(peers), SiteSources(peers), SetOf(AllPrefixes(peers)))
  }

  // ---- Small facts about prefix lists ----

  lemma DisjointConcat(s: seq<Prefix>, t: seq<Prefix>)
    ensures Disjoint(s + t) <==> Disjoint(s) && Disjoint(t) && Apart(s, t)
  {
    var u := s + t;
    if Disjoint(u) {
      forall i, j | 0 <= i < j < |s| ensures !Overlaps(s[i], s[j]) { assert u[i] == s[i] && u[j] == s[j]; }
      forall i, j | 0 <= i < j < |t| ensures !Overlaps(t[i], t[j]) { assert u[|s| + i] == t[i] && u[|s| + j] == t[j]; }
      forall i, j | 0 <= i < |s| && 0 <= j < |t| ensures !Overlaps(s[i], t[j]) { assert u[i] == s[i] && u[|s| + j] == t[j]; }
    }
  }

  lemma AllPrefixesSnoc(before: seq<Peer>, peer: Peer)
    ensures AllPrefixes(before + [peer]) == AllPrefixes(before) + PrefixesOf(peer.allowedIPs)
  {
    assert (before + [peer])[..|before|] == before;
  }

  lemma {:induction false} AllPrefixesGrows(peers: seq<Peer>, n: nat)
    requires n <= |peers|
    ensures AllPrefixes(peers[..n]) <= AllPrefixes(peers)
    decreases |peers| - n
  {
    if n == |peers| {
      assert peers[..n] == peers;
    } else {
      assert peers[..n + 1] == peers[..n] + [peers[n]];
      AllPrefixesSnoc(peers[..n], peers[n]);
      AllPrefixesGrows(peers, n + 1);
    }
  }

  lemma DisjointPart(s: seq<Prefix>, t: seq<Prefix>)
    requires s <= t && Disjoint(t)
    ensures Disjoint(s)
  {
    assert t == s + t[|s|..];
    DisjointConcat(s, t[|s|..]);
  }

  lemma SetOfConcat(s: seq<Prefix>, t: seq<Prefix>)
    ensures SetOf(s + t) == SetOf(s) + SetOf(t)
  {
    var u := s + t;
    forall i | 0 <= i < |s| ensures s[i] in SetOf(u) { assert u[i] == s[i]; }
    forall i | 0 <= i < |t| ensures t[i] in SetOf(u) { assert u[|s| + i] == t[i]; }
  }

  lemma {:induction false} SourcesSnoc(before: seq<Peer>, peer: Peer)
    ensures EndpointSources(before + [peer]) == EndpointSources(before) +
              if !IsSitePeer(peer) && peer.allowedIPs != [] then {PrefixOf(peer.allowedIPs[0])} else {}
    ensures SiteSources(before + [peer]) ==
              if IsSitePeer(peer) then SiteSources(before)[peer.runtimeId := PrefixesOf(peer.allowedIPs)]
              else SiteSources(before)
    ensures SetOf(AllPrefixes(before + [peer])) == SetOf(AllPrefixes(before)) + SetOf(PrefixesOf(peer.allowedIPs))
  {
    AllPrefixesSnoc(before, peer);
    SetOfConcat(AllPrefixes(before), PrefixesOf(peer.allowedIPs));
    var after := before + [peer];
    assert after[..|before|] == before;
    assert forall i :: 0 <= i < |before| ==> after[i] == before[i];
    assert after[|before|] == peer;
  }

  /** A new key, and for a site peer a new runtime. */
  predicate DistinctFrom(before: seq<Peer>, peer: Peer)
    requires peer.publicKey.Key?
  {
    && (forall i :: 0 <= i < |before| ==> before[i].publicKey.Key? && before[i].publicKey.key != peer.publicKey.key)
    && (forall i :: 0 <= i < |before| && IsSitePeer(before[i]) && IsSitePeer(peer) ==> before[i].runtimeId != peer.runtimeId)
  }

  /** What one more peer must satisfy, given the peers before it. */
  predicate JoinOk(before: seq<Peer>, peer: Peer) {
    && PeerShapeOk(peer)
    && AllowedIPsOk(peer)
    && DistinctFrom(before, peer)
    && Disjoint(PrefixesOf(peer.allowedIPs))
    && Apart(AllPrefixes(before), PrefixesOf(peer.allowedIPs))
  }

  lemma {:induction false} DistinctPeersSnoc(before: seq<Peer>, peer: Peer)
    requires forall i :: 0 <= i < |before| ==> before[i].publicKey.Key?
    requires peer.publicKey.Key?
    ensures DistinctPeers(before + [peer]) <==> DistinctPeers(before) && DistinctFrom(before, peer)
  {
    var after := before + [peer];
    assert after[|before|] == peer;
    assert forall i :: 0 <= i < |before| ==> after[i] == before[i];
  }

  lemma {:induction false} PeersOkSnoc(before: seq<Peer>, peer: Peer)
    ensures PeersOk(before + [peer]) <==> PeersOk(before) && JoinOk(before, peer)
  {
    var after := before + [peer];
    AllPrefixesSnoc(before, peer);
    DisjointConcat(AllPrefixes(before), PrefixesOf(peer.allowedIPs));
    assert forall i :: 0 <= i < |before| ==> after[i] == before[i];
    assert after[|before|] == peer;
    if (forall i :: 0 <= i < |before| ==> PeerShapeOk(before[i])) && PeerShapeOk(peer) {
      DistinctPeersSnoc(before, peer);
    }
  }

  lemma {:induction false} PeersOkPart(peers: seq<Peer>, n: nat)
    requires n <= |peers| && PeersOk(peers)
    ensures PeersOk(peers[..n])
  {
    AllPrefixesGrows(peers, n);
    DisjointPart(AllPrefixes(peers[..n]), AllPrefixes(peers));
  }

  lemma {:induction false} SiteSourcesAre(peers: seq<Peer>)
    ensures forall name :: name in SiteSources(peers) ==>
              exists i :: 0 <= i < |peers| && IsSitePeer(peers[i]) && peers[i].runtimeId == name &&
                          SiteSources(peers)[name] == PrefixesOf(peers[i].allowedIPs)
    ensures forall i :: 0 <= i < |peers| && IsSitePeer(peers[i]) ==> peers[i].runtimeId in SiteSources(peers)
  {
    if peers != [] {
      SiteSourcesAre(peers[..|peers| - 1]);
    }
  }

  // ---- The loops ----

  /** Taking prefix `k` next is sound exactly when it overlaps nothing taken so far. */
  lemma {:induction false} TakeNext(taken: seq<Prefix>, all: seq<Prefix>, k: nat)
    requires k < |all| && Disjoint(all[..k]) && Apart(taken, all[..k])
    ensures Disjoint(all[..k + 1]) && Apart(taken, all[..k + 1])
       <==> Apart(taken + all[..k], [all[k]])
    ensures Disjoint(all) && Apart(taken, all) ==> Disjoint(all[..k + 1]) && Apart(taken, all[..k + 1])
  {
    var next := all[..k] + [all[k]];
    assert all[..k + 1] == next;
    DisjointConcat(all[..k], [all[k]]);
    assert forall i :: 0 <= i < |taken| ==> (taken + all[..k])[i] == taken[i];
    assert forall i :: 0 <= i < k ==> (taken + all[..k])[|taken| + i] == all[i];
    assert forall i :: 0 <= i < k ==> next[i] == all[i];
    assert next[k] == all[k];
  }

  /** The inner loop over one peer's AllowedIPs, given the prefixes already taken. */
  method ReadAllowedIPs(peer: Peer, taken: seq<Prefix>) returns (ok: bool, prefixes: seq<Prefix>)
    ensures ok <==> AllowedIPsOk(peer) && Disjoint(PrefixesOf(peer.allowedIPs)) && Apart(taken, PrefixesOf(peer.allowedIPs))
    ensures ok ==> prefixes == PrefixesOf(peer.allowedIPs)
  {
    ghost var all := PrefixesOf(peer.allowedIPs);
    ok, prefixes := true, [];
    for k := 0 to |peer.allowedIPs|
      invariant prefixes == all[..k]
      invariant forall i :: 0 <= i < k ==> AllowedIPOk(peer.allowedIPs[i], IsSitePeer(peer))
      invariant Disjoint(all[..k]) && Apart(taken, all[..k])
    {
      if !AllowedIPOk(peer.allowedIPs[k], IsSitePeer(peer)) {
        return false, [];
      }
      TakeNext(taken, all, k);
      var prefix := Canonical(peer.allowedIPs[k]).value;
      var clash := OverlapsAny(taken + prefixes, prefix);
      if clash {
        return false, [];
      }
      prefixes := prefixes + [prefix];
    }
    assert all[..|all|] == all;
  }

  method OverlapsAny(existing: seq<Prefix>, prefix: Prefix) returns (clash: bool)
    ensures clash <==> !Apart(existing, [prefix])
  {
    for x := 0 to |existing|
      invariant Apart(existing[..x], [prefix])
    {
      if Overlaps(prefix, existing[x]) {
        assert Overlaps(existing[x], [prefix][0]);
        return true;
      }
    }
    return false;
  }

  function KeysOf(peers: seq<Peer>): set<string> {
    set i | 0 <= i < |peers| && peers[i].publicKey.Key? :: peers[i].publicKey.key
  }

  lemma {:induction false} JoinByLookup(before: seq<Peer>, peer: Peer)
    requires PeersOk(before) && PeerShapeOk(peer)
    ensures JoinOk(before, peer) <==>
              && peer.publicKey.key !in KeysOf(before)
              && !(IsSitePeer(peer) && peer.runtimeId in SiteSources(before))
              && AllowedIPsOk(peer)
              && Disjoint(PrefixesOf(peer.allowedIPs))
              && Apart(AllPrefixes(before), PrefixesOf(peer.allowedIPs))
    ensures KeysOf(before + [peer]) == KeysOf(before) + {peer.publicKey.key}
  {
    SiteSourcesAre(before);
    var after := before + [peer];
    assert forall i :: 0 <= i < |before| ==> after[i] == before[i] && PeerShapeOk(before[i]);
    assert after[|before|] == peer;
    if peer.publicKey.key in KeysOf(before) {
      var i :| 0 <= i < |before| && before[i].publicKey.Key? && before[i].publicKey.key == peer.publicKey.key;
    }
  }

  /** The body of the peer loop: `known` summarises the peers before. */
  method JoinPeer(ghost before: seq<Peer>, peer: Peer, keys: set<string>, all: seq<Prefix>, known: Sources)
    returns (ok: bool, prefixes: seq<Prefix>, sources: Sources)
    requires PeersOk(before) && keys == KeysOf(before) && all == AllPrefixes(before) && known == SourcesOf(before)
    ensures ok <==> JoinOk(before, peer)
    ensures ok ==> prefixes == PrefixesOf(peer.allowedIPs) && sources == SourcesOf(before + [peer])
    ensures ok ==> peer.publicKey.Key? && KeysOf(before + [peer]) == keys + {peer.publicKey.key}
  {
    prefixes, sources := [], known;
    if !PeerShapeOk(peer) {
      return false, prefixes, sources;
    }
    JoinByLookup(before, peer);
    if peer.publicKey.key in keys || (IsSitePeer(peer) && peer.runtimeId in known.site) {
      return false, prefixes, sources;
    }
    ok, prefixes := ReadAllowedIPs(peer, all);
    if ok {
      SourcesSnoc(before, peer);
      sources := sources.(routes := sources.routes + SetOf(prefixes));
      if IsSitePeer(peer) {
        sources := sources.(site := sources.site[peer.runtimeId := prefixes]);
      } else {
        sources := sources.(endpoint := sources.endpoint + {prefixes[0]});
      }
    }
  }

  /** Peer `n` joins exactly when the list is still acceptable with it. */
  lemma {:induction false} NextPeer(peers: seq<Peer>, n: nat)
    requires n < |peers| && PeersOk(peers[..n])
    ensures peers[..n + 1] == peers[..n] + [peers[n]]
    ensures PeersOk(peers[..n + 1]) <==> JoinOk(peers[..n], peers[n])
    ensures PeersOk(peers) ==> JoinOk(peers[..n], peers[n])
    ensures AllPrefixes(peers[..n + 1]) == AllPrefixes(peers[..n]) + PrefixesOf(peers[n].allowedIPs)
  {
    assert peers[..n + 1] == peers[..n] + [peers[n]];
    PeersOkSnoc(peers[..n], peers[n]);
    AllPrefixesSnoc(peers[..n], peers[n]);
    if PeersOk(peers) {
      PeersOkPart(peers, n + 1);
    }
  }

  method ValidatePeers(peers: seq<Peer>) returns (ok: bool, sources: Sources)
    ensures ok <==> PeersOk(peers)
    ensures ok ==> sources == SourcesOf(peers)
  {
    var keys: set<string>, all: seq<Prefix> := {}, [];
    ok, sources := true, Sources({}, map[], {});
    for n := 0 to |peers|
      invariant ok && PeersOk(peers[..n])
      invariant all == AllPrefixes(peers[..n]) && keys == KeysOf(peers[..n])
      invariant sources == SourcesOf(peers[..n])
    {
      NextPeer(peers, n);
      var prefixes;
      ok, prefixes, sources := JoinPeer(peers[..n], peers[n], keys, all, sources);
      if !ok {
        return;
      }
      keys, all := keys + {peers[n].publicKey.key}, all + prefixes;
    }
    assert peers[..|peers|] == peers;
  }

  predicate RoutesOk(routes: seq<CidrText>, allowed: set<Prefix>) {
    RouteListOk(routes) && SetOf(PrefixesOf(routes)) == allowed
  }

  /** Canonical, none of length 0, all different. */
  predicate RouteListOk(routes: seq<CidrText>) {
    && (forall i :: 0 <= i < |routes| ==> AllowedIPOk(routes[i], true))
    && (forall i, j :: 0 <= i < j < |routes| ==> PrefixOf(routes[i]) != PrefixOf(routes[j]))
  }

  /** Equal size and inclusion make two finite sets equal. */
  lemma SubsetOfEqualSize<T>(s: set<T>, t: set<T>)
    requires s <= t && |s| == |t|
    ensures s == t
  {
    assert t == s + (t - s);
  }

  lemma RouteListSnoc(before: seq<CidrText>, raw: CidrText)
    ensures RouteListOk(before + [raw]) <==>
              RouteListOk(before) && AllowedIPOk(raw, true) && forall i :: 0 <= i < |before| ==> PrefixOf(before[i]) != PrefixOf(raw)
  {
    var after := before + [raw];
    assert after[|before|] == raw;
    assert forall i :: 0 <= i < |before| ==> after[i] == before[i];
  }

  lemma RouteSetSnoc(before: seq<CidrText>, raw: CidrText)
    ensures SetOf(PrefixesOf(before + [raw])) == SetOf(PrefixesOf(before)) + {PrefixOf(raw)}
  {
    var added := [PrefixOf(raw)];
    assert PrefixesOf(before + [raw]) == PrefixesOf(before) + added;
    SetOfConcat(PrefixesOf(before), added);
    assert SetOf(added) == {PrefixOf(raw)} by { assert added[0] == PrefixOf(raw); }
  }

  /** Route `n` joins exactly when it is canonical, not of length 0 and new. */
  lemma NextRoute(routes: seq<CidrText>, n: nat, seen: set<Prefix>)
    requires n < |routes| && RouteListOk(routes[..n]) && seen == SetOf(PrefixesOf(routes[..n]))
    ensures RouteListOk(routes[..n + 1]) <==> AllowedIPOk(routes[n], true) && PrefixOf(routes[n]) !in seen
    ensures RouteListOk(routes) ==> RouteListOk(routes[..n + 1])
    ensures SetOf(PrefixesOf(routes[..n + 1])) == seen + {PrefixOf(routes[n])}
  {
    var before := routes[..n];
    assert routes[..n + 1] == before + [routes[n]];
    RouteListSnoc(before, routes[n]);
    RouteSetSnoc(before, routes[n]);
    assert forall i :: 0 <= i < n ==> PrefixesOf(before)[i] == PrefixOf(before[i]);
  }

  /** What the cardinality test at the end decides. */
  lemma CardinalityDecides(seen: set<Prefix>, allowed: set<Prefix>)
    ensures |seen| == |allowed| && seen <= allowed <==> seen == allowed
  {
    if |seen| == |allowed| && seen <= allowed {
      SubsetOfEqualSize(seen, allowed);
    }
  }

  method ValidateRoutes(routes: seq<CidrText>, allowed: set<Prefix>) returns (ok: bool)
    ensures ok <==> RoutesOk(routes, allowed)
  {
    var seen: set<Prefix> := {};
    for n := 0 to |routes|
      invariant RouteListOk(routes[..n]) && seen == SetOf(PrefixesOf(routes[..n]))
    {
      NextRoute(routes, n, seen);
      if !AllowedIPOk(routes[n], true) || Canonical(routes[n]).value in seen {
        return false;
      }
      seen := seen + {Canonical(routes[n]).value};
    }
    assert routes[..|routes|] == routes;
    CardinalityDecides(seen, allowed);
    return |seen| == |allowed| && seen <= allowed;
  }

  // ---- Cryptokey routing ----

  lemma {:induction false} PrefixPosition(peers: seq<Peer>, i: nat, k: nat) returns (at: nat)
    requires i < |peers| && k < |peers[i].allowedIPs|
    ensures at < |AllPrefixes(peers)| && AllPrefixes(peers)[at] == PrefixOf(peers[i].allowedIPs[k])
    ensures at == |AllPrefixes(peers[..i])| + k
    decreases |peers|
  {
    var front := peers[..|peers| - 1];
    if i == |peers| - 1 {
      at := |AllPrefixes(front)| + k;
    } else {
      at := PrefixPosition(front, i, k);
      assert front[..i] == peers[..i];
    }
  }

  ghost predicate Owns(peer: Peer, a: Address) {
    exists k :: 0 <= k < |peer.allowedIPs| && Contains(PrefixOf(peer.allowedIPs[k]), a)
  }

  ghost predicate Routed(routes: seq<CidrText>, a: Address) {
    exists n :: 0 <= n < |routes| && Contains(PrefixOf(routes[n]), a)
  }

  /** Each address belongs to at most one peer, through exactly one of its prefixes. */
  lemma AddressHasOneOwner(peers: seq<Peer>, a: Address, i: nat, k: nat, j: nat, l: nat)
    requires PeersOk(peers)
    requires i < |peers| && k < |peers[i].allowedIPs| && Contains(PrefixOf(peers[i].allowedIPs[k]), a)
    requires j < |peers| && l < |peers[j].allowedIPs| && Contains(PrefixOf(peers[j].allowedIPs[l]), a)
    ensures i == j && k == l
  {
    var x := PrefixPosition(peers, i, k);
    var y := PrefixPosition(peers, j, l);
    OverlapsIsIntersection(AllPrefixes(peers)[x], AllPrefixes(peers)[y]);
    OverlapsIsIntersection(AllPrefixes(peers)[y], AllPrefixes(peers)[x]);
    assert x == y;
    if i < j {
      PositionsDoNotMix(peers, i, j);
    } else if j < i {
      PositionsDoNotMix(peers, j, i);
    }
  }

  lemma PositionsDoNotMix(peers: seq<Peer>, i: nat, j: nat)
    requires i < j < |peers|
    ensures |AllPrefixes(peers[..i])| + |peers[i].allowedIPs| <= |AllPrefixes(peers[..j])|
  {
    assert peers[..j][..i + 1] == peers[..i] + [peers[i]];
    AllPrefixesSnoc(peers[..i], peers[i]);
    AllPrefixesGrows(peers[..j], i + 1);
  }

  lemma EndpointOwnsOneAddress(peer: Peer)
    requires PeerShapeOk(peer) && AllowedIPsOk(peer) && !IsSitePeer(peer)
    ensures |peer.allowedIPs| == 1 && IsSingle(PrefixOf(peer.allowedIPs[0]))
    ensures forall a: Address :: Owns(peer, a) <==> a == PrefixOf(peer.allowedIPs[0]).addr
  {
    assert AllowedIPOk(peer.allowedIPs[0], false);
    forall a: Address ensures Owns(peer, a) <==> a == PrefixOf(peer.allowedIPs[0]).addr {
      SinglePrefixHoldsOneAddress(PrefixOf(peer.allowedIPs[0]), a);
    }
  }

  /** Unambiguous cryptokey routing for every accepted peer list and route list. */
  lemma CryptokeyRoutingIsUnambiguous(peers: seq<Peer>, routes: seq<CidrText>)
    requires PeersOk(peers) && RoutesOk(routes, SourcesOf(peers).routes)
    ensures forall a: Address, i, j :: 0 <= i < |peers| && 0 <= j < |peers| && Owns(peers[i], a) && Owns(peers[j], a) ==> i == j
    ensures forall i :: 0 <= i < |peers| && !IsSitePeer(peers[i]) ==>
              |peers[i].allowedIPs| == 1 && IsSingle(PrefixOf(peers[i].allowedIPs[0])) &&
              forall a: Address :: Owns(peers[i], a) <==> a == PrefixOf(peers[i].allowedIPs[0]).addr
    ensures forall a: Address :: Routed(routes, a) <==> exists i :: 0 <= i < |peers| && Owns(peers[i], a)
  {
    forall a: Address, i, j | 0 <= i < |peers| && 0 <= j < |peers| && Owns(peers[i], a) && Owns(peers[j], a) ensures i == j {
      var k :| 0 <= k < |peers[i].allowedIPs| && Contains(PrefixOf(peers[i].allowedIPs[k]), a);
      var l :| 0 <= l < |peers[j].allowedIPs| && Contains(PrefixOf(peers[j].allowedIPs[l]), a);
      AddressHasOneOwner(peers, a, i, k, j, l);
    }
    forall i | 0 <= i < |peers| && !IsSitePeer(peers[i])
      ensures |peers[i].allowedIPs| == 1 && IsSingle(PrefixOf(peers[i].allowedIPs[0]))
      ensures forall a: Address :: Owns(peers[i], a) <==> a == PrefixOf(peers[i].allowedIPs[0]).addr
    {
      EndpointOwnsOneAddress(peers[i]);
    }
    forall a: Address
      ensures Routed(routes, a) <==> exists i :: 0 <= i < |peers| && Owns(peers[i], a)
    {
      RoutesReachExactlyThePeers(peers, routes, a);
    }
  }

  lemma {:induction false} PrefixHasPeer(peers: seq<Peer>, at: nat) returns (i: nat, k: nat)
    requires at < |AllPrefixes(peers)|
    ensures i < |peers| && k < |peers[i].allowedIPs| && AllPrefixes(peers)[at] == PrefixOf(peers[i].allowedIPs[k])
  {
    var front := peers[..|peers| - 1];
    if at < |AllPrefixes(front)| {
      i, k := PrefixHasPeer(front, at);
    } else {
      i, k := |peers| - 1, at - |AllPrefixes(front)|;
    }
  }

  lemma {:induction false} RoutesReachExactlyThePeers(peers: seq<Peer>, routes: seq<CidrText>, a: Address)
    requires RoutesOk(routes, SetOf(AllPrefixes(peers)))
    ensures Routed(routes, a) <==> exists i :: 0 <= i < |peers| && Owns(peers[i], a)
  {
    if Routed(routes, a) {
      var n :| 0 <= n < |routes| && Contains(PrefixOf(routes[n]), a);
      assert PrefixesOf(routes)[n] in SetOf(AllPrefixes(peers));
      var at :| 0 <= at < |AllPrefixes(peers)| && AllPrefixes(peers)[at] == PrefixOf(routes[n]);
      var i, k := PrefixHasPeer(peers, at);
      assert Owns(peers[i], a);
    }
    if i :| 0 <= i < |peers| && Owns(peers[i], a) {
      var k :| 0 <= k < |peers[i].allowedIPs| && Contains(PrefixOf(peers[i].allowedIPs[k]), a);
      var at := PrefixPosition(peers, i, k);
      assert AllPrefixes(peers)[at] in SetOf(PrefixesOf(routes));
      var n :| 0 <= n < |PrefixesOf(routes)| && PrefixesOf(routes)[n] == AllPrefixes(peers)[at];
      assert Contains(PrefixOf(routes[n]), a);
    }
  }
}
