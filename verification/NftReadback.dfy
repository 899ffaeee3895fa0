/** Reading the kernel's table back: the decoder, the lease-guard check, the topology and rule
    checks, and what a successful readback says about every packet from then on. */
module NftReadback {
  import opened Options
  import opened GatewayTypes
  import opened GatewayPeers
  import opened GatewayFirewall
  import opened Nftables

  datatype Mark = MarkNumber(n: real) | MarkText(text: string) | MarkOther
  datatype Elem = Unreadable | Elem(mark: Mark, timeout: real, expires: real)
  datatype GuardSet = GuardSet(family: string, table: string, name: string, kind: string, flags: seq<string>, elems: seq<Elem>)
  datatype Table = Table(family: string, name: string)
  datatype Chain = Chain(family: string, table: string, name: string, kind: string, hook: string, policy: string)
  datatype Listed = Listed(family: string, table: string, chain: string, rule: NftRule)

  /** One entry of the JSON listing. */
  datatype Item = Item(table: Option<Table>, chain: Option<Chain>, rule: Option<Listed>, guard: Option<GuardSet>)

  // ---- What a listing holds ----

  function TableCount(items: seq<Item>): nat {
    if items == [] then 0 else TableCount(items[..|items| - 1]) + if items[|items| - 1].table.Some? then 1 else 0
  }

  function ChainTable(items: seq<Item>): map<string, Chain> {
    if items == [] then map[]
    else
      var before, last := ChainTable(items[..|items| - 1]), items[|items| - 1].chain;
      if last.Some? then before[last.value.name := last.value] else before
  }

  /** The rules listed in a chain, in order. */
  function RulesIn(items: seq<Item>, chain: string): seq<NftRule> {
    if items == [] then []
    else
      var before, last := RulesIn(items[..|items| - 1], chain), items[|items| - 1].rule;
      if last.Some? && last.value.chain == chain then before + [last.value.rule] else before
  }

  function GuardSets(items: seq<Item>): seq<GuardSet> {
    if items == [] then []
    else
      var before, last := GuardSets(items[..|items| - 1]), items[|items| - 1].guard;
      if last.Some? then before + [last.value] else before
  }

  predicate OursOnly(item: Item) {
    && (item.table.Some? ==> item.table.value == Table("inet", TABLE))
    && (item.chain.Some? ==> item.chain.value.family == "inet" && item.chain.value.table == TABLE)
    && (item.rule.Some? ==> item.rule.value.family == "inet" && item.rule.value.table == TABLE)
  }

  predicate FreshChain(items: seq<Item>, n: nat)
    requires n < |items|
  {
    items[n].chain.Some? ==> items[n].chain.value.name !in ChainTable(items[..n])
  }

  predicate Decodes(items: seq<Item>) {
    forall n :: 0 <= n < |items| ==> OursOnly(items[n]) && FreshChain(items, n)
  }

  // ---- The decoder ----

  datatype State = State(tables: nat, chains: map<string, Chain>, rules: map<string, seq<NftRule>>)

  function RulesAt(rules: map<string, seq<NftRule>>, chain: string): seq<NftRule> {
    if chain in rules then rules[chain] else []
  }

  ghost predicate Lists(rules: map<string, seq<NftRule>>, items: seq<Item>) {
    forall chain :: RulesAt(rules, chain) == RulesIn(items, chain) && (chain in rules <==> RulesIn(items, chain) != [])
  }

  method DecodeReadback(items: seq<Item>) returns (state: Option<State>)
    ensures state.Some? <==> Decodes(items)
    ensures state.Some? ==> state.value.tables == TableCount(items) && state.value.chains == ChainTable(items)
    ensures state.Some? ==> Lists(state.value.rules, items)
  {
    var tables, chains: map<string, Chain>, rules: map<string, seq<NftRule>> := 0, map[], map[];
    for n := 0 to |items|
      invariant forall i :: 0 <= i < n ==> OursOnly(items[i]) && FreshChain(items, i)
      invariant tables == TableCount(items[..n]) && chains == ChainTable(items[..n]) && Lists(rules, items[..n])
    {
      var item := items[n];
      assert items[..n + 1][..n] == items[..n];
      if !OursOnly(item) {
        return None;
      }
      if item.table.Some? {
        tables := tables + 1;
      }
      if item.chain.Some? {
        if item.chain.value.name in chains {
          return None;
        }
        chains := chains[item.chain.value.name := item.chain.value];
      }
      if item.rule.Some? {
        var chain := item.rule.value.chain;
        rules := rules[chain := RulesAt(rules, chain) + [item.rule.value.rule]];
      }
    }
    assert items[..|items|] == items;
    return Some(State(tables, chains, rules));
  }

  // ---- The lease guard ----

  predicate ZeroMark(mark: Mark) {
    match mark
    case MarkNumber(n) => n == 0.0
    case MarkText(text) => text in ["0", "0x00000000", "0x0"]
    case MarkOther => false
  }

  function SecondsBetween(from: Time, to: Time): real { (to - from) as real / SECOND as real }

  predicate GuardSetOk(guard: GuardSet, deadlines: seq<Time>, now: Time) {
    && guard.family == "inet" && guard.table == TABLE && guard.name == "lease_guard" && guard.kind == "mark"
    && guard.flags == ["timeout"] && |guard.elems| == 1
    && guard.elems[0].Elem? && ZeroMark(guard.elems[0].mark)
    && 0.0 < guard.elems[0].expires <= guard.elems[0].timeout <= 300.0
    && (|deadlines| == 1 ==> guard.elems[0].expires <= SecondsBetween(now, deadlines[0]) + 1.0)
  }

  predicate GuardOk(items: seq<Item>, deadlines: seq<Time>, now: Time) {
    |GuardSets(items)| == 1 && GuardSetOk(GuardSets(items)[0], deadlines, now)
  }

  lemma {:induction false} GuardSetsGrow(items: seq<Item>, n: nat)
    requires n <= |items|
    ensures GuardSets(items[..n]) <= GuardSets(items)
    decreases |items| - n
  {
    if n == |items| {
      assert items[..n] == items;
    } else {
      assert items[..n + 1][..n] == items[..n];
      GuardSetsGrow(items, n + 1);
    }
  }

  method VerifyLeaseGuard(items: seq<Item>, deadlines: seq<Time>, now: Time) returns (ok: bool)
    ensures ok <==> GuardOk(items, deadlines, now)
  {
    var count := 0;
    for n := 0 to |items|
      invariant count == |GuardSets(items[..n])|
      invariant forall i :: 0 <= i < count ==> GuardSetOk(GuardSets(items[..n])[i], deadlines, now)
    {
      assert items[..n + 1][..n] == items[..n];
      if items[n].guard.Some? {
        count := count + 1;
        if !GuardSetOk(items[n].guard.value, deadlines, now) {
          GuardSetsGrow(items, n + 1);
          assert GuardSets(items[..n + 1])[count - 1] == items[n].guard.value;
          return false;
        }
      }
    }
    assert items[..|items|] == items;
    return count == 1;
  }

  // ---- Topology and rules ----

  predicate ChainIs(chains: map<string, Chain>, name: string, kind: string) {
    name in chains && chains[name].kind == kind && chains[name].hook == name && chains[name].policy == "accept"
  }

  predicate TopologyOk(tables: nat, chains: map<string, Chain>, postrouting: seq<NftRule>, routingMode: string) {
    && tables == 1
    && |chains| == (if routingMode == "snat" then 2 else 1)
    && ChainIs(chains, "forward", "filter")
    && (if routingMode == "snat" then ChainIs(chains, "postrouting", "nat") else postrouting == [])
  }

  method MatchRules(actual: seq<NftRule>, expected: seq<NftRule>) returns (ok: bool)
    ensures ok <==> actual == expected
  {
    if |actual| != |expected| {
      return false;
    }
    for n := 0 to |expected|
      invariant actual[..n] == expected[..n]
    {
      if actual[n] != expected[n] {
        return false;
      }
    }
    assert actual[..|actual|] == actual && expected[..|expected|] == expected;
    return true;
  }

  predicate ForwardIs(actual: seq<NftRule>, wg: WireGuard) { HasCanonicalEnds(wg.rules) && actual == ExpectedForward(wg) }

  method MatchForward(actual: seq<NftRule>, wg: WireGuard) returns (ok: bool)
    ensures ok <==> ForwardIs(actual, wg)
  {
    var forward := GenerateExpected(wg);
    if forward.None? {
      return false;
    }
    ok := MatchRules(actual, forward.value);
  }

  ghost predicate ReadbackOk(items: seq<Item>, wg: WireGuard, egress: string, deadlines: seq<Time>, now: Time) {
    && Decodes(items)
    && GuardOk(items, deadlines, now)
    && TopologyOk(TableCount(items), ChainTable(items), RulesIn(items, "postrouting"), wg.routingMode)
    && ForwardIs(RulesIn(items, "forward"), wg)
    && (wg.routingMode == "snat" ==> RulesIn(items, "postrouting") == ExpectedPostrouting(wg.rules, egress))
    && NoOtherChains(items, wg.routingMode == "snat")
  }

  /** Only the owned chains hold rules. */
  ghost predicate NoOtherChains(items: seq<Item>, snat: bool) {
    forall chain :: RulesIn(items, chain) != [] ==> chain == "forward" || (chain == "postrouting" && snat)
  }

  method CheckChains(rules: map<string, seq<NftRule>>, ghost items: seq<Item>, snat: bool) returns (ok: bool)
    requires Lists(rules, items)
    ensures ok <==> NoOtherChains(items, snat)
  {
    return forall chain | chain in rules :: chain == "forward" || (chain == "postrouting" && snat);
  }

  /** Looking a chain up in the decoded rules gives its listed rules. */
  lemma ListedRules(rules: map<string, seq<NftRule>>, items: seq<Item>, chain: string)
    requires Lists(rules, items)
    ensures RulesAt(rules, chain) == RulesIn(items, chain)
  {
  }

  method VerifyReadback(items: seq<Item>, wg: WireGuard, egress: string, deadlines: seq<Time>, now: Time) returns (ok: bool)
    ensures ok <==> ReadbackOk(items, wg, egress, deadlines, now)
  {
    var decoded := DecodeReadback(items);
    if decoded.None? {
      return false;
    }
    var state := decoded.value;
    ListedRules(state.rules, items, "forward");
    ListedRules(state.rules, items, "postrouting");
    var guardOk := VerifyLeaseGuard(items, deadlines, now);
    if !guardOk || !TopologyOk(state.tables, state.chains, RulesAt(state.rules, "postrouting"), wg.routingMode) {
      return false;
    }
    var same := MatchForward(RulesAt(state.rules, "forward"), wg);
    if !same {
      return false;
    }
    if wg.routingMode == "snat" {
      var snat := MatchRules(RulesAt(state.rules, "postrouting"), ExpectedPostrouting(wg.rules, egress));
      if !snat {
        return false;
      }
    }
    ok := CheckChains(state.rules, items, wg.routingMode == "snat");
  }

  // ---- What a successful readback guarantees ----

  /** A mark that is the number zero, in whatever base it is written. */
  predicate DenotesZero(mark: Mark) {
    match mark
    case MarkNumber(n) => n == 0.0
    case MarkText(text) => text == "0" || (|text| > 2 && text[..2] == "0x" && forall i :: 2 <= i < |text| ==> text[i] == '0')
    case MarkOther => false
  }

  ghost predicate ElementAlive(elem: Elem, readAt: Time, t: Time) {
    elem.Elem? && DenotesZero(elem.mark) && SecondsBetween(readAt, t) < elem.expires
  }

  /** Whether, by a listing taken at `readAt`, the lease guard set still holds mark zero at `t`. */
  ghost predicate GuardAliveAt(items: seq<Item>, readAt: Time, t: Time) {
    exists i, j :: 0 <= i < |GuardSets(items)| && 0 <= j < |GuardSets(items)[i].elems|
                && GuardSets(items)[i].family == "inet" && GuardSets(items)[i].table == TABLE && GuardSets(items)[i].name == "lease_guard"
                && ElementAlive(GuardSets(items)[i].elems[j], readAt, t)
  }

  lemma OneGuardElement(items: seq<Item>, deadlines: seq<Time>, now: Time, readAt: Time, t: Time)
    requires GuardOk(items, deadlines, now)
    ensures GuardAliveAt(items, readAt, t) <==> SecondsBetween(readAt, t) < GuardSets(items)[0].elems[0].expires
  {
    var set0 := GuardSets(items)[0];
    assert ElementAlive(set0.elems[0], readAt, t) <==> SecondsBetween(readAt, t) < set0.elems[0].expires;
  }

  /** The rules of one chain of the owned table, in order, whatever else the listing shows. */
  function OwnRules(items: seq<Item>, chain: string): seq<NftRule> {
    if items == [] then []
    else
      var before, last := OwnRules(items[..|items| - 1], chain), items[|items| - 1].rule;
      if last.Some? && last.value.family == "inet" && last.value.table == "soha_network_gateway" && last.value.chain == chain
      then before + [last.value.rule] else before
  }

  /** The listing shows this chain in the owned table. */
  ghost predicate OwnChain(items: seq<Item>, chain: Chain) {
    chain.family == "inet" && chain.table == "soha_network_gateway" && exists i :: 0 <= i < |items| && items[i].chain == Some(chain)
  }

  lemma DecodesFront(items: seq<Item>)
    requires Decodes(items) && items != []
    ensures Decodes(items[..|items| - 1]) && OursOnly(items[|items| - 1]) && FreshChain(items, |items| - 1)
  {
    var front := items[..|items| - 1];
    forall n | 0 <= n < |front| ensures OursOnly(front[n]) && FreshChain(front, n) {
      assert front[n] == items[n] && front[..n] == items[..n];
      assert OursOnly(items[n]) && FreshChain(items, n);
    }
  }

  lemma {:induction false} DecodedRulesAreOwn(items: seq<Item>, chain: string)
    requires Decodes(items)
    ensures OwnRules(items, chain) == RulesIn(items, chain)
  {
    if items != [] {
      DecodesFront(items);
      DecodedRulesAreOwn(items[..|items| - 1], chain);
    }
  }

  lemma {:induction false} DecodedChainsAreOwn(items: seq<Item>, chain: Chain)
    requires Decodes(items)
    ensures OwnChain(items, chain) <==> chain.name in ChainTable(items) && ChainTable(items)[chain.name] == chain
  {
    if items != [] {
      var front, last := items[..|items| - 1], items[|items| - 1];
      DecodesFront(items);
      DecodedChainsAreOwn(front, chain);
      assert forall i :: 0 <= i < |front| ==> front[i] == items[i];
      assert OwnChain(items, chain) <==>
             OwnChain(front, chain) || (last.chain == Some(chain) && chain.family == "inet" && chain.table == "soha_network_gateway");
    }
  }

  /** The chain filters forwarded packets, and by the listing does not accept this one. */
  ghost predicate Stops(items: seq<Item>, chain: Chain, readAt: Time, packet: Packet, t: Time) {
    && OwnChain(items, chain) && chain.hook == "forward" && chain.kind == "filter"
    && Evaluate(OwnRules(items, chain.name), chain.policy, packet, GuardAliveAt(items, readAt, t)) != "accept"
  }

  /** The verdict at time `t` of all the table's chains that the kernel runs over forwarded packets. */
  ghost function KernelVerdict(items: seq<Item>, readAt: Time, packet: Packet, t: Time): string {
    if exists chain :: Stops(items, chain, readAt, packet, t) then "drop" else "accept"
  }

  /** Whether some chain of the table translates the packet's source on its way out. */
  ghost predicate KernelTranslates(items: seq<Item>, packet: Packet) {
    exists chain :: OwnChain(items, chain) && chain.hook == "postrouting" && chain.kind == "nat" && Masquerades(OwnRules(items, chain.name), packet)
  }

  /** The counted chains are all there are, and are what they should be. */
  lemma {:induction false} ChainsAreCounted(items: seq<Item>, routingMode: string, chain: Chain)
    requires Decodes(items) && TopologyOk(TableCount(items), ChainTable(items), RulesIn(items, "postrouting"), routingMode) && OwnChain(items, chain)
    ensures || (chain.name == "forward" && chain == ChainTable(items)["forward"] && chain.kind == "filter" && chain.hook == "forward" && chain.policy == "accept")
            || (routingMode == "snat" && chain.name == "postrouting" && chain == ChainTable(items)["postrouting"] && chain.kind == "nat" && chain.hook == "postrouting")
  {
    DecodedChainsAreOwn(items, chain);
    var chains := ChainTable(items);
    var owned := if routingMode == "snat" then {"forward", "postrouting"} else {"forward"};
    assert owned <= chains.Keys && |owned| == |chains.Keys|;
    SubsetOfEqualSize(owned, chains.Keys);
  }

  lemma {:induction false} ForwardIsOwn(items: seq<Item>, routingMode: string, name: string)
    requires Decodes(items) && TopologyOk(TableCount(items), ChainTable(items), RulesIn(items, "postrouting"), routingMode) && name in ChainTable(items)
    ensures OwnChain(items, ChainTable(items)[name]) && ChainTable(items)[name].name == name
  {
    ChainTableNames(items, name);
    DecodedChainsAreOwn(items, ChainTable(items)[name]);
  }

  lemma {:induction false} ChainTableNames(items: seq<Item>, name: string)
    requires name in ChainTable(items)
    ensures ChainTable(items)[name].name == name
  {
    var last := items[|items| - 1].chain;
    if last.None? || last.value.name != name {
      ChainTableNames(items[..|items| - 1], name);
    }
  }

  /** After a good readback the kernel gives every packet the intended verdict at every later time, and the guard is
      alive at the time of the reading. */
  lemma {:induction false} ReadbackFixesMeaning(items: seq<Item>, wg: WireGuard, egress: string, deadlines: seq<Time>,
                                                readAt: Time, packet: Packet, t: Time)
    requires ReadbackOk(items, wg, egress, deadlines, readAt)
    requires forall i :: 0 <= i < |wg.rules| ==> wg.rules[i].effect in ["allow", "deny"]
    ensures KernelVerdict(items, readAt, packet, t) == Intended(wg, packet, GuardAliveAt(items, readAt, t))
    ensures GuardAliveAt(items, readAt, readAt)
  {
    var alive := GuardAliveAt(items, readAt, t);
    ExpectedChainMeansIntended(wg, packet, alive);
    OneGuardElement(items, deadlines, readAt, readAt, readAt);
    DecodedRulesAreOwn(items, "forward");
    ForwardIsOwn(items, wg.routingMode, "forward");
    var forward := ChainTable(items)["forward"];
    assert Stops(items, forward, readAt, packet, t) <==> Intended(wg, packet, alive) != "accept";
    forall chain | Stops(items, chain, readAt, packet, t) ensures chain == forward {
      ChainsAreCounted(items, wg.routingMode, chain);
    }
  }

  /** After a good readback the kernel translates exactly the traffic of allow rules that leaves through the egress
      interface, and none in routed mode. */
  lemma {:induction false} ReadbackFixesTranslation(items: seq<Item>, wg: WireGuard, egress: string, deadlines: seq<Time>, readAt: Time, packet: Packet)
    requires ReadbackOk(items, wg, egress, deadlines, readAt)
    ensures KernelTranslates(items, packet) <==> wg.routingMode == "snat" && LeavesTranslated(wg.rules, egress, packet)
  {
    forall chain | OwnChain(items, chain) && chain.hook == "postrouting" ensures wg.routingMode == "snat" && chain == ChainTable(items)["postrouting"] {
      ChainsAreCounted(items, wg.routingMode, chain);
    }
    PostroutingTranslates(wg.rules, egress, packet);
    DecodedRulesAreOwn(items, "postrouting");
    if wg.routingMode == "snat" {
      ForwardIsOwn(items, wg.routingMode, "postrouting");
    }
  }

  /** The kernel guard outlives the authorisation by at most a second. */
  lemma ReadbackBoundsGuard(items: seq<Item>, wg: WireGuard, egress: string, validUntil: Time, readAt: Time, t: Time)
    requires ReadbackOk(items, wg, egress, [validUntil], readAt)
    requires t >= validUntil + SECOND
    ensures !GuardAliveAt(items, readAt, t)
  {
    OneGuardElement(items, [validUntil], readAt, readAt, t);
    var a, b := (t - readAt) as real, (validUntil - readAt) as real;
    assert a >= b + SECOND as real;
    assert a / SECOND as real >= (b + SECOND as real) / SECOND as real;
  }

  /** Firewall soundness, end to end: for an accepted configuration that was read back, whatever the
      kernel lets through on WireGuard is return traffic into it or justified by an unexpired
      allow, and from one second past the deadline nothing at all passes, even if userspace is gone. */
  lemma {:induction false} KernelAdmitsOnlyJustifiedTraffic(
      desired: Desired, publicKey: string, egress: string, validated: Time, items: seq<Item>, readAt: Time, packet: Packet, t: Time)
    requires DesiredOk(desired, publicKey, validated, egress) && desired.wireGuard.Some?
    requires ReadbackOk(items, desired.wireGuard.value, egress, [desired.validUntil], readAt)
    requires Touches(packet, desired.wireGuard.value.interfaceName)
    requires KernelVerdict(items, readAt, packet, t) == "accept"
    ensures t < desired.validUntil + SECOND
    ensures var wg := desired.wireGuard.value;
            || (packet.oif == wg.interfaceName && IsReturn(packet))
            || exists i :: 0 <= i < |wg.rules| && RuleMatches(wg.rules[i], wg.interfaceName, packet)
                        && Justifies(desired, wg.rules[i], packet, validated)
  {
    var wg := desired.wireGuard.value;
    forall i | 0 <= i < |wg.rules| ensures wg.rules[i].effect in ["allow", "deny"] {
      assert PassesAt(wg.rules, i, SourcesOf(wg.peers), LeaseTable(desired.networkLeases), LeaseIds(desired.resourceLeases),
                      desired.validUntil, validated);
    }
    ReadbackFixesMeaning(items, wg, egress, [desired.validUntil], readAt, packet, t);
    if t >= desired.validUntil + SECOND {
      ReadbackBoundsGuard(items, wg, egress, desired.validUntil, readAt, t);
    }
    if !(packet.oif == wg.interfaceName && IsReturn(packet)) {
      AllowedPacketsAreJustified(desired, publicKey, validated, egress, packet);
      var at := FirstMatchIndex(wg.rules, wg.interfaceName, packet);
    }
  }
}
