/** The whole mihomo rewrite as one pass: protect, bootstrap, guard and check the finished rules, with its
    acceptance condition and what the finished document does to a destination. */
module MihomoPipeline {
  import opened Options
  import opened MihomoRules
  import opened MihomoGuard

  /** A section of the document as nonemptySection sees it. */
  datatype Section = Absent | Items(count: nat) | Scalar

  /** The tun section as enabledTunnel sees it; `enable` is None when the key is missing, and true for any value but false. */
  datatype Tunnel = NoTunnel | NotObject | TunnelObject(enable: Option<bool>)

  datatype ProxyProvider = ProxyProvider(name: string, nodes: seq<Node>)

  /** A decoded user document. Array sections are None when they are not arrays; `proxyProviders` lists the
      providers in the order the program happens to visit them, with their payloads. */
  datatype UserDoc = UserDoc(listeners: Section, tunnels: Section, tun: Tunnel, mode: string, ipv6: bool,
                             nodes: Option<seq<Node>>, proxyProviders: seq<ProxyProvider>, groups: Option<seq<Group>>,
                             rules: Option<seq<Entry>>, ruleProviders: map<string, Provider>)

  const MAX_PROVIDERS := 32
  const MAX_NODES := 127

  // ---- Protection ----

  predicate IsNonempty(section: Section) {
    match section
    case Absent => false
    case Items(count) => count > 0
    case Scalar => true
  }

  predicate IsEnabled(tun: Tunnel) {
    match tun
    case NoTunnel => false
    case NotObject => true
    case TunnelObject(enable) => enable == Some(true)
  }

  /** No way into the engine beside the rules. */
  predicate Protectable(doc: UserDoc) {
    !IsNonempty(doc.listeners) && !IsNonempty(doc.tunnels) && !IsEnabled(doc.tun) && doc.rules.Some?
  }

  function ProtectedDoc(doc: UserDoc, hosts: seq<Part>, cidrs: seq<Part>): UserDoc
    requires doc.rules.Some?
  {
    doc.(mode := "rule", ipv6 := true, rules := Some(ProtectionPrefix(hosts, cidrs) + doc.rules.value))
  }

  /** protectMihomo. */
  method ProtectDocument(doc: UserDoc, hosts: seq<Part>, cidrs: seq<Part>) returns (out: Option<UserDoc>)
    ensures out.Some? <==> Protectable(doc)
    ensures out.Some? ==> out.value == ProtectedDoc(doc, hosts, cidrs)
  {
    if IsNonempty(doc.listeners) || IsNonempty(doc.tunnels) || IsEnabled(doc.tun) || doc.rules.None? {
      return None;
    }
    var rules := Protect(hosts, cidrs, doc.rules.value);
    return Some(doc.(mode := "rule", ipv6 := true, rules := Some(rules)));
  }

  // ---- Bootstrap ----

  function MemberOf(node: Node): Member { if node.name.Some? then Named(node.name.value) else NotName }

  function MembersOf(nodes: seq<Node>): seq<Member> { seq(|nodes|, i requires 0 <= i < |nodes| => MemberOf(nodes[i])) }

  /** The provider names with their members; a later provider of the same name would replace an earlier one. */
  function ProvidedBy(providers: seq<ProxyProvider>): map<string, seq<Member>> {
    if providers == [] then map[]
    else
      var last := providers[|providers| - 1];
      ProvidedBy(providers[..|providers| - 1])[last.name := MembersOf(last.nodes)]
  }

  function NodesWith(nodes: seq<Node>, providers: seq<ProxyProvider>): seq<Node> {
    if providers == [] then nodes
    else NodesWith(nodes, providers[..|providers| - 1]) + providers[|providers| - 1].nodes
  }

  predicate Bootable(doc: UserDoc) {
    && doc.nodes.Some? && doc.groups.Some? && doc.rules.Some? && |doc.proxyProviders| <= MAX_PROVIDERS
    && (forall i :: 0 <= i < |doc.groups.value| ==> UsesOk(doc.groups.value[i], ProvidedBy(doc.proxyProviders)))
    && |NodesWith(doc.nodes.value, doc.proxyProviders)| <= MAX_NODES
    && Inlinable(doc.rules.value, doc.ruleProviders)
  }

  function Booted(doc: UserDoc): Doc
    requires Bootable(doc)
  {
    var groups, provided := doc.groups.value, ProvidedBy(doc.proxyProviders);
    Doc(NodesWith(doc.nodes.value, doc.proxyProviders),
        seq(|groups|, i requires 0 <= i < |groups| && UsesOk(groups[i], provided) => InlinedGroup(groups[i], provided)),
        Expanded(doc.rules.value, doc.ruleProviders))
  }

  /** The loop over proxy providers. */
  method CollectProviders(nodes: seq<Node>, providers: seq<ProxyProvider>) returns (all: seq<Node>, provided: map<string, seq<Member>>)
    ensures all == NodesWith(nodes, providers) && provided == ProvidedBy(providers)
  {
    all, provided := nodes, map[];
    for n := 0 to |providers|
      invariant all == NodesWith(nodes, providers[..n]) && provided == ProvidedBy(providers[..n])
    {
      assert providers[..n + 1][..n] == providers[..n];
      provided := provided[providers[n].name := MembersOf(providers[n].nodes)];
      all := all + providers[n].nodes;
    }
    assert providers[..|providers|] == providers;
  }

  /** bootstrapMihomo, with the payloads at hand. */
  method Boot(doc: UserDoc) returns (out: Option<Doc>)
    ensures out.Some? <==> Bootable(doc)
    ensures out.Some? ==> out.value == Booted(doc)
  {
    if doc.nodes.None? || doc.groups.None? || doc.rules.None? || |doc.proxyProviders| > MAX_PROVIDERS {
      return None;
    }
    var nodes, provided := CollectProviders(doc.nodes.value, doc.proxyProviders);
    var groups := InlineGroups(doc.groups.value, provided);
    if groups.None? || |nodes| > MAX_NODES {
      return None;
    }
    var rules := InlineRules(doc.rules.value, doc.ruleProviders);
    if rules.None? {
      return None;
    }
    out := Some(Doc(nodes, groups.value, rules.value));
    assert out.value.groups == Booted(doc).groups;
  }

  // ---- The whole pass ----

  /** Everything the pass demands, the shape check on the finished rules included. */
  predicate Passes(doc: UserDoc, hosts: seq<Part>, cidrs: seq<Part>, users: seq<Option<string>>) {
    && Protectable(doc) && Bootable(ProtectedDoc(doc, hosts, cidrs))
    && Accepts(Booted(ProtectedDoc(doc, hosts, cidrs)), users)
    && AllReadable(Finished(doc, hosts, cidrs, users).rules)
  }

  function Finished(doc: UserDoc, hosts: seq<Part>, cidrs: seq<Part>, users: seq<Option<string>>): GuardedDoc
    requires doc.rules.Some? && Bootable(ProtectedDoc(doc, hosts, cidrs))
  {
    Compiled(Booted(ProtectedDoc(doc, hosts, cidrs)), users)
  }

  /** expectedMihomoRules, as far as it can refuse. */
  method CheckShapes(rules: seq<Entry>) returns (ok: bool)
    ensures ok <==> AllReadable(rules)
  {
    for n := 0 to |rules|
      invariant forall i :: 0 <= i < n ==> rules[i].Line? && Readable(rules[i].parts)
    {
      if rules[n].NotText? || !Readable(rules[n].parts) {
        return false;
      }
    }
    return true;
  }

  /** From the decoded user document to the finished one. */
  method Rewrite(doc: UserDoc, hosts: seq<Part>, cidrs: seq<Part>, guard: EgressGuard) returns (out: Option<GuardedDoc>)
    requires guard.backends == map[] && guard.tried == 0
    modifies guard
    ensures out.Some? <==> Passes(doc, hosts, cidrs, guard.users)
    ensures out.Some? ==> out.value == Finished(doc, hosts, cidrs, guard.users)
  {
    var safe := ProtectDocument(doc, hosts, cidrs);
    if safe.None? {
      return None;
    }
    var booted := Boot(safe.value);
    if booted.None? {
      return None;
    }
    out := guard.Mihomo(booted.value);
    if out.Some? {
      var readable := CheckShapes(out.value.rules);
      if !readable {
        return None;
      }
    }
  }

  /** The finished document's rules reject every protected destination, and send every other one where the user's list
      sent it, DIRECT (also the implicit one at the end) replaced by the guarded front. With proper rule-set
      targets the user's list is read plainly. */
  lemma {:induction false} FinishedRulesKeepMeaning(doc: UserDoc, hosts: seq<Part>, cidrs: seq<Part>, users: seq<Option<string>>,
                                                    destination: iset<seq<Part>>)
    requires Passes(doc, hosts, cidrs, users)
    ensures Verdict(Finished(doc, hosts, cidrs, users).rules, destination) ==
              if IsProtected(hosts, cidrs, destination) then "REJECT"
              else Redirect(ReadVerdict(doc.rules.value, doc.ruleProviders, destination), DIRECT_FRONT)
    ensures (forall n :: 0 <= n < |doc.rules.value| ==> ProperTarget(doc.rules.value[n], doc.ruleProviders)) ==>
              ReadVerdict(doc.rules.value, doc.ruleProviders, destination) == UserVerdict(doc.rules.value, doc.ruleProviders, destination)
  {
    var lines := Expanded(ProtectionPrefix(hosts, cidrs) + doc.rules.value, doc.ruleProviders);
    AllReadableParts(Guarded(lines, DIRECT_FRONT), [Line(["MATCH", DIRECT_FRONT])]);
    DirectFrontIsPlain();
    ReadableBeforeGuarding(lines, DIRECT_FRONT);
    RewriteKeepsMeaning(hosts, cidrs, doc.rules.value, doc.ruleProviders, DIRECT_FRONT, destination);
  }

  lemma DirectFrontIsPlain()
    ensures DIRECT_FRONT != "no-resolve" && DIRECT_FRONT != "MATCH"
  {
    assert DIRECT_FRONT[0] == 's' && "no-resolve"[0] == 'n' && "MATCH"[0] == 'M';
  }

  /** And no rule of the finished document, through any chain of its groups, leads around the guard. */
  lemma FinishedDocumentHasNoBypass(doc: UserDoc, hosts: seq<Part>, cidrs: seq<Part>, users: seq<Option<string>>,
                                    rule: nat, path: seq<string>, at: nat)
    requires Passes(doc, hosts, cidrs, users) && rule < |Finished(doc, hosts, cidrs, users).rules|
    requires IsPath(Finished(doc, hosts, cidrs, users), path) && at < |path|
    requires SendsTo(Finished(doc, hosts, cidrs, users).rules[rule], path[0])
    ensures IsSafe(Finished(doc, hosts, cidrs, users), path[at])
  {
    NoBypass(Booted(ProtectedDoc(doc, hosts, cidrs)), users, rule, path, at);
  }

  // ---- What is refused ----

  /** A document may have no listeners, no tunnels and no tun device that is on, or not an object; and must have a rule
      array if it has rules at all. */
  lemma EntrancesTest(doc: UserDoc)
    ensures Protectable(doc) <==>
              && doc.rules.Some? && doc.listeners in {Absent, Items(0)} && doc.tunnels in {Absent, Items(0)}
              && doc.tun in {NoTunnel, TunnelObject(None), TunnelObject(Some(false))}
  {
    SectionTest(doc.listeners);
    SectionTest(doc.tunnels);
    TunnelTest(doc.tun);
  }

  lemma SectionTest(section: Section)
    ensures !IsNonempty(section) <==> section == Absent || section == Items(0)
  {
    match section
    case Absent =>
    case Items(count) => assert count == 0 <==> section == Items(0);
    case Scalar =>
  }

  lemma TunnelTest(tun: Tunnel)
    ensures !IsEnabled(tun) <==> tun == NoTunnel || tun == TunnelObject(None) || tun == TunnelObject(Some(false))
  {
    match tun
    case NoTunnel =>
    case NotObject =>
    case TunnelObject(enable) =>
      if enable.Some? {
        assert enable == Some(enable.value);
        if enable.value {
          assert enable == Some(true);
        } else {
          assert enable == Some(false);
        }
      }
  }

  /** A rule line that can be checked on readback: MATCH with a target, or one of eleven types with a payload and a target;
      a trailing no-resolve apart. */
  predicate Checkable(parts: seq<Part>) {
    || IsCheckable(parts)
    || (|parts| > 0 && parts[|parts| - 1] == "no-resolve" && IsCheckable(parts[..|parts| - 1]))
  }

  predicate IsCheckable(core: seq<Part>) {
    || (|core| == 2 && core[0] == "MATCH")
    || (|core| == 3 && core[0] in {"DOMAIN", "DOMAIN-SUFFIX", "DOMAIN-KEYWORD", "IP-CIDR", "IP-CIDR6", "SRC-IP-CIDR", "DST-PORT", "SRC-PORT",
                                   "NETWORK", "PROCESS-NAME", "PROCESS-PATH"})
  }

  /** The runtime accepts just those, except that it always takes a trailing no-resolve for the modifier. */
  lemma ShapeTest(parts: seq<Part>)
    ensures parts == [] || parts[|parts| - 1] != "no-resolve" ==> (Readable(parts) <==> IsCheckable(parts))
    ensures parts != [] && parts[|parts| - 1] == "no-resolve" ==> (Readable(parts) <==> IsCheckable(parts[..|parts| - 1]))
    ensures Readable(parts) ==> Checkable(parts)
  {
  }

  /** A name the user may not give: none, empty, too long, or beginning like the runtime's own. */
  ghost predicate NameRefused(name: Option<string>) {
    name.None? || name.value == "" || |name.value| > 128 || BeginsReserved(name.value)
  }

  /** Begins with "soha-", in any case. */
  ghost predicate BeginsReserved(name: string) {
    |name| >= 5 && forall i :: 0 <= i < 5 ==> name[i] == "soha-"[i] || name[i] == "SOHA-"[i]
  }

  lemma NameTest(name: Option<string>)
    ensures IsOriginalName(name) <==> !NameRefused(name)
  {
    if name.Some? && |name.value| >= 5 {
      var n := name.value;
      assert BeginsReserved(n) <==>
             (n[0] == 's' || n[0] == 'S') && (n[1] == 'o' || n[1] == 'O') && (n[2] == 'h' || n[2] == 'H') && (n[3] == 'a' || n[3] == 'A') && n[4] == '-' by {
        if BeginsReserved(n) {
          assert forall i :: 0 <= i < 5 ==> n[i] == "soha-"[i] || n[i] == "SOHA-"[i];
        }
      }
    }
  }

  /** A member or rule target must be a rejection, an outbound, a group, DIRECT or the direct front itself. */
  ghost predicate Unknown(doc: Doc, name: string) {
    && name != "REJECT" && name != "REJECT-DROP" && name != "DIRECT" && name != "soha-egress-direct"
    && (forall i :: 0 <= i < |doc.nodes| ==> doc.nodes[i].name != Some(name))
    && (forall i :: 0 <= i < |doc.groups| ==> doc.groups[i].name != Some(name))
  }

  ghost predicate GroupRefused(doc: Doc, group: Group) {
    || (group.kind != "select" && group.kind != "url-test" && group.kind != "fallback" && group.kind != "load-balance")
    || group.uses != Some([]) || group.proxies.None? || group.proxies.value == []
    || exists i :: 0 <= i < |group.proxies.value| && (group.proxies.value[i].NotName? || Unknown(doc, group.proxies.value[i].name))
  }

  /** A group is taken over exactly when its type is known, it uses no provider any more, and it has members, all known;
      except that the name DIRECT, if a user gave it to an outbound or group, is read as the built-in one. */
  lemma GroupTest(doc: Doc, group: Group)
    ensures GroupOk(group, Allowed(doc)) <==> !GroupRefused(doc, group)
  {
    if group.proxies.Some? {
      forall i | 0 <= i < |group.proxies.value| && group.proxies.value[i].Named?
        ensures Redirect(group.proxies.value[i].name, DIRECT_FRONT) in Allowed(doc) <==> !Unknown(doc, group.proxies.value[i].name)
      {
      }
    }
  }

  /** The sizes a document may have. */
  lemma PassingDocumentsAreBounded(doc: UserDoc, hosts: seq<Part>, cidrs: seq<Part>, users: seq<Option<string>>)
    requires Passes(doc, hosts, cidrs, users)
    ensures |NodesWith(doc.nodes.value, doc.proxyProviders)| <= 127 && |doc.proxyProviders| <= 32 && |doc.ruleProviders| <= 32
    ensures |Finished(doc, hosts, cidrs, users).rules| <= 16384 + 1
    ensures |Finished(doc, hosts, cidrs, users).outbounds| == 2 * |NodesWith(doc.nodes.value, doc.proxyProviders)| + 1
  {
    OutboundsAre(Booted(ProtectedDoc(doc, hosts, cidrs)).nodes, users);
  }

  // ---- Nothing the user configured gets lost ----

  /** The node is among the user's own or one of the providers'. */
  ghost predicate Configured(doc: UserDoc, node: Node) {
    || (doc.nodes.Some? && node in doc.nodes.value)
    || exists p :: 0 <= p < |doc.proxyProviders| && node in doc.proxyProviders[p].nodes
  }

  lemma {:induction false} NodesWithHolds(nodes: seq<Node>, providers: seq<ProxyProvider>, node: Node)
    ensures node in NodesWith(nodes, providers) <==> node in nodes || exists p :: 0 <= p < |providers| && node in providers[p].nodes
  {
    if providers != [] {
      var front := providers[..|providers| - 1];
      NodesWithHolds(nodes, front, node);
      assert forall p :: 0 <= p < |front| ==> front[p] == providers[p];
    }
  }

  /** A front under the node's name, and behind it, under the same user, the node itself and the listener that reaches it. */
  ghost predicate FrontedAs(out: GuardedDoc, node: Node, user: string) {
    && Front(node.name.GetOr(""), user) in out.outbounds
    && Raw(RealName(user), node.(name := Some(RealName(user)))) in out.outbounds
    && Listener(RealName(user), user, RealName(user)) in out.listeners
    && Listener(RealName(user) + "-probe", user, node.name.GetOr("")) in out.listeners
  }

  /** Every configured outbound, a provider's included, is reachable through its own front and no other way; and the direct
      front's listener is the one that leads to DIRECT. */
  lemma {:induction false} EveryNodeIsFronted(doc: UserDoc, hosts: seq<Part>, cidrs: seq<Part>, users: seq<Option<string>>, node: Node)
    requires Passes(doc, hosts, cidrs, users) && Configured(doc, node)
    ensures exists user :: FrontedAs(Finished(doc, hosts, cidrs, users), node, user)
    ensures exists user :: Front(DIRECT_FRONT, user) in Finished(doc, hosts, cidrs, users).outbounds
                        && Listener(RealName(user), user, "DIRECT") in Finished(doc, hosts, cidrs, users).listeners
  {
    var booted := Booted(ProtectedDoc(doc, hosts, cidrs));
    NodesWithHolds(doc.nodes.value, doc.proxyProviders, node);
    var i :| 0 <= i < |booted.nodes| && booted.nodes[i] == node;
    NodeIsFronted(booted, users, i);
    var user, out := UserOf(users, |booted.nodes|), Compiled(booted, users);
    assert out.outbounds[|out.outbounds| - 1] == Front(DIRECT_FRONT, user);
    assert out.listeners[|out.listeners| - 2] == Listener(RealName(user), user, "DIRECT");
  }

  lemma NodeIsFronted(doc: Doc, users: seq<Option<string>>, i: nat)
    requires i < |doc.nodes|
    ensures FrontedAs(Compiled(doc, users), doc.nodes[i], UserOf(users, i))
  {
    OutboundsAre(doc.nodes, users);
    ListenersAre(doc.nodes, users);
    var out, user := Compiled(doc, users), UserOf(users, i);
    assert out.outbounds[2 * i] == Front(doc.nodes[i].name.GetOr(""), user);
    assert out.outbounds[2 * i + 1] == Raw(RealName(user), doc.nodes[i].(name := Some(RealName(user))));
    assert out.listeners[2 * i] == Listener(RealName(user), user, RealName(user));
    assert out.listeners[2 * i + 1] == Listener(RealName(user) + "-probe", user, doc.nodes[i].name.GetOr(""));
  }

  /** The group lists the name itself, or uses a provider that has an outbound of that name. */
  ghost predicate Offers(group: Group, providers: seq<ProxyProvider>, name: string) {
    || (group.proxies.Some? && Named(name) in group.proxies.value)
    || (group.uses.Some? &&
        exists u :: 0 <= u < |group.uses.value| && group.uses.value[u].Named? && ProvidesName(providers, group.uses.value[u].name, name))
  }

  /** The provider of that name, the last one visited if there are several, has an outbound of that name. */
  ghost predicate ProvidesName(providers: seq<ProxyProvider>, provider: string, name: string) {
    exists p :: 0 <= p < |providers| && providers[p].name == provider
             && (forall q :: p < q < |providers| ==> providers[q].name != provider)
             && exists n :: 0 <= n < |providers[p].nodes| && providers[p].nodes[n].name == Some(name)
  }

  lemma {:induction false} ProvidedByNames(providers: seq<ProxyProvider>, provider: string, name: string)
    ensures provider in ProvidedBy(providers) && Named(name) in ProvidedBy(providers)[provider] <==> ProvidesName(providers, provider, name)
  {
    if providers != [] {
      var n := |providers| - 1;
      var front, last := providers[..n], providers[n];
      assert forall p :: 0 <= p < n ==> front[p] == providers[p];
      if last.name == provider {
        MembersNamed(last.nodes, name);
      } else {
        ProvidedByNames(front, provider, name);
      }
    }
  }

  lemma MembersNamed(nodes: seq<Node>, name: string)
    ensures Named(name) in MembersOf(nodes) <==> exists n :: 0 <= n < |nodes| && nodes[n].name == Some(name)
  {
    if n :| 0 <= n < |nodes| && nodes[n].name == Some(name) {
      assert MembersOf(nodes)[n] == Named(name);
    }
    if Named(name) in MembersOf(nodes) {
      var n :| 0 <= n < |nodes| && MembersOf(nodes)[n] == Named(name);
      assert nodes[n].name == Some(name);
    }
  }

  lemma {:induction false} ProvidedNamesHold(uses: seq<Member>, provided: map<string, seq<Member>>, member: Member)
    ensures member in ProvidedNames(uses, provided) <==>
              exists u :: 0 <= u < |uses| && uses[u].Named? && uses[u].name in provided && member in provided[uses[u].name]
  {
    if uses != [] {
      var front := uses[..|uses| - 1];
      ProvidedNamesHold(front, provided, member);
      assert forall u :: 0 <= u < |front| ==> front[u] == uses[u];
    }
  }

  /** After inlining, a group's members are exactly the names it offered. */
  lemma {:induction false} InlinedGroupOffers(group: Group, providers: seq<ProxyProvider>, name: string)
    requires UsesOk(group, ProvidedBy(providers))
    ensures Named(name) in InlinedGroup(group, ProvidedBy(providers)).proxies.value <==> Offers(group, providers, name)
  {
    ProvidedNamesHold(group.uses.value, ProvidedBy(providers), Named(name));
    forall u | 0 <= u < |group.uses.value| && group.uses.value[u].Named?
      ensures Named(name) in ProvidedBy(providers)[group.uses.value[u].name] <==> ProvidesName(providers, group.uses.value[u].name, name)
    {
      ProvidedByNames(providers, group.uses.value[u].name, name);
    }
  }

  /** In the finished document a group keeps its name and type and sends exactly where it offered to send, DIRECT replaced
      by the guarded front. */
  lemma {:induction false} GroupsKeepTheirOffers(doc: UserDoc, hosts: seq<Part>, cidrs: seq<Part>, users: seq<Option<string>>, g: nat, name: string)
    requires Passes(doc, hosts, cidrs, users) && g < |doc.groups.value|
    ensures var out := Finished(doc, hosts, cidrs, users);
            && |out.groups| == |doc.groups.value| && out.groups[g].name == doc.groups.value[g].name && out.groups[g].kind == doc.groups.value[g].kind
            && out.groups[g].proxies.Some?
            && (Named(name) in out.groups[g].proxies.value <==>
                  exists offered :: Offers(doc.groups.value[g], doc.proxyProviders, offered) && name == Redirect(offered, DIRECT_FRONT))
  {
    var group, provided := doc.groups.value[g], ProvidedBy(doc.proxyProviders);
    var inlined := InlinedGroup(group, provided);
    var out := Finished(doc, hosts, cidrs, users).groups[g];
    assert out == GuardedGroup(inlined);
    var members := inlined.proxies.value;
    forall offered ensures Named(offered) in members <==> Offers(group, doc.proxyProviders, offered) {
      InlinedGroupOffers(group, doc.proxyProviders, offered);
    }
    GuardedMembers(inlined, name);
  }

  lemma GuardedMembers(group: Group, name: string)
    requires group.proxies.Some?
    ensures Named(name) in GuardedGroup(group).proxies.value <==>
              exists offered :: Named(offered) in group.proxies.value && name == Redirect(offered, DIRECT_FRONT)
  {
    var members, guarded := group.proxies.value, GuardedGroup(group).proxies.value;
    if Named(name) in guarded {
      var i :| 0 <= i < |guarded| && guarded[i] == Named(name);
      assert guarded[i] == RedirectMember(members[i]);
      assert Named(members[i].name) in members && name == Redirect(members[i].name, DIRECT_FRONT);
    }
    if offered :| Named(offered) in members && name == Redirect(offered, DIRECT_FRONT) {
      var i :| 0 <= i < |members| && members[i] == Named(offered);
      assert guarded[i] == RedirectMember(members[i]);
    }
  }
}
