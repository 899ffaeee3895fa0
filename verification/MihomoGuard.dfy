/** Splitting a mihomo configuration into guarded fronts and raw backends, and why no rule or group,
    however groups refer to each other, leads around the guard. */
module MihomoGuard {
  import opened Options
  import opened MihomoRules

  /** An element of a name array: a string, or something else. */
  datatype Member = Named(name: string) | NotName

  /** A configured outbound; the name is None when it is missing or not a string. */
  datatype Node = Node(name: Option<string>, rest: string)

  /** A proxy group; an array section is None when it is not an array. */
  datatype Group = Group(name: Option<string>, kind: string, uses: Option<seq<Member>>, proxies: Option<seq<Member>>)

  datatype Doc = Doc(nodes: seq<Node>, groups: seq<Group>, rules: seq<Entry>)

  datatype Backend = Backend(name: string, user: string)

  /** A front passes everything to the guard under its user; a raw outbound is a renamed original. */
  datatype Outbound = Front(name: string, user: string) | Raw(name: string, node: Node)

  /** A loopback listener, who may use it, and where it sends. */
  datatype Listener = Listener(name: string, user: string, proxy: string)

  datatype GuardedDoc = GuardedDoc(outbounds: seq<Outbound>, listeners: seq<Listener>, groups: seq<Group>, rules: seq<Entry>)

  const DIRECT_FRONT: Part := "soha-egress-direct"
  const MAX_BACKENDS := 128

  function RealName(user: string): string { "soha-backend-" + user }

  function Lower(c: char): char { if 'A' <= c <= 'Z' then c + 32 as char else c }

  predicate IsReserved(name: string) {
    |name| >= 5 && Lower(name[0]) == 's' && Lower(name[1]) == 'o' && Lower(name[2]) == 'h' && Lower(name[3]) == 'a' && name[4] == '-'
  }

  /** originalName: what users may call their outbounds and groups. */
  predicate IsOriginalName(name: Option<string>) {
    name.Some? && name.value != "" && |name.value| <= 128 && !IsReserved(name.value)
  }

  // ---- Inlining proxy providers into groups ----

  function ProvidedNames(uses: seq<Member>, provided: map<string, seq<Member>>): seq<Member> {
    if uses == [] then []
    else
      var last := uses[|uses| - 1];
      ProvidedNames(uses[..|uses| - 1], provided) + if last.Named? && last.name in provided then provided[last.name] else []
  }

  predicate UsesOk(group: Group, provided: map<string, seq<Member>>) {
    && group.uses.Some? && group.proxies.Some?
    && forall i :: 0 <= i < |group.uses.value| ==> group.uses.value[i].Named? && group.uses.value[i].name in provided
  }

  function InlinedGroup(group: Group, provided: map<string, seq<Member>>): Group
    requires UsesOk(group, provided)
  {
    group.(uses := Some([]), proxies := Some(group.proxies.value + ProvidedNames(group.uses.value, provided)))
  }

  method InlineGroup(group: Group, provided: map<string, seq<Member>>) returns (out: Option<Group>)
    ensures out.Some? <==> UsesOk(group, provided)
    ensures out.Some? ==> out.value == InlinedGroup(group, provided)
  {
    if group.uses.None? || group.proxies.None? {
      return None;
    }
    var uses := group.uses.value;
    var added := [];
    for n := 0 to |uses|
      invariant forall i :: 0 <= i < n ==> uses[i].Named? && uses[i].name in provided
      invariant added == ProvidedNames(uses[..n], provided)
    {
      assert uses[..n + 1][..n] == uses[..n];
      if uses[n].NotName? || uses[n].name !in provided {
        return None;
      }
      added := added + provided[uses[n].name];
    }
    assert uses[..|uses|] == uses;
    return Some(group.(uses := Some([]), proxies := Some(group.proxies.value + added)));
  }

  method InlineGroups(groups: seq<Group>, provided: map<string, seq<Member>>) returns (out: Option<seq<Group>>)
    ensures out.Some? <==> forall i :: 0 <= i < |groups| ==> UsesOk(groups[i], provided)
    ensures out.Some? ==> |out.value| == |groups| && forall i :: 0 <= i < |groups| ==> out.value[i] == InlinedGroup(groups[i], provided)
  {
    var done := [];
    for n := 0 to |groups|
      invariant |done| == n
      invariant forall i :: 0 <= i < n ==> UsesOk(groups[i], provided) && done[i] == InlinedGroup(groups[i], provided)
    {
      var group := InlineGroup(groups[n], provided);
      if group.None? {
        return None;
      }
      done := done + [group.value];
    }
    return Some(done);
  }

  // ---- What the guard builds ----

  predicate NodesOk(nodes: seq<Node>, users: seq<Option<string>>) {
    && |nodes| < MAX_BACKENDS && |nodes| < |users|
    && (forall i :: 0 <= i < |nodes| ==> IsOriginalName(nodes[i].name))
    && (forall i, j :: 0 <= i < j < |nodes| ==> nodes[i].name != nodes[j].name)
    && (forall i :: 0 <= i <= |nodes| ==> users[i].Some?)
  }

  function UserOf(users: seq<Option<string>>, i: nat): string { if i < |users| then users[i].GetOr("") else "" }

  function Outbounds(nodes: seq<Node>, users: seq<Option<string>>): seq<Outbound> {
    if nodes == [] then []
    else
      var n := |nodes| - 1;
      Outbounds(nodes[..n], users) + Pair(nodes[n], UserOf(users, n))
  }

  /** A node's front, and the node itself under its backend name. */
  function Pair(node: Node, user: string): seq<Outbound> {
    [Front(node.name.GetOr(""), user), Raw(RealName(user), node.(name := Some(RealName(user))))]
  }

  lemma PairSnoc(nodes: seq<Node>, users: seq<Option<string>>, n: nat)
    requires n < |nodes|
    ensures Outbounds(nodes[..n + 1], users) == Outbounds(nodes[..n], users) + Pair(nodes[n], UserOf(users, n))
    ensures Listeners(nodes[..n + 1], users) ==
              Listeners(nodes[..n], users) + BackendListeners(nodes[n].name.GetOr(""), UserOf(users, n), RealName(UserOf(users, n)))
  {
    assert nodes[..n + 1][..n] == nodes[..n];
  }

  /** The backend listener sends to the raw outbound, the probe listener back through the front. */
  function Listeners(nodes: seq<Node>, users: seq<Option<string>>): seq<Listener> {
    if nodes == [] then []
    else
      var n := |nodes| - 1;
      Listeners(nodes[..n], users) + BackendListeners(nodes[n].name.GetOr(""), UserOf(users, n), RealName(UserOf(users, n)))
  }

  function BackendListeners(name: string, user: string, policy: string): seq<Listener> {
    [Listener(RealName(user), user, policy), Listener(RealName(user) + "-probe", user, name)]
  }

  function NamesOf(nodes: seq<Node>): set<string> { set i | 0 <= i < |nodes| && nodes[i].name.Some? :: nodes[i].name.value }

  function GroupNames(groups: seq<Group>): set<string> { set i | 0 <= i < |groups| && groups[i].name.Some? :: groups[i].name.value }

  /** The names a rule or a group may refer to. */
  function Allowed(doc: Doc): set<string> {
    {"REJECT", "REJECT-DROP", DIRECT_FRONT} + NamesOf(doc.nodes) + GroupNames(doc.groups)
  }

  predicate GroupNamesOk(nodes: seq<Node>, groups: seq<Group>) {
    && (forall i :: 0 <= i < |groups| ==>
          IsOriginalName(groups[i].name) && groups[i].name.value !in {"REJECT", "REJECT-DROP", DIRECT_FRONT} + NamesOf(nodes))
    && (forall i, j :: 0 <= i < j < |groups| ==> groups[i].name != groups[j].name)
  }

  predicate GroupOk(group: Group, allowed: set<string>) {
    && group.kind in ["select", "url-test", "fallback", "load-balance"]
    && group.uses == Some([])
    && group.proxies.Some? && group.proxies.value != []
    && forall i :: 0 <= i < |group.proxies.value| ==>
         group.proxies.value[i].Named? && Redirect(group.proxies.value[i].name, DIRECT_FRONT) in allowed
  }

  function RedirectMember(member: Member): Member {
    if member.Named? then Named(Redirect(member.name, DIRECT_FRONT)) else member
  }

  function GuardedGroup(group: Group): Group {
    if group.proxies.None? then group
    else group.(proxies := Some(seq(|group.proxies.value|, i requires 0 <= i < |group.proxies.value| => RedirectMember(group.proxies.value[i]))))
  }

  predicate Accepts(doc: Doc, users: seq<Option<string>>) {
    && NodesOk(doc.nodes, users)
    && GroupNamesOk(doc.nodes, doc.groups)
    && (forall i :: 0 <= i < |doc.groups| ==> GroupOk(doc.groups[i], Allowed(doc)))
    && |doc.rules| <= MAX_RULES
    && forall i :: 0 <= i < |doc.rules| ==> Guardable(doc.rules[i], Allowed(doc), DIRECT_FRONT)
  }

  function Compiled(doc: Doc, users: seq<Option<string>>): GuardedDoc {
    var user := UserOf(users, |doc.nodes|);
    GuardedDoc(Outbounds(doc.nodes, users) + [Front(DIRECT_FRONT, user)],
               Listeners(doc.nodes, users) + BackendListeners(DIRECT_FRONT, user, "DIRECT"),
               seq(|doc.groups|, i requires 0 <= i < |doc.groups| => GuardedGroup(doc.groups[i])),
               Guarded(doc.rules, DIRECT_FRONT) + [Line(["MATCH", DIRECT_FRONT])])
  }

  // ---- The guard object ----

  class EgressGuard {
    /** users[i] is the random user of the i-th backend; None if its ports could not be reserved. */
    const users: seq<Option<string>>
    var backends: map<string, Backend>
    var tried: nat

    constructor (users: seq<Option<string>>)
      ensures this.users == users && backends == map[] && tried == 0
    {
      this.users, backends, tried := users, map[], 0;
    }

    method Add(name: string) returns (backend: Option<Backend>)
      modifies this
      ensures backend.Some? <==> name !in old(backends) && |old(backends)| < MAX_BACKENDS && old(tried) < |users| && users[old(tried)].Some?
      ensures backend.Some? ==> backend.value == Backend(name, UserOf(users, old(tried))) && tried == old(tried) + 1
      ensures backend.Some? ==> backends == old(backends)[name := backend.value]
      ensures backend.None? ==> backends == old(backends)
    {
      if name in backends || |backends| >= MAX_BACKENDS {
        return None;
      }
      tried := tried + 1;
      if tried > |users| || users[tried - 1].None? {
        return None;
      }
      var b := Backend(name, users[tried - 1].value);
      backends := backends[name := b];
      return Some(b);
    }

    /** The loop over outbounds. */
    method GuardNodes(nodes: seq<Node>) returns (ok: bool, outbounds: seq<Outbound>, listeners: seq<Listener>)
      requires backends == map[] && tried == 0
      modifies this
      ensures ok <==> AddsAll(nodes, users, |nodes|)
      ensures ok ==> outbounds == Outbounds(nodes, users) && listeners == Listeners(nodes, users)
      ensures ok ==> tried == |backends| == |nodes| && backends.Keys == NamesOf(nodes)
    {
      ok, outbounds, listeners := true, [], [];
      for n := 0 to |nodes|
        invariant tried == n == |backends| && backends.Keys == NamesOf(nodes[..n])
        invariant AddsAll(nodes, users, n)
        invariant outbounds == Outbounds(nodes[..n], users) && listeners == Listeners(nodes[..n], users)
      {
        AddsAllNext(nodes, users, n);
        if !IsOriginalName(nodes[n].name) {
          return false, [], [];
        }
        var name := nodes[n].name.value;
        var b := Add(name);
        if b.None? {
          return false, [], [];
        }
        PairSnoc(nodes, users, n);
        outbounds := outbounds + Pair(nodes[n], b.value.user);
        listeners := listeners + BackendListeners(name, b.value.user, RealName(b.value.user));
      }
      assert nodes[..|nodes|] == nodes;
    }

    method GuardOutbounds(nodes: seq<Node>) returns (ok: bool, outbounds: seq<Outbound>, listeners: seq<Listener>)
      requires backends == map[] && tried == 0
      modifies this
      ensures ok <==> NodesOk(nodes, users)
      ensures ok ==> outbounds == Outbounds(nodes, users) + [Front(DIRECT_FRONT, UserOf(users, |nodes|))]
      ensures ok ==> listeners == Listeners(nodes, users) + BackendListeners(DIRECT_FRONT, UserOf(users, |nodes|), "DIRECT")
    {
      ok, outbounds, listeners := GuardNodes(nodes);
      AddsAllIsNodesOk(nodes, users);
      if !ok {
        return;
      }
      var direct := Add(DIRECT_FRONT);
      if direct.None? {
        return false, [], [];
      }
      outbounds := outbounds + [Front(DIRECT_FRONT, direct.value.user)];
      listeners := listeners + BackendListeners(DIRECT_FRONT, direct.value.user, "DIRECT");
    }

    /** egressGuard.mihomo. */
    method Mihomo(doc: Doc) returns (out: Option<GuardedDoc>)
      requires backends == map[] && tried == 0
      modifies this
      ensures out.Some? <==> Accepts(doc, users)
      ensures out.Some? ==> out.value == Compiled(doc, users)
    {
      var ok, outbounds, listeners := GuardOutbounds(doc.nodes);
      if !ok {
        return None;
      }
      var distinct := CollectGroupNames(doc.nodes, doc.groups);
      if !distinct {
        return None;
      }
      var groups := GuardGroups(doc.groups, Allowed(doc));
      if groups.None? || |doc.rules| > MAX_RULES {
        return None;
      }
      var rules := new Entry[|doc.rules|](i requires 0 <= i < |doc.rules| => doc.rules[i]);
      assert rules[..] == doc.rules;
      var guarded := GuardRules(rules, Allowed(doc), DIRECT_FRONT);
      if !guarded {
        return None;
      }
      return Some(GuardedDoc(outbounds, listeners, groups.value, rules[..] + [Line(["MATCH", DIRECT_FRONT])]));
    }
  }

  /** The first `n` outbounds could all be added. */
  predicate AddsAll(nodes: seq<Node>, users: seq<Option<string>>, n: nat)
    requires n <= |nodes|
  {
    && n <= MAX_BACKENDS && n <= |users|
    && (forall i :: 0 <= i < n ==> users[i].Some? && IsOriginalName(nodes[i].name))
    && (forall i, j :: 0 <= i < j < n ==> nodes[i].name != nodes[j].name)
  }

  lemma AddsAllNext(nodes: seq<Node>, users: seq<Option<string>>, n: nat)
    requires n < |nodes| && AddsAll(nodes, users, n)
    ensures AddsAll(nodes, users, n + 1) <==>
              && IsOriginalName(nodes[n].name) && nodes[n].name.value !in NamesOf(nodes[..n])
              && n < MAX_BACKENDS && n < |users| && users[n].Some?
    ensures AddsAll(nodes, users, |nodes|) ==> AddsAll(nodes, users, n + 1)
    ensures nodes[n].name.Some? ==> NamesOf(nodes[..n + 1]) == NamesOf(nodes[..n]) + {nodes[n].name.value}
  {
    if nodes[n].name.Some? {
      NamesOfSnoc(nodes, n);
      assert nodes[n].name.value in NamesOf(nodes[..n]) <==> exists i :: 0 <= i < n && nodes[i].name == nodes[n].name;
    }
  }

  lemma AddsAllIsNodesOk(nodes: seq<Node>, users: seq<Option<string>>)
    ensures NodesOk(nodes, users) <==>
              AddsAll(nodes, users, |nodes|) && |nodes| < MAX_BACKENDS && |nodes| < |users| && users[|nodes|].Some?
    ensures AddsAll(nodes, users, |nodes|) ==> DIRECT_FRONT !in NamesOf(nodes)
  {
    assert IsReserved(DIRECT_FRONT);
  }

  lemma NamesOfSnoc(nodes: seq<Node>, n: nat)
    requires n < |nodes| && nodes[n].name.Some?
    ensures NamesOf(nodes[..n + 1]) == NamesOf(nodes[..n]) + {nodes[n].name.value}
  {
    assert forall i :: 0 <= i < n ==> nodes[..n + 1][i] == nodes[..n][i];
    assert nodes[..n + 1][n] == nodes[n];
  }

  method CollectGroupNames(nodes: seq<Node>, groups: seq<Group>) returns (ok: bool)
    ensures ok <==> GroupNamesOk(nodes, groups)
  {
    var base := {"REJECT", "REJECT-DROP", DIRECT_FRONT} + NamesOf(nodes);
    var allowed := base;
    for n := 0 to |groups|
      invariant base <= allowed
      invariant forall i :: 0 <= i < n ==> IsOriginalName(groups[i].name) && groups[i].name.value !in base && groups[i].name.value in allowed
      invariant forall name :: name in allowed ==> name in base || exists i :: 0 <= i < n && groups[i].name == Some(name)
      invariant forall i, j :: 0 <= i < j < n ==> groups[i].name != groups[j].name
    {
      if !IsOriginalName(groups[n].name) || groups[n].name.value in allowed {
        return false;
      }
      allowed := allowed + {groups[n].name.value};
      assert groups[n].name == Some(groups[n].name.value);
    }
    return true;
  }

  method GuardGroup(group: Group, allowed: set<string>) returns (out: Option<Group>)
    ensures out.Some? <==> GroupOk(group, allowed)
    ensures out.Some? ==> out.value == GuardedGroup(group)
  {
    if group.kind !in ["select", "url-test", "fallback", "load-balance"] || group.uses != Some([])
       || group.proxies.None? || group.proxies.value == [] {
      return None;
    }
    var members := group.proxies.value;
    for n := 0 to |members|
      invariant |members| == |group.proxies.value|
      invariant forall i :: 0 <= i < n ==> group.proxies.value[i].Named? && Redirect(group.proxies.value[i].name, DIRECT_FRONT) in allowed
      invariant forall i :: 0 <= i < n ==> members[i] == RedirectMember(group.proxies.value[i])
      invariant forall i :: n <= i < |members| ==> members[i] == group.proxies.value[i]
    {
      if members[n].NotName? || Redirect(members[n].name, DIRECT_FRONT) !in allowed {
        return None;
      }
      members := members[n := RedirectMember(members[n])];
    }
    assert members == GuardedGroup(group).proxies.value;
    return Some(group.(proxies := Some(members)));
  }

  method GuardGroups(groups: seq<Group>, allowed: set<string>) returns (out: Option<seq<Group>>)
    ensures out.Some? <==> forall i :: 0 <= i < |groups| ==> GroupOk(groups[i], allowed)
    ensures out.Some? ==> |out.value| == |groups| && forall i :: 0 <= i < |groups| ==> out.value[i] == GuardedGroup(groups[i])
  {
    var done := [];
    for n := 0 to |groups|
      invariant |done| == n && forall i :: 0 <= i < n ==> GroupOk(groups[i], allowed) && done[i] == GuardedGroup(groups[i])
    {
      var group := GuardGroup(groups[n], allowed);
      if group.None? {
        return None;
      }
      done := done + [group.value];
    }
    return Some(done);
  }

  // ---- No bypass ----

  ghost predicate IsFrontName(doc: GuardedDoc, name: string) {
    exists i :: 0 <= i < |doc.outbounds| && doc.outbounds[i].Front? && doc.outbounds[i].name == name
  }

  ghost predicate IsRawName(doc: GuardedDoc, name: string) {
    exists i :: 0 <= i < |doc.outbounds| && doc.outbounds[i].Raw? && doc.outbounds[i].name == name
  }

  ghost predicate IsGroupName(doc: GuardedDoc, name: string) {
    exists i :: 0 <= i < |doc.groups| && doc.groups[i].name == Some(name)
  }

  /** A place traffic may be sent without leaving the guard. */
  ghost predicate IsSafe(doc: GuardedDoc, name: string) {
    && (name in {"REJECT", "REJECT-DROP"} || IsFrontName(doc, name) || IsGroupName(doc, name))
    && name != "DIRECT" && !IsRawName(doc, name)
  }

  /** `to` is a member of a group called `from`. */
  ghost predicate LeadsTo(doc: GuardedDoc, from: string, to: string) {
    exists i :: 0 <= i < |doc.groups| && doc.groups[i].name == Some(from) && doc.groups[i].proxies.Some? && Named(to) in doc.groups[i].proxies.value
  }

  ghost predicate IsPath(doc: GuardedDoc, path: seq<string>) {
    forall i :: 0 <= i < |path| - 1 ==> LeadsTo(doc, path[i], path[i + 1])
  }

  lemma {:induction false} OutboundsAre(nodes: seq<Node>, users: seq<Option<string>>)
    ensures var all := Outbounds(nodes, users);
            && |all| == 2 * |nodes|
            && (forall i :: 0 <= i < |nodes| ==> all[2 * i] == Front(nodes[i].name.GetOr(""), UserOf(users, i)))
            && (forall i :: 0 <= i < |nodes| ==>
                  all[2 * i + 1] == Raw(RealName(UserOf(users, i)), nodes[i].(name := Some(RealName(UserOf(users, i))))))
  {
    if nodes != [] {
      OutboundsAre(nodes[..|nodes| - 1], users);
    }
  }

  lemma {:induction false} ListenersAre(nodes: seq<Node>, users: seq<Option<string>>)
    ensures var all := Listeners(nodes, users);
            && |all| == 2 * |nodes|
            && (forall i :: 0 <= i < |nodes| ==>
                  all[2 * i] == Listener(RealName(UserOf(users, i)), UserOf(users, i), RealName(UserOf(users, i))))
            && (forall i :: 0 <= i < |nodes| ==>
                  all[2 * i + 1] == Listener(RealName(UserOf(users, i)) + "-probe", UserOf(users, i), nodes[i].name.GetOr("")))
  {
    if nodes != [] {
      ListenersAre(nodes[..|nodes| - 1], users);
    }
  }

  lemma RealNameIsReserved(user: string)
    ensures IsReserved(RealName(user)) && RealName(user) != DIRECT_FRONT
  {
    var name := RealName(user);
    assert name[..13] == "soha-backend-";
    assert name[0] == 's' && name[1] == 'o' && name[2] == 'h' && name[3] == 'a' && name[4] == '-' && name[5] == 'b';
    assert DIRECT_FRONT[5] == 'e';
  }

  lemma RawNamesAreReserved(doc: Doc, users: seq<Option<string>>, name: string)
    requires IsRawName(Compiled(doc, users), name)
    ensures IsReserved(name) && name != DIRECT_FRONT
    ensures exists i :: 0 <= i < |doc.nodes| && name == RealName(UserOf(users, i))
  {
    OutboundsAre(doc.nodes, users);
    var all := Compiled(doc, users).outbounds;
    var k :| 0 <= k < |all| && all[k].Raw? && all[k].name == name;
    assert k < 2 * |doc.nodes|;
    assert k == 2 * (k / 2) || k == 2 * (k / 2) + 1;
    assert name == RealName(UserOf(users, k / 2));
    RealNameIsReserved(UserOf(users, k / 2));
  }

  lemma {:induction false} AllowedIsNotRaw(doc: Doc, users: seq<Option<string>>, name: string)
    requires Accepts(doc, users) && name in Allowed(doc) && name != "DIRECT"
    ensures !IsRawName(Compiled(doc, users), name)
  {
    if IsRawName(Compiled(doc, users), name) {
      RawNamesAreReserved(doc, users, name);
    }
  }

  /** Every allowed name that is not DIRECT is a safe place. */
  lemma {:induction false} AllowedIsSafe(doc: Doc, users: seq<Option<string>>, name: string)
    requires Accepts(doc, users) && name in Allowed(doc) && name != "DIRECT"
    ensures IsSafe(Compiled(doc, users), name)
  {
    var out := Compiled(doc, users);
    OutboundsAre(doc.nodes, users);
    AllowedIsNotRaw(doc, users, name);
    if name == DIRECT_FRONT {
      assert out.outbounds[|out.outbounds| - 1] == Front(DIRECT_FRONT, UserOf(users, |doc.nodes|));
    } else if name in NamesOf(doc.nodes) {
      var i :| 0 <= i < |doc.nodes| && doc.nodes[i].name == Some(name);
      assert out.outbounds[2 * i] == Front(name, UserOf(users, i));
    } else if name in GroupNames(doc.groups) {
      var i :| 0 <= i < |doc.groups| && doc.groups[i].name == Some(name);
      assert out.groups[i].name == Some(name);
    }
  }

  lemma {:induction false} MembersAreSafe(doc: Doc, users: seq<Option<string>>, from: string, to: string)
    requires Accepts(doc, users) && LeadsTo(Compiled(doc, users), from, to)
    ensures IsSafe(Compiled(doc, users), to)
  {
    var out := Compiled(doc, users);
    var i :| 0 <= i < |out.groups| && out.groups[i].name == Some(from) && out.groups[i].proxies.Some? && Named(to) in out.groups[i].proxies.value;
    assert GroupOk(doc.groups[i], Allowed(doc));
    var k :| 0 <= k < |out.groups[i].proxies.value| && out.groups[i].proxies.value[k] == Named(to);
    assert to == Redirect(doc.groups[i].proxies.value[k].name, DIRECT_FRONT);
    AllowedIsSafe(doc, users, to);
  }

  /** No bypass: follow any rule through any chain of groups, cyclic or not, and every name met is a rejection,
      a front, the guarded direct front or another group; never a raw outbound, never built-in DIRECT. */
  lemma {:induction false} NoBypass(doc: Doc, users: seq<Option<string>>, rule: nat, path: seq<string>, at: nat)
    requires Accepts(doc, users) && AllReadable(Compiled(doc, users).rules)
    requires rule < |Compiled(doc, users).rules|
    requires IsPath(Compiled(doc, users), path) && at < |path|
    requires SendsTo(Compiled(doc, users).rules[rule], path[0])
    ensures IsSafe(Compiled(doc, users), path[at])
  {
    var out := Compiled(doc, users);
    if at > 0 {
      MembersAreSafe(doc, users, path[at - 1], path[at]);
    } else if rule < |doc.rules| {
      var before, after := doc.rules[rule], out.rules[rule];
      assert after == GuardedLine(before, DIRECT_FRONT);
      assert Guardable(before, Allowed(doc), DIRECT_FRONT);
      ReadersAgree(after.parts);
      assert path[0] == Redirect(before.parts[TargetAt(before.parts)], DIRECT_FRONT);
      AllowedIsSafe(doc, users, path[0]);
    } else {
      assert out.rules[rule] == Line(["MATCH", DIRECT_FRONT]);
      AllowedIsSafe(doc, users, DIRECT_FRONT);
    }
  }

  predicate IsBackendName(name: string) { "soha-backend-" <= name }

  lemma BackendNamesAreReserved(name: string)
    requires IsBackendName(name)
    ensures IsReserved(name) && name != DIRECT_FRONT && name != "DIRECT"
  {
    assert name[0] == 's' && name[1] == 'o' && name[2] == 'h' && name[3] == 'a' && name[4] == '-' && name[5] == 'b';
    assert DIRECT_FRONT[5] == 'e';
  }

  /** Only the first listener of a pair sends to a backend name, and to its own. */
  lemma {:induction false} ListenerTargets(doc: Doc, users: seq<Option<string>>, l: nat)
    requires Accepts(doc, users) && l < |Compiled(doc, users).listeners| && IsBackendName(Compiled(doc, users).listeners[l].proxy)
    ensures l % 2 == 0 && l / 2 < |doc.nodes|
    ensures var user := UserOf(users, l / 2); Compiled(doc, users).listeners[l] == Listener(RealName(user), user, RealName(user))
  {
    ListenersAre(doc.nodes, users);
    var all, k := Compiled(doc, users).listeners, l / 2;
    BackendNamesAreReserved(all[l].proxy);
    assert l == 2 * k || l == 2 * k + 1;
    assert k < |doc.nodes| ==> IsOriginalName(doc.nodes[k].name);
  }

  /** Listener `l` sends to the raw outbound of node `i`. */
  predicate SendsToRaw(doc: Doc, users: seq<Option<string>>, l: nat, i: nat) {
    l < |Compiled(doc, users).listeners| && i < |doc.nodes| && Compiled(doc, users).listeners[l].proxy == RealName(UserOf(users, i))
  }

  predicate DistinctUsers(nodes: seq<Node>, users: seq<Option<string>>) {
    forall a, b :: 0 <= a < b < |nodes| ==> UserOf(users, a) != UserOf(users, b)
  }

  lemma {:induction false} RawListenerIsUnderItsUser(doc: Doc, users: seq<Option<string>>, l: nat, i: nat)
    requires Accepts(doc, users) && SendsToRaw(doc, users, l, i)
    ensures l % 2 == 0 && l / 2 < |doc.nodes| && UserOf(users, l / 2) == UserOf(users, i)
    ensures Compiled(doc, users).listeners[l] == Listener(RealName(UserOf(users, i)), UserOf(users, i), RealName(UserOf(users, i)))
  {
    ListenerTargets(doc, users, l);
    assert RealName(UserOf(users, l / 2))[13..] == UserOf(users, l / 2) && RealName(UserOf(users, i))[13..] == UserOf(users, i);
  }

  /** A raw outbound is the target of its own listener only, exactly when the random users differ; even when they
      do not, every listener that sends to it asks for its own user. */
  lemma {:induction false} RawOnlyBehindItsListener(doc: Doc, users: seq<Option<string>>)
    requires Accepts(doc, users)
    ensures (forall l: nat, i: nat :: SendsToRaw(doc, users, l, i) ==> l == 2 * i) <==> DistinctUsers(doc.nodes, users)
    ensures forall l: nat, i: nat :: SendsToRaw(doc, users, l, i) ==> Compiled(doc, users).listeners[l].user == UserOf(users, i)
  {
    forall l: nat, i: nat | SendsToRaw(doc, users, l, i)
      ensures Compiled(doc, users).listeners[l].user == UserOf(users, i)
      ensures DistinctUsers(doc.nodes, users) ==> l == 2 * i
    {
      RawListenerIsUnderItsUser(doc, users, l, i);
    }
    if !DistinctUsers(doc.nodes, users) {
      var a, b :| 0 <= a < b < |doc.nodes| && UserOf(users, a) == UserOf(users, b);
      ListenersAre(doc.nodes, users);
      assert SendsToRaw(doc, users, 2 * a, b);
    }
  }
}
