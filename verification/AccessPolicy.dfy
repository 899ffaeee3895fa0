/** Access-policy evaluation: policies in priority order, the first match decides.

    The interesting part is evaluation under partial information: namespace labels
    that are not known yet, resource labels that are not known, and requests for a
    whole collection of resources. */
module AccessPolicy {
  import opened Options

  type Labels = map<string, string>
  type LabelFilter = map<string, seq<string>>

  const EFFECT_DENY := "deny"
  const NAMESPACE_LABELS_REQUIRED := "namespace_labels_required"

  datatype Subjects = Subjects(users: seq<string>, roles: seq<string>, teams: seq<string>,
                               projects: seq<string>, tags: seq<string>)
  datatype Clusters = Clusters(ids: seq<string>, regions: seq<string>, environments: seq<string>, labels: LabelFilter)
  datatype Namespaces = Namespaces(names: seq<string>, ownerTeams: seq<string>, labels: LabelFilter)
  datatype Resources = Resources(kinds: seq<string>, names: seq<string>, labels: LabelFilter)
  datatype Conditions = Conditions(sources: seq<string>, approvalStates: seq<string>)

  datatype Policy = Policy(effect: string, priority: int, subjects: Subjects, clusters: Clusters,
                           namespaces: Namespaces, resources: Resources, actions: seq<string>,
                           conditions: Conditions, reason: string)

  datatype Subject = Subject(userId: string, roles: seq<string>, teams: seq<string>,
                             projects: seq<string>, tags: seq<string>)
  datatype Cluster = Cluster(clusterId: string, region: string, environment: string, labels: Option<Labels>)
  datatype Namespace = Namespace(name: string, ownerTeam: string, labels: Option<Labels>)
  datatype Resource = Resource(kind: string, name: string, labels: Option<Labels>)

  datatype Request = Request(clusterWideNamespace: bool, wholeCollection: bool, failClosedOnUnknownLabels: bool,
                             requireNamespaceLabels: bool, action: string, subject: Subject, cluster: Cluster,
                             namespace: Namespace, resource: Resource, source: string, approvalState: string)

  datatype Scope = Scope(clusters: seq<string>, namespaces: seq<string>)
  datatype Decision = Decision(allowed: bool, reason: string, reasonCode: string,
                               allowedActions: seq<string>, scope: Option<Scope>)

  const NO_DECISION := Decision(false, "", "", [], None)
  const LABELS_REQUIRED := Decision(false, "namespace labels are required to evaluate policy", NAMESPACE_LABELS_REQUIRED, [], None)
  const SCOPED_DENY := Decision(false, "policy denies the action in part of the cluster", "", [], None)

  // ---- Matching ----

  predicate MatchAny(filters: seq<string>, value: string) {
    filters == [] || value in filters
  }

  predicate MatchSlice(filters: seq<string>, values: seq<string>) {
    filters == [] || exists v :: v in values && v in filters
  }

  /** Unknown labels (None) satisfy no label filter except the empty one. */
  predicate MatchLabels(expected: LabelFilter, actual: Option<Labels>) {
    expected == map[] ||
    (actual.Some? &&
     forall k :: k in expected ==>
       k in actual.value && (expected[k] == [] || actual.value[k] in expected[k]))
  }

  predicate MatchesAction(actions: seq<string>, action: string) {
    actions == [] || action in actions
  }

  predicate MatchesPolicy(policy: Policy, request: Request) {
    && MatchAny(policy.subjects.users, request.subject.userId)
    && MatchSlice(policy.subjects.roles, request.subject.roles)
    && MatchSlice(policy.subjects.teams, request.subject.teams)
    && MatchSlice(policy.subjects.projects, request.subject.projects)
    && MatchSlice(policy.subjects.tags, request.subject.tags)
    && MatchAny(policy.clusters.ids, request.cluster.clusterId)
    && MatchAny(policy.clusters.regions, request.cluster.region)
    && MatchAny(policy.clusters.environments, request.cluster.environment)
    && MatchLabels(policy.clusters.labels, request.cluster.labels)
    && MatchAny(policy.namespaces.names, request.namespace.name)
    && MatchAny(policy.namespaces.ownerTeams, request.namespace.ownerTeam)
    && MatchLabels(policy.namespaces.labels, request.namespace.labels)
    && MatchAny(policy.resources.kinds, request.resource.kind)
    && MatchAny(policy.resources.names, request.resource.name)
    && MatchLabels(policy.resources.labels, request.resource.labels)
    && MatchAny(policy.conditions.sources, request.source)
    && MatchAny(policy.conditions.approvalStates, request.approvalState)
  }

  predicate IsDeny(policy: Policy) { policy.effect == EFFECT_DENY }

  /** Widens a deny so that it also covers objects the request cannot name or label yet. */
  function ApplyScopedDeny(policy: Policy, request: Request): Policy {
    if !IsDeny(policy) then policy else
    var collective :=
      if request.wholeCollection && (policy.resources.names != [] || policy.resources.labels != map[]) then
        var open := policy.(resources := policy.resources.(names := [], labels := map[]));
        if request.namespace.name != "" && request.namespace.ownerTeam == "" then
          open.(namespaces := open.namespaces.(ownerTeams := []))
        else open
      else policy;
    if request.failClosedOnUnknownLabels && request.resource.labels.None? then
      collective.(resources := collective.resources.(labels := map[]))
    else collective
  }

  function WithoutNamespaceLabels(policy: Policy): Policy {
    policy.(namespaces := policy.namespaces.(labels := map[]))
  }

  /** The request names a namespace, insists on its labels and does not have them. */
  predicate NamespaceLabelsPending(request: Request) {
    request.requireNamespaceLabels && request.namespace.name != "" && request.namespace.labels.None?
  }

  predicate PolicyNeedsNamespaceLabels(policy: Policy, request: Request) {
    && NamespaceLabelsPending(request)
    && policy.namespaces.labels != map[]
    && MatchesPolicy(WithoutNamespaceLabels(policy), request)
  }

  predicate IsScopedDeny(policy: Policy, request: Request) {
    && IsDeny(policy)
    && MatchesAction(policy.actions, request.action)
    && (policy.namespaces.names != [] || policy.namespaces.ownerTeams != [] || policy.namespaces.labels != map[] ||
        policy.resources.names != [] || policy.resources.labels != map[])
    && MatchesPolicy(policy.(namespaces := Namespaces([], [], map[]),
                             resources := policy.resources.(names := [], labels := map[])), request)
  }

  predicate HasScopedPolicyDeny(request: Request, policies: seq<Policy>) {
    exists i :: 0 <= i < |policies| && IsScopedDeny(policies[i], request)
  }

  // ---- Deciding ----

  function BuildDecision(policy: Policy, request: Request): Decision {
    var clusters := if policy.clusters.ids != [] then policy.clusters.ids
                    else if request.cluster.clusterId != "" then [request.cluster.clusterId] else [];
    var namespaces := if policy.namespaces.names != [] then policy.namespaces.names
                      else if request.namespace.name != "" then [request.namespace.name] else [];
    var reason := if policy.reason != "" then policy.reason
                  else if IsDeny(policy) then "matched deny policy" else "matched allow policy";
    Decision(!IsDeny(policy), reason, "", policy.actions, Some(Scope(clusters, namespaces)))
  }

  /** What the evaluation loop answers on an ordered list. */
  function Decide(request: Request, ordered: seq<Policy>): Decision {
    if ordered == [] then NO_DECISION
    else if !MatchesAction(ordered[0].actions, request.action) then Decide(request, ordered[1..])
    else
      var policy := ApplyScopedDeny(ordered[0], request);
      if PolicyNeedsNamespaceLabels(policy, request) then LABELS_REQUIRED
      else if !MatchesPolicy(policy, request) then Decide(request, ordered[1..])
      else BuildDecision(policy, request)
  }

  /** The whole answer; sort.Slice is not stable, so the order is any priority order. */
  function Answer(request: Request, policies: seq<Policy>, ordered: seq<Policy>): Decision {
    if request.clusterWideNamespace && HasScopedPolicyDeny(request, policies) then SCOPED_DENY
    else Decide(request, ordered)
  }

  predicate DescendingPriority(s: seq<Policy>) {
    forall i, j :: 0 <= i < j < |s| ==> s[i].priority >= s[j].priority
  }

  ghost predicate IsPriorityOrder(ordered: seq<Policy>, policies: seq<Policy>) {
    multiset(ordered) == multiset(policies) && DescendingPriority(ordered)
  }

  // ---- The imperative evaluation ----

  function InsertAt(s: seq<Policy>, at: nat, policy: Policy): (r: seq<Policy>)
    requires at <= |s|
  {
    s[..at] + [policy] + s[at..]
  }

  lemma InsertAddsOne(s: seq<Policy>, at: nat, policy: Policy)
    requires at <= |s|
    ensures multiset(InsertAt(s, at, policy)) == multiset(s) + multiset{policy}
  {
    assert s == s[..at] + s[at..];
  }

  lemma InsertKeepsDescending(s: seq<Policy>, at: nat, policy: Policy)
    requires at <= |s| && DescendingPriority(s)
    requires at > 0 ==> s[at - 1].priority >= policy.priority
    requires at < |s| ==> s[at].priority <= policy.priority
    ensures DescendingPriority(InsertAt(s, at, policy))
  {
    var r := InsertAt(s, at, policy);
    forall i, j | 0 <= i < j < |r| ensures r[i].priority >= r[j].priority {
      var left := if i < at then i else i - 1;
      var right := if j < at then j else j - 1;
      assert i != at ==> r[i] == s[left];
      assert j != at ==> r[j] == s[right];
    }
  }

  method InsertByPriority(sorted: seq<Policy>, policy: Policy) returns (ordered: seq<Policy>)
    requires DescendingPriority(sorted)
    ensures DescendingPriority(ordered) && multiset(ordered) == multiset(sorted) + multiset{policy}
  {
    var at := |sorted|;
    while at > 0 && sorted[at - 1].priority < policy.priority
      invariant 0 <= at <= |sorted|
      invariant at < |sorted| ==> sorted[at].priority < policy.priority
    {
      at := at - 1;
    }
    InsertAddsOne(sorted, at, policy);
    InsertKeepsDescending(sorted, at, policy);
    return InsertAt(sorted, at, policy);
  }

  method SortByPriority(policies: seq<Policy>) returns (ordered: seq<Policy>)
    ensures IsPriorityOrder(ordered, policies)
  {
    ordered := [];
    for n := 0 to |policies|
      invariant multiset(ordered) == multiset(policies[..n])
      invariant DescendingPriority(ordered)
    {
      assert policies[..n + 1] == policies[..n] + [policies[n]];
      ordered := InsertByPriority(ordered, policies[n]);
    }
    assert policies[..|policies|] == policies;
  }

  // ---- Namespace labels: the engine answers exactly when the labels cannot matter ----

  function WithNamespaceLabels(request: Request, labels: Labels): Request {
    request.(namespace := request.namespace.(labels := Some(labels)))
  }

  /** The policy applies and matches under the given namespace labels. */
  predicate Applies(policy: Policy, request: Request, labels: Labels) {
    && MatchesAction(policy.actions, request.action)
    && MatchesPolicy(ApplyScopedDeny(policy, request), WithNamespaceLabels(request, labels))
  }

  ghost predicate Possible(policy: Policy, request: Request) {
    exists labels :: Applies(policy, request, labels)
  }

  ghost predicate Certain(policy: Policy, request: Request) {
    forall labels :: Applies(policy, request, labels)
  }

  /** Index of the first policy that some labelling makes match, or the length. */
  ghost function FirstPossible(request: Request, ordered: seq<Policy>): (n: nat)
    ensures n <= |ordered|
    ensures n < |ordered| ==> Possible(ordered[n], request)
    ensures forall i :: 0 <= i < n ==> !Possible(ordered[i], request)
  {
    if ordered == [] || Possible(ordered[0], request) then 0
    else 1 + FirstPossible(request, ordered[1..])
  }

  /** Labels that satisfy a given filter: every filter is satisfiable. */
  function SatisfyingLabels(filter: LabelFilter): (labels: Labels)
    ensures MatchLabels(filter, Some(labels))
  {
    map k | k in filter :: if filter[k] == [] then "" else filter[k][0]
  }

  lemma MatchSplitsOnNamespaceLabels(policy: Policy, request: Request, labels: Labels)
    ensures MatchesPolicy(policy, WithNamespaceLabels(request, labels))
       <==> MatchesPolicy(WithoutNamespaceLabels(policy), request) && MatchLabels(policy.namespaces.labels, Some(labels))
  {
  }

  /** One policy: "labels needed" means possible but not certain; "matches" means certain. */
  lemma OnePolicyUnderUnknownLabels(policy: Policy, request: Request)
    requires NamespaceLabelsPending(request) && MatchesAction(policy.actions, request.action)
    ensures var scoped := ApplyScopedDeny(policy, request);
            && (PolicyNeedsNamespaceLabels(scoped, request) <==> Possible(policy, request) && !Certain(policy, request))
            && (!PolicyNeedsNamespaceLabels(scoped, request) ==>
                  (MatchesPolicy(scoped, request) <==> Possible(policy, request)))
  {
    var scoped := ApplyScopedDeny(policy, request);
    var filter := scoped.namespaces.labels;
    forall labels {
      MatchSplitsOnNamespaceLabels(scoped, request, labels);
    }
    if MatchesPolicy(WithoutNamespaceLabels(scoped), request) {
      assert Applies(policy, request, SatisfyingLabels(filter));
      if filter != map[] {
        var k :| k in filter;
        assert !Applies(policy, request, map[]);
      }
    }
    assert Certain(policy, request) ==> Applies(policy, request, map[]);
  }

  /** While labels are pending the answer is read off the first possible policy alone. */
  lemma {:induction false} DecideUnderUnknownLabels(request: Request, ordered: seq<Policy>)
    requires NamespaceLabelsPending(request)
    ensures var n := FirstPossible(request, ordered);
            Decide(request, ordered) ==
              if n == |ordered| then NO_DECISION
              else if !Certain(ordered[n], request) then LABELS_REQUIRED
              else BuildDecision(ApplyScopedDeny(ordered[n], request), request)
  {
    if ordered != [] {
      if MatchesAction(ordered[0].actions, request.action) {
        OnePolicyUnderUnknownLabels(ordered[0], request);
      }
      if !Possible(ordered[0], request) {
        DecideUnderUnknownLabels(request, ordered[1..]);
        var n := FirstPossible(request, ordered[1..]);
        assert n < |ordered[1..]| ==> ordered[1..][n] == ordered[n + 1];
      }
    }
  }

  /** Known namespace labels never change how a deny is widened. */
  lemma ScopingIgnoresNamespaceLabels(policy: Policy, request: Request, labels: Labels)
    ensures ApplyScopedDeny(policy, WithNamespaceLabels(request, labels)) == ApplyScopedDeny(policy, request)
  {
  }

  /** Once labels are known, the answer comes from the first policy they make match. */
  lemma {:induction false} DecideUnderKnownLabels(request: Request, labels: Labels, ordered: seq<Policy>, n: nat)
    requires n <= |ordered|
    requires forall i :: 0 <= i < n ==> !Applies(ordered[i], request, labels)
    requires n < |ordered| ==> Applies(ordered[n], request, labels)
    ensures Decide(WithNamespaceLabels(request, labels), ordered) ==
              if n == |ordered| then NO_DECISION
              else BuildDecision(ApplyScopedDeny(ordered[n], request), request)
  {
    if n < |ordered| || n > 0 {
      ScopingIgnoresNamespaceLabels(ordered[0], request, labels);
    }
    if n > 0 {
      assert !Applies(ordered[0], request, labels);
      DecideUnderKnownLabels(request, labels, ordered[1..], n - 1);
    }
  }

  /** Answers other than "labels required" are final: no labelling changes them. */
  lemma NamespaceLabelAnswersAreFinal(request: Request, policies: seq<Policy>, ordered: seq<Policy>, labels: Labels)
    requires NamespaceLabelsPending(request)
    requires Answer(request, policies, ordered) != LABELS_REQUIRED
    ensures Answer(WithNamespaceLabels(request, labels), policies, ordered) == Answer(request, policies, ordered)
  {
    var known := WithNamespaceLabels(request, labels);
    assert forall i :: 0 <= i < |policies| ==> (IsScopedDeny(policies[i], known) <==> IsScopedDeny(policies[i], request));
    if !(request.clusterWideNamespace && HasScopedPolicyDeny(request, policies)) {
      DecideUnderUnknownLabels(request, ordered);
      var n := FirstPossible(request, ordered);
      DecideUnderKnownLabels(request, labels, ordered, n);
    }
  }

  /** The engine asks for labels exactly when the first policy that could match might also not match. */
  lemma AsksForLabelsExactlyWhenUndetermined(request: Request, policies: seq<Policy>, ordered: seq<Policy>)
    requires NamespaceLabelsPending(request)
    ensures Answer(request, policies, ordered) == LABELS_REQUIRED
       <==> !(request.clusterWideNamespace && HasScopedPolicyDeny(request, policies)) &&
            (var n := FirstPossible(request, ordered); n < |ordered| && !Certain(ordered[n], request))
  {
    DecideUnderUnknownLabels(request, ordered);
  }

  // ---- Resource knowledge: an allow given on less knowledge survives more ----

  function AboutResource(request: Request, name: string, labels: Option<Labels>, whole: bool): Request {
    request.(resource := request.resource.(name := name, labels := labels), wholeCollection := whole)
  }

  /** `sharp` knows more about the resource than `vague`: policy by policy, denies that miss under
      `vague` miss under `sharp`, and allows that hit under `vague` hit under `sharp`. */
  ghost predicate Sharpens(vague: Request, sharp: Request, policy: Policy) {
    if IsDeny(policy) then
      MatchesPolicy(ApplyScopedDeny(policy, sharp), sharp) ==> MatchesPolicy(ApplyScopedDeny(policy, vague), vague)
    else
      MatchesPolicy(policy, vague) ==> MatchesPolicy(policy, sharp)
  }

  /** Allowed; or, if namespace labels are pending, at worst asked for those labels. */
  predicate AllowedOrAsksForLabels(decision: Decision, request: Request) {
    decision.allowed || (NamespaceLabelsPending(request) && decision == LABELS_REQUIRED)
  }

  lemma {:induction false} AllowSurvivesSharpening(vague: Request, sharp: Request, ordered: seq<Policy>)
    requires vague.action == sharp.action
    requires forall i :: 0 <= i < |ordered| ==> Sharpens(vague, sharp, ordered[i])
    requires Decide(vague, ordered).allowed
    ensures AllowedOrAsksForLabels(Decide(sharp, ordered), sharp)
  {
    assert Sharpens(vague, sharp, ordered[0]);
    if !MatchesAction(ordered[0].actions, vague.action) || !MatchesPolicy(ApplyScopedDeny(ordered[0], vague), vague) {
      assert forall i :: 0 <= i < |ordered[1..]| ==> ordered[1..][i] == ordered[i + 1];
      AllowSurvivesSharpening(vague, sharp, ordered[1..]);
    }
  }

  lemma ScopedDenyIgnoresResource(request: Request, policies: seq<Policy>, name: string, labels: Option<Labels>, whole: bool)
    ensures HasScopedPolicyDeny(AboutResource(request, name, labels, whole), policies) == HasScopedPolicyDeny(request, policies)
  {
    var other := AboutResource(request, name, labels, whole);
    assert forall i :: 0 <= i < |policies| ==> (IsScopedDeny(policies[i], other) <==> IsScopedDeny(policies[i], request));
  }

  /** Unknown resource labels, failing closed: an allow holds for every actual labelling. */
  lemma UnknownResourceLabelsAreSafe(request: Request, policies: seq<Policy>, ordered: seq<Policy>, labels: Labels)
    requires request.failClosedOnUnknownLabels && request.resource.labels.None?
    requires Answer(request, policies, ordered).allowed
    ensures AllowedOrAsksForLabels(
              Answer(AboutResource(request, request.resource.name, Some(labels), request.wholeCollection), policies, ordered),
              request)
  {
    var sharp := AboutResource(request, request.resource.name, Some(labels), request.wholeCollection);
    ScopedDenyIgnoresResource(request, policies, request.resource.name, Some(labels), request.wholeCollection);
    assert forall i :: 0 <= i < |ordered| ==> Sharpens(request, sharp, ordered[i]);
    AllowSurvivesSharpening(request, sharp, ordered);
  }

  ghost predicate ListsEmptyName(policy: Policy) { !IsDeny(policy) && "" in policy.resources.names }

  lemma MemberSharpens(request: Request, name: string, labels: Labels, policy: Policy)
    requires request.wholeCollection && request.resource.name == "" && request.resource.labels.None? && !ListsEmptyName(policy)
    ensures Sharpens(request, AboutResource(request, name, Some(labels), false), policy)
  {
  }

  /** A whole, unnamed, unlabelled collection: an allow holds for each member by name and labels. */
  lemma WholeCollectionAllowCoversMembers(request: Request, policies: seq<Policy>, ordered: seq<Policy>,
                                          name: string, labels: Labels)
    requires request.wholeCollection && request.resource.name == "" && request.resource.labels.None?
    requires forall i :: 0 <= i < |ordered| ==> !ListsEmptyName(ordered[i])
    requires Answer(request, policies, ordered).allowed
    ensures AllowedOrAsksForLabels(Answer(AboutResource(request, name, Some(labels), false), policies, ordered), request)
  {
    var member := AboutResource(request, name, Some(labels), false);
    ScopedDenyIgnoresResource(request, policies, name, Some(labels), false);
    forall i | 0 <= i < |ordered| ensures Sharpens(request, member, ordered[i]) {
      MemberSharpens(request, name, labels, ordered[i]);
    }
    AllowSurvivesSharpening(request, member, ordered);
  }

  /** A name longer than every name in the list. */
  lemma {:induction false} FreshName(names: seq<string>) returns (name: string)
    ensures name != "" && name !in names
    ensures forall i :: 0 <= i < |names| ==> |names[i]| < |name|
  {
    if names == [] {
      name := "n";
    } else {
      var shorter := FreshName(names[1..]);
      name := shorter + names[0] + "n";
      assert forall i :: 1 <= i < |names| ==> names[i] == names[1..][i - 1];
    }
  }

  /** An allow that matches the collection matches every member exactly when it does not list the empty name. */
  lemma {:induction false} CollectionAllowIsExact(request: Request, policy: Policy)
    requires request.wholeCollection && request.resource.name == "" && request.resource.labels.None?
    requires !IsDeny(policy) && MatchesPolicy(policy, request)
    ensures (forall name, labels :: MatchesPolicy(policy, AboutResource(request, name, Some(labels), false))) <==> !ListsEmptyName(policy)
  {
    if ListsEmptyName(policy) {
      var name := FreshName(policy.resources.names);
      assert !MatchesPolicy(policy, AboutResource(request, name, Some(map[]), false));
    } else {
      forall name, labels ensures MatchesPolicy(policy, AboutResource(request, name, Some(labels), false)) {
        MemberSharpens(request, name, labels, policy);
      }
    }
  }

  /** The empty-name hypothesis is needed: an allow naming "" admits the collection and no member. */
  lemma EmptyNameBreaksCollectionAllow(request: Request, name: string, labels: Labels)
    requires request.wholeCollection && request.resource.name == "" && request.resource.labels.None?
    requires name != "" && !request.clusterWideNamespace && !NamespaceLabelsPending(request)
    ensures var policy := Policy("allow", 0, Subjects([], [], [], [], []), Clusters([], [], [], map[]),
                                 Namespaces([], [], map[]), Resources([], [""], map[]), [], Conditions([], []), "");
            && Answer(request, [policy], [policy]).allowed
            && !Answer(AboutResource(request, name, Some(labels), false), [policy], [policy]).allowed
  {
    var policy := Policy("allow", 0, Subjects([], [], [], [], []), Clusters([], [], [], map[]),
                         Namespaces([], [], map[]), Resources([], [""], map[]), [], Conditions([], []), "");
    var member := AboutResource(request, name, Some(labels), false);
    assert Decide(member, [policy]) == Decide(member, []);
  }
}
