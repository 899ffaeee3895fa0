/** What a policy asks and what a request offers, filter by filter, and which policy therefore decides. The seventeen
    filters are named one by one here, independently of how the engine walks through them. */
module PolicyFilters {
  import opened Options
  import opened AccessPolicy

  datatype Filter =
    | User | Role | Team | Project | Tag
    | ClusterId | Region | Environment | ClusterLabels
    | NamespaceName | OwnerTeam | NamespaceLabels
    | Kind | ResourceName | ResourceLabels
    | Source | ApprovalState

  /** The values a policy lists under a filter. */
  function Listed(policy: Policy, filter: Filter): seq<string> {
    match filter
    case User => policy.subjects.users
    case Role => policy.subjects.roles
    case Team => policy.subjects.teams
    case Project => policy.subjects.projects
    case Tag => policy.subjects.tags
    case ClusterId => policy.clusters.ids
    case Region => policy.clusters.regions
    case Environment => policy.clusters.environments
    case NamespaceName => policy.namespaces.names
    case OwnerTeam => policy.namespaces.ownerTeams
    case Kind => policy.resources.kinds
    case ResourceName => policy.resources.names
    case Source => policy.conditions.sources
    case ApprovalState => policy.conditions.approvalStates
    case _ => []
  }

  /** The values a request has to show for a filter. */
  function Offered(request: Request, filter: Filter): seq<string> {
    match filter
    case User => [request.subject.userId]
    case Role => request.subject.roles
    case Team => request.subject.teams
    case Project => request.subject.projects
    case Tag => request.subject.tags
    case ClusterId => [request.cluster.clusterId]
    case Region => [request.cluster.region]
    case Environment => [request.cluster.environment]
    case NamespaceName => [request.namespace.name]
    case OwnerTeam => [request.namespace.ownerTeam]
    case Kind => [request.resource.kind]
    case ResourceName => [request.resource.name]
    case Source => [request.source]
    case ApprovalState => [request.approvalState]
    case _ => []
  }

  function ListedLabels(policy: Policy, filter: Filter): LabelFilter {
    match filter
    case ClusterLabels => policy.clusters.labels
    case NamespaceLabels => policy.namespaces.labels
    case ResourceLabels => policy.resources.labels
    case _ => map[]
  }

  function OfferedLabels(request: Request, filter: Filter): Option<Labels> {
    match filter
    case ClusterLabels => request.cluster.labels
    case NamespaceLabels => request.namespace.labels
    case ResourceLabels => request.resource.labels
    case _ => None
  }

  /** The filter is empty, or the request shows one of its values; every listed label is carried with a listed value. */
  ghost predicate FilterMet(policy: Policy, request: Request, filter: Filter) {
    && (Listed(policy, filter) == [] || exists i :: 0 <= i < |Offered(request, filter)| && Offered(request, filter)[i] in Listed(policy, filter))
    && forall key :: key in ListedLabels(policy, filter) ==>
         var labels := OfferedLabels(request, filter);
         && labels.Some? && key in labels.value
         && (ListedLabels(policy, filter)[key] == [] || labels.value[key] in ListedLabels(policy, filter)[key])
  }

  predicate ActionMet(policy: Policy, request: Request) { policy.actions == [] || request.action in policy.actions }

  /** The filters of a deny that are passed over because the request stands for objects it cannot name or label yet. */
  predicate PassedOver(policy: Policy, request: Request, filter: Filter) {
    && policy.effect == "deny"
    && match filter
       case ResourceName => request.wholeCollection
       case ResourceLabels => request.wholeCollection || (request.failClosedOnUnknownLabels && request.resource.labels.None?)
       case OwnerTeam =>
         && request.wholeCollection && (policy.resources.names != [] || policy.resources.labels != map[])
         && request.namespace.name != "" && request.namespace.ownerTeam == ""
       case _ => false
  }

  /** The policy is about this action, and each of its filters is met or passed over. */
  ghost predicate Met(policy: Policy, request: Request) {
    ActionMet(policy, request) && forall filter: Filter :: FilterMet(policy, request, filter) || PassedOver(policy, request, filter)
  }

  // ---- The engine's walk through the filters ----

  lemma AnyIsFilterMet(filters: seq<string>, value: string)
    ensures MatchAny(filters, value) <==> (filters == [] || exists i :: 0 <= i < |[value]| && [value][i] in filters)
  {
    assert [value][0] == value;
  }

  lemma SliceIsFilterMet(filters: seq<string>, values: seq<string>)
    ensures MatchSlice(filters, values) <==> (filters == [] || exists i :: 0 <= i < |values| && values[i] in filters)
  {
    if i :| 0 <= i < |values| && values[i] in filters {
      assert values[i] in values;
    }
    if v :| v in values && v in filters {
      var i :| 0 <= i < |values| && values[i] == v;
    }
  }

  /** One filter as the engine compares it. */
  predicate Compared(policy: Policy, request: Request, filter: Filter) {
    match filter
    case User => MatchAny(policy.subjects.users, request.subject.userId)
    case Role => MatchSlice(policy.subjects.roles, request.subject.roles)
    case Team => MatchSlice(policy.subjects.teams, request.subject.teams)
    case Project => MatchSlice(policy.subjects.projects, request.subject.projects)
    case Tag => MatchSlice(policy.subjects.tags, request.subject.tags)
    case ClusterId => MatchAny(policy.clusters.ids, request.cluster.clusterId)
    case Region => MatchAny(policy.clusters.regions, request.cluster.region)
    case Environment => MatchAny(policy.clusters.environments, request.cluster.environment)
    case ClusterLabels => MatchLabels(policy.clusters.labels, request.cluster.labels)
    case NamespaceName => MatchAny(policy.namespaces.names, request.namespace.name)
    case OwnerTeam => MatchAny(policy.namespaces.ownerTeams, request.namespace.ownerTeam)
    case NamespaceLabels => MatchLabels(policy.namespaces.labels, request.namespace.labels)
    case Kind => MatchAny(policy.resources.kinds, request.resource.kind)
    case ResourceName => MatchAny(policy.resources.names, request.resource.name)
    case ResourceLabels => MatchLabels(policy.resources.labels, request.resource.labels)
    case Source => MatchAny(policy.conditions.sources, request.source)
    case ApprovalState => MatchAny(policy.conditions.approvalStates, request.approvalState)
  }

  lemma LabelsAreFilterMet(policy: Policy, request: Request, filter: Filter)
    requires filter.ClusterLabels? || filter.NamespaceLabels? || filter.ResourceLabels?
    ensures FilterMet(policy, request, filter) <==> MatchLabels(ListedLabels(policy, filter), OfferedLabels(request, filter))
  {
    var expected := ListedLabels(policy, filter);
    if expected != map[] {
      var key :| key in expected;
    }
  }

  lemma ComparedIsMet(policy: Policy, request: Request, filter: Filter)
    ensures Compared(policy, request, filter) <==> FilterMet(policy, request, filter)
  {
    if filter.ClusterLabels? || filter.NamespaceLabels? || filter.ResourceLabels? {
      LabelsAreFilterMet(policy, request, filter);
    } else if filter.Role? || filter.Team? || filter.Project? || filter.Tag? {
      SliceIsFilterMet(Listed(policy, filter), Offered(request, filter));
    } else {
      AnyIsFilterMet(Listed(policy, filter), Offered(request, filter)[0]);
    }
  }

  lemma SubjectComparisons(policy: Policy, request: Request)
    requires forall filter: Filter :: Compared(policy, request, filter)
    ensures MatchAny(policy.subjects.users, request.subject.userId) && MatchSlice(policy.subjects.roles, request.subject.roles)
    ensures MatchSlice(policy.subjects.teams, request.subject.teams) && MatchSlice(policy.subjects.projects, request.subject.projects)
    ensures MatchSlice(policy.subjects.tags, request.subject.tags)
  {
    assert Compared(policy, request, User) && Compared(policy, request, Role) && Compared(policy, request, Team);
    assert Compared(policy, request, Project) && Compared(policy, request, Tag);
  }

  lemma PlaceComparisons(policy: Policy, request: Request)
    requires forall filter: Filter :: Compared(policy, request, filter)
    ensures MatchAny(policy.clusters.ids, request.cluster.clusterId) && MatchAny(policy.clusters.regions, request.cluster.region)
    ensures MatchAny(policy.clusters.environments, request.cluster.environment) && MatchLabels(policy.clusters.labels, request.cluster.labels)
    ensures MatchAny(policy.namespaces.names, request.namespace.name) && MatchAny(policy.namespaces.ownerTeams, request.namespace.ownerTeam)
  {
    assert Compared(policy, request, ClusterId) && Compared(policy, request, Region) && Compared(policy, request, Environment);
    assert Compared(policy, request, ClusterLabels) && Compared(policy, request, NamespaceName) && Compared(policy, request, OwnerTeam);
  }

  lemma ObjectComparisons(policy: Policy, request: Request)
    requires forall filter: Filter :: Compared(policy, request, filter)
    ensures MatchLabels(policy.namespaces.labels, request.namespace.labels) && MatchAny(policy.resources.kinds, request.resource.kind)
    ensures MatchAny(policy.resources.names, request.resource.name) && MatchLabels(policy.resources.labels, request.resource.labels)
    ensures MatchAny(policy.conditions.sources, request.source) && MatchAny(policy.conditions.approvalStates, request.approvalState)
  {
    assert Compared(policy, request, NamespaceLabels) && Compared(policy, request, Kind) && Compared(policy, request, ResourceName);
    assert Compared(policy, request, ResourceLabels) && Compared(policy, request, Source) && Compared(policy, request, ApprovalState);
  }

  lemma ComparisonsMatch(policy: Policy, request: Request)
    requires forall filter: Filter :: Compared(policy, request, filter)
    ensures MatchesPolicy(policy, request)
  {
    SubjectComparisons(policy, request);
    PlaceComparisons(policy, request);
    ObjectComparisons(policy, request);
  }

  /** A policy matches exactly when each of its seventeen filters is met. */
  lemma MatchMeetsEveryFilter(policy: Policy, request: Request)
    ensures MatchesPolicy(policy, request) <==> forall filter: Filter :: FilterMet(policy, request, filter)
  {
    forall filter: Filter
      ensures Compared(policy, request, filter) <==> FilterMet(policy, request, filter)
      ensures MatchesPolicy(policy, request) ==> Compared(policy, request, filter)
    {
      ComparedIsMet(policy, request, filter);
    }
    if forall filter: Filter :: Compared(policy, request, filter) {
      ComparisonsMatch(policy, request);
    }
  }

  /** Widening a deny passes over exactly those filters. */
  lemma WideningPassesOver(policy: Policy, request: Request, filter: Filter)
    ensures FilterMet(ApplyScopedDeny(policy, request), request, filter) <==>
              FilterMet(policy, request, filter) || PassedOver(policy, request, filter)
  {
    var scoped := ApplyScopedDeny(policy, request);
    if PassedOver(policy, request, filter) {
      assert Listed(scoped, filter) == [] && ListedLabels(scoped, filter) == map[];
    } else {
      assert Listed(scoped, filter) == Listed(policy, filter) && ListedLabels(scoped, filter) == ListedLabels(policy, filter);
    }
  }

  /** The engine's two tests together: the policy is met. */
  lemma {:induction false} EngineTestsAreMet(policy: Policy, request: Request)
    ensures MatchesAction(policy.actions, request.action) && MatchesPolicy(ApplyScopedDeny(policy, request), request) <==> Met(policy, request)
  {
    MatchMeetsEveryFilter(ApplyScopedDeny(policy, request), request);
    forall filter: Filter
      ensures FilterMet(ApplyScopedDeny(policy, request), request, filter) <==>
                FilterMet(policy, request, filter) || PassedOver(policy, request, filter)
    {
      WideningPassesOver(policy, request, filter);
    }
  }

  // ---- Which policy decides ----

  /** First policy that is met, or the length. */
  ghost function FirstMet(request: Request, ordered: seq<Policy>): (n: nat)
    ensures n <= |ordered|
    ensures n < |ordered| ==> Met(ordered[n], request)
    ensures forall i :: 0 <= i < n ==> !Met(ordered[i], request)
  {
    if ordered == [] || Met(ordered[0], request) then 0 else 1 + FirstMet(request, ordered[1..])
  }

  /** What a deciding policy says: allowed unless it is a deny, for its own actions, with its own reason if it has one,
      over the clusters and namespaces it lists, or else the request's own. */
  predicate SaysOf(decision: Decision, policy: Policy, request: Request) {
    && decision.allowed == (policy.effect != "deny")
    && decision.reasonCode == "" && decision.allowedActions == policy.actions
    && (policy.reason != "" ==> decision.reason == policy.reason) && decision.reason != ""
    && decision.scope.Some?
    && (policy.clusters.ids != [] ==> decision.scope.value.clusters == policy.clusters.ids)
    && (policy.clusters.ids == [] ==> decision.scope.value.clusters == if request.cluster.clusterId == "" then [] else [request.cluster.clusterId])
    && (policy.namespaces.names != [] ==> decision.scope.value.namespaces == policy.namespaces.names)
    && (policy.namespaces.names == [] ==> decision.scope.value.namespaces == if request.namespace.name == "" then [] else [request.namespace.name])
  }

  /** With no namespace labels pending, the first policy that is met decides, and without one the answer is no. */
  lemma {:induction false} FirstMetPolicyDecides(request: Request, ordered: seq<Policy>)
    requires !NamespaceLabelsPending(request)
    ensures var n := FirstMet(request, ordered);
            if n == |ordered| then Decide(request, ordered) == NO_DECISION else SaysOf(Decide(request, ordered), ordered[n], request)
  {
    if ordered != [] {
      EngineTestsAreMet(ordered[0], request);
      if !Met(ordered[0], request) {
        FirstMetPolicyDecides(request, ordered[1..]);
        var n := FirstMet(request, ordered[1..]);
        assert n < |ordered[1..]| ==> ordered[1..][n] == ordered[n + 1];
      }
    }
  }

  /** Labels pending or not: an allow always comes from a policy in the list that is not a deny and whose action and
      filters, field by field, are met, with no met deny above it. */
  lemma {:induction false} AllowComesFromAMetPolicy(request: Request, ordered: seq<Policy>) returns (n: nat)
    requires Decide(request, ordered).allowed
    ensures n < |ordered| && ordered[n].effect != "deny" && ActionMet(ordered[n], request)
    ensures forall filter: Filter :: FilterMet(ordered[n], request, filter)
    ensures forall i :: 0 <= i < n ==> !Met(ordered[i], request)
  {
    EngineTestsAreMet(ordered[0], request);
    if Met(ordered[0], request) {
      n := 0;
    } else {
      var rest := AllowComesFromAMetPolicy(request, ordered[1..]);
      n := rest + 1;
      forall i | 0 <= i < n ensures !Met(ordered[i], request) {
        assert i > 0 ==> ordered[i] == ordered[1..][i - 1];
      }
    }
  }

  /** A policy one of whose filters lists only other values plays no part in the answer. */
  lemma {:induction false} UnmetFilterNeverDecides(request: Request, ordered: seq<Policy>, n: nat, filter: Filter)
    requires n < |ordered| && !NamespaceLabelsPending(request)
    requires !FilterMet(ordered[n], request, filter) && !PassedOver(ordered[n], request, filter)
    ensures Decide(request, ordered) == Decide(request, ordered[..n] + ordered[n + 1..])
  {
    if n == 0 {
      EngineTestsAreMet(ordered[0], request);
      assert ordered[..0] + ordered[1..] == ordered[1..];
    } else {
      var shorter, tail := ordered[..n] + ordered[n + 1..], ordered[1..];
      assert shorter[0] == ordered[0] && shorter[1..] == tail[..n - 1] + tail[n..];
      UnmetFilterNeverDecides(request, tail, n - 1, filter);
    }
  }

  // ---- Denies that touch part of a cluster ----

  /** A deny for this action that narrows down namespaces or objects, and whose other filters are met. */
  ghost predicate DeniesPart(policy: Policy, request: Request) {
    && policy.effect == "deny" && ActionMet(policy, request)
    && (policy.namespaces != Namespaces([], [], map[]) || policy.resources.names != [] || policy.resources.labels != map[])
    && forall filter: Filter :: filter !in {NamespaceName, OwnerTeam, NamespaceLabels, ResourceName, ResourceLabels} ==>
         FilterMet(policy, request, filter)
  }

  lemma PartialDenyTest(policy: Policy, request: Request)
    ensures IsScopedDeny(policy, request) <==> DeniesPart(policy, request)
  {
    var bare := policy.(namespaces := Namespaces([], [], map[]), resources := policy.resources.(names := [], labels := map[]));
    MatchMeetsEveryFilter(bare, request);
    forall filter: Filter
      ensures FilterMet(bare, request, filter) <==>
                FilterMet(policy, request, filter) || filter in {NamespaceName, OwnerTeam, NamespaceLabels, ResourceName, ResourceLabels}
    {
      if filter !in {NamespaceName, OwnerTeam, NamespaceLabels, ResourceName, ResourceLabels} {
        assert Listed(bare, filter) == Listed(policy, filter) && ListedLabels(bare, filter) == ListedLabels(policy, filter);
      }
    }
  }

  /** A request for all namespaces is refused outright exactly when some deny touches part of them. */
  lemma ClusterWideRefusal(request: Request, policies: seq<Policy>, ordered: seq<Policy>)
    ensures request.clusterWideNamespace && (exists i :: 0 <= i < |policies| && DeniesPart(policies[i], request)) ==>
              Answer(request, policies, ordered) == SCOPED_DENY
    ensures !(request.clusterWideNamespace && exists i :: 0 <= i < |policies| && DeniesPart(policies[i], request)) ==>
              Answer(request, policies, ordered) == Decide(request, ordered)
  {
    forall i | 0 <= i < |policies| ensures IsScopedDeny(policies[i], request) <==> DeniesPart(policies[i], request) {
      PartialDenyTest(policies[i], request);
    }
  }

  // ---- Asking for labels ----

  lemma {:induction false} AsksOnlyWhilePending(request: Request, ordered: seq<Policy>)
    requires Decide(request, ordered) == LABELS_REQUIRED
    ensures request.requireNamespaceLabels && request.namespace.name != "" && request.namespace.labels.None?
  {
    if !PolicyNeedsNamespaceLabels(ApplyScopedDeny(ordered[0], request), request) || !MatchesAction(ordered[0].actions, request.action) {
      AsksOnlyWhilePending(request, ordered[1..]);
    }
  }

  /** Some labels, and only some, let the policy be met. */
  ghost predicate DependsOnLabels(policy: Policy, request: Request) {
    && (exists labels :: Met(policy, WithNamespaceLabels(request, labels)))
    && (exists labels :: !Met(policy, WithNamespaceLabels(request, labels)))
  }

  lemma AppliesIsMet(policy: Policy, request: Request, labels: Labels)
    ensures Applies(policy, request, labels) <==> Met(policy, WithNamespaceLabels(request, labels))
  {
    EngineTestsAreMet(policy, WithNamespaceLabels(request, labels));
    assert ApplyScopedDeny(policy, WithNamespaceLabels(request, labels)) == ApplyScopedDeny(policy, request);
  }

  /** The engine asks for namespace labels exactly when the request insists on them for a named namespace, does not have
      them, is not refused outright, and the first policy that some labels let be met is not met under all labels. */
  lemma {:induction false} AsksForLabelsExactlyWhen(request: Request, policies: seq<Policy>, ordered: seq<Policy>)
    ensures Answer(request, policies, ordered) == LABELS_REQUIRED <==>
              && request.requireNamespaceLabels && request.namespace.name != "" && request.namespace.labels.None?
              && !(request.clusterWideNamespace && exists i :: 0 <= i < |policies| && DeniesPart(policies[i], request))
              && (var n := FirstPossible(request, ordered); n < |ordered| && DependsOnLabels(ordered[n], request))
  {
    ClusterWideRefusal(request, policies, ordered);
    if NamespaceLabelsPending(request) {
      AsksForLabelsExactlyWhenUndetermined(request, policies, ordered);
      var n := FirstPossible(request, ordered);
      if n < |ordered| {
        forall labels ensures Applies(ordered[n], request, labels) <==> Met(ordered[n], WithNamespaceLabels(request, labels)) {
          AppliesIsMet(ordered[n], request, labels);
        }
      }
      PolicyScopeIsRefusal(request, policies);
    } else if Answer(request, policies, ordered) == LABELS_REQUIRED {
      AsksOnlyWhilePending(request, ordered);
    }
  }

  lemma PolicyScopeIsRefusal(request: Request, policies: seq<Policy>)
    ensures HasScopedPolicyDeny(request, policies) <==> exists i :: 0 <= i < |policies| && DeniesPart(policies[i], request)
  {
    forall i | 0 <= i < |policies| ensures IsScopedDeny(policies[i], request) <==> DeniesPart(policies[i], request) {
      PartialDenyTest(policies[i], request);
    }
  }

  // ---- The evaluation ----

  /** Sort and take the first policy that matches. */
  method FirstMatchWins(request: Request, policies: seq<Policy>) returns (decision: Decision)
    ensures exists ordered :: IsPriorityOrder(ordered, policies) && decision == Answer(request, policies, ordered)
  {
    var sorted := SortByPriority(policies);
    if request.clusterWideNamespace && HasScopedPolicyDeny(request, policies) {
      return SCOPED_DENY;
    }
    ghost var answer := Decide(request, sorted);
    for i := 0 to |sorted|
      invariant answer == Decide(request, sorted[i..])
    {
      if !MatchesAction(sorted[i].actions, request.action) {
        continue;
      }
      var policy := ApplyScopedDeny(sorted[i], request);
      if PolicyNeedsNamespaceLabels(policy, request) {
        return LABELS_REQUIRED;
      }
      if MatchesPolicy(policy, request) {
        return BuildDecision(policy, request);
      }
    }
    return NO_DECISION;
  }

  /** Evaluate: an allow names a policy of the given list that is no deny and is met field by field, with no met policy of
      higher priority; no deny touches part of an allowed cluster-wide request; and with no labels pending a met policy
      of the highest priority decides. */
  method Evaluate(request: Request, policies: seq<Policy>) returns (decision: Decision)
    ensures decision.allowed ==>
              exists policy :: && policy in policies && policy.effect != "deny" && ActionMet(policy, request)
                               && (forall filter: Filter :: FilterMet(policy, request, filter))
                               && forall other :: other in policies && Met(other, request) ==> other.priority <= policy.priority
    ensures decision.allowed && request.clusterWideNamespace ==>
              forall policy :: policy in policies ==> !DeniesPart(policy, request)
    ensures !NamespaceLabelsPending(request) && !request.clusterWideNamespace ==>
              if exists policy :: policy in policies && Met(policy, request) then
                exists policy :: && policy in policies && Met(policy, request) && SaysOf(decision, policy, request)
                                 && forall other :: other in policies && Met(other, request) ==> other.priority <= policy.priority
              else decision == NO_DECISION
    ensures exists ordered :: IsPriorityOrder(ordered, policies) && decision == Answer(request, policies, ordered)
  {
    decision := FirstMatchWins(request, policies);
    ghost var ordered :| IsPriorityOrder(ordered, policies) && decision == Answer(request, policies, ordered);
    ClusterWideRefusal(request, policies, ordered);
    SameMembers(ordered, policies);
    if decision.allowed {
      ghost var n := AllowComesFromAMetPolicy(request, ordered);
      HighestPriority(request, ordered, n);
    }
    if !NamespaceLabelsPending(request) {
      FirstMetPolicyDecides(request, ordered);
      ghost var n := FirstMet(request, ordered);
      if n < |ordered| {
        HighestPriority(request, ordered, n);
      }
    }
  }

  lemma SameMembers(ordered: seq<Policy>, policies: seq<Policy>)
    requires IsPriorityOrder(ordered, policies)
    ensures forall policy :: policy in ordered <==> policy in policies
  {
    forall policy ensures policy in ordered <==> policy in policies {
      assert policy in multiset(ordered) <==> policy in multiset(policies);
    }
  }

  lemma HighestPriority(request: Request, ordered: seq<Policy>, n: nat)
    requires n < |ordered| && DescendingPriority(ordered) && forall i :: 0 <= i < n ==> !Met(ordered[i], request)
    ensures forall other :: other in ordered && Met(other, request) ==> other.priority <= ordered[n].priority
  {
    forall other | other in ordered && Met(other, request) ensures other.priority <= ordered[n].priority {
      var i :| 0 <= i < |ordered| && ordered[i] == other;
    }
  }
}
