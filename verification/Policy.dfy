/** The deterministic policy boundary of the gateway: which external request is allowed, and which provider routes
    are tried in which order. */
module Policy {
  import opened Common
  import opened RateLimit

  datatype JobKind = BUILD | REVIEW | OPERATE | DELIVERY

  /** What the URL parser makes of a target. */
  datatype Url = Url(text: string, scheme: string, netloc: string) {
    predicate IsAbsolute() { scheme != "" && netloc != "" }

    function Host(): string { if netloc != "" then netloc else text }
  }

  datatype GatewayPolicy = GatewayPolicy(
    id: string, enabled: bool, requireApproval: bool, recordCost: bool, allowNetwork: bool, authRequired: bool,
    maxRetries: int, retryBackoff: real, limit: Limit, targetKinds: seq<string>, urlSchemes: seq<string>)

  datatype Route = Route(
    routeId: string, providerId: string, capabilityId: string, targetKind: string, targetEnvVar: string,
    defaultTargetUrl: string, authEnvVar: string, authSecretName: string, jobKinds: seq<JobKind>,
    exportModes: seq<string>, contractId: string, policyId: string, receiptFields: seq<string>,
    responseMode: string, estimatedCost: int, priority: int)

  const DISABLED := "disabled_by_default"
  const APPROVAL_BEFORE_GATEWAY := "approval_before_gateway"
  const OWNER_API_CALL := "owner_api_call"
  const DEFAULT_CONTRACT := "external_capability_gateway_v1"
  const APPROVAL_REQUIRED := "approval_required"

  /** The frozen tables of the policy module: `contracts` maps a contract id to its target kinds, and
      `deliveryApproval` says of each delivery policy whether it requires approval. */
  datatype Catalogue = Catalogue(policies: map<string, GatewayPolicy>, contracts: map<string, seq<string>>,
                                 deliveryApproval: map<string, bool>, providers: seq<string>, routes: seq<Route>)
  {
    predicate Valid() {
      && DISABLED in policies && !policies[DISABLED].enabled
      && (forall id :: id in policies ==> policies[id].id == id)
      && DEFAULT_CONTRACT in contracts && APPROVAL_REQUIRED in deliveryApproval
      && (forall i, j :: 0 <= i < j < |routes| ==> routes[i].routeId != routes[j].routeId)
    }

    function GetPolicy(id: string): (p: GatewayPolicy)
      requires Valid()
      ensures p.enabled ==> p.id == id
    {
      if id in policies then policies[id] else policies[DISABLED]
    }

    function TargetKinds(contractId: string): seq<string>
      requires Valid()
    {
      if contractId in contracts then contracts[contractId] else contracts[DEFAULT_CONTRACT]
    }
  }

  // ---------------------------------------------------------------- access

  datatype Refusal = PolicyDisabled | NoNetwork | KindNotAllowed | UrlNotAbsolute | SchemeNotAllowed | NeedsApproval
                   | NeedsToken | DeliveryNeedsApproval | UnknownAction | ContractKindUnsupported

  function EvaluateExternalGatewayAccess(policy: GatewayPolicy, targetKind: string, url: Url, approvalStatus: string,
                                         authProvided: bool): Option<Refusal>
  {
    if !policy.enabled then Some(PolicyDisabled)
    else if !policy.allowNetwork then Some(NoNetwork)
    else if targetKind !in policy.targetKinds then Some(KindNotAllowed)
    else if !url.IsAbsolute() then Some(UrlNotAbsolute)
    else if url.scheme !in policy.urlSchemes then Some(SchemeNotAllowed)
    else if policy.requireApproval && approvalStatus != "approved" && approvalStatus != "executed"
    then Some(NeedsApproval)
    else if policy.authRequired && !authProvided then Some(NeedsToken)
    else None
  }

  /** Every condition a request must meet, whatever the order in which they are checked. */
  predicate MayAccess(policy: GatewayPolicy, targetKind: string, url: Url, approvalStatus: string, authProvided: bool) {
    && policy.enabled && policy.allowNetwork
    && targetKind in policy.targetKinds && url.IsAbsolute() && url.scheme in policy.urlSchemes
    && (policy.requireApproval ==> approvalStatus == "approved" || approvalStatus == "executed")
    && (policy.authRequired ==> authProvided)
  }

  /** What an access needs, told of the policy id: an unknown policy permits nothing. */
  ghost predicate Permitted(cat: Catalogue, policyId: string, targetKind: string, url: Url, approvalStatus: string,
                            authProvided: bool)
  {
    && policyId in cat.policies
    && var p := cat.policies[policyId];
       && p.enabled && p.allowNetwork && targetKind in p.targetKinds
       && url.scheme != "" && url.netloc != "" && url.scheme in p.urlSchemes
       && (p.requireApproval ==> approvalStatus in {"approved", "executed"}) && (p.authRequired ==> authProvided)
  }

  lemma AccessIsPermitted(cat: Catalogue, policyId: string, targetKind: string, url: Url, approvalStatus: string,
                          authProvided: bool)
    requires cat.Valid()
    ensures MayAccess(cat.GetPolicy(policyId), targetKind, url, approvalStatus, authProvided)
            <==> Permitted(cat, policyId, targetKind, url, approvalStatus, authProvided)
  {
  }

  /** The reason given is the first condition that fails, in this order. */
  lemma RefusalNamesFirst(p: GatewayPolicy, targetKind: string, url: Url, status: string, auth: bool)
    ensures var conditions := [(p.enabled, PolicyDisabled), (p.allowNetwork, NoNetwork),
                               (targetKind in p.targetKinds, KindNotAllowed),
                               (url.scheme != "" && url.netloc != "", UrlNotAbsolute),
                               (url.scheme in p.urlSchemes, SchemeNotAllowed),
                               (p.requireApproval ==> status in {"approved", "executed"}, NeedsApproval),
                               (p.authRequired ==> auth, NeedsToken)];
            match EvaluateExternalGatewayAccess(p, targetKind, url, status, auth)
            case None => forall c :: c in conditions ==> c.0
            case Some(reason) =>
              exists k :: && 0 <= k < |conditions| && conditions[k] == (false, reason)
                          && forall i :: 0 <= i < k ==> conditions[i].0
  {
    var conditions := [(p.enabled, PolicyDisabled), (p.allowNetwork, NoNetwork),
                       (targetKind in p.targetKinds, KindNotAllowed),
                       (url.scheme != "" && url.netloc != "", UrlNotAbsolute),
                       (url.scheme in p.urlSchemes, SchemeNotAllowed),
                       (p.requireApproval ==> status in {"approved", "executed"}, NeedsApproval),
                       (p.authRequired ==> auth, NeedsToken)];
    var reason := EvaluateExternalGatewayAccess(p, targetKind, url, status, auth);
    if reason.Some? {
      var k := if reason.value.PolicyDisabled? then 0 else if reason.value.NoNetwork? then 1
               else if reason.value.KindNotAllowed? then 2 else if reason.value.UrlNotAbsolute? then 3
               else if reason.value.SchemeNotAllowed? then 4 else if reason.value.NeedsApproval? then 5 else 6;
      assert conditions[k] == (false, reason.value);
    }
  }

  datatype Action =
    | GatewaySend(policyId: Option<string>, targetKind: string, url: Url, approvalStatus: string, authProvided: bool)
    | ApiCall(policyId: Option<string>, targetKind: string, url: Url, approvalStatus: string, authProvided: bool)
    | Deliver(policyId: Option<string>, approvalStatus: string)
    | Unknown(name: string)

  datatype Decision = Decision(allowed: bool, blocking: seq<string>, warnings: seq<Refusal>,
                               policy: Option<GatewayPolicy>)

  function OrElse(s: string, default: string): string { if s != "" then s else default }

  /** What evaluate_runtime_action must decide. */
  predicate ActionAllowed(cat: Catalogue, a: Action)
    requires cat.Valid()
  {
    match a
    case GatewaySend(p, kind, url, status, auth) =>
      MayAccess(cat.GetPolicy(match p case Some(id) => id case None => APPROVAL_BEFORE_GATEWAY),
                OrElse(kind, "delivery"), url, status, auth)
    case ApiCall(p, kind, url, status, auth) =>
      MayAccess(cat.GetPolicy(match p case Some(id) => id case None => OWNER_API_CALL),
                OrElse(kind, "api_call"), url, status, auth)
    case Deliver(p, status) =>
      var id := match p case Some(id) => id case None => APPROVAL_REQUIRED;
      cat.deliveryApproval[if id in cat.deliveryApproval then id else APPROVAL_REQUIRED] ==> status == "approved"
    case Unknown(_) => false
  }

  /** The unified entry point: blocking reasons are collected, and an action is allowed when there is none. */
  method EvaluateRuntimeAction(cat: Catalogue, a: Action) returns (d: Decision)
    requires cat.Valid()
    ensures d.allowed <==> ActionAllowed(cat, a)
    ensures d.allowed <==> d.blocking == []
    ensures |d.warnings| == |d.blocking| <= 1
    ensures (a.GatewaySend? || a.ApiCall?) && a.policyId.Some? ==> d.policy == Some(cat.GetPolicy(a.policyId.value))
    ensures a.GatewaySend? ==>
              (d.allowed <==> Permitted(cat, if a.policyId.Some? then a.policyId.value else "approval_before_gateway",
                                        if a.targetKind != "" then a.targetKind else "delivery", a.url,
                                        a.approvalStatus, a.authProvided))
    ensures a.ApiCall? ==>
              (d.allowed <==> Permitted(cat, if a.policyId.Some? then a.policyId.value else "owner_api_call",
                                        if a.targetKind != "" then a.targetKind else "api_call", a.url,
                                        a.approvalStatus, a.authProvided))
    ensures a.Deliver? ==>
              (d.allowed <==>
               a.approvalStatus == "approved"
               || !cat.deliveryApproval[if a.policyId.Some? && a.policyId.value in cat.deliveryApproval
                                        then a.policyId.value else "approval_required"])
    ensures a.Unknown? ==> !d.allowed
  {
    if a.GatewaySend? {
      AccessIsPermitted(cat, if a.policyId.Some? then a.policyId.value else APPROVAL_BEFORE_GATEWAY,
                        OrElse(a.targetKind, "delivery"), a.url, a.approvalStatus, a.authProvided);
    } else if a.ApiCall? {
      AccessIsPermitted(cat, if a.policyId.Some? then a.policyId.value else OWNER_API_CALL,
                        OrElse(a.targetKind, "api_call"), a.url, a.approvalStatus, a.authProvided);
    }
    var blocking: seq<string>, warnings: seq<Refusal>, policy := [], [], None;
    match a {
      case GatewaySend(p, kind, url, status, auth) =>
        var gateway := cat.GetPolicy(match p case Some(id) => id case None => APPROVAL_BEFORE_GATEWAY);
        var refusal := EvaluateExternalGatewayAccess(gateway, OrElse(kind, "delivery"), url, status, auth);
        if refusal.Some? {
          blocking, warnings := blocking + ["gateway:" + gateway.id], warnings + [refusal.value];
        }
        policy := Some(gateway);
      case ApiCall(p, kind, url, status, auth) =>
        var gateway := cat.GetPolicy(match p case Some(id) => id case None => OWNER_API_CALL);
        var refusal := EvaluateExternalGatewayAccess(gateway, OrElse(kind, "api_call"), url, status, auth);
        if refusal.Some? {
          blocking, warnings := blocking + ["gateway:" + gateway.id], warnings + [refusal.value];
        }
        policy := Some(gateway);
      case Deliver(p, status) =>
        var id := match p case Some(id) => id case None => APPROVAL_REQUIRED;
        var resolved := if id in cat.deliveryApproval then id else APPROVAL_REQUIRED;
        if cat.deliveryApproval[resolved] && status != "approved" {
          blocking, warnings := blocking + ["delivery:" + resolved], warnings + [DeliveryNeedsApproval];
        }
      case Unknown(name) =>
        blocking, warnings := blocking + ["unknown_action:" + name], warnings + [UnknownAction];
    }
    d := Decision(|blocking| == 0, blocking, warnings, policy);
  }

  // ---------------------------------------------------------------- routes

  /** Lexicographic order on text. */
  predicate TextLe(a: string, b: string) {
    a == "" || (b != "" && (a[0] < b[0] || (a[0] == b[0] && TextLe(a[1..], b[1..]))))
  }

  predicate RouteLe(a: Route, b: Route) {
    a.priority < b.priority || (a.priority == b.priority && TextLe(a.routeId, b.routeId))
  }

  lemma {:induction false} TextLeTotal(a: string, b: string)
    ensures TextLe(a, b) || TextLe(b, a)
    ensures TextLe(a, b) && TextLe(b, a) ==> a == b
  {
    if a != "" && b != "" {
      TextLeTotal(a[1..], b[1..]);
      assert a == [a[0]] + a[1..] && b == [b[0]] + b[1..];
    }
  }

  lemma {:induction false} TextLeTransitive(a: string, b: string, c: string)
    requires TextLe(a, b) && TextLe(b, c)
    ensures TextLe(a, c)
  {
    if a != "" && a[0] == b[0] == c[0] { TextLeTransitive(a[1..], b[1..], c[1..]); }
  }

  /** A text comes before another in a dictionary: it begins it, or the first character in which they differ is less. */
  ghost predicate BeforeInDictionary(a: string, b: string) {
    a <= b || exists k :: 0 <= k < |a| && k < |b| && a[..k] == b[..k] && a[k] < b[k]
  }

  lemma {:induction false} TextLeIsDictionary(a: string, b: string)
    ensures TextLe(a, b) <==> BeforeInDictionary(a, b)
  {
    if a != "" && b != "" && a[0] == b[0] {
      TextLeIsDictionary(a[1..], b[1..]);
      if a[1..] <= b[1..] { assert a == [a[0]] + a[1..] && b == [b[0]] + b[1..]; }
      if k :| 0 <= k < |a[1..]| && k < |b[1..]| && a[1..][..k] == b[1..][..k] && a[1..][k] < b[1..][k] {
        assert a[..k + 1] == [a[0]] + a[1..][..k] && b[..k + 1] == [b[0]] + b[1..][..k];
        assert a[k + 1] < b[k + 1];
      }
      if k :| 0 <= k < |a| && k < |b| && a[..k] == b[..k] && a[k] < b[k] {
        assert k > 0;
        assert a[1..][..k - 1] == a[..k][1..] && b[1..][..k - 1] == b[..k][1..];
        assert a[1..][k - 1] < b[1..][k - 1];
      }
    } else if a != "" && b != "" {
      if a[0] < b[0] { assert a[..0] == b[..0]; }
      if k :| 0 <= k < |a| && k < |b| && a[..k] == b[..k] && a[k] < b[k] { assert k > 0 ==> a[..k][0] == b[..k][0]; }
    }
  }

  /** Routes come by priority, the lowest number first, and by route id among equals. */
  lemma RouteOrderMeans(routes: seq<Route>, i: nat, j: nat)
    requires InRouteOrder(routes) && i < j < |routes|
    ensures routes[i].priority <= routes[j].priority
    ensures routes[i].priority == routes[j].priority ==> BeforeInDictionary(routes[i].routeId, routes[j].routeId)
  {
    TextLeIsDictionary(routes[i].routeId, routes[j].routeId);
  }

  ghost predicate InRouteOrder(routes: seq<Route>) {
    forall i, j :: 0 <= i < j < |routes| ==> RouteLe(routes[i], routes[j])
  }

  predicate Selected(r: Route, providerId: string, capabilityId: string, kind: Option<JobKind>, exportMode: string) {
    && (providerId == "" || r.providerId == providerId)
    && (capabilityId == "" || r.capabilityId == capabilityId)
    && (kind.None? || kind.value in r.jobKinds)
    && (exportMode == "" || exportMode in r.exportModes)
  }

  /** Stable insertion of one more route into a sorted list. */
  function Insert(sorted: seq<Route>, r: Route): (out: seq<Route>)
    ensures multiset(out) == multiset(sorted) + multiset{r}
  {
    if sorted == [] then [r]
    else
      var last := sorted[|sorted| - 1];
      assert sorted == sorted[..|sorted| - 1] + [last];
      if RouteLe(last, r) then sorted + [r] else Insert(sorted[..|sorted| - 1], r) + [last]
  }

  lemma {:induction false} InsertSorts(sorted: seq<Route>, r: Route)
    requires InRouteOrder(sorted)
    ensures InRouteOrder(Insert(sorted, r))
  {
    if sorted != [] {
      var front, last := sorted[..|sorted| - 1], sorted[|sorted| - 1];
      TextLeTotal(last.routeId, r.routeId);
      if RouteLe(last, r) {
        forall i | 0 <= i < |front|
          ensures RouteLe(sorted[i], r)
        {
          if sorted[i].priority == last.priority == r.priority {
            TextLeTransitive(sorted[i].routeId, last.routeId, r.routeId);
          }
        }
      } else {
        InsertSorts(front, r);
        var out := Insert(front, r);
        forall i | 0 <= i < |out|
          ensures RouteLe(out[i], last)
        {
          assert out[i] in multiset(out);
          assert out[i] in front || out[i] == r;
        }
      }
    }
  }

  /** The routes that match, in the order (priority, route id): the order in which fallback tries them. */
  method ListExternalCapabilityRoutes(cat: Catalogue, providerId: string, capabilityId: string, kind: Option<JobKind>,
                                      exportMode: string) returns (routes: seq<Route>)
    requires cat.Valid()
    ensures InRouteOrder(routes)
    ensures forall r :: r in routes <==>
                          && r in cat.routes
                          && (providerId == "" || r.providerId == providerId)
                          && (capabilityId == "" || r.capabilityId == capabilityId)
                          && (kind.None? || kind.value in r.jobKinds)
                          && (exportMode == "" || exportMode in r.exportModes)
    ensures multiset(routes) <= multiset(cat.routes)
  {
    routes := [];
    var filtered: seq<Route> := [];
    for i := 0 to |cat.routes|
      invariant forall r :: r in filtered <==>
                              r in cat.routes[..i] && Selected(r, providerId, capabilityId, kind, exportMode)
      invariant multiset(filtered) <= multiset(cat.routes[..i])
    {
      assert cat.routes[..i + 1] == cat.routes[..i] + [cat.routes[i]];
      if Selected(cat.routes[i], providerId, capabilityId, kind, exportMode) {
        filtered := filtered + [cat.routes[i]];
      }
    }
    assert cat.routes[..|cat.routes|] == cat.routes;
    for i := 0 to |filtered|
      invariant InRouteOrder(routes) && multiset(routes) == multiset(filtered[..i])
    {
      assert filtered[..i + 1] == filtered[..i] + [filtered[i]];
      InsertSorts(routes, filtered[i]);
      routes := Insert(routes, filtered[i]);
    }
    assert filtered[..|filtered|] == filtered;
    assert forall r :: r in routes <==> r in multiset(routes);
    assert forall r :: r in filtered <==> r in multiset(filtered);
  }
}
