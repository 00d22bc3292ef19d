/** The external gateway: policy, approval, rate limit, retries, receipts and cost recording around each request, and
    the fallback from one provider route to the next. */
module Gateway {
  import opened Common
  import opened Policy
  import opened RateLimit
  import opened Retry
  import opened Ledger
  import AM = ApprovalModel
  import AT = ApprovalTheorems
  import AQ = ApprovalQueues

  /** Wall clock and monotonic clock: each reading is no earlier than the one before. */
  class Clock {
    var wall: real
    var monotonic: real

    constructor (wall: real, monotonic: real)
      ensures this.wall == wall && this.monotonic == monotonic
    {
      this.wall, this.monotonic := wall, monotonic;
    }

    method Tick()
      modifies this
      ensures wall >= old(wall) && monotonic >= old(monotonic)
    {
      var passed: real := *;
      if passed > 0.0 {
        wall, monotonic := wall + passed, monotonic + passed;
      }
    }
  }

  /** What the environment, the URL parser, the request builder and the JSON decoder answer. */
  datatype World = World(
    parse: string -> Url,
    environment: map<string, string>,
    secrets: map<string, string>,
    buildRequest: (Route, string) -> Option<string>,
    receipt: (string, string) -> map<string, string>)

  function LimitsOf(cat: Catalogue): Limits {
    (key: Key) => if cat.Valid() then cat.GetPolicy(key.0).limit else Limit(1, 1)
  }

  // ---------------------------------------------------------------- readiness

  datatype Readiness = Readiness(targetUrl: string, authToken: string, configured: bool)

  function Lookup(m: map<string, string>, key: string): string { if key != "" && key in m then m[key] else "" }

  function RouteReadiness(cat: Catalogue, w: World, route: Route, urlOverride: string, tokenOverride: string): Readiness
    requires cat.Valid()
  {
    var url := OrElse(urlOverride, OrElse(Lookup(w.environment, route.targetEnvVar), route.defaultTargetUrl));
    var token := OrElse(tokenOverride,
                        OrElse(Lookup(w.environment, route.authEnvVar), Lookup(w.secrets, route.authSecretName)));
    Readiness(url, token,
              url != "" && w.parse(url).IsAbsolute() && (cat.GetPolicy(route.policyId).authRequired ==> token != ""))
  }

  /** The text under the key, if there is one that is not empty. */
  ghost predicate Given(m: map<string, string>, key: string) { key != "" && key in m && m[key] != "" }

  /** The caller's target comes before the environment's, and that before the route's own; the caller's token comes
      before the environment's, and that before the stored secret.  A route is configured when its target is absolute
      and it has a token, or needs none. */
  lemma ReadinessMeans(cat: Catalogue, w: World, route: Route, urlOverride: string, tokenOverride: string)
    requires cat.Valid()
    ensures var ready := RouteReadiness(cat, w, route, urlOverride, tokenOverride);
            && ready.targetUrl == (if urlOverride != "" then urlOverride
                                   else if Given(w.environment, route.targetEnvVar)
                                   then w.environment[route.targetEnvVar]
                                   else route.defaultTargetUrl)
            && ready.authToken == (if tokenOverride != "" then tokenOverride
                                   else if Given(w.environment, route.authEnvVar) then w.environment[route.authEnvVar]
                                   else if Given(w.secrets, route.authSecretName) then w.secrets[route.authSecretName]
                                   else "")
            && (ready.configured <==>
                && ready.targetUrl != ""
                && w.parse(ready.targetUrl).scheme != "" && w.parse(ready.targetUrl).netloc != ""
                && (ready.authToken != ""
                    || !(if route.policyId in cat.policies then cat.policies[route.policyId].authRequired
                         else cat.policies["disabled_by_default"].authRequired)))
  {
  }

  // ---------------------------------------------------------------- results

  datatype Bundle = Bundle(bundleId: string, jobId: string)

  datatype ProviderContext = ProviderContext(responseMode: string, receiptFields: seq<string>)

  /** `status` is None when the answer carries no status code. */
  datatype SendResult = SendResult(ok: bool, code: DenialCode, status: Option<int>, attempts: nat)

  function StatusOr0(s: Option<int>): int { match s case Some(n) => n case None => 0 }

  /** How far a send got: refused, stopped by the rate limit, or on the network with these answers. */
  datatype Reached = Refused | LimitReached | Tried(outcomes: seq<Outcome>)

  function MissingReceiptFields(receipt: map<string, string>, required: seq<string>): seq<string> {
    if required == [] then []
    else
      var f := required[0];
      (if f != "" && Lookup(receipt, f) == "" then [f] else []) + MissingReceiptFields(receipt, required[1..])
  }

  predicate ReceiptComplete(w: World, context: Option<ProviderContext>, body: string) {
    context.None?
    || MissingReceiptFields(w.receipt(context.value.responseMode, body), context.value.receiptFields) == []
  }

  /** The answer a send gives for what happened on the network. */
  function SendAnswer(w: World, context: Option<ProviderContext>, reached: Reached): SendResult {
    match reached
    case Refused => SendResult(false, OtherDenial, None, 0)
    case LimitReached => SendResult(false, RateLimited, None, 0)
    case Tried(os) =>
      var r := ResultOf(os, false);
      if !r.ok then SendResult(false, OtherDenial, Some(r.status), r.attempts)
      else if !ReceiptComplete(w, context, r.body) then SendResult(false, ReceiptInvalid, Some(r.status), r.attempts)
      else SendResult(true, NoDenial, Some(r.status), r.attempts)
  }

  /** Every field the provider promises is in the receipt and not empty. */
  ghost predicate ReceiptHasAll(w: World, context: Option<ProviderContext>, body: string) {
    context.Some? ==>
      forall f :: f in context.value.receiptFields && f != "" ==>
        var receipt := w.receipt(context.value.responseMode, body); f in receipt && receipt[f] != ""
  }

  lemma {:induction false} MissingNone(receipt: map<string, string>, required: seq<string>)
    ensures MissingReceiptFields(receipt, required) == []
            <==> forall f :: f in required && f != "" ==> f in receipt && receipt[f] != ""
  {
    if required != [] {
      MissingNone(receipt, required[1..]);
      assert forall f :: f in required <==> f == required[0] || f in required[1..];
    }
  }

  /** A send is ok exactly when its last answer was in 200..299 and the receipt has all it should; a refused one and one
      stopped by the limiter made no request, and the code tells which of these it was. */
  lemma SendAnswerMeans(w: World, context: Option<ProviderContext>, reached: Reached)
    ensures var r := SendAnswer(w, context, reached);
            var answered := && reached.Tried? && reached.outcomes != []
                            && var last := reached.outcomes[|reached.outcomes| - 1];
                               last.Response? && 200 <= last.status < 300;
            && (r.ok <==> answered && ReceiptHasAll(w, context, reached.outcomes[|reached.outcomes| - 1].body))
            && (r.code.NoDenial? <==> r.ok) && (r.code.RateLimited? <==> reached.LimitReached?)
            && (r.code.ReceiptInvalid? <==> answered && !r.ok)
            && (r.status.Some? <==> reached.Tried?) && r.attempts == (if reached.Tried? then |reached.outcomes| else 0)
            && (reached.Tried? ==>
                  exists at: Option<nat> ::
                    && IsLatestAnswer(reached.outcomes, at)
                    && r.status == Some(if at.Some? then reached.outcomes[at.value].status else 0))
  {
    if reached.Tried? {
      var at := LatestAnswer(reached.outcomes);
    }
    if reached.Tried? && context.Some? && Succeeded(reached.outcomes) {
      MissingNone(w.receipt(context.value.responseMode, ResultOf(reached.outcomes, false).body),
                  context.value.receiptFields);
    }
  }

  // ---------------------------------------------------------------- fallback

  datatype AttemptStatus = Unavailable | Failed | Blocked | SentThrough

  datatype Attempt = Attempt(routeId: string, status: AttemptStatus, code: DenialCode, statusCode: int, attempts: nat) {
    /** An attempt after which the next route is tried. */
    predicate Passed() { status.Unavailable? || (status.Failed? && ShouldTryNextRoute(false, code, statusCode)) }
  }

  function TotalAttempts(attempted: seq<Attempt>): nat {
    if attempted == [] then 0 else TotalAttempts(attempted[..|attempted| - 1]) + attempted[|attempted| - 1].attempts
  }

  /** The attempts follow the routes in order; every one before the last gave way to the next; only the last may
      have been sent, and it was exactly when the call is ok. */
  ghost predicate FollowsRoutes(routes: seq<Route>, attempted: seq<Attempt>, ok: bool) {
    && |attempted| <= |routes|
    && (forall i :: 0 <= i < |attempted| ==> attempted[i].routeId == routes[i].routeId)
    && (forall i :: 0 <= i < |attempted| - 1 ==> attempted[i].Passed())
    && (ok <==> attempted != [] && attempted[|attempted| - 1].status.SentThrough?)
  }

  /** What makes the fallback go on: a route that is not configured, a send stopped by the limiter, a receipt that lacks
      a field, a status 0 - a refusal has none -, 429, or from 500 up. */
  ghost predicate GivesWay(a: Attempt) {
    || a.status.Unavailable?
    || (a.status.Failed?
        && (a.code.RateLimited? || a.code.ReceiptInvalid? || a.statusCode in {0, 429} || a.statusCode >= 500))
  }

  lemma PassesWhenItGivesWay(a: Attempt)
    ensures a.Passed() <==> GivesWay(a)
  {
  }

  /** Every attempt but the last gave way; the last did not, if routes were left. */
  ghost predicate StopsAtFinal(routes: seq<Route>, attempted: seq<Attempt>) {
    && (forall i :: 0 <= i < |attempted| - 1 ==> GivesWay(attempted[i]))
    && (|attempted| < |routes| ==> attempted != [] && !GivesWay(attempted[|attempted| - 1]))
  }

  lemma FallbackStops(routes: seq<Route>, attempted: seq<Attempt>, ok: bool)
    requires FollowsRoutes(routes, attempted, ok)
    requires |attempted| < |routes| ==> attempted != [] && !attempted[|attempted| - 1].Passed()
    ensures StopsAtFinal(routes, attempted)
  {
    forall i | 0 <= i < |attempted|
      ensures attempted[i].Passed() <==> GivesWay(attempted[i])
    {
      PassesWhenItGivesWay(attempted[i]);
    }
  }

  lemma FollowsNothing(routes: seq<Route>)
    ensures FollowsRoutes(routes, [], false) && TotalAttempts([]) == 0
  {
  }

  lemma FollowsOneMore(routes: seq<Route>, attempted: seq<Attempt>, a: Attempt)
    requires FollowsRoutes(routes, attempted, false) && |attempted| < |routes|
    requires a.routeId == routes[|attempted|].routeId
    requires attempted != [] ==> attempted[|attempted| - 1].Passed()
    ensures FollowsRoutes(routes, attempted + [a], a.status.SentThrough?)
  {
    hide Attempt.Passed;
    var all := attempted + [a];
    forall i | 0 <= i < |all|
      ensures all[i].routeId == routes[i].routeId && (i < |all| - 1 ==> all[i].Passed())
    {
      if i < |attempted| { assert all[i] == attempted[i]; }
    }
  }

  lemma TotalOneMore(attempted: seq<Attempt>, a: Attempt)
    ensures TotalAttempts(attempted + [a]) == TotalAttempts(attempted) + a.attempts
  {
    assert (attempted + [a])[..|attempted|] == attempted;
  }

  lemma RequestsOfConcat(a: seq<Event>, b: seq<Event>)
    ensures Requests(a + b) == Requests(a) + Requests(b)
  {
    if b == [] {
      assert a + b == a;
    } else {
      RequestsOfConcat(a, b[..|b| - 1]);
      assert (a + b)[..|a + b| - 1] == a + b[..|b| - 1];
    }
  }

  lemma SentRequests(log: seq<Event>, url: string, os: seq<Outcome>, backoff: real)
    ensures Requests(log + Exchange(url, os, backoff)) == Requests(log) + |os|
    ensures os == [] ==> log + Exchange(url, os, backoff) == log
  {
    RequestsOfConcat(log, Exchange(url, os, backoff));
    RetryArithmetic(url, os, backoff);
  }

  function FindRoute(routes: seq<Route>, id: string): Option<Route> {
    if routes == [] then None else if routes[0].routeId == id then Some(routes[0]) else FindRoute(routes[1..], id)
  }

  predicate Serves(r: Route, providerId: string, capabilityId: string) {
    r.providerId == providerId && r.capabilityId == capabilityId
  }

  /** The routes a call may use: those of the catalogue that match the request, each once, in the order of fallback.
      There are none for an unknown provider, and at most one when a route is named, since no two share their id. */
  ghost predicate IsResolved(cat: Catalogue, routes: seq<Route>, providerId: string, capabilityId: string,
                             routeId: string, kind: JobKind, exportMode: string)
  {
    && InRouteOrder(routes) && multiset(routes) <= multiset(cat.routes)
    && forall r :: r in routes <==>
                     && r in cat.routes && providerId in cat.providers
                     && if routeId != "" then
                          r.routeId == routeId && r.providerId == providerId && r.capabilityId == capabilityId
                        else
                          && (providerId == "" || r.providerId == providerId)
                          && (capabilityId == "" || r.capabilityId == capabilityId)
                          && kind in r.jobKinds && (exportMode == "" || exportMode in r.exportModes)
  }

  lemma {:induction false} FindRouteFinds(routes: seq<Route>, id: string)
    ensures match FindRoute(routes, id)
            case Some(r) => r in routes && r.routeId == id
            case None => forall r :: r in routes ==> r.routeId != id
  {
    if routes != [] && routes[0].routeId != id { FindRouteFinds(routes[1..], id); }
  }

  lemma UnknownProvider(cat: Catalogue, providerId: string, capabilityId: string, routeId: string, kind: JobKind,
                        exportMode: string)
    requires providerId !in cat.providers
    ensures IsResolved(cat, [], providerId, capabilityId, routeId, kind, exportMode)
  {
  }

  /** The requested route if it serves the capability, or all candidate routes in order. */
  method ResolveRoutes(cat: Catalogue, providerId: string, capabilityId: string, routeId: string, kind: JobKind,
                       exportMode: string) returns (routes: seq<Route>)
    requires cat.Valid()
    ensures providerId in cat.providers ==>
              IsResolved(cat, routes, providerId, capabilityId, routeId, kind, exportMode)
    ensures routeId != "" ==> routes == match FindRoute(cat.routes, routeId)
                                        case Some(r) => if Serves(r, providerId, capabilityId) then [r] else []
                                        case None => []
    ensures routeId == "" ==>
              forall r :: r in routes <==>
                            r in cat.routes && Selected(r, providerId, capabilityId, Some(kind), exportMode)
  {
    if routeId != "" {
      routes := match FindRoute(cat.routes, routeId)
        case Some(r) => if Serves(r, providerId, capabilityId) then [r] else []
        case None => [];
      FindRouteFinds(cat.routes, routeId);
    } else {
      routes := ListExternalCapabilityRoutes(cat, providerId, capabilityId, Some(kind), exportMode);
    }
  }

  // ---------------------------------------------------------------- API calls

  /** How an API call ended, in the source's outcome words. */
  datatype ApiEnd = ProviderNotFound | CapabilityNotFound | InvalidRequest | PolicyBlocked | ApiRateLimited | Success
                  | RequestFailed | ProviderUnconfigured
  {
    /** The status of the terminal job record. */
    function JobStatus(): string {
      match this
      case Success => "completed"
      case RequestFailed => "failed"
      case _ => "blocked"
    }

    function Outcome(): string {
      match this
      case ProviderNotFound => "provider_not_found"
      case CapabilityNotFound => "capability_not_found"
      case InvalidRequest => "invalid_request"
      case PolicyBlocked => "policy_blocked"
      case ApiRateLimited => "rate_limited"
      case Success => "success"
      case RequestFailed => "request_failed"
      case ProviderUnconfigured => "provider_unconfigured"
    }
  }

  /** The outcome words name the ends. */
  lemma OutcomeNames(end: ApiEnd)
    ensures end.Outcome() == "provider_not_found" <==> end.ProviderNotFound?
    ensures end.Outcome() == "capability_not_found" <==> end.CapabilityNotFound?
    ensures end.Outcome() == "invalid_request" <==> end.InvalidRequest?
    ensures end.Outcome() == "policy_blocked" <==> end.PolicyBlocked?
    ensures end.Outcome() == "rate_limited" <==> end.ApiRateLimited?
    ensures end.Outcome() == "success" <==> end.Success?
    ensures end.Outcome() == "request_failed" <==> end.RequestFailed?
    ensures end.Outcome() == "provider_unconfigured" <==> end.ProviderUnconfigured?
  {
    var o := end.Outcome();
    assert o[0] == if end.ProviderNotFound? || end.PolicyBlocked? || end.ProviderUnconfigured? then 'p'
                   else if end.CapabilityNotFound? then 'c' else if end.InvalidRequest? then 'i'
                   else if end.Success? then 's' else 'r';
    assert |"provider_not_found"| == 18 && |"policy_blocked"| == 14 && |"provider_unconfigured"| == 21;
    assert |"rate_limited"| == 12 && |"request_failed"| == 14;
  }

  /** What one route's attempt says of the answers its retry loop got. */
  ghost predicate Reports(a: Attempt, os: seq<Outcome>) { a.attempts == |os| && a.statusCode == LastStatus(os) }

  /** What one route did outside its own variables: the calls it put to the rate limiter, the events on the network and
      the calls made on the approval queue. */
  datatype Visit = Visit(calls: seq<Call>, events: seq<Event>, lookups: seq<AM.Command>)

  ghost function AllCalls(vs: seq<Visit>): seq<Call> {
    if vs == [] then [] else AllCalls(vs[..|vs| - 1]) + vs[|vs| - 1].calls
  }

  ghost function AllEvents(vs: seq<Visit>): seq<Event> {
    if vs == [] then [] else AllEvents(vs[..|vs| - 1]) + vs[|vs| - 1].events
  }

  ghost function AllLookups(vs: seq<Visit>): seq<AM.Command> {
    if vs == [] then [] else AllLookups(vs[..|vs| - 1]) + vs[|vs| - 1].lookups
  }

  lemma OneMoreVisit(calls: seq<Call>, log: seq<Event>, trace: seq<AM.Command>, vs: seq<Visit>, v: Visit)
    ensures calls + AllCalls(vs + [v]) == calls + AllCalls(vs) + v.calls
    ensures log + AllEvents(vs + [v]) == log + AllEvents(vs) + v.events
    ensures trace + AllLookups(vs + [v]) == trace + AllLookups(vs) + v.lookups
    ensures AllLookups(vs + [v]) == AllLookups(vs) + v.lookups
  {
    assert (vs + [v])[..|vs|] == vs;
    Associates(calls, AllCalls(vs), v.calls);
    Associates(log, AllEvents(vs), v.events);
    Associates(trace, AllLookups(vs), v.lookups);
  }

  /** Lookups and nothing else, made between the two times. */
  ghost predicate OnlyLookups(cmds: seq<AM.Command>, from: real, to: real) {
    forall c :: c in cmds ==> c.DoExpireStale? && from <= c.now <= to
  }

  lemma NoLookups(now: real)
    ensures OnlyLookups([], now, now)
  {
  }

  lemma MoreLookups(cmds: seq<AM.Command>, more: seq<AM.Command>, from: real, mid: real, to: real)
    requires from <= mid <= to && OnlyLookups(cmds, from, mid) && OnlyLookups(more, mid, to)
    ensures OnlyLookups(cmds + more, from, to)
  {
  }

  lemma Associates<T>(a: seq<T>, b: seq<T>, c: seq<T>)
    ensures a + (b + c) == a + b + c
  {
  }

  /** A failed attempt gives way to the next route exactly on a status 0, 429 or from 500 up: any other final status
      stops the call. */
  ghost predicate FinalAnswersStop(attempted: seq<Attempt>) {
    forall i :: 0 <= i < |attempted| && attempted[i].status.Failed? ==>
      (attempted[i].Passed()
       <==> attempted[i].statusCode == 0 || attempted[i].statusCode == 429 || attempted[i].statusCode >= 500)
  }

  /** Retries composed with fallback: a route that failed on these answers gives way to the next one exactly when its
      retries were used up on retryable answers, or its final answer was a status 0 or 429.  So a final status in
      1..499 other than 429 stops, and a retryable final answer means that no retry was left. */
  lemma ExhaustedRoutePasses(a: Attempt, os: seq<Outcome>, maxRetries: int)
    requires RetriesOf(os, maxRetries) && Reports(a, os) && !Succeeded(os)
    requires a.status.Failed? && !a.code.RateLimited? && !a.code.ReceiptInvalid?
    ensures a.Passed() <==> os == [] || os[|os| - 1].IsRetryable() || os[|os| - 1].status in {0, 429}
    ensures os != [] && os[|os| - 1].IsRetryable() ==> a.attempts == maxRetries + 1
  {
    FallsThroughWhenExhausted(os, maxRetries, true);
  }

  class ExternalGatewayService {
    const catalogue: Catalogue
    const world: World
    const network: Network
    const clock: Clock
    const approvals: AQ.ApprovalQueue?
    const state: ControlPlaneState?
    var rateLimitHits: Hits

    /** Every call that reached the rate limiter. */
    ghost var calls: seq<Call>

    ghost function ApprovalObjects(): set<object?>
      reads approvals
    {
      if approvals == null then {} else {approvals, approvals.storage} + approvals.repr
    }

    ghost predicate Valid()
      reads this, clock, state, approvals, if approvals == null then {} else approvals.repr
      reads if approvals == null || approvals.storage == null then {} else {approvals.storage}
    {
      catalogue.Valid() && StateValid() && QueueValid() && LimiterValid()
    }

    ghost predicate QueueValid()
      reads clock, approvals, if approvals == null then {} else approvals.repr
      reads if approvals == null || approvals.storage == null then {} else {approvals.storage}
    {
      approvals != null ==> approvals.Valid() && approvals.NotBefore(clock.wall)
    }

    ghost predicate StateValid()
      reads state
    {
      state != null ==> state.Valid()
    }

    /** The run id of a send is hexadecimal and new. */
    ghost predicate FreshRun(hex: string)
      reads state
    {
      state != null ==> IsHex(hex) && UnusedHex(state.writes, hex)
    }

    /** The pruned table is what the whole history of calls leads to, so the theorems on runs apply to it. */
    ghost predicate LimiterValid()
      reads `rateLimitHits, `calls, clock
    {
      && InOrder(calls) && (calls != [] ==> calls[|calls| - 1].now <= clock.monotonic)
      && rateLimitHits == RateLimit.Run(calls, LimitsOf(catalogue))
    }

    constructor (catalogue: Catalogue, world: World, network: Network, clock: Clock, approvals: AQ.ApprovalQueue?,
                 state: ControlPlaneState?)
      requires catalogue.Valid() && (approvals != null ==> approvals.Valid() && approvals.NotBefore(clock.wall))
      requires state != null ==> state.Valid()
      ensures Valid() && this.catalogue == catalogue && this.network == network && this.approvals == approvals
      ensures this.state == state && this.clock == clock && calls == []
    {
      this.catalogue, this.world, this.network, this.clock := catalogue, world, network, clock;
      this.approvals, this.state := approvals, state;
      rateLimitHits, calls := map[], [];
    }

    // -------------------------------------------------------------- the rate limiter

    method RecentHits(known: seq<real>, now: real, window: real) returns (recent: seq<real>)
      ensures recent == Recent(known, now, window)
    {
      recent := [];
      assert Recent([], now, window) == [] && known[..0] == [];
      hide Recent;
      for i := 0 to |known|
        invariant recent == Recent(known[..i], now, window)
      {
        RecentAppend(known[..i], known[i], now, window);
        assert known[..i + 1] == known[..i] + [known[i]];
        if now - known[i] < window {
          recent := recent + [known[i]];
        }
      }
      assert known[..|known|] == known;
    }

    /** Reads the clocks: neither goes back. */
    method ReadClock()
      requires LimiterValid()
      modifies clock
      ensures LimiterValid() && (old(QueueValid()) ==> QueueValid())
      ensures clock.wall >= old(clock.wall) && clock.monotonic >= old(clock.monotonic)
    {
      hide RateLimit.Run, InOrder, AQ.ApprovalQueue.Valid;
      clock.Tick();
    }

    method AllowRateLimitedCall(policy: GatewayPolicy, url: string) returns (allowed: bool)
      requires catalogue.Valid() && LimiterValid() && policy == catalogue.GetPolicy(policy.id)
      modifies this, clock
      ensures LimiterValid() && clock.wall >= old(clock.wall) && (old(QueueValid()) ==> QueueValid())
      ensures calls == old(calls) + [Call((policy.id, world.parse(url).Host()), clock.monotonic)]
      ensures allowed <==> Accepts(calls, LimitsOf(catalogue))
      // allowed iff fewer than `calls` calls accepted under this policy to this host are less than `window` seconds old
      ensures var target := world.parse(url);
              var key := (policy.id, if target.netloc != "" then target.netloc else target.text);
              var window := if policy.limit.window >= 1 then policy.limit.window else 1;
              allowed <==> |Young(Accepted(old(calls), LimitsOf(catalogue), key), clock.monotonic, window)|
                           < if policy.limit.calls >= 1 then policy.limit.calls else 1
    {
      hide QueueValid, Accepts;
      ReadClock();
      var key := (policy.id, world.parse(url).Host());
      RoomDecides(calls, Call(key, clock.monotonic), LimitsOf(catalogue));
      hide LimiterValid;
      allowed := RecordCall(policy, key);
    }

    /** Prunes the key's list to the window, decides, and records an accepted call. */
    method RecordCall(policy: GatewayPolicy, key: Key) returns (allowed: bool)
      requires catalogue.Valid() && LimiterValid() && policy == catalogue.GetPolicy(policy.id) && key.0 == policy.id
      modifies `rateLimitHits, `calls
      ensures LimiterValid() && calls == old(calls) + [Call(key, clock.monotonic)]
      ensures allowed <==> Accepts(calls, LimitsOf(catalogue))
    {
      hide RateLimit.Run, Accepts, Recent, InOrder, Limit.Window;
      var now := clock.monotonic;
      var window, callLimit := policy.limit.Window(), policy.limit.Calls();
      var known := Get(rateLimitHits, key);
      var recent := RecentHits(known, now, window);
      allowed := |recent| < callLimit;
      if allowed {
        recent := recent + [now];
      }
      rateLimitHits := rateLimitHits[key := recent];
      RateLimit.RunSnoc(calls, Call(key, now), LimitsOf(catalogue));
      calls := calls + [Call(key, now)];
    }

    // -------------------------------------------------------------- approvals

    /** What the queue now says about a request, expired ones included; "" when there is nothing to ask or to find. */
    ghost function StatusText(id: string): string
      reads approvals
    {
      if id == "" || approvals == null then ""
      else match AM.Find(approvals.model, id) case Some(r) => AQ.StatusValue(r.status) case None => ""
    }

    /** The calls made on the queue so far. */
    ghost function Trace(): seq<AM.Command>
      reads approvals
    {
      if approvals == null then [] else approvals.trace
    }

    /** What the queue says about a request after these calls. */
    ghost function StatusAfter(trace: seq<AM.Command>, id: string): string {
      if id == "" || approvals == null || !AM.IsRun(trace, approvals.storage != null, approvals.firstMaxHistory) then ""
      else match AM.Find(AM.Run(trace, approvals.storage != null, approvals.firstMaxHistory), id)
           case Some(r) => AQ.StatusValue(r.status)
           case None => ""
    }

    lemma StatusFromTrace(id: string)
      requires QueueValid()
      ensures StatusText(id) == StatusAfter(Trace(), id)
    {
    }

    /** A lookup is one call on the queue, which only expires requests; without an id or a queue there is none. */
    ghost predicate Looked(id: string, looked: seq<AM.Command>) {
      |looked| == (if id == "" || approvals == null then 0 else 1) && forall c :: c in looked ==> c.DoExpireStale?
    }

    method ApprovalStatus(id: string) returns (status: string, ghost looked: seq<AM.Command>)
      requires Valid()
      modifies clock, ApprovalObjects()
      ensures Valid() && clock.monotonic >= old(clock.monotonic) && clock.wall >= old(clock.wall)
      ensures approvals != null ==> approvals.repr == old(approvals.repr)
      ensures status == StatusText(id)
      ensures Looked(id, looked) && OnlyLookups(looked, old(clock.wall), clock.wall)
      ensures Trace() == old(Trace()) + looked
      ensures old(Cleared(id)) <==> Cleared(id)
    {
      hide Cleared, LimiterValid, StateValid, QueueValid, AM.Find, AQ.StatusValue, Catalogue.Valid;
      looked := [];
      if id == "" || approvals == null {
        return "", looked;
      }
      ReadClock();
      status := AskQueue(id);
      looked := [AM.DoExpireStale(clock.wall)];
    }

    method AskQueue(id: string) returns (status: string)
      requires approvals != null && QueueValid()
      modifies ApprovalObjects()
      ensures QueueValid() && approvals.repr == old(approvals.repr)
      ensures approvals.trace == old(approvals.trace) + [AM.DoExpireStale(clock.wall)]
      ensures status == match AM.Find(approvals.model, id) case Some(r) => AQ.StatusValue(r.status) case None => ""
      ensures old(Cleared(id)) <==> Cleared(id)
    {
      ghost var past := approvals.trace;
      var request := approvals.GetRequestDict(id, clock.wall);
      status := match request case Some(d) => d.status case None => "";
      AT.LookupApprovesNothing(past, clock.wall, approvals.storage != null, approvals.firstMaxHistory, id);
    }

    /** The request is APPROVED or EXECUTED on a real quorum: as many different people as it required, each of whom
        approved it before its time ran out, in the recorded history of the queue. */
    ghost predicate Cleared(id: string)
      reads approvals
    {
      && approvals != null && id in approvals.model.ledger
      && approvals.model.ledger[id].status in {AM.Approved, AM.Executed}
      && AT.RealQuorum(approvals.trace, approvals.model.ledger[id])
    }

    /** The gate opens exactly for a request that the queue finds and that is APPROVED or EXECUTED. */
    lemma GateOpensExactly(id: string)
      ensures StatusText(id) in {"approved", "executed"}
              <==> && id != "" && approvals != null && AM.Find(approvals.model, id).Some?
                   && AM.Find(approvals.model, id).value.status in {AM.Approved, AM.Executed}
    {
      if id != "" && approvals != null && AM.Find(approvals.model, id).Some? {
        AQ.StatusRoundTrip(AM.Find(approvals.model, id).value.status);
        assert AQ.ParseStatus("approved") == Some(AM.Approved) && AQ.ParseStatus("executed") == Some(AM.Executed);
      }
    }

    /** An approved or executed answer rests on a real quorum. */
    lemma GateRestsOnQuorum(id: string)
      requires Valid() && StatusText(id) in {"approved", "executed"}
      ensures Cleared(id)
    {
      approvals.ReachableInv();
      AT.FindIsLedger(approvals.model, id);
      var r := AM.Find(approvals.model, id).value;
      AQ.StatusRoundTrip(r.status);
      assert AQ.ParseStatus("approved") == Some(AM.Approved) && AQ.ParseStatus("executed") == Some(AM.Executed);
      AT.ApprovedMeansQuorum(approvals.trace, approvals.storage != null, approvals.firstMaxHistory, id);
    }

    // -------------------------------------------------------------- one send

    /** All a policy-checked send needs before it may reach the rate limiter. */
    ghost predicate SendAllowed(policyId: string, contractId: string, kind: string, url: string, status: string,
                                token: string)
      requires catalogue.Valid()
    {
      && MayAccess(catalogue.GetPolicy(policyId), OrElse(kind, "delivery"), world.parse(url), status, token != "")
      && kind in catalogue.TargetKinds(contractId)
    }

    /** The target kinds of a contract; an unknown contract counts as the default one. */
    ghost predicate Supports(contractId: string, kind: string) {
      kind in if contractId in catalogue.contracts then catalogue.contracts[contractId]
              else if "external_capability_gateway_v1" in catalogue.contracts
              then catalogue.contracts["external_capability_gateway_v1"] else []
    }

    /** A send is allowed exactly when its policy exists and permits it, and its contract has the target kind. */
    lemma SendNeeds(policyId: string, contractId: string, kind: string, url: string, status: string, token: string)
      requires catalogue.Valid()
      ensures SendAllowed(policyId, contractId, kind, url, status, token)
              <==> && Permitted(catalogue, policyId, if kind != "" then kind else "delivery", world.parse(url), status,
                                token != "")
                   && Supports(contractId, kind)
    {
      AccessIsPermitted(catalogue, policyId, OrElse(kind, "delivery"), world.parse(url), status, token != "");
    }

    /** An API call is allowed exactly when the policy - the caller's choice before the route's - exists, requires no
        approval and permits it, and the route's contract has the route's target kind. */
    lemma ApiNeeds(policyOverride: string, route: Route, url: string, token: string)
      requires catalogue.Valid()
      ensures var id := if policyOverride != "" then policyOverride else route.policyId;
              && (ApiAllowed(OrElse(policyOverride, route.policyId), route, url, token)
                  <==> && Permitted(catalogue, id, if route.targetKind != "" then route.targetKind else "api_call",
                                    world.parse(url), "", token != "")
                       && Supports(route.contractId, route.targetKind))
              && (Permitted(catalogue, id, route.targetKind, world.parse(url), "", token != "") ==>
                    !catalogue.policies[id].requireApproval)
              && CallPolicy(policyOverride, route)
                 == catalogue.policies[if id in catalogue.policies then id else "disabled_by_default"]
    {
      var id := OrElse(policyOverride, route.policyId);
      var status := if catalogue.GetPolicy(id).requireApproval then "" else "approved";
      AccessIsPermitted(catalogue, id, OrElse(route.targetKind, "api_call"), world.parse(url), status, token != "");
    }

    ghost function LimiterCall(policyId: string, url: string): Call
      requires catalogue.Valid()
      reads clock
    {
      Call((catalogue.GetPolicy(policyId).id, world.parse(url).Host()), clock.monotonic)
    }

    /** Sends a bundle.  `reached` says how far it got; everything observable is a function of it. */
    method SendDelivery(bundle: Bundle, approvalId: string, policyId: string, contractId: string, token: string,
                        kind: string, url: string, estimatedCost: int, context: Option<ProviderContext>, runHex: string)
      returns (r: SendResult, ghost reached: Reached, ghost looked: seq<AM.Command>)
      requires Valid() && FreshRun(runHex)
      modifies this, clock, network, ApprovalObjects()
      modifies if state == null then {} else {state}
      ensures Valid() && clock.wall >= old(clock.wall)
      ensures approvals != null ==> approvals.repr == old(approvals.repr)
      // the queue was asked and not otherwise used: whoever was approved, or was not, was so before the call
      ensures Looked(approvalId, looked) && OnlyLookups(looked, old(clock.wall), clock.wall)
      ensures Trace() == old(Trace()) + looked
      ensures old(Cleared(approvalId)) <==> Cleared(approvalId)
      // nothing is sent, and no call is spent, unless the policy and the approval allow it
      ensures reached.Refused? <==> !SendAllowed(policyId, contractId, kind, url, StatusText(approvalId), token)
      ensures calls == old(calls) + (if reached.Refused? then [] else [LimiterCall(policyId, url)])
      ensures !reached.Refused? ==> (reached.Tried? <==> Accepts(calls, LimitsOf(catalogue)))
      // what was sent is exactly the retry exchange
      ensures network.log == old(network.log)
                             + (if reached.Tried?
                                then Exchange(url, reached.outcomes, catalogue.GetPolicy(policyId).retryBackoff)
                                else [])
      ensures reached.Tried? ==> RetriesOf(reached.outcomes, catalogue.GetPolicy(policyId).maxRetries)
      ensures r == SendAnswer(world, context, reached)
      // one ledger entry under the run id for a success, nothing otherwise
      ensures state != null ==>
                && state.jobs == old(state.jobs) && state.jobWrites == old(state.jobWrites)
                && state.writes == old(state.writes) + (if r.ok && catalogue.GetPolicy(policyId).recordCost
                                                        then [SendCharge(runHex, bundle.jobId, estimatedCost)] else [])
      // the approval gate, across the policy, the gateway and the queue
      ensures network.log != old(network.log) && catalogue.GetPolicy(policyId).requireApproval ==>
                old(Cleared(approvalId))
    {
      hide RetriesOf, Exchange, ResultOf, Accepts, SendAllowed, Cleared, Looked, OnlyLookups, LimiterValid, StateValid,
           QueueValid;
      var admitted;
      admitted, looked := Admit(approvalId, policyId, contractId, token, kind, url);
      reached := admitted;
      if admitted.Refused? {
        r := SendResult(false, OtherDenial, None, 0);
      } else if admitted.LimitReached? {
        r := SendResult(false, RateLimited, None, 0);
      } else {
        ghost var outcomes;
        r, outcomes := Transmit(catalogue.GetPolicy(policyId), bundle, url, estimatedCost, context, runHex);
        reached := Tried(outcomes);
      }
    }

    /** Policy, approval and rate limit, in this order; Tried([]) when the send may go out. */
    method Admit(approvalId: string, policyId: string, contractId: string, token: string, kind: string, url: string)
      returns (reached: Reached, ghost looked: seq<AM.Command>)
      requires Valid()
      modifies this, clock, ApprovalObjects()
      ensures Valid() && clock.wall >= old(clock.wall)
      ensures approvals != null ==> approvals.repr == old(approvals.repr)
      ensures Looked(approvalId, looked) && OnlyLookups(looked, old(clock.wall), clock.wall)
      ensures Trace() == old(Trace()) + looked
      ensures old(Cleared(approvalId)) <==> Cleared(approvalId)
      ensures reached.Refused? <==> !SendAllowed(policyId, contractId, kind, url, StatusText(approvalId), token)
      ensures calls == old(calls) + (if reached.Refused? then [] else [LimiterCall(policyId, url)])
      ensures !reached.Refused? ==> (reached.Tried? <==> Accepts(calls, LimitsOf(catalogue)))
      ensures reached.Tried? && catalogue.GetPolicy(policyId).requireApproval ==> Cleared(approvalId)
    {
      hide LimiterValid, StateValid, Accepts, SendAllowed, Cleared, Looked, QueueValid, MayAccess;
      var allowed;
      allowed, looked := CheckSend(approvalId, policyId, contractId, token, kind, url);
      if !allowed {
        return Refused, looked;
      }
      ghost var from, mid := old(clock.wall), clock.wall;
      var allowedRate := AllowRateLimitedCall(catalogue.GetPolicy(policyId), url);
      reached := if allowedRate then Tried([]) else LimitReached;
      MoreLookups(looked, [], from, mid, clock.wall);
      assert looked + [] == looked;
    }

    /** The approval lookup and the policy decision. */
    method CheckSend(approvalId: string, policyId: string, contractId: string, token: string, kind: string, url: string)
      returns (allowed: bool, ghost looked: seq<AM.Command>)
      requires Valid()
      modifies clock, ApprovalObjects()
      ensures Valid() && clock.wall >= old(clock.wall)
      ensures approvals != null ==> approvals.repr == old(approvals.repr)
      ensures Looked(approvalId, looked) && OnlyLookups(looked, old(clock.wall), clock.wall)
      ensures Trace() == old(Trace()) + looked
      ensures old(Cleared(approvalId)) <==> Cleared(approvalId)
      ensures allowed <==> SendAllowed(policyId, contractId, kind, url, StatusText(approvalId), token)
      ensures allowed && catalogue.GetPolicy(policyId).requireApproval ==> Cleared(approvalId)
    {
      hide LimiterValid, StateValid, QueueValid, Cleared, Looked, OnlyLookups;
      var status;
      status, looked := ApprovalStatus(approvalId);
      var decision := EvaluateRuntimeAction(catalogue,
                                            Action.GatewaySend(Some(policyId), kind, world.parse(url), status,
                                                               token != ""));
      allowed := decision.allowed;
      if kind !in catalogue.TargetKinds(contractId) {
        allowed := false;
      }
      if allowed && catalogue.GetPolicy(policyId).requireApproval { GateRestsOnQuorum(approvalId); }
    }

    /** The retries, the receipt check and the cost entry of a send that may go out. */
    method Transmit(policy: GatewayPolicy, bundle: Bundle, url: string, estimatedCost: int,
                    context: Option<ProviderContext>, runHex: string)
      returns (r: SendResult, ghost outcomes: seq<Outcome>)
      requires StateValid() && FreshRun(runHex)
      modifies network, if state == null then {} else {state}
      ensures StateValid() && RetriesOf(outcomes, policy.maxRetries)
      ensures network.log == old(network.log) + Exchange(url, outcomes, policy.retryBackoff)
      ensures r == SendAnswer(world, context, Tried(outcomes))
      ensures state != null ==>
                && state.jobs == old(state.jobs) && state.jobWrites == old(state.jobWrites)
                && state.writes == old(state.writes)
                                   + (if r.ok && policy.recordCost
                                      then [SendCharge(runHex, bundle.jobId, estimatedCost)] else [])
    {
      hide RetriesOf, Exchange, StateValid, FreshRun, ReceiptComplete;
      var result;
      result, outcomes := ExecuteWithRetry(network, url, policy.maxRetries, policy.retryBackoff);
      if !result.ok {
        r := SendResult(false, OtherDenial, Some(result.status), result.attempts);
        return;
      }
      if !ReceiptComplete(world, context, result.body) {
        r := SendResult(false, ReceiptInvalid, Some(result.status), result.attempts);
        return;
      }
      if policy.recordCost {
        RecordCost(bundle, runHex, estimatedCost);
      }
      r := SendResult(true, NoDenial, Some(result.status), result.attempts);
    }

    method RecordCost(bundle: Bundle, runHex: string, estimatedCost: int)
      requires StateValid() && FreshRun(runHex)
      modifies if state == null then {} else {state}
      ensures StateValid()
      ensures state != null ==>
                && state.jobs == old(state.jobs) && state.jobWrites == old(state.jobWrites)
                && state.writes == old(state.writes) + [SendCharge(runHex, bundle.jobId, estimatedCost)]
    {
      if state != null {
        state.RecordCostEntry(GatewayKey(runHex), bundle.jobId, estimatedCost);
        state.Note(SendCharge(runHex, bundle.jobId, estimatedCost));
      }
    }

    method RecordApiCallCost(op: string, estimatedCost: int)
      requires StateValid()
      modifies if state == null then {} else {state}
      ensures StateValid()
      ensures state != null ==>
                && state.jobs == old(state.jobs) && state.jobWrites == old(state.jobWrites)
                && state.writes == old(state.writes) + [CallCharge(op, estimatedCost)]
    {
      if state != null {
        state.RecordCostEntry(ApiKey(op), op, estimatedCost);
        state.Note(CallCharge(op, estimatedCost));
      }
    }

    // -------------------------------------------------------------- delivery over routes

    /** What a delivery sends for: the same on every route. */
    ghost function DeliveryCost(route: Route, estimatedCost: int): int {
      if estimatedCost != 0 then estimatedCost else route.estimatedCost
    }

    /** The one entry a successful delivery over a route leaves in the ledger. */
    ghost function ChargeIf(sent: bool, route: Route, bundle: Bundle, estimatedCost: int, runHex: string): seq<Write>
      requires catalogue.Valid()
    {
      if sent && catalogue.GetPolicy(route.policyId).recordCost
      then [SendCharge(runHex, bundle.jobId, DeliveryCost(route, estimatedCost))] else []
    }

    /** Some request was made over a route whose policy requires approval. */
    ghost predicate UsedGatedRoute(routes: seq<Route>, attempted: seq<Attempt>)
      requires catalogue.Valid() && |attempted| <= |routes|
    {
      exists i :: 0 <= i < |attempted| && attempted[i].attempts > 0
                  && catalogue.GetPolicy(routes[i].policyId).requireApproval
    }

    ghost predicate InKey(v: Visit, policy: GatewayPolicy, url: string) {
      |v.calls| == 1 && v.calls[0].key == (policy.id, world.parse(url).Host())
    }

    /** One route of a delivery.  A route that is not configured does nothing.  Any other asks the queue, and one that
        the policy refuses on the status found goes no further; what remains puts one call to the rate limiter, and
        sends exactly when the limiter accepts it: then what left the process is the exchange of a retry loop, and the
        attempt is the answer to it. */
    ghost predicate DeliveryVisit(route: Route, urlOverride: string, tokenOverride: string, approvalId: string,
                                  a: Attempt, before: seq<Call>, past: seq<AM.Command>, v: Visit)
      requires catalogue.Valid()
    {
      var ready := RouteReadiness(catalogue, world, route, urlOverride, tokenOverride);
      if !ready.configured then v == Visit([], [], []) && a.status.Unavailable? && a.attempts == 0
      else
        && Looked(approvalId, v.lookups)
        && var status := StatusAfter(past + v.lookups, approvalId);
        exists reached ::
          && SendReached(route, ready.targetUrl, ready.authToken, status, reached, before, v)
          && Answers(a, SendAnswer(world, Some(ProviderContext(route.responseMode, route.receiptFields)), reached))
    }

    /** How far a send over a route got, given the approval status it found. */
    ghost predicate SendReached(route: Route, url: string, token: string, status: string, reached: Reached,
                                before: seq<Call>, v: Visit)
      requires catalogue.Valid()
    {
      var policy := catalogue.GetPolicy(route.policyId);
      if !SendAllowed(route.policyId, route.contractId, route.targetKind, url, status, token)
      then reached.Refused? && v.calls == [] && v.events == []
      else
        && InKey(v, policy, url)
        && if !Accepts(before + v.calls, LimitsOf(catalogue)) then reached.LimitReached? && v.events == []
           else
             && reached.Tried? && RetriesOf(reached.outcomes, policy.maxRetries)
             && v.events == Exchange(url, reached.outcomes, policy.retryBackoff)
    }

    ghost predicate Answers(a: Attempt, r: SendResult) {
      && a.status == (if r.ok then SentThrough else Failed) && a.code == r.code
      && a.statusCode == (if r.status.Some? then r.status.value else 0) && a.attempts == r.attempts
    }

    ghost predicate DeliveryVisits(routes: seq<Route>, urlOverride: string, tokenOverride: string, approvalId: string,
                                   attempted: seq<Attempt>, before: seq<Call>, past: seq<AM.Command>, vs: seq<Visit>)
      requires catalogue.Valid()
    {
      && |vs| == |attempted| <= |routes|
      && forall i :: 0 <= i < |vs| ==>
           DeliveryVisit(routes[i], urlOverride, tokenOverride, approvalId, attempted[i], before + AllCalls(vs[..i]),
                         past + AllLookups(vs[..i]), vs[i])
    }

    method TryDeliveryRoute(bundle: Bundle, route: Route, approvalId: string, urlOverride: string,
                            tokenOverride: string, estimatedCost: int, runHex: string)
      returns (a: Attempt, ghost v: Visit)
      requires Valid() && FreshRun(runHex)
      modifies this, clock, network, ApprovalObjects(), if state == null then {} else {state}
      ensures Valid() && clock.wall >= old(clock.wall)
      ensures approvals != null ==> approvals.repr == old(approvals.repr)
      ensures a.routeId == route.routeId && !a.status.Blocked?
      ensures DeliveryVisit(route, urlOverride, tokenOverride, approvalId, a, old(calls), old(Trace()), v)
      ensures calls == old(calls) + v.calls && network.log == old(network.log) + v.events
      ensures Trace() == old(Trace()) + v.lookups && OnlyLookups(v.lookups, old(clock.wall), clock.wall)
      ensures Requests(network.log) == Requests(old(network.log)) + a.attempts
      ensures state != null ==>
                && state.jobs == old(state.jobs) && state.jobWrites == old(state.jobWrites)
                && state.writes == old(state.writes)
                                   + ChargeIf(a.status.SentThrough?, route, bundle, estimatedCost, runHex)
      ensures a.attempts > 0 && catalogue.GetPolicy(route.policyId).requireApproval ==> old(Cleared(approvalId))
      ensures old(Cleared(approvalId)) <==> Cleared(approvalId)
    {
      hide LimiterValid, StateValid, Cleared, QueueValid, Accepts, SendAllowed, RetriesOf, Exchange, Requests,
           RouteReadiness, SendAnswer, DeliveryVisit, Looked, OnlyLookups, StatusText, StatusAfter,
           RateLimit.Run, InOrder, AQ.ApprovalQueue.Valid, ControlPlaneState.Valid, StatusOr0;
      var readiness := RouteReadiness(catalogue, world, route, urlOverride, tokenOverride);
      if !readiness.configured {
        a, v := Attempt(route.routeId, Unavailable, NoDenial, 0, 0), Visit([], [], []);
        NoLookups(clock.wall);
        NotConfigured(route, urlOverride, tokenOverride, approvalId, a, calls, Trace());
        return;
      }
      var r;
      ghost var reached, looked;
      r, reached, looked := SendDelivery(bundle, approvalId, route.policyId, route.contractId, readiness.authToken,
                                         route.targetKind, readiness.targetUrl,
                                         if estimatedCost != 0 then estimatedCost else route.estimatedCost,
                                         Some(ProviderContext(route.responseMode, route.receiptFields)), runHex);
      a := AttemptOf(route.routeId, r);
      v := SendVisit(reached, route, readiness.targetUrl, looked);
      StatusFromTrace(approvalId);
      Visited(route, urlOverride, tokenOverride, approvalId, a, r, reached, old(calls), old(Trace()), v);
      SendCounts(old(network.log), reached, route, readiness.targetUrl, r, looked);
    }

    function AttemptOf(routeId: string, r: SendResult): (a: Attempt)
      ensures a.routeId == routeId && Answers(a, r)
    {
      Attempt(routeId, if r.ok then SentThrough else Failed, r.code, StatusOr0(r.status), r.attempts)
    }

    ghost function SendVisit(reached: Reached, route: Route, url: string, looked: seq<AM.Command>): Visit
      requires catalogue.Valid()
      reads clock
    {
      Visit(if reached.Refused? then [] else [LimiterCall(route.policyId, url)],
            if reached.Tried? then Exchange(url, reached.outcomes, catalogue.GetPolicy(route.policyId).retryBackoff)
            else [],
            looked)
    }

    lemma NotConfigured(route: Route, urlOverride: string, tokenOverride: string, approvalId: string, a: Attempt,
                        before: seq<Call>, past: seq<AM.Command>)
      requires catalogue.Valid() && !RouteReadiness(catalogue, world, route, urlOverride, tokenOverride).configured
      requires a.status.Unavailable? && a.attempts == 0
      ensures DeliveryVisit(route, urlOverride, tokenOverride, approvalId, a, before, past, Visit([], [], []))
    {
    }

    lemma Visited(route: Route, urlOverride: string, tokenOverride: string, approvalId: string, a: Attempt,
                  r: SendResult, reached: Reached, before: seq<Call>, past: seq<AM.Command>, v: Visit)
      requires catalogue.Valid() && RouteReadiness(catalogue, world, route, urlOverride, tokenOverride).configured
      requires var ready := RouteReadiness(catalogue, world, route, urlOverride, tokenOverride);
               && v == SendVisit(reached, route, ready.targetUrl, v.lookups)
               && (reached.Refused?
                   <==> !SendAllowed(route.policyId, route.contractId, route.targetKind, ready.targetUrl,
                                     StatusAfter(past + v.lookups, approvalId), ready.authToken))
      requires Looked(approvalId, v.lookups)
      requires !reached.Refused? ==> (reached.Tried? <==> Accepts(before + v.calls, LimitsOf(catalogue)))
      requires reached.Tried? ==> RetriesOf(reached.outcomes, catalogue.GetPolicy(route.policyId).maxRetries)
      requires Answers(a, r)
      requires r == SendAnswer(world, Some(ProviderContext(route.responseMode, route.receiptFields)), reached)
      ensures DeliveryVisit(route, urlOverride, tokenOverride, approvalId, a, before, past, v)
    {
      hide RouteReadiness, SendAllowed, Accepts, RetriesOf, Exchange, SendAnswer, Answers, StatusAfter, Looked;
      var ready := RouteReadiness(catalogue, world, route, urlOverride, tokenOverride);
      assert SendReached(route, ready.targetUrl, ready.authToken, StatusAfter(past + v.lookups, approvalId), reached,
                         before, v);
    }

    lemma SendCounts(log: seq<Event>, reached: Reached, route: Route, url: string, r: SendResult,
                     looked: seq<AM.Command>)
      requires catalogue.Valid()
      requires r == SendAnswer(world, Some(ProviderContext(route.responseMode, route.receiptFields)), reached)
      ensures Requests(log + SendVisit(reached, route, url, looked).events) == Requests(log) + r.attempts
      ensures r.attempts == 0 ==> SendVisit(reached, route, url, looked).events == []
    {
      hide ReceiptComplete, LastStatus, LastBody, Succeeded;
      if reached.Tried? {
        SentRequests(log, url, reached.outcomes, catalogue.GetPolicy(route.policyId).retryBackoff);
      } else {
        assert log + [] == log;
      }
    }

    lemma OneMoreDelivery(routes: seq<Route>, urlOverride: string, tokenOverride: string, approvalId: string,
                          attempted: seq<Attempt>, a: Attempt, before: seq<Call>, past: seq<AM.Command>,
                          vs: seq<Visit>, v: Visit)
      requires catalogue.Valid() && |attempted| < |routes|
      requires DeliveryVisits(routes, urlOverride, tokenOverride, approvalId, attempted, before, past, vs)
      requires DeliveryVisit(routes[|attempted|], urlOverride, tokenOverride, approvalId, a, before + AllCalls(vs),
                             past + AllLookups(vs), v)
      ensures DeliveryVisits(routes, urlOverride, tokenOverride, approvalId, attempted + [a], before, past, vs + [v])
    {
      hide DeliveryVisit;
      var all, more := attempted + [a], vs + [v];
      assert more[..|vs|] == vs;
      forall i | 0 <= i < |more|
        ensures DeliveryVisit(routes[i], urlOverride, tokenOverride, approvalId, all[i], before + AllCalls(more[..i]),
                              past + AllLookups(more[..i]), more[i])
      {
        if i < |vs| { assert more[..i] == vs[..i] && all[i] == attempted[i] && more[i] == vs[i]; }
      }
    }

    lemma OneMoreGated(routes: seq<Route>, attempted: seq<Attempt>, a: Attempt)
      requires catalogue.Valid() && |attempted| < |routes|
      ensures UsedGatedRoute(routes, attempted + [a]) ==>
                UsedGatedRoute(routes, attempted)
                || (a.attempts > 0 && catalogue.GetPolicy(routes[|attempted|].policyId).requireApproval)
    {
      var all := attempted + [a];
      if UsedGatedRoute(routes, all) {
        var i :| 0 <= i < |all| && all[i].attempts > 0 && catalogue.GetPolicy(routes[i].policyId).requireApproval;
        assert i < |attempted| ==> attempted[i] == all[i];
      }
    }

    lemma NothingDelivered(routes: seq<Route>, urlOverride: string, tokenOverride: string, approvalId: string,
                           before: seq<Call>, past: seq<AM.Command>)
      requires catalogue.Valid()
      ensures FollowsRoutes(routes, [], false) && TotalAttempts([]) == 0
      ensures DeliveryVisits(routes, urlOverride, tokenOverride, approvalId, [], before, past, [])
      ensures !UsedGatedRoute(routes, []) && AllCalls([]) == [] && AllEvents([]) == [] && AllLookups([]) == []
    {
      FollowsNothing(routes);
    }

    /** Tries the routes of a capability in order until one delivery succeeds or a final failure stops it. */
    method SendDeliveryViaCapability(bundle: Bundle, kind: JobKind, providerId: string, capabilityId: string,
                                     approvalId: string, routeId: string, urlOverride: string,
                                     tokenOverride: string, estimatedCost: int,
                                     exportMode: string, runHex: nat -> string)
      returns (ok: bool, attempted: seq<Attempt>, ghost routes: seq<Route>, ghost visits: seq<Visit>)
      requires Valid() && forall i :: FreshRun(runHex(i))
      modifies this, clock, network, ApprovalObjects(), if state == null then {} else {state}
      ensures Valid()
      ensures IsResolved(catalogue, routes, providerId, capabilityId, routeId, kind, exportMode)
      ensures FollowsRoutes(routes, attempted, ok)
      ensures |attempted| < |routes| ==> attempted != [] && !attempted[|attempted| - 1].Passed()
      ensures StopsAtFinal(routes, attempted)
      // what left the process, and what was put to the limiter and to the queue, is what the attempted routes did
      ensures DeliveryVisits(routes, urlOverride, tokenOverride, approvalId, attempted, old(calls), old(Trace()),
                             visits)
      ensures calls == old(calls) + AllCalls(visits) && network.log == old(network.log) + AllEvents(visits)
      ensures Trace() == old(Trace()) + AllLookups(visits)
      ensures OnlyLookups(AllLookups(visits), old(clock.wall), clock.wall)
      ensures Requests(network.log) == Requests(old(network.log)) + TotalAttempts(attempted)
      // however many routes and retries: one ledger entry for the route that succeeded, or none
      ensures state != null ==>
                && state.jobs == old(state.jobs) && state.jobWrites == old(state.jobWrites)
                && var won := |attempted| - 1;
                   state.writes
                   == if ok && catalogue.GetPolicy(routes[won].policyId).recordCost
                      then old(state.writes)
                           + [SendCharge(runHex(won), bundle.jobId,
                                         if estimatedCost != 0 then estimatedCost else routes[won].estimatedCost)]
                      else old(state.writes)
      // and no route is a way around the approval its own policy requires
      ensures UsedGatedRoute(routes, attempted) ==> old(Cleared(approvalId))
    {
      hide LimiterValid, StateValid, Cleared, QueueValid, Requests, FollowsRoutes, TotalAttempts, UsedGatedRoute,
           IsResolved, DeliveryVisits, DeliveryVisit, AllCalls, AllEvents, AllLookups, OnlyLookups, Looked;
      var candidates: seq<Route> := [];
      if providerId in catalogue.providers {
        candidates := ResolveRoutes(catalogue, providerId, capabilityId, routeId, kind, exportMode);
      } else {
        UnknownProvider(catalogue, providerId, capabilityId, routeId, kind, exportMode);
      }
      routes := candidates;
      ok, attempted, visits := DeliverOverRoutes(bundle, candidates, approvalId, urlOverride, tokenOverride,
                                                 estimatedCost, runHex);
      FallbackStops(routes, attempted, ok);
    }

    /** The fallback: route after route, until one delivery is sent or fails for good. */
    method DeliverOverRoutes(bundle: Bundle, routes: seq<Route>, approvalId: string, urlOverride: string,
                             tokenOverride: string, estimatedCost: int, runHex: nat -> string)
      returns (ok: bool, attempted: seq<Attempt>, ghost visits: seq<Visit>)
      requires Valid() && forall i :: FreshRun(runHex(i))
      modifies this, clock, network, ApprovalObjects(), if state == null then {} else {state}
      ensures Valid()
      ensures FollowsRoutes(routes, attempted, ok)
      ensures |attempted| < |routes| ==> attempted != [] && !attempted[|attempted| - 1].Passed()
      ensures DeliveryVisits(routes, urlOverride, tokenOverride, approvalId, attempted, old(calls), old(Trace()),
                             visits)
      ensures calls == old(calls) + AllCalls(visits) && network.log == old(network.log) + AllEvents(visits)
      ensures Trace() == old(Trace()) + AllLookups(visits)
      ensures OnlyLookups(AllLookups(visits), old(clock.wall), clock.wall)
      ensures Requests(network.log) == Requests(old(network.log)) + TotalAttempts(attempted)
      ensures state != null ==>
                && state.jobs == old(state.jobs) && state.jobWrites == old(state.jobWrites)
                && state.writes == old(state.writes)
                                   + (if ok then ChargeIf(true, routes[|attempted| - 1], bundle, estimatedCost,
                                                          runHex(|attempted| - 1))
                                      else [])
      ensures UsedGatedRoute(routes, attempted) ==> old(Cleared(approvalId))
    {
      hide LimiterValid, StateValid, Cleared, QueueValid, Requests, FollowsRoutes, TotalAttempts, UsedGatedRoute,
           DeliveryVisits, DeliveryVisit, AllCalls, AllEvents, AllLookups, OnlyLookups;
      ok, attempted, visits := false, [], [];
      NothingDelivered(routes, urlOverride, tokenOverride, approvalId, calls, Trace());
      NoLookups(clock.wall);
      var i := 0;
      while i < |routes|
        invariant i == |attempted| <= |routes| && !ok && Valid() && clock.wall >= old(clock.wall)
        invariant approvals != null ==> approvals.repr == old(approvals.repr)
        invariant FollowsRoutes(routes, attempted, false)
        invariant DeliveryVisits(routes, urlOverride, tokenOverride, approvalId, attempted, old(calls), old(Trace()),
                                 visits)
        invariant calls == old(calls) + AllCalls(visits) && network.log == old(network.log) + AllEvents(visits)
        invariant Trace() == old(Trace()) + AllLookups(visits)
        invariant OnlyLookups(AllLookups(visits), old(clock.wall), clock.wall)
        invariant attempted != [] ==> attempted[|attempted| - 1].Passed()
        invariant Requests(network.log) == Requests(old(network.log)) + TotalAttempts(attempted)
        invariant state != null ==>
                    && state.jobs == old(state.jobs) && state.jobWrites == old(state.jobWrites)
                    && state.writes == old(state.writes)
        invariant old(Cleared(approvalId)) <==> Cleared(approvalId)
        invariant UsedGatedRoute(routes, attempted) ==> old(Cleared(approvalId))
      {
        ghost var mid := clock.wall;
        var a;
        ghost var v;
        a, v := TryDeliveryRoute(bundle, routes[i], approvalId, urlOverride, tokenOverride, estimatedCost, runHex(i));
        FollowsOneMore(routes, attempted, a);
        TotalOneMore(attempted, a);
        OneMoreGated(routes, attempted, a);
        OneMoreDelivery(routes, urlOverride, tokenOverride, approvalId, attempted, a, old(calls), old(Trace()), visits,
                        v);
        OneMoreVisit(old(calls), old(network.log), old(Trace()), visits, v);
        MoreLookups(AllLookups(visits), v.lookups, old(clock.wall), mid, clock.wall);
        attempted, visits := attempted + [a], visits + [v];
        if a.status.SentThrough? {
          ok := true;
          return;
        }
        if a.status.Failed? && !ShouldTryNextRoute(false, a.code, a.statusCode) {
          return;
        }
        i := i + 1;
      }
    }

    // -------------------------------------------------------------- API calls over routes

    ghost predicate ApiAllowed(policyId: string, route: Route, url: string, token: string)
      requires catalogue.Valid()
    {
      && MayAccess(catalogue.GetPolicy(policyId), OrElse(route.targetKind, "api_call"), world.parse(url),
                   if catalogue.GetPolicy(policyId).requireApproval then "" else "approved", token != "")
      && route.targetKind in catalogue.TargetKinds(route.contractId)
    }

    /** One route of an API call.  A route that is not configured, or that the policy refuses, costs nothing; any other
        puts one call to the rate limiter and is sent exactly when the limiter accepts it: then what left the process is
        the exchange of a retry loop, and the attempt reports its answers. */
    ghost predicate ApiVisit(route: Route, policyOverride: string, tokenOverride: string, a: Attempt, before: seq<Call>,
                             v: Visit)
      requires catalogue.Valid()
    {
      var ready := RouteReadiness(catalogue, world, route, "", tokenOverride);
      if !ready.configured then v == Visit([], [], []) && a.status.Unavailable? && a.attempts == 0
      else
        var request := world.buildRequest(route, ready.targetUrl);
        request.Some? && RequestReached(route, policyOverride, request.value, ready.authToken, a, before, v)
    }

    ghost predicate RequestReached(route: Route, policyOverride: string, url: string, token: string, a: Attempt,
                                   before: seq<Call>, v: Visit)
      requires catalogue.Valid()
    {
      var policy := CallPolicy(policyOverride, route);
      if !ApiAllowed(OrElse(policyOverride, route.policyId), route, url, token)
      then v == Visit([], [], []) && a.status.Blocked? && a.attempts == 0
      else
        && InKey(v, policy, url)
        && if !Accepts(before + v.calls, LimitsOf(catalogue))
           then v.events == [] && a.status.Blocked? && a.attempts == 0
           else exists os :: CalledWith(a, url, policy, os, v.events)
    }

    ghost predicate CalledWith(a: Attempt, url: string, policy: GatewayPolicy, os: seq<Outcome>, events: seq<Event>) {
      && RetriesOf(os, policy.maxRetries) && events == Exchange(url, os, policy.retryBackoff)
      && Reports(a, os) && a.code.NoDenial? && a.status == if Succeeded(os) then SentThrough else Failed
    }

    ghost predicate ApiVisits(routes: seq<Route>, policyOverride: string, tokenOverride: string,
                              attempted: seq<Attempt>, before: seq<Call>, vs: seq<Visit>)
      requires catalogue.Valid()
    {
      && |vs| == |attempted| <= |routes|
      && forall i :: 0 <= i < |vs| ==>
           ApiVisit(routes[i], policyOverride, tokenOverride, attempted[i], before + AllCalls(vs[..i]), vs[i])
    }

    /** One route of an API call: the attempt to record, if any, and the end of the call, if this route ends it. */
    method TryApiRoute(route: Route, policyOverride: string, tokenOverride: string, op: string)
      returns (a: Option<Attempt>, end: Option<ApiEnd>, ghost v: Visit)
      requires catalogue.Valid() && LimiterValid() && StateValid()
      modifies this, clock, network, if state == null then {} else {state}
      ensures LimiterValid() && StateValid() && clock.wall >= old(clock.wall)
      ensures a.Some? ==> a.value.routeId == route.routeId
      ensures a.Some? ==> ApiVisit(route, policyOverride, tokenOverride, a.value, old(calls), v)
      ensures a.None? ==> v == Visit([], [], [])
      ensures calls == old(calls) + v.calls && network.log == old(network.log) + v.events
      ensures Requests(network.log) == Requests(old(network.log)) + (if a.Some? then a.value.attempts else 0)
      ensures state != null ==> state.jobs == old(state.jobs) && state.jobWrites == old(state.jobWrites)
      ensures var policy := CallPolicy(policyOverride, route);
              && (state != null ==>
                    state.writes == old(state.writes)
                                    + (if end == Some(Success) && policy.recordCost
                                       then [CallCharge(op, route.estimatedCost)] else []))
              && (policy.requireApproval ==>
                    v.events == [] && (end.None? || end.value.InvalidRequest? || end.value.PolicyBlocked?))
      ensures match end
              case None => a.Some? && a.value.Passed() && !a.value.status.SentThrough?
              case Some(InvalidRequest) => a.None? && Unbuildable(route, tokenOverride)
              case Some(e) => a.Some? && EndsWith(a.value, v, e)
      ensures a.Some? && a.value.status.Failed? ==> a.value.code.NoDenial?
    {
      hide LimiterValid, MayAccess, Accepts, Requests, ApiAllowed, RouteReadiness, JobTotal, ApiVisit, RequestReached,
           CalledWith, RetriesOf, Exchange, Succeeded;
      v := Visit([], [], []);
      var readiness := RouteReadiness(catalogue, world, route, "", tokenOverride);
      if !readiness.configured {
        a, end := Some(Attempt(route.routeId, Unavailable, NoDenial, 0, 0)), None;
        ApiNotConfigured(route, policyOverride, tokenOverride, a.value, calls);
        return;
      }
      var request := world.buildRequest(route, readiness.targetUrl);
      if request.None? {
        return None, Some(InvalidRequest), v;
      }
      var attempt, ended;
      attempt, ended, v := TryRequest(route, policyOverride, request.value, readiness.authToken, op);
      ApiConfigured(route, policyOverride, tokenOverride, attempt, old(calls), v);
      return Some(attempt), ended, v;
    }

    /** Policy, rate limit and request, in this order. */
    method TryRequest(route: Route, policyOverride: string, url: string, token: string, op: string)
      returns (a: Attempt, end: Option<ApiEnd>, ghost v: Visit)
      requires catalogue.Valid() && LimiterValid() && StateValid()
      modifies this, clock, network, if state == null then {} else {state}
      ensures LimiterValid() && StateValid() && clock.wall >= old(clock.wall)
      ensures a.routeId == route.routeId && RequestReached(route, policyOverride, url, token, a, old(calls), v)
      ensures calls == old(calls) + v.calls && network.log == old(network.log) + v.events
      ensures Requests(network.log) == Requests(old(network.log)) + a.attempts
      ensures state != null ==> state.jobs == old(state.jobs) && state.jobWrites == old(state.jobWrites)
      ensures var policy := CallPolicy(policyOverride, route);
              && (state != null ==>
                    state.writes == old(state.writes)
                                    + (if end == Some(Success) && policy.recordCost
                                       then [CallCharge(op, route.estimatedCost)] else []))
              && (policy.requireApproval ==> v.events == [] && end == Some(PolicyBlocked))
      ensures match end
              case None => a.Passed()
              case Some(e) => EndsWith(a, v, e)
      ensures a.status.Failed? ==> a.code.NoDenial?
    {
      hide LimiterValid, MayAccess, Accepts, Requests, ApiAllowed, JobTotal, RequestReached, CalledWith, RetriesOf,
           Exchange, Succeeded, EndAfter, Attempt.Passed;
      v := Visit([], [], []);
      var policyId := OrElse(policyOverride, route.policyId);
      var policy := catalogue.GetPolicy(policyId);
      a := Attempt(route.routeId, Blocked, OtherDenial, 0, 0);
      var allowed := CheckApi(route, policyId, url, token);
      if !allowed {
        end := Some(PolicyBlocked);
        ReachedNothing(route, policyOverride, url, token, a, calls);
        return;
      }
      var allowedRate := AllowRateLimitedCall(policy, url);
      v := Visit([Call((policy.id, world.parse(url).Host()), clock.monotonic)], [], []);
      if !allowedRate {
        end := Some(ApiRateLimited);
        ReachedLimiter(route, policyOverride, url, token, a, old(calls), v);
        return;
      }
      ghost var os;
      a, os := CallRoute(route, policy, url, op);
      v := v.(events := Exchange(url, os, policy.retryBackoff));
      ReachedNetwork(route, policyOverride, url, token, a, old(calls), v, os);
      end := EndAfter(a);
      AnswerEnds(a, v);
    }

    /** What a request that was made means for the call: it ends, unless the next route is to be tried. */
    function EndAfter(a: Attempt): Option<ApiEnd> {
      if a.status.SentThrough? then Some(Success)
      else if ShouldTryNextRoute(false, NoDenial, a.statusCode) then None else Some(RequestFailed)
    }

    lemma AnswerEnds(a: Attempt, v: Visit)
      requires a.code.NoDenial? && (a.status.SentThrough? || a.status.Failed?)
      ensures match EndAfter(a)
              case None => a.Passed() && a.status.Failed?
              case Some(e) => EndsWith(a, v, e) && (e.Success? || e.RequestFailed?)
    {
    }

    lemma ApiNotConfigured(route: Route, policyOverride: string, tokenOverride: string, a: Attempt, before: seq<Call>)
      requires catalogue.Valid() && !RouteReadiness(catalogue, world, route, "", tokenOverride).configured
      requires a.status.Unavailable? && a.attempts == 0
      ensures ApiVisit(route, policyOverride, tokenOverride, a, before, Visit([], [], []))
    {
    }

    lemma ApiConfigured(route: Route, policyOverride: string, tokenOverride: string, a: Attempt, before: seq<Call>,
                        v: Visit)
      requires catalogue.Valid() && RouteReadiness(catalogue, world, route, "", tokenOverride).configured
      requires var ready := RouteReadiness(catalogue, world, route, "", tokenOverride);
               var request := world.buildRequest(route, ready.targetUrl);
               request.Some? && RequestReached(route, policyOverride, request.value, ready.authToken, a, before, v)
      ensures ApiVisit(route, policyOverride, tokenOverride, a, before, v)
    {
    }

    lemma ReachedNothing(route: Route, policyOverride: string, url: string, token: string, a: Attempt,
                         before: seq<Call>)
      requires catalogue.Valid() && !ApiAllowed(OrElse(policyOverride, route.policyId), route, url, token)
      requires a.status.Blocked? && a.attempts == 0
      ensures RequestReached(route, policyOverride, url, token, a, before, Visit([], [], []))
    {
    }

    lemma ReachedLimiter(route: Route, policyOverride: string, url: string, token: string, a: Attempt,
                         before: seq<Call>, v: Visit)
      requires catalogue.Valid() && ApiAllowed(OrElse(policyOverride, route.policyId), route, url, token)
      requires InKey(v, CallPolicy(policyOverride, route), url) && !Accepts(before + v.calls, LimitsOf(catalogue))
      requires v.events == [] && a.status.Blocked? && a.attempts == 0
      ensures RequestReached(route, policyOverride, url, token, a, before, v)
    {
    }

    lemma ReachedNetwork(route: Route, policyOverride: string, url: string, token: string, a: Attempt,
                         before: seq<Call>, v: Visit, os: seq<Outcome>)
      requires catalogue.Valid() && ApiAllowed(OrElse(policyOverride, route.policyId), route, url, token)
      requires InKey(v, CallPolicy(policyOverride, route), url) && Accepts(before + v.calls, LimitsOf(catalogue))
      requires CalledWith(a, url, CallPolicy(policyOverride, route), os, v.events)
      ensures RequestReached(route, policyOverride, url, token, a, before, v)
    {
    }

    /** Under a policy that requires approval the source passes no approval at all, so the call is refused. */
    method CheckApi(route: Route, policyId: string, url: string, token: string) returns (allowed: bool)
      requires catalogue.Valid()
      ensures allowed <==> ApiAllowed(policyId, route, url, token)
      ensures allowed ==> !catalogue.GetPolicy(policyId).requireApproval
    {
      var policy := catalogue.GetPolicy(policyId);
      var decision := EvaluateRuntimeAction(catalogue,
                                            Action.ApiCall(Some(policyId), route.targetKind, world.parse(url),
                                                           if policy.requireApproval then "" else "approved",
                                                           token != ""));
      allowed := decision.allowed;
      if route.targetKind !in catalogue.TargetKinds(route.contractId) {
        allowed := false;
      }
    }

    /** The request itself, with its cost entry when it succeeds. */
    method CallRoute(route: Route, policy: GatewayPolicy, url: string, op: string)
      returns (a: Attempt, ghost os: seq<Outcome>)
      requires StateValid()
      modifies network, if state == null then {} else {state}
      ensures StateValid()
      ensures a.routeId == route.routeId && a.code.NoDenial? && (a.status.SentThrough? || a.status.Failed?)
      ensures CalledWith(a, url, policy, os, Exchange(url, os, policy.retryBackoff))
      ensures network.log == old(network.log) + Exchange(url, os, policy.retryBackoff)
      ensures Requests(network.log) == Requests(old(network.log)) + a.attempts
      ensures state != null ==>
                && state.jobs == old(state.jobs) && state.jobWrites == old(state.jobWrites)
                && state.writes == old(state.writes)
                                   + (if a.status.SentThrough? && policy.recordCost
                                      then [CallCharge(op, route.estimatedCost)] else [])
    {
      hide RetriesOf, Exchange, Requests, LastStatus, LastBody, Succeeded;
      var result;
      result, os := ExecuteHttpRequestWithRetry(network, url, policy.maxRetries, policy.retryBackoff);
      SentRequests(old(network.log), url, os, policy.retryBackoff);
      a := Attempt(route.routeId, if result.ok then SentThrough else Failed, NoDenial, result.status, result.attempts);
      if result.ok && policy.recordCost {
        RecordApiCallCost(op, route.estimatedCost);
      }
    }

    method RecordApiJob(op: string, title: string, status: string, outcome: string, metadata: map<string, string>)
      requires StateValid()
      modifies clock, if state == null then {} else {state}
      ensures StateValid() && clock.wall >= old(clock.wall) && clock.monotonic >= old(clock.monotonic)
      ensures state != null ==>
                && state.writes == old(state.writes) + [JobUpdate(op, OPERATE, 0)]
                && Recorded(old(state.jobWrites), state.jobWrites, op, title, status, outcome, metadata)
    {
      clock.Tick();
      if state != null {
        state.RecordProductJob(op, OPERATE, title, status, outcome, 0, metadata, clock.wall);
      }
    }

    function DefaultTitle(providerId: string, capabilityId: string): string {
      "External API call: " + providerId + "/" + capabilityId
    }

    /** The policy an API call uses on a route. */
    function CallPolicy(policyOverride: string, route: Route): GatewayPolicy
      requires catalogue.Valid()
    {
      catalogue.GetPolicy(OrElse(policyOverride, route.policyId))
    }

    /** The route is configured and its request cannot be built. */
    ghost predicate Unbuildable(route: Route, tokenOverride: string)
      requires catalogue.Valid()
    {
      var ready := RouteReadiness(catalogue, world, route, "", tokenOverride);
      ready.configured && world.buildRequest(route, ready.targetUrl).None?
    }

    /** A call ends by its last attempt, unless that gave way: then it ran out of routes, or could not build the request
        for the next one.  Each kind of end has exactly one cause. */
    ghost predicate EndFits(known: bool, routes: seq<Route>, tokenOverride: string, attempted: seq<Attempt>,
                            visits: seq<Visit>, end: ApiEnd)
      requires catalogue.Valid() && |visits| == |attempted| <= |routes|
    {
      var last := |attempted| - 1;
      var gaveWay := attempted == [] || attempted[last].Passed();
      && (end.ProviderNotFound? <==> !known)
      && (end.CapabilityNotFound? <==> known && routes == [])
      && (end.ProviderUnconfigured? <==> known && routes != [] && |attempted| == |routes| && gaveWay)
      && (end.InvalidRequest? <==> known && |attempted| < |routes| && gaveWay)
      && (end.InvalidRequest? ==> Unbuildable(routes[|attempted|], tokenOverride))
      && (end.Success? <==> known && attempted != [] && attempted[last].status.SentThrough?)
      && (end.RequestFailed? <==> known && attempted != [] && attempted[last].status.Failed? && !gaveWay)
      && (end.PolicyBlocked? <==>
          known && attempted != [] && attempted[last].status.Blocked? && visits[last].calls == [])
      && (end.ApiRateLimited? <==>
          known && attempted != [] && attempted[last].status.Blocked? && visits[last].calls != [])
    }

    lemma EndsHere(routes: seq<Route>, tokenOverride: string, attempted: seq<Attempt>, visits: seq<Visit>, end: ApiEnd)
      requires catalogue.Valid() && |visits| == |attempted| <= |routes| && routes != []
      requires if end.InvalidRequest? || end.ProviderUnconfigured?
               then && (attempted != [] ==> attempted[|attempted| - 1].Passed())
                    && (end.InvalidRequest? <==> |attempted| < |routes|)
                    && (end.InvalidRequest? ==> Unbuildable(routes[|attempted|], tokenOverride))
               else && attempted != []
                    && EndsWith(attempted[|attempted| - 1], visits[|visits| - 1], end)
      ensures EndFits(true, routes, tokenOverride, attempted, visits, end)
    {
      hide Unbuildable;
    }

    /** The end that one route's attempt brings about. */
    ghost predicate EndsWith(a: Attempt, v: Visit, end: ApiEnd) {
      match end
      case Success => a.status.SentThrough?
      case RequestFailed => a.status.Failed? && !a.Passed()
      case PolicyBlocked => a.status.Blocked? && v.calls == []
      case ApiRateLimited => a.status.Blocked? && v.calls != []
      case _ => false
    }

    ghost predicate AllRefuse(routes: seq<Route>, policyOverride: string)
      requires catalogue.Valid()
    {
      forall r :: r in routes ==> CallPolicy(policyOverride, r).requireApproval
    }

    /** The charge of a call: the winning route's estimate, if its policy records cost. */
    ghost function CallChargeIf(ok: bool, routes: seq<Route>, attempted: seq<Attempt>, policyOverride: string,
                                op: string): seq<Write>
      requires catalogue.Valid() && |attempted| <= |routes| && (ok ==> attempted != [])
    {
      if ok && CallPolicy(policyOverride, routes[|attempted| - 1]).recordCost
      then [CallCharge(op, routes[|attempted| - 1].estimatedCost)] else []
    }

    /** Calls an API capability over its routes: one "running" record, one terminal record, and at most one charge. */
    method CallApiViaCapability(providerId: string, capabilityId: string, routeId: string, tokenOverride: string,
                                policyOverride: string, jobId: string, hex: string, title: string)
      returns (end: ApiEnd, attempted: seq<Attempt>, ghost routes: seq<Route>, ghost visits: seq<Visit>)
      requires catalogue.Valid() && LimiterValid() && StateValid()
      modifies this, clock, network, if state == null then {} else {state}
      ensures LimiterValid() && StateValid() && clock.wall >= old(clock.wall)
      ensures IsResolved(catalogue, routes, providerId, capabilityId, routeId, OPERATE, "internal")
      ensures FollowsRoutes(routes, attempted, end.Success?)
      // what left the process, and what was put to the limiter, is what the attempted routes did, in order
      ensures ApiVisits(routes, policyOverride, tokenOverride, attempted, old(calls), visits)
      ensures calls == old(calls) + AllCalls(visits) && network.log == old(network.log) + AllEvents(visits)
      ensures FinalAnswersStop(attempted)
      ensures EndFits(providerId in catalogue.providers, routes, tokenOverride, attempted, visits, end)
      ensures Requests(network.log) == Requests(old(network.log)) + TotalAttempts(attempted)
      ensures state != null ==>
                JobLifecycle(old(state.jobWrites), state.jobWrites, if jobId != "" then jobId else "api-" + hex,
                             if title != "" then title else DefaultTitle(providerId, capabilityId),
                             map["provider_id" := providerId, "capability_id" := capabilityId], end)
      ensures state != null ==>
                var op := if jobId != "" then jobId else "api-" + hex;
                var won := |attempted| - 1;
                var charge := if end.Success? && CallPolicy(policyOverride, routes[won]).recordCost
                              then [CallCharge(op, routes[won].estimatedCost)] else [];
                state.writes == old(state.writes) + [JobUpdate(op, OPERATE, 0)] + charge + [JobUpdate(op, OPERATE, 0)]
      ensures AllRefuse(routes, policyOverride) ==> network.log == old(network.log) && !end.Success?
    {
      hide JobTable, DefaultTitle, Recorded, JobLifecycle, RateLimit.Run, InOrder, Requests, IsResolved,
           FollowsRoutes, TotalAttempts, OrElse, Attempt.Passed, EndFits, Unbuildable, ApiVisits, ApiVisit, AllCalls,
           AllEvents, FinalAnswersStop, AllRefuse, CallPolicy, ControlPlaneState.Valid;
      var op := if jobId != "" then jobId else ApiJob(hex);
      var normalized := if title != "" then title else DefaultTitle(providerId, capabilityId);
      RecordApiJob(op, normalized, "running", "",
                   map["provider_id" := providerId, "capability_id" := capabilityId]);
      end, attempted, routes, visits := TryApiRoutes(providerId, capabilityId, routeId, tokenOverride, policyOverride,
                                                     op);
      ghost var running := if state != null then state.jobWrites else [];
      RecordApiJob(op, normalized, end.JobStatus(), end.Outcome(), map[]);
      if state != null {
        TwoRecords(old(state.jobWrites), running, state.jobWrites, op, normalized,
                   map["provider_id" := providerId, "capability_id" := capabilityId], end);
      }
    }

    lemma OneMoreCall(routes: seq<Route>, policyOverride: string, tokenOverride: string, attempted: seq<Attempt>,
                      a: Attempt, before: seq<Call>, vs: seq<Visit>, v: Visit)
      requires catalogue.Valid() && |attempted| < |routes|
      requires ApiVisits(routes, policyOverride, tokenOverride, attempted, before, vs)
      requires ApiVisit(routes[|attempted|], policyOverride, tokenOverride, a, before + AllCalls(vs), v)
      ensures ApiVisits(routes, policyOverride, tokenOverride, attempted + [a], before, vs + [v])
    {
      hide ApiVisit;
      var all, more := attempted + [a], vs + [v];
      assert more[..|vs|] == vs;
      forall i | 0 <= i < |more|
        ensures ApiVisit(routes[i], policyOverride, tokenOverride, all[i], before + AllCalls(more[..i]), more[i])
      {
        if i < |vs| { assert more[..i] == vs[..i] && all[i] == attempted[i] && more[i] == vs[i]; }
      }
    }

    lemma OneMoreFinal(attempted: seq<Attempt>, a: Attempt)
      requires FinalAnswersStop(attempted) && (a.status.Failed? ==> a.code.NoDenial?)
      ensures FinalAnswersStop(attempted + [a])
    {
      assert forall i :: 0 <= i < |attempted| ==> (attempted + [a])[i] == attempted[i];
    }

    lemma NothingCalled(routes: seq<Route>, policyOverride: string, tokenOverride: string, before: seq<Call>)
      requires catalogue.Valid()
      ensures FollowsRoutes(routes, [], false) && TotalAttempts([]) == 0 && FinalAnswersStop([])
      ensures ApiVisits(routes, policyOverride, tokenOverride, [], before, [])
      ensures AllCalls([]) == [] && AllEvents([]) == []
    {
      FollowsNothing(routes);
    }

    method TryApiRoutes(providerId: string, capabilityId: string, routeId: string, tokenOverride: string,
                        policyOverride: string, op: string)
      returns (end: ApiEnd, attempted: seq<Attempt>, ghost routes: seq<Route>, ghost visits: seq<Visit>)
      requires catalogue.Valid() && LimiterValid() && StateValid()
      modifies this, clock, network, if state == null then {} else {state}
      ensures LimiterValid() && StateValid() && clock.wall >= old(clock.wall)
      ensures IsResolved(catalogue, routes, providerId, capabilityId, routeId, OPERATE, "internal")
      ensures FollowsRoutes(routes, attempted, end.Success?)
      ensures ApiVisits(routes, policyOverride, tokenOverride, attempted, old(calls), visits)
      ensures calls == old(calls) + AllCalls(visits) && network.log == old(network.log) + AllEvents(visits)
      ensures FinalAnswersStop(attempted)
      ensures EndFits(providerId in catalogue.providers, routes, tokenOverride, attempted, visits, end)
      ensures Requests(network.log) == Requests(old(network.log)) + TotalAttempts(attempted)
      ensures state != null ==> state.jobWrites == old(state.jobWrites)
      ensures state != null ==>
                state.writes == old(state.writes) + CallChargeIf(end.Success?, routes, attempted, policyOverride, op)
      ensures AllRefuse(routes, policyOverride) ==> network.log == old(network.log) && !end.Success?
    {
      hide LimiterValid, StateValid, Requests, IsResolved, TotalAttempts, ApiVisits, ApiVisit,
           AllCalls, AllEvents, FinalAnswersStop, AllRefuse, OrElse;
      attempted, routes, visits := [], [], [];
      NothingCalled([], policyOverride, tokenOverride, calls);
      if providerId !in catalogue.providers {
        end := ProviderNotFound;
        UnknownProvider(catalogue, providerId, capabilityId, routeId, OPERATE, "internal");
        return;
      }
      var candidates := ResolveRoutes(catalogue, providerId, capabilityId, routeId, OPERATE, "internal");
      routes := candidates;
      NothingCalled(routes, policyOverride, tokenOverride, calls);
      if candidates == [] {
        end := CapabilityNotFound;
        return;
      }
      end, attempted, visits := TryEachRoute(candidates, policyOverride, tokenOverride, op);
      if AllRefuse(routes, policyOverride) {
        RefusedSendsNothing(routes, policyOverride, tokenOverride, attempted, old(calls), visits);
        assert old(network.log) + [] == old(network.log);
      }
    }

    /** The fallback: route after route, until one ends the call. */
    method TryEachRoute(routes: seq<Route>, policyOverride: string, tokenOverride: string, op: string)
      returns (end: ApiEnd, attempted: seq<Attempt>, ghost visits: seq<Visit>)
      requires catalogue.Valid() && LimiterValid() && StateValid() && routes != []
      modifies this, clock, network, if state == null then {} else {state}
      ensures LimiterValid() && StateValid() && clock.wall >= old(clock.wall)
      ensures FollowsRoutes(routes, attempted, end.Success?)
      ensures ApiVisits(routes, policyOverride, tokenOverride, attempted, old(calls), visits)
      ensures calls == old(calls) + AllCalls(visits) && network.log == old(network.log) + AllEvents(visits)
      ensures FinalAnswersStop(attempted) && EndFits(true, routes, tokenOverride, attempted, visits, end)
      ensures Requests(network.log) == Requests(old(network.log)) + TotalAttempts(attempted)
      ensures state != null ==> state.jobWrites == old(state.jobWrites)
      ensures state != null ==>
                state.writes == old(state.writes) + CallChargeIf(end.Success?, routes, attempted, policyOverride, op)
    {
      hide LimiterValid, StateValid, Requests, TotalAttempts, ApiVisits, ApiVisit, AllCalls, AllEvents, AllLookups,
           FinalAnswersStop, OrElse, EndFits, Unbuildable, CallPolicy, Attempt.Passed;
      attempted, visits := [], [];
      NothingCalled(routes, policyOverride, tokenOverride, calls);
      var i := 0;
      while i < |routes|
        invariant i == |attempted| == |visits| <= |routes|
        invariant LimiterValid() && StateValid() && clock.wall >= old(clock.wall)
        invariant FollowsRoutes(routes, attempted, false) && FinalAnswersStop(attempted)
        invariant ApiVisits(routes, policyOverride, tokenOverride, attempted, old(calls), visits)
        invariant calls == old(calls) + AllCalls(visits) && network.log == old(network.log) + AllEvents(visits)
        invariant attempted != [] ==> attempted[|attempted| - 1].Passed()
        invariant Requests(network.log) == Requests(old(network.log)) + TotalAttempts(attempted)
        invariant state != null ==> state.jobWrites == old(state.jobWrites) && state.writes == old(state.writes)
      {
        var a, ended;
        ghost var v;
        a, ended, v := TryApiRoute(routes[i], policyOverride, tokenOverride, op);
        if a.Some? {
          FollowsOneMore(routes, attempted, a.value);
          TotalOneMore(attempted, a.value);
          OneMoreFinal(attempted, a.value);
          OneMoreCall(routes, policyOverride, tokenOverride, attempted, a.value, old(calls), visits, v);
          OneMoreVisit(old(calls), old(network.log), [], visits, v);
          attempted, visits := attempted + [a.value], visits + [v];
        }
        if ended.Some? {
          end := ended.value;
          EndsHere(routes, tokenOverride, attempted, visits, end);
          return;
        }
        i := i + 1;
      }
      end := ProviderUnconfigured;
      EndsHere(routes, tokenOverride, attempted, visits, end);
    }

    /** A route whose policy requires approval sends nothing: an API call never carries one. */
    lemma RefusedSendsNothing(routes: seq<Route>, policyOverride: string, tokenOverride: string,
                              attempted: seq<Attempt>, before: seq<Call>, vs: seq<Visit>)
      requires catalogue.Valid() && AllRefuse(routes, policyOverride)
      requires ApiVisits(routes, policyOverride, tokenOverride, attempted, before, vs)
      ensures AllEvents(vs) == [] && forall i :: 0 <= i < |attempted| ==> !attempted[i].status.SentThrough?
    {
      hide ApiVisit, CallPolicy;
      forall i | 0 <= i < |vs|
        ensures vs[i].events == [] && !attempted[i].status.SentThrough?
      {
        assert routes[i] in routes;
        RefusedRoute(routes[i], policyOverride, tokenOverride, attempted[i], before + AllCalls(vs[..i]), vs[i]);
      }
      Silent(vs);
    }

    lemma {:induction false} Silent(vs: seq<Visit>)
      requires forall i :: 0 <= i < |vs| ==> vs[i].events == []
      ensures AllEvents(vs) == []
    {
      if vs != [] { Silent(vs[..|vs| - 1]); }
    }

    lemma RefusedRoute(route: Route, policyOverride: string, tokenOverride: string, a: Attempt, before: seq<Call>,
                       v: Visit)
      requires catalogue.Valid() && CallPolicy(policyOverride, route).requireApproval
      requires ApiVisit(route, policyOverride, tokenOverride, a, before, v)
      ensures v.events == [] && !a.status.SentThrough?
    {
      hide RouteReadiness, Accepts;
    }
  }

  /** One more record of an API call's job, which continues the job's earlier record. */
  ghost predicate Recorded(before: seq<JobRecord>, after: seq<JobRecord>, op: string, title: string, status: string,
                           outcome: string, metadata: map<string, string>)
  {
    && |after| == |before| + 1 && after[..|before|] == before
    && var w := after[|before|];
       && w.jobId == op && w.kind == OPERATE && w.title == title && w.status == status && w.outcome == outcome
       && w.usage == 0 && Continues(JobTable(before), w, metadata)
  }

  lemma TwoRecords(before: seq<JobRecord>, running: seq<JobRecord>, after: seq<JobRecord>, op: string, title: string,
                   metadata: map<string, string>, end: ApiEnd)
    requires Recorded(before, running, op, title, "running", "", metadata)
    requires Recorded(running, after, op, title, end.JobStatus(), end.Outcome(), map[])
    ensures JobLifecycle(before, after, op, title, metadata, end)
  {
    hide Continues, JobTable, ApiEnd.Outcome;
    assert running == before + [running[|before|]];
  }

  /** The two job records of a returning API call. */
  ghost predicate JobLifecycle(before: seq<JobRecord>, after: seq<JobRecord>, op: string, title: string,
                               metadata: map<string, string>, end: ApiEnd)
  {
    && |after| == |before| + 2 && after[..|before|] == before
    && var running, terminal := after[|before|], after[|before| + 1];
       && running.jobId == terminal.jobId == op && running.kind == terminal.kind == OPERATE
       && running.status == "running" && running.title == terminal.title == title
       && running.usage == terminal.usage == 0
       && Continues(JobTable(before), running, metadata) && Continues(JobTable(before + [running]), terminal, map[])
       && terminal.status == end.JobStatus() && terminal.outcome == end.Outcome()
       && terminal.status == (if end.Success? then "completed" else if end.RequestFailed? then "failed" else "blocked")
  }
}
