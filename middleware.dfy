/**
 * The request-side rules of `rate_limit.py`: where the tenant and the client identifiers
 * come from, and the decisions of `RateLimitMiddleware.dispatch`, `_apply_headers` and
 * `_reject`.
 *
 * A request is reduced to the few strings these rules read; `x or y` on optional strings
 * is `Or`.
 */
module Middleware {
  import opened Wrappers
  import opened Text
  import opened RateLimit
  import opened LimitFormat

  /** What the rules read of an incoming request. `clientHost` is `None` when
      `request.client` is `None`. */
  datatype Request = Request(
    path: string,
    httpMethod: string,
    tenantHeader: Option<string>,   // header `x-tenant-id`
    forwardedFor: Option<string>,   // header `x-forwarded-for`
    contentType: Option<string>,    // header `content-type`
    pathTenant: Option<string>,     // path parameter `tenant_id`
    queryTenant: Option<string>,    // query parameter `tenant_id`
    clientHost: Option<string>)

  /** The request body as `request.json()` sees it: a JSON object with its `tenant_id`
      entry, some other JSON value, or a body that does not parse. A string entry is kept as
      it is; a missing entry, `null` and the other falsy values (`0`, `false`, `[]`, `{}`) are
      `None`, and any other value is its `str` form. */
  datatype Body = BodyObject(tenantId: Option<string>) | BodyOther | BodyUnreadable

  /** Python's `a or b`. */
  function Or(a: Option<string>, b: Option<string>): Option<string> {
    if Truthy(a) then a else b
  }

  /** `_extract_tenant_id_hint`: the header wins over the path parameter, which wins over the
      query parameter; an empty value counts as absent, but when all three are absent or
      empty the query parameter is returned as it is. */
  function ExtractTenantIdHint(req: Request): (r: Option<string>)
    ensures Truthy(req.tenantHeader) ==> r == req.tenantHeader
    ensures !Truthy(req.tenantHeader) && Truthy(req.pathTenant) ==> r == req.pathTenant
    ensures !Truthy(req.tenantHeader) && !Truthy(req.pathTenant) ==> r == req.queryTenant
    ensures Truthy(r) <==> Truthy(req.tenantHeader) || Truthy(req.pathTenant) || Truthy(req.queryTenant)
  {
    Or(Or(req.tenantHeader, req.pathTenant), req.queryTenant)
  }

  /** `_get_ip_identifier`: the first hop of `x-forwarded-for`, trimmed, or else the
      client host, or else `"unknown"`, always behind `"ip:"`. */
  function IpIdentifier(req: Request): (r: string)
    ensures IsPrefix("ip:", r)
    ensures Truthy(req.forwardedFor) ==>
      var hop := r[3..];
      && ',' !in hop
      && (hop != [] ==> !IsSpace(hop[0]) && !IsSpace(hop[|hop| - 1]))
    ensures !Truthy(req.forwardedFor) && req.clientHost.Some? ==> r == "ip:" + req.clientHost.value
    ensures !Truthy(req.forwardedFor) && req.clientHost.None? ==> r == "ip:unknown"
  {
    if Truthy(req.forwardedFor) then
      var hop := Strip(BeforeFirst(req.forwardedFor.value, ','));
      StripWithout(BeforeFirst(req.forwardedFor.value, ','), ',');
      assert ("ip:" + hop)[3..] == hop;
      "ip:" + hop
    else if req.clientHost.Some? then "ip:" + req.clientHost.value
    else "ip:unknown"
  }

  /** `strip` only removes characters, so a character absent before is absent after. */
  lemma StripWithout(s: string, c: char)
    requires c !in s
    ensures c !in Strip(s)
  {
    var r := Strip(s);
    var i: nat :| TrimmedAt(s, r, i);
    forall j | 0 <= j < |r|
      ensures r[j] != c
    {
      assert r[j] == s[i + j];
    }
  }

  /** The first hop of `x-forwarded-for` is the text before its first comma, trimmed. */
  lemma ForwardedFirstHop(req: Request, hop: string, more: string)
    requires ',' !in hop
    requires req.forwardedFor == Some(hop + "," + more)
    ensures IpIdentifier(req) == "ip:" + Strip(hop)
  {
    var ff := hop + "," + more;
    var b := BeforeFirst(ff, ',');
    assert forall i :: 0 <= i < |hop| ==> ff[i] == hop[i] && ff[i] != ',';
    assert ff[|hop|] == ',';
    assert forall i :: 0 <= i < |b| ==> b[i] == ff[i] && ff[i] != ',';
    assert |b| == |hop|;
    assert b == ff[..|hop|] == hop;
  }

  /** A header naming a single address yields that address, trimmed. */
  lemma ForwardedSingleHop(req: Request, hop: string)
    requires ',' !in hop && hop != ""
    requires req.forwardedFor == Some(hop)
    ensures IpIdentifier(req) == "ip:" + Strip(hop)
  {
    var b := BeforeFirst(hop, ',');
    assert b == hop[..|b|];
    assert |b| == |hop|;
    assert b == hop;
  }

  /** A header whose first hop is blank yields the bare `"ip:"`, so such clients share one
      global bucket whatever addresses follow. */
  lemma BlankFirstHopsShareBucket(r1: Request, r2: Request)
    requires r1.forwardedFor == Some(", 1.1.1.1") && r2.forwardedFor == Some(" ,2.2.2.2")
    ensures IpIdentifier(r1) == IpIdentifier(r2) == "ip:"
  {
    assert ", 1.1.1.1" == "" + "," + " 1.1.1.1";
    ForwardedFirstHop(r1, "", " 1.1.1.1");
    assert " ,2.2.2.2" == " " + "," + "2.2.2.2";
    ForwardedFirstHop(r2, " ", "2.2.2.2");
    assert Strip("") == "";
    assert Strip(" ") == "" by {
      var i: nat :| TrimmedAt(" ", Strip(" "), i);
    }
  }

  /** `get_client_identifier`: a tenant id when the request names one, the client's address
      otherwise; the two kinds of identifier are told apart by their prefix. */
  function GetClientIdentifier(req: Request): (r: string)
    ensures IsPrefix("tenant:", r) <==> Truthy(ExtractTenantIdHint(req))
    ensures Truthy(ExtractTenantIdHint(req)) ==> r[7..] == ExtractTenantIdHint(req).value
    ensures !Truthy(ExtractTenantIdHint(req)) ==> r == IpIdentifier(req)
  {
    var hint := ExtractTenantIdHint(req);
    if Truthy(hint) then
      assert ("tenant:" + hint.value)[..7] == "tenant:";
      "tenant:" + hint.value
    else
      var ip := IpIdentifier(req);
      assert ip[0] == 'i';
      ip
  }

  /** The methods whose JSON body may carry the tenant id. */
  predicate HasJsonBody(req: Request) {
    && req.httpMethod in {"POST", "PUT", "PATCH"}
    && IsPrefix("application/json", if req.contentType.Some? then req.contentType.value else "")
  }

  /** `_resolve_tenant_id`: the hint when it is truthy; otherwise, for a JSON request, the
      body's `tenant_id` (nothing when the body does not parse); otherwise the hint as it is. */
  function ResolveTenantId(req: Request, body: Body): (r: Option<string>)
    ensures Truthy(ExtractTenantIdHint(req)) ==> r == ExtractTenantIdHint(req)
    ensures !Truthy(ExtractTenantIdHint(req)) && HasJsonBody(req) && body.BodyObject? ==> r == body.tenantId
    ensures !Truthy(ExtractTenantIdHint(req)) && HasJsonBody(req) && body.BodyUnreadable? ==> r == None
    ensures !HasJsonBody(req) || body.BodyOther? ==> r == ExtractTenantIdHint(req)
  {
    var hint := ExtractTenantIdHint(req);
    if Truthy(hint) then hint
    else if HasJsonBody(req) then
      match body
      case BodyObject(t) => t
      case BodyOther => hint
      case BodyUnreadable => None
    else hint
  }

  /** The paths `dispatch` lets through without consulting the limiter. */
  function IsExempt(path: string): (r: bool)
    ensures r ==> !IsPrefix("/v1/", path) || IsPrefix("/v1/admin/", path)
  {
    var r := path in ["/v1/admin/health", "/v1/admin/readiness", "/metrics", "/docs", "/openapi.json"];
    assert "/v1/admin/health"[..10] == "/v1/admin/" && "/v1/admin/readiness"[..10] == "/v1/admin/";
    assert "/metrics"[1] != 'v' && "/docs"[1] != 'v' && "/openapi.json"[1] != 'v';
    r
  }

  /** `max(0, amount - count)`: the quota left, never negative. */
  function Remaining(amount: int, count: int): (r: nat)
    ensures r >= amount - count
    ensures r == 0 || r == amount - count
  {
    if amount - count > 0 then amount - count else 0
  }

  /** `reset_epoch_ms // 1000`: the reset time in whole seconds, rounded down. */
  function ResetSeconds(resetEpochMs: int): (r: int)
    ensures r * 1000 <= resetEpochMs < r * 1000 + 1000
  {
    resetEpochMs / 1000
  }

  /** `max(1, int(reset_epoch_ms / 1000 - now))`: the whole seconds until the reset, rounded
      toward zero as `int` does, and at least one. */
  function RetryAfter(resetEpochMs: int, now: int): (r: int)
    ensures r >= 1
    ensures resetEpochMs - now * 1000 >= 1000 ==>
      r * 1000 <= resetEpochMs - now * 1000 < r * 1000 + 1000
    ensures resetEpochMs - now * 1000 < 2000 ==> r == 1
  {
    var ms := resetEpochMs - now * 1000;
    var truncated := if ms >= 0 then ms / 1000 else -((-ms) / 1000);
    if truncated > 1 then truncated else 1
  }

  datatype Scope = Global | Tenant

  /** The `detail` of a 429 response. */
  function Detail(scope: Scope, tenantId: Option<string>, limitStr: string): (r: string)
    ensures scope == Tenant ==>
      r == "Tenant rate limit exceeded for " + (if tenantId.Some? then tenantId.value else "None") + ": " + limitStr
    ensures scope == Global ==> r == "Rate limit exceeded: " + limitStr
  {
    match scope
    case Tenant =>
      "Tenant rate limit exceeded for " + (if tenantId.Some? then tenantId.value else "None") + ": " + limitStr
    case Global => "Rate limit exceeded: " + limitStr
  }

  /** The 429 response `_reject` builds (its `Retry-After` header is `retryAfter`). */
  datatype Rejection = Rejection(scope: Scope, detail: string, retryAfter: int)

  function Reject(limitStr: string, scope: Scope, tenantId: Option<string>, resetEpochMs: int, now: int)
    : (r: Rejection)
    ensures r.scope == scope && r.retryAfter >= 1
    ensures r.detail == Detail(scope, tenantId, limitStr)
  {
    Rejection(scope, Detail(scope, tenantId, limitStr), RetryAfter(resetEpochMs, now))
  }

  /** The two limits of a middleware, as written and as parsed. */
  datatype Limits = Limits(globalStr: string, tenantStr: string, global: RateLimitConfig, tenant: RateLimitConfig)

  /** The headers `_apply_headers` sets: the global quota always, the tenant quota when
      there was a tenant hit. */
  function RateLimitHeaders(limits: Limits, global: RateLimitResult, tenant: Option<RateLimitResult>)
    : (h: seq<(string, string)>)
    ensures |h| == if tenant.Some? then 6 else 3
    ensures h[0] == ("X-RateLimit-Limit", IntToString(limits.global.amount))
    ensures h[1] == ("X-RateLimit-Remaining", NatToString(Remaining(limits.global.amount, global.count)))
    ensures h[2] == ("X-RateLimit-Reset", IntToString(ResetSeconds(global.resetEpochMs)))
    ensures tenant.Some? ==>
      && h[3] == ("X-RateLimit-Tenant-Limit", IntToString(limits.tenant.amount))
      && h[4] == ("X-RateLimit-Tenant-Remaining", NatToString(Remaining(limits.tenant.amount, tenant.value.count)))
      && h[5] == ("X-RateLimit-Tenant-Reset", IntToString(ResetSeconds(tenant.value.resetEpochMs)))
  {
    var g := [
      ("X-RateLimit-Limit", IntToString(limits.global.amount)),
      ("X-RateLimit-Remaining", NatToString(Remaining(limits.global.amount, global.count))),
      ("X-RateLimit-Reset", IntToString(ResetSeconds(global.resetEpochMs)))];
    match tenant
    case None => g
    case Some(t) =>
      g + [
        ("X-RateLimit-Tenant-Limit", IntToString(limits.tenant.amount)),
        ("X-RateLimit-Tenant-Remaining", NatToString(Remaining(limits.tenant.amount, t.count))),
        ("X-RateLimit-Tenant-Reset", IntToString(ResetSeconds(t.resetEpochMs)))]
  }

  /** What `dispatch` does with a request: pass it through untouched, refuse it, or pass it
      on with the quota headers. */
  datatype Outcome =
    | Exempted
    | Rejected(rejection: Rejection)
    | Forwarded(global: RateLimitResult, tenant: Option<RateLimitResult>, headers: seq<(string, string)>)

  /** The tenant identifier `dispatch` hits the tenant limit with, when there is one. */
  function TenantIdentifier(tenantId: Option<string>): Option<string> {
    if Truthy(tenantId) then Some("tenant:" + tenantId.value) else None
  }

  /** `dispatch` on the limiter's windows: its outcome and the windows afterwards. */
  function Dispatched(limits: Limits, windows: map<string, seq<int>>, req: Request, body: Body, now: int)
    : (r: (Outcome, map<string, seq<int>>))
    ensures r.0.Exempted? <==> IsExempt(req.path)
    ensures r.0.Exempted? ==> r.1 == windows
    ensures !r.0.Exempted? ==> windows.Keys + {Key(limits.global, IpIdentifier(req))} <= r.1.Keys
    ensures r.0.Rejected? ==> r.0.rejection.retryAfter >= 1
  {
    if IsExempt(req.path) then (Exempted, windows)
    else
      var tenantId := ResolveTenantId(req, body);
      var globalId := IpIdentifier(req);
      var g := HitResult(windows, limits.global, globalId, now);
      var afterGlobal := HitState(windows, limits.global, globalId, now);
      if !g.allowed then
        (Rejected(Reject(limits.globalStr, Global, None, g.resetEpochMs, now)), afterGlobal)
      else if Truthy(tenantId) then
        var tenantKey := "tenant:" + tenantId.value;
        var t := HitResult(afterGlobal, limits.tenant, tenantKey, now);
        var afterTenant := HitState(afterGlobal, limits.tenant, tenantKey, now);
        if !t.allowed then
          (Rejected(Reject(limits.tenantStr, Tenant, tenantId, t.resetEpochMs, now)), afterTenant)
        else (Forwarded(g, Some(t), RateLimitHeaders(limits, g, Some(t))), afterTenant)
      else (Forwarded(g, None, RateLimitHeaders(limits, g, None)), afterGlobal)
  }

  /** The global (address) key and the tenant key of a request never share a window. */
  lemma GlobalAndTenantKeysDistinct(limits: Limits, req: Request, tenantId: string)
    ensures Key(limits.global, IpIdentifier(req)) != Key(limits.tenant, "tenant:" + tenantId)
  {
    var ip, tk := IpIdentifier(req), "tenant:" + tenantId;
    assert ip[0] == 'i' && tk[0] == 't';
    if Key(limits.global, ip) == Key(limits.tenant, tk) {
      KeyInjective(limits.global, ip, limits.tenant, tk);
    }
  }

  /** Exempt paths never touch the limiter and get no headers. */
  lemma ExemptNeverHits(limits: Limits, windows: map<string, seq<int>>, req: Request, body: Body, now: int)
    requires IsExempt(req.path)
    ensures Dispatched(limits, windows, req, body, now) == (Exempted, windows)
  {
  }

  /** The tenant limit is consulted only after the global hit was allowed: a refused global
      hit changes the global key's window and nothing else. */
  lemma TenantOnlyAfterGlobal(limits: Limits, windows: map<string, seq<int>>, req: Request, body: Body, now: int)
    requires !IsExempt(req.path)
    requires !HitResult(windows, limits.global, IpIdentifier(req), now).allowed
    ensures var (o, after) := Dispatched(limits, windows, req, body, now);
      && o.Rejected? && o.rejection.scope == Global
      && forall k :: k != Key(limits.global, IpIdentifier(req)) ==> WindowIn(after, k) == WindowIn(windows, k)
  {
  }

  /** A forwarded request passed every limit it was checked against, and was checked against
      the tenant limit exactly when it names a tenant. */
  lemma ForwardedPassedLimits(limits: Limits, windows: map<string, seq<int>>, req: Request, body: Body, now: int)
    requires Dispatched(limits, windows, req, body, now).0.Forwarded?
    ensures var o := Dispatched(limits, windows, req, body, now).0;
      && o.global.allowed
      && o.global.count <= limits.global.amount
      && (o.tenant.Some? <==> Truthy(ResolveTenantId(req, body)))
      && (o.tenant.Some? ==> o.tenant.value.allowed && o.tenant.value.count <= limits.tenant.amount)
  {
    var tenantId := ResolveTenantId(req, body);
    var globalId := IpIdentifier(req);
    var g := HitResult(windows, limits.global, globalId, now);
    assert !IsExempt(req.path) && g.allowed;
    var o := Dispatched(limits, windows, req, body, now).0;
    if Truthy(tenantId) {
      var afterGlobal := HitState(windows, limits.global, globalId, now);
      var t := HitResult(afterGlobal, limits.tenant, "tenant:" + tenantId.value, now);
      assert t.allowed;
      assert o == Forwarded(g, Some(t), RateLimitHeaders(limits, g, Some(t)));
    } else {
      assert o == Forwarded(g, None, RateLimitHeaders(limits, g, None));
    }
  }

  /** When both hits happen, each lands on its own key: the tenant hit leaves the global
      window as the global hit left it. */
  lemma BothHitsRecorded(limits: Limits, windows: map<string, seq<int>>, req: Request, body: Body, now: int)
    requires !IsExempt(req.path)
    requires HitResult(windows, limits.global, IpIdentifier(req), now).allowed
    requires Truthy(ResolveTenantId(req, body))
    ensures var after := Dispatched(limits, windows, req, body, now).1;
      var gk := Key(limits.global, IpIdentifier(req));
      WindowIn(after, gk) == WindowAfterHit(WindowIn(windows, gk), limits.global, now)
  {
    var tenantKey := "tenant:" + ResolveTenantId(req, body).value;
    GlobalAndTenantKeysDistinct(limits, req, ResolveTenantId(req, body).value);
  }

  /** `RateLimitMiddleware`: the two limits it enforces and the limiter it shares. */
  class RateLimitMiddleware {
    const limits: Limits
    const limiter: InMemoryRateLimiter

    constructor (limits: Limits, limiter: InMemoryRateLimiter)
      ensures this.limits == limits && this.limiter == limiter
    {
      this.limits := limits;
      this.limiter := limiter;
    }

    /** `__init__`: parse both limit strings (the global one first), failing with the
        parser's `ValueError` message. */
    static method Create(globalStr: string, tenantStr: string, limiter: InMemoryRateLimiter)
      returns (r: Result<RateLimitMiddleware, string>)
      ensures r.Ok? <==> ParseLimit(globalStr).Ok? && ParseLimit(tenantStr).Ok?
      ensures ParseLimit(globalStr).Err? ==> r == Err(ParseLimit(globalStr).error)
      ensures ParseLimit(globalStr).Ok? && ParseLimit(tenantStr).Err? ==> r == Err(ParseLimit(tenantStr).error)
      ensures r.Ok? ==>
        && r.value.limits == Limits(globalStr, tenantStr, ParseLimit(globalStr).value, ParseLimit(tenantStr).value)
        && r.value.limiter == limiter
    {
      var g := ParseLimit(globalStr);
      if g.Err? {
        return Err(g.error);
      }
      var t := ParseLimit(tenantStr);
      if t.Err? {
        return Err(t.error);
      }
      var m := new RateLimitMiddleware(Limits(globalStr, tenantStr, g.value, t.value), limiter);
      r := Ok(m);
    }

    /** `dispatch`: exempt paths pass untouched; otherwise hit the global limit for the
        client's address and, only if that passed and the request names a tenant, the
        tenant limit; refuse at the first limit exceeded, or forward with the headers. */
    method Dispatch(req: Request, body: Body, now: int) returns (o: Outcome)
      modifies limiter
      ensures (o, limiter.windows) == Dispatched(limits, old(limiter.windows), req, body, now)
    {
      if IsExempt(req.path) {
        return Exempted;
      }
      var tenantId := ResolveTenantId(req, body);
      var globalId := IpIdentifier(req);
      var tenantIdentifier := TenantIdentifier(tenantId);
      var g := limiter.Hit(limits.global, globalId, now);
      if !g.allowed {
        return Rejected(Reject(limits.globalStr, Global, None, g.resetEpochMs, now));
      }
      var tenantState: Option<RateLimitResult> := None;
      if tenantIdentifier.Some? {
        var t := limiter.Hit(limits.tenant, tenantIdentifier.value, now);
        if !t.allowed {
          return Rejected(Reject(limits.tenantStr, Tenant, tenantId, t.resetEpochMs, now));
        }
        tenantState := Some(t);
      }
      o := Forwarded(g, tenantState, RateLimitHeaders(limits, g, tenantState));
    }
  }
}
