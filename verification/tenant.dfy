/**
 * Tenant information and its transport in a request context
 * (pkg/tenant/context.go). A Go `context.Context` is modelled as the map from
 * this package's two keys to the value most recently stored under each; keys
 * of other packages have other types and can never collide with them.
 */
module Tenant {
  import opened Common

  /** `24 * time.Hour`, in seconds. */
  const DefaultLifetime: int := 86400

  datatype TenantInfo = TenantInfo(
    tenantId: int,
    userToken: string,
    orgId: string,
    projectUuid: string,
    permissions: seq<string>,
    metadata: map<string, string>,
    createdAt: Instant,
    expiresAt: Instant)

  /** `TenantContextKey` and `RequestIDContextKey`. */
  datatype ContextKey = TenantContextKey | RequestIDContextKey

  /** A value stored in a context: a `*TenantInfo` or a `string`. */
  datatype ContextValue = TenantRef(info: TenantInfo) | Text(text: string)

  type Context = map<ContextKey, ContextValue>

  datatype TenantError = TenantNotFound | TenantInvalidOrExpired

  /** `IsValid` at time `now`: an identified tenant with a token, not past a set expiry. */
  predicate IsValid(ti: TenantInfo, now: Instant): (valid: bool)
    ensures valid ==> ti.tenantId != 0 && ti.userToken != ""
    ensures valid && ti.expiresAt != ZeroTime ==> now <= ti.expiresAt
    ensures ti.tenantId != 0 && ti.userToken != "" && ti.expiresAt == ZeroTime ==> valid
  {
    if ti.tenantId == 0 || ti.userToken == "" then false
    else if ti.expiresAt != ZeroTime && now > ti.expiresAt then false
    else true
  }

  /** `NewTenantInfo` at time `now`. */
  function NewTenantInfo(tenantId: int, userToken: string, projectUuid: string, now: Instant): (ti: TenantInfo)
    ensures ti.tenantId == tenantId && ti.userToken == userToken && ti.projectUuid == projectUuid
    ensures ti.permissions == [] && ti.orgId == "" && ti.metadata == map[]
    ensures ti.createdAt == now && ti.expiresAt - ti.createdAt == DefaultLifetime
  {
    TenantInfo(tenantId, userToken, "", projectUuid, [], map[], now, now + DefaultLifetime)
  }

  /** `WithTenant`: the tenant is stored under its key; every other entry is kept. */
  function WithTenant(ctx: Context, ti: TenantInfo): (r: Context)
    ensures r.Keys == ctx.Keys + {TenantContextKey} && r[TenantContextKey] == TenantRef(ti)
    ensures forall k | k in ctx && k != TenantContextKey :: r[k] == ctx[k]
  {
    ctx[TenantContextKey := TenantRef(ti)]
  }

  /** `WithRequestID`: the id is stored under its key; every other entry is kept. */
  function WithRequestID(ctx: Context, requestId: string): (r: Context)
    ensures r.Keys == ctx.Keys + {RequestIDContextKey} && r[RequestIDContextKey] == Text(requestId)
    ensures forall k | k in ctx && k != RequestIDContextKey :: r[k] == ctx[k]
  {
    ctx[RequestIDContextKey := Text(requestId)]
  }

  /** `GetTenantFromContext` at time `now`. */
  function GetTenantFromContext(ctx: Context, now: Instant): (r: Result<TenantInfo, TenantError>)
    ensures r.Ok? ==> IsValid(r.value, now)
    ensures r == Err(TenantNotFound) <==> TenantContextKey !in ctx || !ctx[TenantContextKey].TenantRef?
    ensures r.Ok? ==> ctx[TenantContextKey] == TenantRef(r.value)
  {
    if TenantContextKey in ctx && ctx[TenantContextKey].TenantRef? then
      var ti := ctx[TenantContextKey].info;
      if !IsValid(ti, now) then Err(TenantInvalidOrExpired) else Ok(ti)
    else Err(TenantNotFound)
  }

  /** `GetRequestIDFromContext`: the stored string, or "" when there is none. */
  function GetRequestIDFromContext(ctx: Context): (id: string)
    ensures id != "" ==> RequestIDContextKey in ctx && ctx[RequestIDContextKey] == Text(id)
  {
    if RequestIDContextKey in ctx && ctx[RequestIDContextKey].Text? then ctx[RequestIDContextKey].text else ""
  }

  /** Either missing identity field makes a tenant invalid at every time. */
  lemma MissingIdentityIsInvalid(ti: TenantInfo, now: Instant)
    requires ti.tenantId == 0 || ti.userToken == ""
    ensures !IsValid(ti, now)
  {
  }

  /** A tenant with identity is valid exactly while it has no expiry or has not passed it. */
  lemma ValidityFollowsExpiry(ti: TenantInfo, now: Instant)
    requires ti.tenantId != 0 && ti.userToken != ""
    ensures IsValid(ti, now) <==> ti.expiresAt == ZeroTime || now <= ti.expiresAt
  {
  }

  /** A new tenant with identity stays valid for its first 24 hours and expires after them. */
  lemma NewTenantLifetime(tenantId: int, userToken: string, projectUuid: string, created: Instant, now: Instant)
    requires tenantId != 0 && userToken != ""
    requires created > ZeroTime
    ensures IsValid(NewTenantInfo(tenantId, userToken, projectUuid, created), now) <==> now <= created + DefaultLifetime
  {
  }

  /** A valid tenant stored in a context is read back unchanged. */
  lemma TenantRoundTrip(ctx: Context, ti: TenantInfo, now: Instant)
    requires IsValid(ti, now)
    ensures GetTenantFromContext(WithTenant(ctx, ti), now) == Ok(ti)
  {
  }

  /** An invalid tenant stored in a context is refused, not returned. */
  lemma InvalidTenantRefused(ctx: Context, ti: TenantInfo, now: Instant)
    requires !IsValid(ti, now)
    ensures GetTenantFromContext(WithTenant(ctx, ti), now) == Err(TenantInvalidOrExpired)
  {
  }

  /** A stored request id is read back unchanged, and a context without one yields "". */
  lemma RequestIdRoundTrip(ctx: Context, id: string)
    ensures GetRequestIDFromContext(WithRequestID(ctx, id)) == id
    ensures RequestIDContextKey !in ctx ==> GetRequestIDFromContext(ctx) == ""
  {
  }

  /** The two keys are distinct: storing under one never changes what the other reads. */
  lemma KeysAreIndependent(ctx: Context, ti: TenantInfo, id: string, now: Instant)
    ensures GetRequestIDFromContext(WithTenant(ctx, ti)) == GetRequestIDFromContext(ctx)
    ensures GetTenantFromContext(WithRequestID(ctx, id), now) == GetTenantFromContext(ctx, now)
  {
  }
}
