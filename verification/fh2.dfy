/**
 * The FlightHub 2 adapter of plugin/plugins/fh2.go: the request envelope
 * built from the tenant in the request context, the acceptance checks on the
 * response, and the validate-before-request pattern of the endpoints.
 *
 * Inputs stand for what the model cannot see: `url.Parse` of the endpoint URL
 * (a parsed URL or None), `uuid.New().String()` (a fresh identifier), the
 * outcome of the transport (a response, whose body is None when reading it
 * fails), and `json.Unmarshal` of a body into the response envelope (a
 * function from body to envelope, None when decoding fails).
 */
module Fh2 {
  import opened Common
  import opened Tenant
  import opened UrlQuery
  import opened Validator
  import opened SecureClient

  /** The adapter's own `TenantInfo`. */
  datatype Fh2TenantInfo = Fh2TenantInfo(xUserToken: string, projectUuid: string, tenantId: int)

  /** The `code` and `message` of `APIResponse`; `data` is never inspected. */
  datatype Envelope = Envelope(code: int, message: string)

  /** A transport response: its status code and its body, or None when reading the body fails. */
  datatype HttpResponse = HttpResponse(statusCode: int, body: Option<string>)

  datatype Fh2Error =
    | NoTenant(cause: TenantError)
    | RequestFailed(client: ClientError)
    | BadStatus(statusCode: int)
    | ReadFailed
    | DecodeFailed(raw: string)
    | ApiError(code: int, message: string)
    | InvalidInput(invalid: ValidationError)

  const UserTokenHeader := "X-User-Token"
  const RequestIdHeader := "X-Request-Id"
  const LanguageHeader := "X-Language"
  const ProjectUuidHeader := "X-Project-Uuid"
  const Language := "zh"

  // ---------------------------------------------------------------------------
  // Response acceptance (doRequestWithHeaders after the transport)

  /**
   * The checks on a response: the status must be 2xx, the body must be read
   * and decode into the envelope, and the business code must not be positive.
   * An accepted response yields its raw body.
   */
  function CheckResponse(resp: HttpResponse, decode: string -> Option<Envelope>): (r: Result<string, Fh2Error>)
    ensures r.Ok? <==> 200 <= resp.statusCode < 300 && resp.body.Some? &&
                       decode(resp.body.value).Some? && decode(resp.body.value).value.code <= 0
    ensures r.Ok? ==> r.value == resp.body.value
    ensures !(200 <= resp.statusCode < 300) ==> r == Err(BadStatus(resp.statusCode))
    ensures 200 <= resp.statusCode < 300 && resp.body.Some? && decode(resp.body.value).Some? &&
            decode(resp.body.value).value.code > 0 ==>
              r == Err(ApiError(decode(resp.body.value).value.code, decode(resp.body.value).value.message))
  {
    if resp.statusCode < 200 || resp.statusCode >= 300 then Err(BadStatus(resp.statusCode))
    else match resp.body
      case None => Err(ReadFailed)
      case Some(bytes) =>
        match decode(bytes)
        case None => Err(DecodeFailed(bytes))
        case Some(envelope) =>
          if envelope.code > 0 then Err(ApiError(envelope.code, envelope.message)) else Ok(bytes)
  }

  /** A status outside 2xx is reported before the body is looked at: the decoder plays no part. */
  lemma StatusCheckedBeforeBody(resp: HttpResponse, d1: string -> Option<Envelope>, d2: string -> Option<Envelope>)
    requires !(200 <= resp.statusCode < 300)
    ensures CheckResponse(resp, d1) == CheckResponse(resp, d2)
  {
  }

  /** A 2xx response whose envelope carries code 5001 is refused with that code and message. */
  lemma BusinessErrorRefused(body: string)
    ensures CheckResponse(HttpResponse(200, Some(body)), _ => Some(Envelope(5001, "quota exceeded"))) ==
              Err(ApiError(5001, "quota exceeded"))
    ensures CheckResponse(HttpResponse(200, Some(body)), _ => Some(Envelope(-1, "ok"))) == Ok(body)
  {
  }

  /** `doRequestWithHeaders`: the secure client's request, then the response checks. */
  method DoRequestWithHeaders(verb: string, parsed: Option<ParsedUrl>, headers: map<string, string>,
                              transport: Option<HttpResponse>, decode: string -> Option<Envelope>)
    returns (r: Result<string, Fh2Error>, sent: Option<Request>)
    ensures sent.Some? <==> ValidateURL(parsed).Pass? && ValidMethod(verb) &&
                            forall k | k in headers :: ValidateHeader(k, headers[k]).Pass?
    ensures sent.None? ==> r.Err? && r.error.RequestFailed?
    ensures sent.Some? ==> sent.value.url == parsed.value && sent.value.verb == (if verb == "" then "GET" else verb)
    ensures sent.Some? && transport.None? ==> r == Err(RequestFailed(TransportFailed))
    ensures sent.Some? && transport.Some? ==> r == CheckResponse(transport.value, decode)
    ensures sent.Some? && (forall k | k in headers :: CanonicalHeaderKey(k) == k) ==>
              sent.value.header == headers[UserAgentKey := UserAgentValue][AcceptKey := AcceptValue]
  {
    var resp;
    resp, sent := DoRequest(verb, parsed, headers, transport);
    if resp.Err? {
      return Err(RequestFailed(resp.error)), sent;
    }
    r := CheckResponse(resp.value, decode);
  }

  // ---------------------------------------------------------------------------
  // Header keys

  lemma UserTokenHeaderCanonical()
    ensures CanonicalHeaderKey(UserTokenHeader) == UserTokenHeader
  {
    assert AllTokenChars(UserTokenHeader);
    assert CaseFixed(UserTokenHeader, true) by {
      forall i | 0 <= i < |UserTokenHeader| ensures StartsWord(UserTokenHeader, i, true) == (i in {0, 2, 7}) { }
    }
    CanonicalFormIsFixed(UserTokenHeader);
  }

  lemma RequestIdHeaderCanonical()
    ensures CanonicalHeaderKey(RequestIdHeader) == RequestIdHeader
  {
    assert AllTokenChars(RequestIdHeader);
    assert CaseFixed(RequestIdHeader, true) by {
      forall i | 0 <= i < |RequestIdHeader| ensures StartsWord(RequestIdHeader, i, true) == (i in {0, 2, 10}) { }
    }
    CanonicalFormIsFixed(RequestIdHeader);
  }

  lemma LanguageHeaderCanonical()
    ensures CanonicalHeaderKey(LanguageHeader) == LanguageHeader
  {
    assert AllTokenChars(LanguageHeader);
    assert CaseFixed(LanguageHeader, true) by {
      forall i | 0 <= i < |LanguageHeader| ensures StartsWord(LanguageHeader, i, true) == (i in {0, 2}) { }
    }
    CanonicalFormIsFixed(LanguageHeader);
  }

  lemma ProjectUuidHeaderCanonical()
    ensures CanonicalHeaderKey(ProjectUuidHeader) == ProjectUuidHeader
  {
    assert AllTokenChars(ProjectUuidHeader);
    assert CaseFixed(ProjectUuidHeader, true) by {
      forall i | 0 <= i < |ProjectUuidHeader| ensures StartsWord(ProjectUuidHeader, i, true) == (i in {0, 2, 10}) { }
    }
    CanonicalFormIsFixed(ProjectUuidHeader);
  }

  /** The six header names the adapter and the client write are pairwise distinct. */
  lemma HeaderNamesDistinct()
    ensures UserTokenHeader != RequestIdHeader && UserTokenHeader != LanguageHeader && UserTokenHeader != ProjectUuidHeader
    ensures RequestIdHeader != LanguageHeader && RequestIdHeader != ProjectUuidHeader && LanguageHeader != ProjectUuidHeader
    ensures UserAgentKey !in {UserTokenHeader, RequestIdHeader, LanguageHeader, ProjectUuidHeader}
    ensures AcceptKey !in {UserTokenHeader, RequestIdHeader, LanguageHeader, ProjectUuidHeader}
  {
    assert UserTokenHeader[2] != RequestIdHeader[2];
    assert |UserTokenHeader| != |LanguageHeader| && |UserTokenHeader| != |ProjectUuidHeader|;
    assert |RequestIdHeader| != |LanguageHeader| && |RequestIdHeader| != |ProjectUuidHeader|;
    assert |LanguageHeader| != |ProjectUuidHeader| && LanguageHeader[0] != UserAgentKey[0];
  }

  // ---------------------------------------------------------------------------
  // Endpoints

  /** The endpoint methods, with the arguments that decide their validation. */
  datatype Endpoint =
    | GetProjectList(q: ByteString)
    | GetDeviceList
    | GetProjectStsToken
    | GetStsToken(deviceSn: string)
    | GetDeviceHms(deviceSnList: ByteString)
    | UpdateDeviceCommand(deviceSn: string)
    | UpdateDeviceChangeCamera
    | UpdateDeviceChangeLens
    | GetDeviceControl
    | DeleteDeviceControl
    | UpdateDeviceStreamQuality
    | CreateDeviceRTK(deviceSn: string)
    | LiveStreamStart
    | CreateFlightTask
    | UpdateFlightTaskStatus(taskUuid: string)
    | GetFlightTaskInfo(taskUuid: string)
    | GetFlightTask(sn: string, name: string)
    | GetFlightTaskMedia(taskUuid: string)
    | GetFlightTaskTrack(taskUuid: string)
    | SetFinishUpload
    | GetWayLine
    | GetWayLineInfo(wayLineUuid: string)
    | CreateModel
    | GetModelInfo
    | GetModelList

  /** The four HTTP methods the endpoints use pass the client's method check. */
  lemma MethodsAreTokens()
    ensures ValidMethod("GET") && ValidMethod("POST") && ValidMethod("PUT") && ValidMethod("DELETE")
  {
    assert AllTokenChars("GET");
    assert AllTokenChars("POST");
    assert AllTokenChars("PUT");
    assert AllTokenChars("DELETE");
  }

  /** The HTTP method each endpoint uses. */
  function Verb(e: Endpoint): (v: string)
    ensures v in {"GET", "POST", "PUT", "DELETE"}
    ensures ValidMethod(v)
  {
    MethodsAreTokens();
    match e
    case UpdateDeviceCommand(_) | UpdateDeviceChangeCamera | UpdateDeviceChangeLens | GetDeviceControl
       | CreateDeviceRTK(_) | LiveStreamStart | CreateFlightTask | SetFinishUpload | CreateModel => "POST"
    case DeleteDeviceControl => "DELETE"
    case UpdateDeviceStreamQuality | UpdateFlightTaskStatus(_) => "PUT"
    case _ => "GET"
  }

  /** The identifier an endpoint writes into its URL path, if any. */
  function PathId(e: Endpoint): Option<string> {
    match e
    case GetStsToken(sn) => Some(sn)
    case UpdateDeviceCommand(sn) => Some(sn)
    case CreateDeviceRTK(sn) => Some(sn)
    case UpdateFlightTaskStatus(id) => Some(id)
    case GetFlightTaskInfo(id) => Some(id)
    case GetFlightTaskMedia(id) => Some(id)
    case GetFlightTaskTrack(id) => Some(id)
    case GetWayLineInfo(id) => Some(id)
    case _ => None
  }

  /** The validation an endpoint runs before any request; query arguments are escaped first. */
  function Precheck(e: Endpoint): (r: Outcome<ValidationError>)
    ensures e.GetStsToken? || e.UpdateDeviceCommand? || e.CreateDeviceRTK? ==> r == ValidateDeviceSN(e.deviceSn)
    ensures e.UpdateFlightTaskStatus? || e.GetFlightTaskInfo? || e.GetFlightTaskMedia? || e.GetFlightTaskTrack? ==>
              r == ValidateUUID(e.taskUuid)
    ensures e.GetWayLineInfo? ==> r == ValidateUUID(e.wayLineUuid)
    ensures e.GetProjectList? ==> r == ValidateQueryParam(QueryEscape(e.q))
    ensures e.GetDeviceHms? ==> r == ValidateQueryParam(QueryEscape(e.deviceSnList))
    ensures e.GetFlightTask? ==> (r.Pass? <==> ValidateDeviceSN(e.sn).Pass? && ValidateProjectName(e.name).Pass?)
    ensures e.GetFlightTask? && ValidateDeviceSN(e.sn).Fail? ==> r == ValidateDeviceSN(e.sn)
    ensures PathId(e).None? && !e.GetProjectList? && !e.GetDeviceHms? && !e.GetFlightTask? ==> r == Pass
  {
    match e
    case GetProjectList(q) => ValidateQueryParam(QueryEscape(q))
    case GetDeviceHms(list) => ValidateQueryParam(QueryEscape(list))
    case GetStsToken(sn) => ValidateDeviceSN(sn)
    case UpdateDeviceCommand(sn) => ValidateDeviceSN(sn)
    case CreateDeviceRTK(sn) => ValidateDeviceSN(sn)
    case UpdateFlightTaskStatus(id) => ValidateUUID(id)
    case GetFlightTaskInfo(id) => ValidateUUID(id)
    case GetFlightTaskMedia(id) => ValidateUUID(id)
    case GetFlightTaskTrack(id) => ValidateUUID(id)
    case GetWayLineInfo(id) => ValidateUUID(id)
    case GetFlightTask(sn, name) =>
      var snCheck := ValidateDeviceSN(sn);
      if snCheck.Fail? then snCheck else ValidateProjectName(name)
    case _ => Pass
  }

  /**
   * An identifier that passed validation stays inside its path segment: it
   * holds only letters, digits, '_' and '-', so no '/', '?' or '#'.
   */
  lemma PathIdStaysInSegment(e: Endpoint)
    requires Precheck(e).Pass? && PathId(e).Some?
    ensures forall i | 0 <= i < |PathId(e).value| :: IsSerialChar(PathId(e).value[i])
  {
    var id := PathId(e).value;
    if e.UpdateFlightTaskStatus? || e.GetFlightTaskInfo? || e.GetFlightTaskMedia? || e.GetFlightTaskTrack? || e.GetWayLineInfo? {
      assert IsUuidText(id);
      forall i | 0 <= i < |id| ensures IsSerialChar(id[i]) {
        if !IsSeparatorPosition(i) {
          assert IsHexDigit(id[i]);
        }
      }
    }
  }

  /** The escaped query endpoints refuse only an empty or over-long argument, never its content. */
  lemma QueryEndpointsCheckOnlyLength(q: ByteString)
    ensures Precheck(GetProjectList(q)).Pass? <==> q != "" && |QueryEscape(q)| <= MaxQueryLength
    ensures Precheck(GetDeviceHms(q)).Pass? <==> q != "" && |QueryEscape(q)| <= MaxQueryLength
  {
    EscapedQueryRefusedOnlyForLength(q);
  }

  // ---------------------------------------------------------------------------
  // Tenant headers

  /** The adapter's copy of a context tenant: its token, project and tenant id. */
  function AdapterTenant(ti: TenantInfo): (a: Fh2TenantInfo)
    ensures a.xUserToken == ti.userToken && a.projectUuid == ti.projectUuid && a.tenantId == ti.tenantId
  {
    Fh2TenantInfo(ti.userToken, ti.projectUuid, ti.tenantId)
  }

  /**
   * The headers `doRequestWithTenant` hands to the client for tenant `ti`,
   * request id `rid` from the context, and the fresh UUID used when `rid` is "".
   */
  function TenantHeaders(ti: Fh2TenantInfo, rid: string, freshUuid: string): (h: map<string, string>)
    ensures h.Keys == {UserTokenHeader, RequestIdHeader, LanguageHeader} +
                      (if ti.projectUuid != "" then {ProjectUuidHeader} else {})
    ensures h[UserTokenHeader] == ti.xUserToken && h[LanguageHeader] == Language
    ensures ti.projectUuid != "" ==> h[ProjectUuidHeader] == ti.projectUuid
    ensures h[RequestIdHeader] == (if rid != "" then rid else freshUuid)
  {
    HeaderNamesDistinct();
    var base := map[UserTokenHeader := ti.xUserToken, RequestIdHeader := rid, LanguageHeader := Language];
    var withProject := if ti.projectUuid != "" then base[ProjectUuidHeader := ti.projectUuid] else base;
    if withProject[RequestIdHeader] == "" then withProject[RequestIdHeader := freshUuid] else withProject
  }

  /**
   * What goes on the wire: the tenant headers plus the client's two defaults,
   * every name present once with its value, and a request id that is never empty.
   */
  lemma SentTenantHeaders(ti: Fh2TenantInfo, rid: string, freshUuid: string)
    requires freshUuid != ""
    ensures var t := TenantHeaders(ti, rid, freshUuid);
            forall k | k in t :: CanonicalHeaderKey(k) == k
    ensures var h := TenantHeaders(ti, rid, freshUuid)[UserAgentKey := UserAgentValue][AcceptKey := AcceptValue];
            h.Keys == {UserTokenHeader, RequestIdHeader, LanguageHeader, UserAgentKey, AcceptKey} +
                      (if ti.projectUuid != "" then {ProjectUuidHeader} else {}) &&
            h[UserTokenHeader] == ti.xUserToken && h[LanguageHeader] == Language &&
            (ti.projectUuid != "" ==> h[ProjectUuidHeader] == ti.projectUuid) &&
            h[RequestIdHeader] == (if rid != "" then rid else freshUuid) && h[RequestIdHeader] != "" &&
            h[UserAgentKey] == UserAgentValue && h[AcceptKey] == AcceptValue
  {
    HeaderNamesDistinct();
    UserTokenHeaderCanonical();
    RequestIdHeaderCanonical();
    LanguageHeaderCanonical();
    ProjectUuidHeaderCanonical();
    var t := TenantHeaders(ti, rid, freshUuid);
    assert t.Keys == {UserTokenHeader, RequestIdHeader, LanguageHeader} +
                     (if ti.projectUuid != "" then {ProjectUuidHeader} else {});
  }

  // ---------------------------------------------------------------------------
  // The adapter

  class Fh2Adapter {
    var tenantInfo: Fh2TenantInfo

    /** `NewFH2Adapter`: an empty tenant. */
    constructor ()
      ensures tenantInfo == Fh2TenantInfo("", "", 0)
    {
      tenantInfo := Fh2TenantInfo("", "", 0);
    }

    /**
     * `doRequestWithTenant` at time `now`: read the tenant from the context,
     * remember it, build the tenant headers and send. `freshUuid` is the value
     * `uuid.New().String()` would return, which is never empty.
     */
    method DoRequestWithTenant(ctx: Context, now: Instant, verb: string, parsed: Option<ParsedUrl>, freshUuid: string,
                               transport: Option<HttpResponse>, decode: string -> Option<Envelope>)
      returns (r: Result<string, Fh2Error>, sent: Option<Request>)
      requires freshUuid != ""
      modifies this
      ensures GetTenantFromContext(ctx, now).Err? ==>
                r == Err(NoTenant(GetTenantFromContext(ctx, now).error)) && sent.None? && tenantInfo == old(tenantInfo)
      ensures GetTenantFromContext(ctx, now).Ok? ==>
                tenantInfo == AdapterTenant(GetTenantFromContext(ctx, now).value)
      ensures GetTenantFromContext(ctx, now).Ok? ==>
                (sent.Some? <==> ValidateURL(parsed).Pass? && ValidMethod(verb) &&
                                 AllHeadersValid(TenantHeaders(tenantInfo, GetRequestIDFromContext(ctx), freshUuid)))
      ensures sent.Some? ==> GetTenantFromContext(ctx, now).Ok? && sent.value.url == parsed.value &&
                             sent.value.verb == (if verb == "" then "GET" else verb)
      ensures sent.Some? ==>
                GetTenantFromContext(ctx, now).value.userToken != "" &&
                sent.value.header == TenantHeaders(tenantInfo, GetRequestIDFromContext(ctx), freshUuid)
                                       [UserAgentKey := UserAgentValue][AcceptKey := AcceptValue]
      ensures sent.None? ==> r.Err?
      ensures GetTenantFromContext(ctx, now).Ok? && sent.None? ==> r.error.RequestFailed?
      ensures sent.Some? && transport.None? ==> r == Err(RequestFailed(TransportFailed))
      ensures sent.Some? && transport.Some? ==> r == CheckResponse(transport.value, decode)
    {
      var found := GetTenantFromContext(ctx, now);
      if found.Err? {
        return Err(NoTenant(found.error)), None;
      }
      var ti := found.value;
      tenantInfo := AdapterTenant(ti);
      var headers := map[UserTokenHeader := tenantInfo.xUserToken,
                         RequestIdHeader := GetRequestIDFromContext(ctx),
                         LanguageHeader := Language];
      if tenantInfo.projectUuid != "" {
        headers := headers[ProjectUuidHeader := tenantInfo.projectUuid];
      }
      if headers[RequestIdHeader] == "" {
        headers := headers[RequestIdHeader := freshUuid];
      }
      assert headers == TenantHeaders(tenantInfo, GetRequestIDFromContext(ctx), freshUuid);
      SentTenantHeaders(tenantInfo, GetRequestIDFromContext(ctx), freshUuid);
      r, sent := DoRequestWithHeaders(verb, parsed, headers, transport, decode);
    }

    /** One endpoint method: validate its arguments, and only then send. */
    method Invoke(e: Endpoint, ctx: Context, now: Instant, parsed: Option<ParsedUrl>, freshUuid: string,
                  transport: Option<HttpResponse>, decode: string -> Option<Envelope>)
      returns (r: Result<string, Fh2Error>, sent: Option<Request>)
      requires freshUuid != ""
      modifies this
      ensures Precheck(e).Fail? ==> r == Err(InvalidInput(Precheck(e).error)) && sent.None? && tenantInfo == old(tenantInfo)
      ensures Precheck(e).Pass? && GetTenantFromContext(ctx, now).Err? ==>
                r == Err(NoTenant(GetTenantFromContext(ctx, now).error)) && sent.None? && tenantInfo == old(tenantInfo)
      ensures Precheck(e).Pass? && GetTenantFromContext(ctx, now).Ok? ==>
                tenantInfo == AdapterTenant(GetTenantFromContext(ctx, now).value) &&
                (sent.Some? <==> ValidateURL(parsed).Pass? &&
                                 AllHeadersValid(TenantHeaders(tenantInfo, GetRequestIDFromContext(ctx), freshUuid)))
      ensures sent.Some? ==> Precheck(e).Pass? && GetTenantFromContext(ctx, now).Ok? &&
                             sent.value.url == parsed.value && sent.value.verb == Verb(e)
      ensures sent.Some? ==>
                sent.value.header == TenantHeaders(tenantInfo, GetRequestIDFromContext(ctx), freshUuid)
                                       [UserAgentKey := UserAgentValue][AcceptKey := AcceptValue]
      ensures sent.None? ==> r.Err?
      ensures sent.Some? && transport.None? ==> r == Err(RequestFailed(TransportFailed))
      ensures sent.Some? && transport.Some? ==> r == CheckResponse(transport.value, decode)
    {
      var check := Precheck(e);
      if check.Fail? {
        return Err(InvalidInput(check.error)), None;
      }
      r, sent := DoRequestWithTenant(ctx, now, Verb(e), parsed, freshUuid, transport, decode);
    }
  }
}
