/**
  The backend API client (`lib/api.ts`): request header composition, the
  request URL, the message thrown on a non-2xx response, and the path and
  method of every endpoint of the diagnostics, roadmap and user services.
*/
module ApiClient {
  import opened Wrappers
  import opened Text

  const ContentTypeHeader: string := "Content-Type"
  const AuthorizationHeader: string := "Authorization"
  const JsonType: string := "application/json"
  const BearerPrefix: string := "Bearer "

  const DefaultUserServiceUrl: string := "http://localhost:8001"
  const DefaultDiagnosticsServiceUrl: string := "http://localhost:8006"

  /** The two service base URLs, each taken from its environment variable
      when that is set and non-empty. */
  datatype ServiceUrls = ServiceUrls(user: string, diagnostics: string)

  function ConfiguredUrls(userEnv: Option<string>, diagnosticsEnv: Option<string>): (u: ServiceUrls)
    ensures Truthy(userEnv) ==> u.user == userEnv.value
    ensures !Truthy(userEnv) ==> u.user == DefaultUserServiceUrl
    ensures Truthy(diagnosticsEnv) ==> u.diagnostics == diagnosticsEnv.value
    ensures !Truthy(diagnosticsEnv) ==> u.diagnostics == DefaultDiagnosticsServiceUrl
  {
    ServiceUrls(OrElse(userEnv, DefaultUserServiceUrl), OrElse(diagnosticsEnv, DefaultDiagnosticsServiceUrl))
  }

  /** `{'Content-Type': 'application/json', ...options.headers}`, then the
      bearer header when a token was obtained. */
  function ComposeHeaders(caller: map<string, string>, token: Option<string>): (h: map<string, string>)
    ensures ContentTypeHeader in h
    ensures ContentTypeHeader in caller ==> h[ContentTypeHeader] == caller[ContentTypeHeader]
    ensures ContentTypeHeader !in caller ==> h[ContentTypeHeader] == JsonType
    ensures Truthy(token) ==> AuthorizationHeader in h && h[AuthorizationHeader] == BearerPrefix + token.value
    ensures !Truthy(token) ==> (AuthorizationHeader in h <==> AuthorizationHeader in caller)
    ensures !Truthy(token) && AuthorizationHeader in caller ==> h[AuthorizationHeader] == caller[AuthorizationHeader]
    ensures forall k :: k != ContentTypeHeader && k != AuthorizationHeader ==>
      (k in h <==> k in caller) && (k in h ==> h[k] == caller[k])
  {
    var base := map[ContentTypeHeader := JsonType] + caller;
    if Truthy(token) then base[AuthorizationHeader := BearerPrefix + token.value] else base
  }

  /** The token carried by an `Authorization` header, if it is a bearer header. */
  function BearerToken(h: map<string, string>): Option<string> {
    if AuthorizationHeader in h && StartsWith(h[AuthorizationHeader], BearerPrefix)
    then Some(h[AuthorizationHeader][|BearerPrefix|..])
    else None
  }

  /** The gateway reads back exactly the token the client obtained, and
      composing twice with the same token changes nothing. */
  lemma HeadersCarryToken(caller: map<string, string>, token: Option<string>)
    ensures Truthy(token) ==> BearerToken(ComposeHeaders(caller, token)) == token
    ensures !Truthy(token) ==> BearerToken(ComposeHeaders(caller, token)) == BearerToken(caller)
    ensures ComposeHeaders(ComposeHeaders(caller, token), token) == ComposeHeaders(caller, token)
  {
    var h := ComposeHeaders(caller, token);
    if Truthy(token) {
      assert h[AuthorizationHeader][|BearerPrefix|..] == token.value;
    }
  }

  /** The body of a failed response: JSON (with or without `detail`), or
      something that does not parse. */
  datatype ErrorBody = JsonBody(detail: Option<string>) | NotJson

  /** The message thrown for a non-2xx response. */
  function ErrorMessage(statusText: string, body: ErrorBody): (m: string)
    ensures body.JsonBody? && Truthy(body.detail) ==> m == body.detail.value
    ensures body.NotJson? && statusText != "" ==> m == statusText
    ensures (body.JsonBody? && !Truthy(body.detail)) || (body.NotJson? && statusText == "") ==>
      m == "API request failed: " + statusText
  {
    var detail := match body
      case JsonBody(d) => d
      case NotJson => Some(statusText);
    OrElse(detail, "API request failed: " + statusText)
  }

  /** The thrown message is never empty, and it is the server's detail
      whenever the server sent one. */
  lemma ErrorMessageInformative(statusText: string, body: ErrorBody)
    ensures ErrorMessage(statusText, body) != ""
    ensures body.JsonBody? && Truthy(body.detail) ==> ErrorMessage(statusText, body) == body.detail.value
    ensures StartsWith(ErrorMessage(statusText, body), "API request failed: ") ||
      ErrorMessage(statusText, body) == statusText ||
      (body.JsonBody? && body.detail.Some? && ErrorMessage(statusText, body) == body.detail.value)
  {
  }

  // ------------------------------------------------------------ endpoints

  datatype Service = UserService | DiagnosticsService

  datatype Method = Get | Post | Put

  /** The JSON body of a request, by shape. */
  datatype Payload =
    | NoBody
    | ResponsesBody(responses: map<string, string>)
    | RoadmapBody(sessionId: string, targetCompany: Option<string>, targetRole: Option<string>)
    | MilestoneBody(status: Option<string>, completedAt: Option<string>)
    | ProfileBody(update: map<string, string>)

  datatype Endpoint =
    | StartDiagnostic
    | SubmitResponse(sessionId: string, responses: map<string, string>)
    | CompleteDiagnostic(sessionId: string)
    | GetDiagnosticStatus(sessionId: string)
    | GenerateRoadmap(sessionId: string, targetCompany: Option<string>, targetRole: Option<string>)
    | GetRoadmap(roadmapId: string)
    | ListRoadmaps
    | UpdateMilestone(roadmapId: string, milestoneId: string, status: Option<string>, completedAt: Option<string>)
    | GetProfile
    | UpdateProfile(update: map<string, string>)

  function ServiceOf(ep: Endpoint): Service {
    if ep.GetProfile? || ep.UpdateProfile? then UserService else DiagnosticsService
  }

  function MethodOf(ep: Endpoint): Method {
    match ep
    case GetDiagnosticStatus(_) | GetRoadmap(_) | ListRoadmaps | GetProfile => Get
    case UpdateMilestone(_, _, _, _) | UpdateProfile(_) => Put
    case _ => Post
  }

  /** The endpoint path: `/api/v1/` and the endpoint's segments joined by
      `/`, e.g. `/api/v1/diagnostics/{sessionId}/respond`. */
  function PathOf(ep: Endpoint): string {
    ApiRoot + "/" + Join(Segments(ep), "/")
  }

  const ApiRoot: string := "/api/v1"

  function PayloadOf(ep: Endpoint): Payload {
    match ep
    case SubmitResponse(_, responses) => ResponsesBody(responses)
    case GenerateRoadmap(sid, company, role) => RoadmapBody(sid, company, role)
    case UpdateMilestone(_, _, status, at) => MilestoneBody(status, at)
    case UpdateProfile(update) => ProfileBody(update)
    case _ => NoBody
  }

  /** A request as handed to `fetch`. */
  datatype Request = Request(url: string, verb: Method, headers: map<string, string>, payload: Payload)

  /** `apiRequest(baseUrl, endpoint, options)` for one endpoint: the URL is
      the service's base URL followed by the endpoint path. */
  function BuildRequest(urls: ServiceUrls, ep: Endpoint, token: Option<string>): (r: Request)
    ensures ServiceOf(ep) == UserService ==> r.url == urls.user + PathOf(ep)
    ensures ServiceOf(ep) == DiagnosticsService ==> r.url == urls.diagnostics + PathOf(ep)
    ensures r.headers == ComposeHeaders(map[], token)
    ensures r.verb == MethodOf(ep) && r.payload == PayloadOf(ep)
  {
    var base := if ServiceOf(ep) == UserService then urls.user else urls.diagnostics;
    Request(base + PathOf(ep), MethodOf(ep), ComposeHeaders(map[], token), PayloadOf(ep))
  }

  /** With the configured base URLs, a request goes to the environment's
      URL for its service when that variable is set and non-empty, else to
      the service's localhost default, and always ends with the endpoint
      path. */
  lemma RequestsUseConfiguredService(userEnv: Option<string>, diagnosticsEnv: Option<string>,
                                     ep: Endpoint, token: Option<string>)
    ensures var r := BuildRequest(ConfiguredUrls(userEnv, diagnosticsEnv), ep, token);
      var base := if ServiceOf(ep) == UserService then OrElse(userEnv, DefaultUserServiceUrl)
                  else OrElse(diagnosticsEnv, DefaultDiagnosticsServiceUrl);
      r.url == base + PathOf(ep) && StartsWith(r.url, base)
    ensures ServiceOf(ep) == UserService <==> ep.GetProfile? || ep.UpdateProfile?
  {
    var r := BuildRequest(ConfiguredUrls(userEnv, diagnosticsEnv), ep, token);
    var base := if ServiceOf(ep) == UserService then OrElse(userEnv, DefaultUserServiceUrl)
                else OrElse(diagnosticsEnv, DefaultDiagnosticsServiceUrl);
    assert r.url[..|base|] == base;
  }

  /** The outcome of the `fetch`: a parsed 2xx body, a non-2xx response, or a rejection. */
  datatype FetchOutcome<T> = FetchOk(body: T) | FetchFailed(statusText: string, errorBody: ErrorBody) | FetchRejected(message: string)

  /** `apiRequest`'s result: the body, or the message of the error it throws. */
  function ApiResult<T>(outcome: FetchOutcome<T>): (r: Result<T>)
    ensures outcome.FetchOk? <==> r.Success?
    ensures outcome.FetchOk? ==> r.value == outcome.body
    ensures outcome.FetchFailed? ==> r == Failure(ErrorMessage(outcome.statusText, outcome.errorBody))
    ensures outcome.FetchRejected? ==> r == Failure(outcome.message)
  {
    match outcome
    case FetchOk(b) => Success(b)
    case FetchFailed(st, eb) => Failure(ErrorMessage(st, eb))
    case FetchRejected(m) => Failure(m)
  }

  /** A failed call always surfaces as a `Failure` the pages can show: its
      message is never empty, and it is the gateway's `detail` whenever that
      is truthy. Only a 2xx yields a value. */
  lemma ApiFailureInformative<T>(outcome: FetchOutcome<T>)
    requires outcome.FetchFailed?
    ensures ApiResult(outcome).Failure? && ApiResult(outcome).message != ""
    ensures outcome.errorBody.JsonBody? && Truthy(outcome.errorBody.detail) ==>
      ApiResult(outcome).message == outcome.errorBody.detail.value
  {
    ErrorMessageInformative(outcome.statusText, outcome.errorBody);
  }

  // ------------------------------------------------------------ path parsing

  /** The path segments after the leading `/api/v1/`. */
  function Segments(ep: Endpoint): seq<string> {
    match ep
    case StartDiagnostic => ["diagnostics", "start"]
    case SubmitResponse(id, _) => ["diagnostics", id, "respond"]
    case CompleteDiagnostic(id) => ["diagnostics", id, "complete"]
    case GetDiagnosticStatus(id) => ["diagnostics", id]
    case GenerateRoadmap(_, _, _) => ["roadmaps", "generate"]
    case GetRoadmap(id) => ["roadmaps", id]
    case ListRoadmaps => ["roadmaps"]
    case UpdateMilestone(rid, mid, _, _) => ["roadmaps", rid, "milestones", mid]
    case GetProfile | UpdateProfile(_) => ["users", "me"]
  }

  /** Identifiers are interpolated as is; the routes stay unambiguous when
      they contain no `/`. */
  predicate PlainIds(ep: Endpoint) {
    match ep
    case SubmitResponse(id, _) => '/' !in id
    case CompleteDiagnostic(id) => '/' !in id
    case GetDiagnosticStatus(id) => '/' !in id
    case GetRoadmap(id) => '/' !in id
    case UpdateMilestone(rid, mid, _, _) => '/' !in rid && '/' !in mid
    case _ => true
  }

  /** A route: the method, service and `/`-separated path of a request. */
  datatype Route =
    | StartRoute | SubmitRoute(sessionId: string) | CompleteRoute(sessionId: string)
    | StatusRoute(sessionId: string) | GenerateRoute | RoadmapRoute(roadmapId: string)
    | ListRoute | MilestoneRoute(roadmapId: string, milestoneId: string)
    | ProfileRoute | ProfileUpdateRoute

  function RouteOf(ep: Endpoint): Route {
    match ep
    case StartDiagnostic => StartRoute
    case SubmitResponse(id, _) => SubmitRoute(id)
    case CompleteDiagnostic(id) => CompleteRoute(id)
    case GetDiagnosticStatus(id) => StatusRoute(id)
    case GenerateRoadmap(_, _, _) => GenerateRoute
    case GetRoadmap(id) => RoadmapRoute(id)
    case ListRoadmaps => ListRoute
    case UpdateMilestone(rid, mid, _, _) => MilestoneRoute(rid, mid)
    case GetProfile => ProfileRoute
    case UpdateProfile(_) => ProfileUpdateRoute
  }

  /** Recovers the route from a method and path, as a gateway router would. */
  function ParseRoute(m: Method, path: string): Option<Route> {
    var p := Split(path, '/');
    if |p| < 4 || p[0] != "" || p[1] != "api" || p[2] != "v1" then None
    else ParseSegments(m, p[3..])
  }

  /** Routes by the segments after `/api/v1/`. */
  function ParseSegments(m: Method, s: seq<string>): Option<Route> {
    if |s| == 2 && s[0] == "diagnostics" && s[1] == "start" && m == Post then Some(StartRoute)
    else if |s| == 3 && s[0] == "diagnostics" && s[2] == "respond" && m == Post then Some(SubmitRoute(s[1]))
    else if |s| == 3 && s[0] == "diagnostics" && s[2] == "complete" && m == Post then Some(CompleteRoute(s[1]))
    else if |s| == 2 && s[0] == "diagnostics" && m == Get then Some(StatusRoute(s[1]))
    else if |s| == 2 && s[0] == "roadmaps" && s[1] == "generate" && m == Post then Some(GenerateRoute)
    else if |s| == 2 && s[0] == "roadmaps" && m == Get then Some(RoadmapRoute(s[1]))
    else if |s| == 1 && s[0] == "roadmaps" && m == Get then Some(ListRoute)
    else if |s| == 4 && s[0] == "roadmaps" && s[2] == "milestones" && m == Put then Some(MilestoneRoute(s[1], s[3]))
    else if |s| == 2 && s[0] == "users" && s[1] == "me" && m == Get then Some(ProfileRoute)
    else if |s| == 2 && s[0] == "users" && s[1] == "me" && m == Put then Some(ProfileUpdateRoute)
    else None
  }

  /** A concrete path, as the source writes it. */
  lemma PathExample()
    ensures PathOf(SubmitResponse("s1", map[])) == "/api/v1/diagnostics/s1/respond"
  {
  }

  lemma RootSegments()
    ensures Split(ApiRoot, '/') == ["", "api", "v1"]
  {
    var t := "api" + "/" + "v1";
    assert ApiRoot == "" + "/" + t;
    SplitAppend("", t, '/');
    SplitAppend("api", "v1", '/');
    SplitNoSep("", '/');
    SplitNoSep("api", '/');
    SplitNoSep("v1", '/');
  }

  /** The segments of an endpoint route back to it. */
  lemma SegmentsRoute(ep: Endpoint)
    ensures ParseSegments(MethodOf(ep), Segments(ep)) == Some(RouteOf(ep))
  {
  }

  /** With identifiers free of `/`, the method and path of every request name
      its endpoint's route, so no two routes share a request line. */
  lemma RouteRoundTrip(ep: Endpoint)
    requires PlainIds(ep)
    ensures ParseRoute(MethodOf(ep), PathOf(ep)) == Some(RouteOf(ep))
  {
    var seg := Segments(ep);
    PathSplits(ep);
    var parts := ["", "api", "v1"] + seg;
    assert parts[0] == "" && parts[1] == "api" && parts[2] == "v1";
    assert parts[3..] == seg;
    SegmentsRoute(ep);
  }

  /** A path splits into the root's pieces followed by the endpoint's segments. */
  lemma PathSplits(ep: Endpoint)
    requires PlainIds(ep)
    ensures Split(PathOf(ep), '/') == ["", "api", "v1"] + Segments(ep)
  {
    var seg := Segments(ep);
    SegmentsPlain(ep);
    SplitJoin(seg, '/');
    SplitAppend(ApiRoot, Join(seg, "/"), '/');
    RootSegments();
  }

  lemma SegmentsPlain(ep: Endpoint)
    requires PlainIds(ep)
    ensures |Segments(ep)| >= 1
    ensures forall i :: 0 <= i < |Segments(ep)| ==> '/' !in Segments(ep)[i]
  {
  }
}
