/**
  The OAuth callback endpoint (`app/auth/callback/route.ts`): exchanges the
  provider's `code` with the gateway and decides where to redirect.
*/
module OAuthCallback {
  import opened Wrappers
  import opened Gateway
  import opened Navigation
  import AuthSession
  import RouteGuard
  import Text

  /** The exchange response body: `session.access_token` and `user` may be absent. */
  datatype ExchangeBody = ExchangeBody(accessToken: Option<string>, user: Option<User>)

  /** The redirect, and the gateway URL that was requested (None when no call was made). */
  datatype CallbackResult = CallbackResult(redirect: Url, exchangeUrl: Option<string>)

  /** The gateway URL the code is exchanged at: the code is pasted in as is. */
  function ExchangeUrl(gateway: string, code: string): string {
    gateway + "/api/v1/auth/callback?code=" + code
  }

  /** The `GET` handler, given the query's `code` and the exchange outcome. */
  function HandleCallback(gateway: string, code: Option<string>, exchange: Response<ExchangeBody>): (r: CallbackResult)
    ensures !Truthy(code) ==> r == CallbackResult(Path("/login"), None)
    ensures Truthy(code) ==> r.exchangeUrl == Some(ExchangeUrl(gateway, code.value))
    ensures Truthy(code) && !exchange.Ok? ==> r.redirect == Url("/login", [("error", "oauth_failed")])
    ensures Truthy(code) && exchange.Ok? ==>
      (r.redirect.path == "/dashboard" <==> VerifiedFlag(exchange.body.user)) &&
      (r.redirect.path == "/verify-email" <==> !VerifiedFlag(exchange.body.user))
    ensures Truthy(code) && exchange.Ok? ==>
      (Truthy(exchange.body.accessToken) ==> r.redirect.query == [("token", exchange.body.accessToken.value)]) &&
      (!Truthy(exchange.body.accessToken) ==> r.redirect.query == [])
  {
    if !Truthy(code) then CallbackResult(Path("/login"), None)
    else
      var url := ExchangeUrl(gateway, code.value);
      match exchange
      case Ok(body) =>
        var target := if VerifiedFlag(body.user) then "/dashboard" else "/verify-email";
        var query := if Truthy(body.accessToken) then [("token", body.accessToken.value)] else [];
        CallbackResult(Url(target, query), Some(url))
      case _ => CallbackResult(Url("/login", [("error", "oauth_failed")]), Some(url))
  }

  /** The code is forwarded verbatim: the exchange URL ends with the code exactly. */
  lemma CodeForwardedVerbatim(gateway: string, code: string)
    ensures var u := ExchangeUrl(gateway, code);
      |u| >= |code| && u[|u| - |code|..] == code
  {
  }

  /** Every redirect lands on one of three pages, and only the success paths
      carry parameters other than the fixed error marker. */
  lemma RedirectTargets(gateway: string, code: Option<string>, exchange: Response<ExchangeBody>)
    ensures var r := HandleCallback(gateway, code, exchange);
      r.redirect.path in {"/login", "/dashboard", "/verify-email"}
    ensures var r := HandleCallback(gateway, code, exchange);
      r.redirect.path == "/login" ==> r.redirect.query in {[], [("error", "oauth_failed")]}
    ensures var r := HandleCallback(gateway, code, exchange);
      forall i :: 0 <= i < |r.redirect.query| ==> r.redirect.query[i].0 in {"token", "error"}
  {
  }

  /** The callback's token reaches the provider only when its redirect gets
      past the route guard. A verified user goes to `/dashboard`, a protected
      page, and so needs the `auth_token` cookie. An unverified user goes to
      `/verify-email`, an auth page, and so needs no such cookie. When the
      redirect passes, the mounted provider's session check reads the `token`
      parameter, stores it under `auth_token`, looks the session up with it
      first and strips it from the URL. In every other case the page that
      loads carries no `token` parameter. */
  lemma CallbackTokenReachesProvider(gateway: string, code: Option<string>, exchange: Response<ExchangeBody>,
                                     cookies: map<string, string>,
                                     st: AuthSession.AuthState, inputs: AuthSession.LoadInputs)
    ensures var r := HandleCallback(gateway, code, exchange);
      var landed := RouteGuard.Landing(r.redirect, cookies);
      var loaded := AuthSession.CheckSession(st, QueryGet(landed.query, "token"), inputs);
      Truthy(code) && exchange.Ok? && Truthy(exchange.body.accessToken) &&
      (RouteGuard.HasAuthToken(cookies) <==> VerifiedFlag(exchange.body.user)) ==>
        && AuthSession.LocalToken(loaded.state) == exchange.body.accessToken
        && loaded.calls[0] == AuthSession.SessionLookup(exchange.body.accessToken.value)
        && loaded.urlStripped
    ensures var r := HandleCallback(gateway, code, exchange);
      var landed := RouteGuard.Landing(r.redirect, cookies);
      !(Truthy(code) && exchange.Ok? && Truthy(exchange.body.accessToken) &&
        (RouteGuard.HasAuthToken(cookies) <==> VerifiedFlag(exchange.body.user))) ==>
        QueryGet(landed.query, "token").None?
  {
    var r := HandleCallback(gateway, code, exchange);
    var landed := RouteGuard.Landing(r.redirect, cookies);
    RouteGuard.DecisionCases(r.redirect.path, cookies);
    assert Text.StartsWith("/dashboard", RouteGuard.ProtectedPages[0]);
    assert Text.StartsWith("/verify-email", RouteGuard.AuthPages[2]);
    RouteGuard.NoPathInBothLists("/dashboard");
    if Truthy(code) && exchange.Ok? && Truthy(exchange.body.accessToken) {
      if RouteGuard.HasAuthToken(cookies) <==> VerifiedFlag(exchange.body.user) {
        assert landed == r.redirect;
        assert QueryGet(landed.query, "token") == exchange.body.accessToken;
      } else {
        assert landed.query == [] || landed.query == [("redirect", r.redirect.path)];
      }
    }
  }

  /** Nothing in the client sets the `auth_token` cookie, so a verified user
      arriving from the callback with an empty cookie jar is sent to the login
      page before the dashboard mounts, and the token is lost. */
  lemma VerifiedCallbackLosesToken(gateway: string, code: Option<string>, exchange: Response<ExchangeBody>)
    requires Truthy(code) && exchange.Ok? && Truthy(exchange.body.accessToken)
    requires VerifiedFlag(exchange.body.user)
    ensures var r := HandleCallback(gateway, code, exchange);
      r.redirect == Url("/dashboard", [("token", exchange.body.accessToken.value)]) &&
      RouteGuard.Landing(r.redirect, map[]) == Url("/login", [("redirect", "/dashboard")]) &&
      QueryGet(RouteGuard.Landing(r.redirect, map[]).query, "token").None?
  {
    var r := HandleCallback(gateway, code, exchange);
    assert Text.StartsWith("/dashboard", RouteGuard.ProtectedPages[0]);
    RouteGuard.DecisionCases("/dashboard", map[]);
  }
}
