/**
  The auth session provider (`contexts/AuthContext.tsx`): the in-memory
  `{user, profile, session, emailVerified, loading}` state plus the browser
  storage it touches, and the operations the provider exposes. Each gateway
  call's outcome is an input; each asynchronous handler is one transition.

  As written, the provider reads and writes only localStorage (`auth_token`,
  `refresh_token`); it never writes the cookie the route guard reads.
*/
module AuthSession {
  import opened Wrappers
  import opened Gateway
  import TokenStore
  import RouteGuard
  import Text

  /** The provider uses the token store's key names, though only in localStorage. */
  const AuthTokenKey: string := TokenStore.AuthTokenKey
  const RefreshTokenKey: string := TokenStore.RefreshTokenKey

  datatype AuthState = AuthState(
    user: Option<User>,
    profile: Option<Profile>,
    session: Option<Session>,
    emailVerified: Option<bool>,
    loading: bool,
    store: TokenStore.Store)

  /** The provider's state on mount. */
  function Initial(store: TokenStore.Store): AuthState {
    AuthState(None, None, None, None, true, store)
  }

  function LocalToken(st: AuthState): Option<string> {
    TokenStore.Lookup(st.store.local, AuthTokenKey)
  }

  function SetLocal(st: AuthState, key: string, value: string): AuthState {
    st.(store := st.store.(local := st.store.local[key := value]))
  }

  /** `storeSession`: writes the access token (and a truthy refresh token) to
      localStorage and records session and user. */
  function StoreSession(st: AuthState, session: Session, user: Option<User>): (r: AuthState)
    ensures r.session == Some(session) && r.user == user
    ensures LocalToken(r) == Some(session.accessToken)
    ensures Truthy(session.refreshToken) ==>
      TokenStore.Lookup(r.store.local, RefreshTokenKey) == session.refreshToken
    ensures !Truthy(session.refreshToken) ==>
      TokenStore.Lookup(r.store.local, RefreshTokenKey) == TokenStore.Lookup(st.store.local, RefreshTokenKey)
    ensures forall k :: k != AuthTokenKey && k != RefreshTokenKey ==>
      TokenStore.Lookup(r.store.local, k) == TokenStore.Lookup(st.store.local, k)
    ensures r.store.cookies == st.store.cookies
    ensures r.profile == st.profile && r.emailVerified == st.emailVerified && r.loading == st.loading
  {
    var st1 := SetLocal(st, AuthTokenKey, session.accessToken);
    var st2 := if Truthy(session.refreshToken) then SetLocal(st1, RefreshTokenKey, session.refreshToken.value) else st1;
    st2.(session := Some(session), user := user)
  }

  /** `clearSession`: forgets user, session, profile and verification state,
      and removes both tokens from localStorage. */
  function ClearSession(st: AuthState): (r: AuthState)
    ensures r.user == None && r.session == None && r.profile == None && r.emailVerified == None
    ensures AuthTokenKey !in r.store.local && RefreshTokenKey !in r.store.local
    ensures forall k :: k != AuthTokenKey && k != RefreshTokenKey ==>
      TokenStore.Lookup(r.store.local, k) == TokenStore.Lookup(st.store.local, k)
    ensures r.store.cookies == st.store.cookies && r.loading == st.loading
  {
    AuthState(None, None, None, None, st.loading,
      st.store.(local := st.store.local - {AuthTokenKey, RefreshTokenKey}))
  }

  /** `refreshProfile`: no user means no profile; otherwise the fetched
      profile, or none when the fetch fails. */
  function RefreshProfile(st: AuthState, fetched: Response<Profile>): (r: AuthState)
    ensures st.user.None? ==> r.profile == None
    ensures st.user.Some? && fetched.Ok? ==> r.profile == Some(fetched.body)
    ensures !fetched.Ok? ==> r.profile == None
    ensures r == st.(profile := r.profile)
  {
    if st.user.None? then st.(profile := None)
    else if fetched.Ok? then st.(profile := Some(fetched.body))
    else st.(profile := None)
  }

  /** `checkEmailVerification`: false without a stored token or when the
      check fails; otherwise the gateway's answer. The flag is recorded. */
  function CheckEmailVerification(st: AuthState, check: Response<bool>): (r: (AuthState, bool))
    ensures r.0 == st.(emailVerified := Some(r.1))
    ensures r.1 <==> Truthy(LocalToken(st)) && check == Ok(true)
  {
    if !Truthy(LocalToken(st)) then (st.(emailVerified := Some(false)), false)
    else match check
      case Ok(v) => (st.(emailVerified := Some(v)), v)
      case _ => (st.(emailVerified := Some(false)), false)
  }

  // ---------------------------------------------------------------- sign in / up / out

  datatype SignInBody = SignInBody(session: Option<Session>, user: Option<User>)

  /** The message of the `TypeError` that `storeSession` throws when a 2xx
      sign-in reply carries no `session` (it reads `access_token` of
      `undefined`), as the browser's engine words it. */
  const MissingSessionMessage: string := "Cannot read properties of undefined (reading 'access_token')"

  datatype SignUpBody = SignUpBody(session: Option<Session>, user: Option<User>)

  /** The error message of a failed auth call: the gateway's `detail` when
      truthy, else `fallback`; a thrown error's message when truthy, else the
      generic text. */
  function FailureMessage<T>(resp: Response<T>, fallback: string): (m: string)
    requires !resp.Ok?
    ensures m != "" <== fallback != ""
  {
    match resp
    case HttpError(_, detail) => OrElse(detail, fallback)
    case Thrown(msg) => OrElse(Some(msg), "An unexpected error occurred")
  }

  /** `signIn`: never throws. On failure the error message is returned and
      neither state nor storage changes; on success the session is stored
      and the verification flag is re-checked with the gateway. A 2xx reply
      without a session makes `storeSession` throw before it writes
      anything, and the `catch` reports that error's message. */
  function SignIn(st: AuthState, resp: Response<SignInBody>, check: Response<bool>): (r: (AuthState, Option<string>))
    ensures r.1.Some? <==> !(resp.Ok? && resp.body.session.Some?)
    ensures r.1.Some? ==> r.0 == st && r.1.value != ""
    ensures !resp.Ok? ==> r.1 == Some(FailureMessage(resp, "Failed to sign in"))
    ensures resp.Ok? && resp.body.session.None? ==> r.1 == Some(MissingSessionMessage)
    ensures resp.Ok? && resp.body.session.Some? ==> (
      var session := resp.body.session.value;
      && r.0.session == Some(session) && r.0.user == resp.body.user
      && LocalToken(r.0) == Some(session.accessToken)
      && (r.0.emailVerified == Some(true) <==> session.accessToken != "" && check == Ok(true)))
    ensures r.0.store.cookies == st.store.cookies
  {
    match resp
    case Ok(body) =>
      if body.session.None? then (st, Some(MissingSessionMessage))
      else
        var st1 := StoreSession(st, body.session.value, body.user).(emailVerified := Some(VerifiedFlag(body.user)));
        var (st2, _) := CheckEmailVerification(st1, check);
        (st2, None)
    case _ => (st, Some(FailureMessage(resp, "Failed to sign in")))
  }

  /** `signUp`: stores a session only when the gateway returned one;
      otherwise only the user and the verification flag are set. */
  function SignUp(st: AuthState, resp: Response<SignUpBody>): (r: (AuthState, Option<string>))
    ensures !resp.Ok? ==> r.0 == st && r.1 == Some(FailureMessage(resp, "Failed to create account"))
    ensures resp.Ok? ==>
      r.1 == None && r.0.user == resp.body.user && r.0.emailVerified == Some(VerifiedFlag(resp.body.user))
    ensures resp.Ok? && resp.body.session.Some? ==>
      r.0.session == resp.body.session && LocalToken(r.0) == Some(resp.body.session.value.accessToken)
    ensures resp.Ok? && resp.body.session.None? ==>
      r.0.session == st.session && r.0.store == st.store
    ensures r.0.store.cookies == st.store.cookies
  {
    match resp
    case Ok(body) =>
      if body.session.Some? then
        (StoreSession(st, body.session.value, body.user).(emailVerified := Some(VerifiedFlag(body.user))), None)
      else
        (st.(user := body.user, emailVerified := Some(VerifiedFlag(body.user))), None)
    case _ => (st, Some(FailureMessage(resp, "Failed to create account")))
  }

  /** `signOut`: the sign-out POST is attempted only with a stored token and
      its failure is swallowed; the session is cleared either way. Returns
      the new state and whether the POST was attempted. */
  function SignOut(st: AuthState): (r: (AuthState, bool))
    ensures r.1 <==> Truthy(LocalToken(st))
    ensures r.0.user.None? && r.0.session.None? && r.0.profile.None? && r.0.emailVerified.None?
    ensures LocalToken(r.0).None?
  {
    (ClearSession(st), Truthy(LocalToken(st)))
  }

  datatype Provider = Google | Apple

  function ProviderName(p: Provider): string {
    match p
    case Google => "google"
    case Apple => "apple"
  }

  datatype OAuthStart = OAuthStart(url: string)

  /** The gateway URL `signInWithOAuth` requests; `encode` is `encodeURIComponent`. */
  function OAuthRequestUrl(gateway: string, origin: string, p: Provider, encode: string -> string): string {
    gateway + "/api/v1/auth/oauth/" + ProviderName(p) + "?redirect_to=" + encode(origin + "/auth/callback")
  }

  /** `signInWithOAuth`: navigates to the provider URL the gateway returns,
      or throws. */
  function SignInWithOAuth(resp: Response<OAuthStart>): (r: Result<string>)
    ensures r.Success? <==> resp.Ok?
    ensures resp.Ok? ==> r.value == resp.body.url
    ensures resp.HttpError? ==> r.message == "Failed to initiate OAuth"
    ensures resp.Thrown? ==> r.message == resp.message
  {
    match resp
    case Ok(body) => Success(body.url)
    case HttpError(_, _) => Failure("Failed to initiate OAuth")
    case Thrown(m) => Failure(m)
  }

  /** `useAuth`: the provider's value, or an error outside a provider. */
  function UseAuth(context: Option<AuthState>): (r: Result<AuthState>)
    ensures context.Some? ==> r == Success(context.value)
    ensures context.None? ==> r == Failure("useAuth must be used within an AuthProvider")
  {
    match context
    case Some(st) => Success(st)
    case None => Failure("useAuth must be used within an AuthProvider")
  }

  // ---------------------------------------------------------------- initial load

  /** The gateway calls the initial load makes, in order. */
  datatype Call = SessionLookup(token: string) | ProfileFetch | VerificationCheck

  /** Outcomes of the calls the initial load may make. */
  datatype LoadInputs = LoadInputs(lookup: Response<Option<User>>, profile: Response<Profile>, check: Response<bool>)

  datatype LoadResult = LoadResult(state: AuthState, calls: seq<Call>, urlStripped: bool)

  /** A successful session lookup: user and session are recorded, then the
      profile is refreshed and verification re-checked. */
  function Resolve(st: AuthState, token: string, user: Option<User>, inputs: LoadInputs): (r: (AuthState, seq<Call>))
    ensures r.0.user == user && r.0.session == Some(Session(token, None))
    ensures r.0.store == st.store
  {
    var st1 := st.(user := user, session := Some(Session(token, None)), emailVerified := Some(VerifiedFlag(user)));
    var st2 := RefreshProfile(st1, inputs.profile);
    var (st3, _) := CheckEmailVerification(st2, inputs.check);
    var calls := (if user.Some? then [ProfileFetch] else []) + (if Truthy(LocalToken(st2)) then [VerificationCheck] else []);
    (st3, calls)
  }

  /** `checkSession` on mount. A `token` query parameter wins: it is stored,
      stripped from the URL and looked up. Otherwise the stored token is
      looked up; with no token there is no call at all. */
  function CheckSession(st: AuthState, urlToken: Option<string>, inputs: LoadInputs): (r: LoadResult)
    ensures !r.state.loading
    ensures r.urlStripped <==> Truthy(urlToken)
    ensures Truthy(urlToken) ==>
      LocalToken(r.state) == urlToken && |r.calls| >= 1 && r.calls[0] == SessionLookup(urlToken.value)
    ensures !Truthy(urlToken) && !Truthy(LocalToken(st)) ==>
      r.calls == [] && r.state == st.(loading := false)
    ensures !Truthy(urlToken) && Truthy(LocalToken(st)) && !inputs.lookup.Ok? ==>
      r.state == ClearSession(st).(loading := false) && r.calls == [SessionLookup(LocalToken(st).value)]
    ensures Truthy(urlToken) && !inputs.lookup.Ok? ==>
      r.state == SetLocal(st, AuthTokenKey, urlToken.value).(loading := false)
    ensures inputs.lookup.Ok? && (Truthy(urlToken) || Truthy(LocalToken(st))) ==>
      r.state.user == inputs.lookup.body && r.state.session.Some?
  {
    if Truthy(urlToken) then
      var t := urlToken.value;
      var st1 := SetLocal(st, AuthTokenKey, t);
      match inputs.lookup
      case Ok(user) =>
        var (st2, calls) := Resolve(st1, t, user, inputs);
        LoadResult(st2.(loading := false), [SessionLookup(t)] + calls, true)
      case _ => LoadResult(st1.(loading := false), [SessionLookup(t)], true)
    else if !Truthy(LocalToken(st)) then
      LoadResult(st.(loading := false), [], false)
    else
      var t := LocalToken(st).value;
      match inputs.lookup
      case Ok(user) =>
        var (st2, calls) := Resolve(st, t, user, inputs);
        LoadResult(st2.(loading := false), [SessionLookup(t)] + calls, false)
      case _ => LoadResult(ClearSession(st).(loading := false), [SessionLookup(t)], false)
  }

  // ---------------------------------------------------------------- properties

  /** Re-reading the profile is idempotent for the same answer, and it never
      touches the stores, so a later sign-out clears what it would have
      cleared without it. */
  lemma RefreshProfileStable(st: AuthState, fetched: Response<Profile>)
    ensures RefreshProfile(RefreshProfile(st, fetched), fetched) == RefreshProfile(st, fetched)
    ensures RefreshProfile(st, fetched).store == st.store
    ensures SignOut(RefreshProfile(st, fetched)) == SignOut(st)
  {
  }

  /** A failed sign-in leaves no partial write: state and storage are as before. */
  lemma FailedSignInTouchesNothing(st: AuthState, detail: Option<string>, status: int, check: Response<bool>)
    ensures SignIn(st, HttpError(status, detail), check).0 == st
    ensures SignIn(st, HttpError(status, detail), check).1 == Some(if Truthy(detail) then detail.value else "Failed to sign in")
  {
  }

  /** Signing out always ends in the state `clearSession` produces. */
  lemma SignOutClears(st: AuthState)
    ensures SignOut(st).0 == ClearSession(st)
    ensures ClearSession(ClearSession(st)) == ClearSession(st)
  {
  }

  /** The provider never sets the cookie the route guard reads, so a
      successful sign-in from a cookie-less browser still leaves protected
      pages redirecting to `/login`. */
  lemma SignInInvisibleToGuard(st: AuthState, body: SignInBody, check: Response<bool>)
    requires st.store.cookies == map[]
    ensures body.session.Some? ==>
      LocalToken(SignIn(st, Ok(body), check).0) == Some(body.session.value.accessToken)
    ensures RouteGuard.Middleware("/dashboard", SignIn(st, Ok(body), check).0.store.cookies).Redirect?
  {
    var r := SignIn(st, Ok(body), check).0;
    assert Text.StartsWith("/dashboard", RouteGuard.ProtectedPages[0]);
    RouteGuard.NoPathInBothLists("/dashboard");
  }

  /** Scenario: a valid sign-in that the gateway reports verified ends with
      no error, the verified flag set and a non-empty access token stored. */
  lemma SignInScenario(st: AuthState, user: User)
    requires user.emailVerified == Some(true)
    ensures var r := SignIn(st, Ok(SignInBody(Some(Session("tok", None)), Some(user))), Ok(true));
      && r.1 == None && r.0.emailVerified == Some(true)
      && LocalToken(r.0) == Some("tok")
  {
  }
}
