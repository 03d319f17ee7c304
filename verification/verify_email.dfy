/**
  The email verification page (`app/verify-email/page.tsx`): what the page
  does on load for each kind of link, the verification call with its one
  retry, the status check for a signed-in user, and the resend button.
*/
module VerifyEmail {
  import opened Wrappers
  import opened Gateway
  import AuthSession
  import TokenStore

  const EmailType: string := "email"
  const SignupType: string := "signup"
  const CallbackPrefix: string := "/auth/callback?code="

  /** A browser navigation: `router.push` keeps the page state, a
      `window.location.href` assignment reloads the application. */
  datatype Nav = Push(path: string) | Reload(path: string)

  /** `searchParams.get('type') || 'email'`. */
  function LinkType(kind: Option<string>): (t: string)
    ensures Truthy(kind) ==> t == kind.value
    ensures !Truthy(kind) ==> t == EmailType
    ensures t != ""
  {
    OrElse(kind, EmailType)
  }

  predicate Verifiable(t: string) {
    t == EmailType || t == SignupType
  }

  /** What the load effect starts. */
  datatype Effect =
    | StoreAndReload(accessToken: string)
    | ToCallback(url: string)
    | StartVerification(token: string, tokenHash: Option<string>, kind: string)
    | StartStatusCheck(email: string)
    | ToLogin
    | Idle

  /** The load effect, from the `token`, `token_hash`, `type`, `access_token`
      and `code` query parameters and the provider's user. */
  function OnLoad(token: Option<string>, tokenHash: Option<string>, kind: Option<string>,
                  accessToken: Option<string>, code: Option<string>, user: Option<User>): (e: Effect)
    ensures e.StoreAndReload? <==> Truthy(accessToken)
    ensures e.StoreAndReload? ==> e.accessToken == accessToken.value
    ensures e.ToCallback? <==> !Truthy(accessToken) && Truthy(code)
    ensures e.ToCallback? ==> e.url == CallbackPrefix + code.value
    ensures e.StartVerification? <==>
      !Truthy(accessToken) && !Truthy(code) && Truthy(token) && Verifiable(LinkType(kind))
    ensures e.StartVerification? ==>
      e.token == token.value && e.kind == LinkType(kind) && (e.tokenHash.Some? <==> Truthy(tokenHash)) &&
      (e.tokenHash.Some? ==> e.tokenHash == tokenHash)
    ensures e.StartStatusCheck? <==>
      !Truthy(accessToken) && !Truthy(code) && !(Truthy(token) && Verifiable(LinkType(kind))) &&
      user.Some? && Truthy(user.value.email)
    ensures e.StartStatusCheck? ==> e.email == user.value.email.value
    ensures e.ToLogin? <==>
      !Truthy(accessToken) && !Truthy(code) && !Truthy(token) && !(user.Some? && Truthy(user.value.email))
  {
    if Truthy(accessToken) then StoreAndReload(accessToken.value)
    else if Truthy(code) then ToCallback(CallbackPrefix + code.value)
    else if Truthy(token) && Verifiable(LinkType(kind)) then
      StartVerification(token.value, if Truthy(tokenHash) then tokenHash else None, LinkType(kind))
    else if user.Some? && Truthy(user.value.email) then StartStatusCheck(user.value.email.value)
    else if !Truthy(token) then ToLogin
    else Idle
  }

  /** What the access-token branch does to storage and where it goes. */
  function ApplyAccessToken(local: map<string, string>, accessToken: string): (r: (map<string, string>, Nav))
    ensures TokenStore.Lookup(r.0, AuthSession.AuthTokenKey) == Some(accessToken)
    ensures forall k :: k in local && k != AuthSession.AuthTokenKey ==> k in r.0 && r.0[k] == local[k]
    ensures r.1 == Reload("/dashboard")
  {
    (local[AuthSession.AuthTokenKey := accessToken], Reload("/dashboard"))
  }

  /** The settled outcome of one `authApi.verifyEmail` call; a thrown error
      is caught and reads as `AttemptFailed`. */
  datatype Attempt = Verified(user: Option<User>, session: Option<Session>) | AttemptFailed

  /** The page once `handleEmailVerification` settles. `attempts` lists the
      `type` sent with each call, in order. */
  datatype Verification = Verification(attempts: seq<string>, error: Option<string>, success: Option<string>,
                                       verified: bool, loading: bool, local: map<string, string>,
                                       nav: Option<Nav>)

  const BothFailedMessage: string := "Failed to verify email with both type=email and type=signup. The link may have expired."
  const VerifiedRedirecting: string := "Email verified successfully! Redirecting to dashboard..."
  const SessionCreated: string := "Session created. Checking verification status..."
  const VerifiedPleaseLogIn: string := "Email verified successfully! Please log in to continue."
  const StatusUnclear: string := "Email verification completed but verification status is unclear. Please try logging in."

  /** The result the page goes on with: the first attempt, else the `signup`
      retry when the first was an `email` attempt. */
  function Settled(kind: string, first: Attempt, second: Attempt): (a: Attempt)
    ensures first.Verified? ==> a == first
    ensures first.AttemptFailed? && kind == EmailType ==> a == second
    ensures first.AttemptFailed? && kind != EmailType ==> a.AttemptFailed?
  {
    if first.Verified? then first
    else if kind == EmailType then second
    else AttemptFailed
  }

  /** Stores a returned session under the keys the auth provider reads. */
  function StoreSession(local: map<string, string>, s: Session): (r: map<string, string>)
    ensures TokenStore.Lookup(r, AuthSession.AuthTokenKey) == Some(s.accessToken)
    ensures Truthy(s.refreshToken) ==>
      TokenStore.Lookup(r, AuthSession.RefreshTokenKey) == s.refreshToken
    ensures !Truthy(s.refreshToken) ==>
      TokenStore.Lookup(r, AuthSession.RefreshTokenKey) == TokenStore.Lookup(local, AuthSession.RefreshTokenKey)
    ensures forall k :: k in local && k != AuthSession.AuthTokenKey && k != AuthSession.RefreshTokenKey ==>
      k in r && r[k] == local[k]
  {
    var withAccess := local[AuthSession.AuthTokenKey := s.accessToken];
    if Truthy(s.refreshToken) then withAccess[AuthSession.RefreshTokenKey := s.refreshToken.value]
    else withAccess
  }

  /** `handleEmailVerification`, given the outcome of the first call and of
      the retry the page would make. */
  function HandleVerification(kind: string, first: Attempt, second: Attempt,
                              local: map<string, string>): (v: Verification)
    ensures !v.loading
    ensures v.attempts == if first.AttemptFailed? && kind == EmailType then [kind, SignupType] else [kind]
    ensures v.error.Some? <==> v.success.None?
    ensures Settled(kind, first, second).AttemptFailed? ==>
      v.error == Some(BothFailedMessage) && v.local == local && v.nav.None? && !v.verified
    ensures v.verified <==> Settled(kind, first, second).Verified? && VerifiedFlag(Settled(kind, first, second).user)
    ensures Settled(kind, first, second).Verified? && Settled(kind, first, second).session.Some? ==>
      v.local == StoreSession(local, Settled(kind, first, second).session.value) &&
      v.nav == Some(if v.verified then Push("/dashboard") else Reload("/dashboard"))
    ensures Settled(kind, first, second).Verified? && Settled(kind, first, second).session.None? ==>
      v.local == local && (v.nav == Some(Push("/login")) <==> v.verified) && (v.nav.None? <==> !v.verified)
    ensures v.error == Some(StatusUnclear) <==>
      Settled(kind, first, second).Verified? && Settled(kind, first, second).session.None? && !v.verified
  {
    var attempts := if first.AttemptFailed? && kind == EmailType then [kind, SignupType] else [kind];
    match Settled(kind, first, second)
    case AttemptFailed => Verification(attempts, Some(BothFailedMessage), None, false, false, local, None)
    case Verified(user, session) =>
      var ok := VerifiedFlag(user);
      if session.Some? then
        var local' := StoreSession(local, session.value);
        if ok then Verification(attempts, None, Some(VerifiedRedirecting), true, false, local', Some(Push("/dashboard")))
        else Verification(attempts, None, Some(SessionCreated), false, false, local', Some(Reload("/dashboard")))
      else if ok then Verification(attempts, None, Some(VerifiedPleaseLogIn), true, false, local, Some(Push("/login")))
      else Verification(attempts, Some(StatusUnclear), None, false, false, local, None)
  }

  /** `checkVerificationStatus` for a signed-in user: `check` is the flag the
      status endpoint returns, None when the call throws (the error is only
      logged). Returns whether the page shows "verified" and where it goes. */
  function CheckStatus(user: Option<User>, check: Option<bool>): (r: (bool, Option<Nav>))
    ensures r.0 <==> user.Some? && check == Some(true)
    ensures r.1.Some? <==> r.0
    ensures r.1.Some? ==> r.1.value == Push("/dashboard")
  {
    if user.Some? && check == Some(true) then (true, Some(Push("/dashboard"))) else (false, None)
  }

  /** What the page reads from a status call that settled as `check`: the
      flag on success, nothing when the call failed. */
  function Checked(check: Response<bool>): Option<bool> {
    if check.Ok? then Some(check.body) else None
  }

  /** For a signed-in user with a stored token, the page and the provider
      read the same status answer the same way: the page shows "verified"
      and moves to the dashboard exactly when the provider records the
      email as verified. */
  lemma CheckStatusAgreesWithProvider(st: AuthSession.AuthState, check: Response<bool>)
    requires st.user.Some? && Truthy(AuthSession.LocalToken(st))
    ensures var (verified, nav) := CheckStatus(st.user, Checked(check));
      var (recorded, flag) := AuthSession.CheckEmailVerification(st, check);
      && verified == flag
      && (nav == Some(Push("/dashboard")) <==> recorded.emailVerified == Some(true))
  {
    var (recorded, flag) := AuthSession.CheckEmailVerification(st, check);
    assert flag <==> check == Ok(true);
    assert Checked(check) == Some(true) <==> check == Ok(true);
  }

  const EmailRequired: string := "Email address is required"
  const ResentMessage: string := "Verification email sent! Please check your inbox."
  const ResendFallback: string := "Failed to resend verification email. Please try again."

  /** The banner messages of the page. */
  datatype Messages = Messages(error: Option<string>, success: Option<string>)

  /** `handleResendVerification`: the typed email, else the user's, must be
      truthy; the guard sets the error and leaves the success banner as it
      was. Returns the banners and the address the resend call went to. */
  function Resend(shown: Messages, email: string, user: Option<User>, reply: Outcome): (r: (Messages, Option<string>))
    ensures var target := if email != "" then Some(email) else if user.Some? then user.value.email else None;
      (r.1.Some? <==> Truthy(target)) && (r.1.Some? ==> r.1 == target)
    ensures email != "" ==> r.1 == Some(email)
    ensures r.1.None? ==> r.0 == shown.(error := Some(EmailRequired))
    ensures r.1.Some? && reply.Resolved? ==> r.0 == Messages(None, Some(ResentMessage))
    ensures r.1.Some? && reply.Rejected? ==> r.0 == Messages(Some(OrElse(reply.message, ResendFallback)), None)
  {
    var target := if email != "" then Some(email) else if user.Some? then user.value.email else None;
    if !Truthy(target) then (shown.(error := Some(EmailRequired)), None)
    else
      match reply
      case Resolved => (Messages(None, Some(ResentMessage)), target)
      case Rejected(m) => (Messages(Some(OrElse(m, ResendFallback)), None), target)
  }

  /** `handleSignOut`: the provider signs out, then the page opens `/login`. */
  function SignOut(st: AuthSession.AuthState): (r: (AuthSession.AuthState, Nav))
    ensures r.0.user.None? && r.0.session.None?
    ensures AuthSession.LocalToken(r.0).None?
    ensures r.1 == Push("/login")
  {
    (AuthSession.SignOut(st).0, Push("/login"))
  }

  /** At most two calls: the retry is made only after a failed `email`
      attempt, and it always asks for `signup`. */
  lemma AtMostOneRetry(kind: string, first: Attempt, second: Attempt, local: map<string, string>)
    ensures var v := HandleVerification(kind, first, second, local);
      1 <= |v.attempts| <= 2 && v.attempts[0] == kind &&
      (|v.attempts| == 2 <==> first.AttemptFailed? && kind == EmailType) &&
      (|v.attempts| == 2 ==> v.attempts[1] == SignupType)
  {
  }

  /** A failed `email` attempt followed by a good `signup` retry ends exactly
      as if the first call had returned the retry's result. */
  lemma RetryRescues(first: Attempt, second: Attempt, other: Attempt, local: map<string, string>)
    requires first.AttemptFailed? && second.Verified?
    ensures HandleVerification(EmailType, first, other, local).attempts == [EmailType, SignupType]
    ensures HandleVerification(EmailType, first, second, local) ==
            HandleVerification(EmailType, second, other, local).(attempts := [EmailType, SignupType])
  {
  }

  /** A `signup` link is tried once: its failure is final, whatever a retry
      would have returned. */
  lemma SignupLinkNoRetry(first: Attempt, second: Attempt, local: map<string, string>)
    requires first.AttemptFailed?
    ensures HandleVerification(SignupType, first, second, local).error == Some(BothFailedMessage)
    ensures HandleVerification(SignupType, first, second, local).attempts == [SignupType]
  {
  }

  /** A session returned by verification is stored where the auth provider
      reads it, so the provider's next load sees the token. */
  lemma VerifiedSessionVisibleToProvider(kind: string, first: Attempt, second: Attempt,
                                         local: map<string, string>, st: AuthSession.AuthState)
    requires Settled(kind, first, second).Verified? && Settled(kind, first, second).session.Some?
    ensures var v := HandleVerification(kind, first, second, local);
      AuthSession.LocalToken(st.(store := st.store.(local := v.local))) ==
        Some(Settled(kind, first, second).session.value.accessToken)
  {
  }

  /** An access-token link wins over every other parameter and over the
      signed-in user. */
  lemma AccessTokenFirst(token: Option<string>, tokenHash: Option<string>, kind: Option<string>,
                         a: string, code: Option<string>, user: Option<User>)
    requires a != ""
    ensures OnLoad(token, tokenHash, kind, Some(a), code, user) == StoreAndReload(a)
  {
  }
}
