/**
  The new-password form (`app/reset-password/page.tsx`): which query
  parameter supplies the reset token, the two password checks, the call to
  the reset endpoint and the session it may store.
*/
module ResetPassword {
  import opened Wrappers
  import opened Gateway
  import AuthSession
  import TokenStore

  const MinPasswordLength: nat := 6
  const RecoveryType: string := "recovery"
  const LoginAfterReset: string := "/login?password_reset=success"

  /** The localStorage keys this page writes. */
  const AccessTokenKey: string := "access_token"
  const RefreshTokenKey: string := TokenStore.RefreshTokenKey

  const MismatchMessage: string := "Passwords do not match"
  const ShortMessage: string := "Password must be at least 6 characters long"
  const MissingTokenMessage: string := "Password reset link is invalid or expired. Please request a new one."
  const FailureFallback: string := "Failed to reset password. The link may have expired. Please request a new password reset."

  /** The token the page keeps, from the `access_token`, `type` and `token`
      query parameters: a recovery link's access token first, then `token`,
      then any access token. */
  function SelectToken(accessToken: Option<string>, kind: Option<string>, token: Option<string>): (t: Option<string>)
    ensures t.Some? ==> Truthy(t) && (t == accessToken || t == token)
    ensures t.None? <==> !Truthy(accessToken) && !Truthy(token)
    ensures Truthy(accessToken) && kind == Some(RecoveryType) ==> t == accessToken
    ensures Truthy(token) && kind != Some(RecoveryType) ==> t == token
  {
    if Truthy(accessToken) && kind == Some(RecoveryType) then accessToken
    else if Truthy(token) then token
    else if Truthy(accessToken) then accessToken
    else None
  }

  /** The settled outcome of `authApi.resetPassword`. */
  datatype ResetReply = Reset(session: Option<Session>) | ResetThrew(message: Option<string>)

  /** The form after `handleSubmit` settles, with the localStorage it leaves. */
  datatype ResetState = ResetState(error: Option<string>, success: bool, loading: bool,
                                   calledApi: bool, redirect: Option<string>,
                                   local: map<string, string>)

  /** `handleSubmit`, given the token the page kept and the reply the reset
      endpoint would give. */
  function HandleSubmit(password: string, confirm: string, token: Option<string>,
                        reply: ResetReply, local: map<string, string>): (r: ResetState)
    ensures !r.loading
    ensures r.calledApi <==> password == confirm && |password| >= MinPasswordLength && Truthy(token)
    ensures password != confirm ==> r.error == Some(MismatchMessage)
    ensures password == confirm && |password| < MinPasswordLength ==> r.error == Some(ShortMessage)
    ensures password == confirm && |password| >= MinPasswordLength && !Truthy(token) ==>
      r.error == Some(MissingTokenMessage)
    ensures r.success <==> r.calledApi && reply.Reset?
    ensures r.success <==> r.error.None?
    ensures r.redirect.Some? <==> r.success
    ensures r.redirect.Some? ==> r.redirect.value == LoginAfterReset
    ensures r.calledApi && reply.ResetThrew? ==> r.error == Some(OrElse(reply.message, FailureFallback))
    ensures !(r.success && reply.session.Some?) ==> r.local == local
    ensures r.success && reply.session.Some? ==>
      AccessTokenKey in r.local && r.local[AccessTokenKey] == reply.session.value.accessToken
    ensures r.success && reply.session.Some? && Truthy(reply.session.value.refreshToken) ==>
      RefreshTokenKey in r.local && r.local[RefreshTokenKey] == reply.session.value.refreshToken.value
    ensures r.success && reply.session.Some? && !Truthy(reply.session.value.refreshToken) ==>
      (RefreshTokenKey in r.local <==> RefreshTokenKey in local) &&
      (RefreshTokenKey in local ==> r.local[RefreshTokenKey] == local[RefreshTokenKey])
    ensures forall k :: k in local && k != AccessTokenKey && k != RefreshTokenKey ==>
      k in r.local && r.local[k] == local[k]
  {
    if password != confirm then ResetState(Some(MismatchMessage), false, false, false, None, local)
    else if |password| < MinPasswordLength then ResetState(Some(ShortMessage), false, false, false, None, local)
    else if !Truthy(token) then ResetState(Some(MissingTokenMessage), false, false, false, None, local)
    else
      match reply
      case ResetThrew(m) => ResetState(Some(OrElse(m, FailureFallback)), false, false, true, None, local)
      case Reset(session) =>
        ResetState(None, true, false, true, Some(LoginAfterReset), StoreReturned(local, session))
  }

  /** Stores a returned session under `access_token` (and a truthy refresh
      token under `refresh_token`). */
  function StoreReturned(local: map<string, string>, session: Option<Session>): map<string, string> {
    match session
    case None => local
    case Some(s) =>
      var withAccess := local[AccessTokenKey := s.accessToken];
      if Truthy(s.refreshToken) then withAccess[RefreshTokenKey := s.refreshToken.value] else withAccess
  }

  /** With both parameters present, a recovery link uses its access token and
      any other link the `token` parameter. */
  lemma TokenPrecedence(a: string, t: string, kind: Option<string>)
    requires a != "" && t != ""
    ensures SelectToken(Some(a), kind, Some(t)) == if kind == Some(RecoveryType) then Some(a) else Some(t)
  {
  }

  /** A link without a usable token never reaches the endpoint, whatever is
      typed, and leaves storage alone. */
  lemma NoTokenNoCall(accessToken: Option<string>, kind: Option<string>, token: Option<string>,
                      password: string, confirm: string, reply: ResetReply, local: map<string, string>)
    requires !Truthy(accessToken) && !Truthy(token)
    ensures var r := HandleSubmit(password, confirm, SelectToken(accessToken, kind, token), reply, local);
      !r.calledApi && !r.success && r.local == local
  {
  }

  /** The session stored after a reset lands under `access_token`, which is
      not the `auth_token` key the auth provider reads: the provider's view
      of the stored token is what it was before the reset. */
  lemma StoredSessionUnseenByProvider(password: string, token: string, session: Session,
                                      local: map<string, string>)
    requires |password| >= MinPasswordLength && token != ""
    ensures var r := HandleSubmit(password, password, Some(token), Reset(Some(session)), local);
      r.success && r.local[AccessTokenKey] == session.accessToken &&
      TokenStore.Lookup(r.local, AuthSession.AuthTokenKey) == TokenStore.Lookup(local, AuthSession.AuthTokenKey)
  {
  }
}
