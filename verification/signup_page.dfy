/**
  The sign-up form (`app/signup/page.tsx`): the two client-side password
  checks, the call to the provider's `signUp`, the toasts it raises and the
  follow-up navigation to the verification page.
*/
module SignupPage {
  import opened Wrappers
  import opened Gateway
  import AuthSession
  import opened ErrorMessages

  const MinPasswordLength: nat := 6
  const VerifyEmailRoute: string := "/verify-email"

  const MismatchError: string := "Passwords do not match"
  const MismatchHint: string := "Please make sure both password fields match."
  const ShortError: string := "Password is too short"
  const ShortHint: string := "Please use a password that is at least 6 characters long."
  const CreatedToast: string := "Account created successfully!"
  const CheckInboxHint: string := "Please check your email to verify your account."

  datatype ToastKind = ErrorToast | HintToast | SuccessToast

  /** One toast, in the order the page raises them (a delayed hint comes last). */
  datatype Toast = Toast(kind: ToastKind, text: string)

  /** What `handleSubmit` leaves behind once it settles. `redirect` is the
      route the delayed `router.push` opens. */
  datatype Submission = Submission(toasts: seq<Toast>, loading: bool, success: bool,
                                   calledSignUp: bool, redirect: Option<string>)

  /** The error object `signUp` resolves with is `{ message }`: a plain
      object, so its string form is `[object Object]`. */
  function ReportedError(message: string): ErrorInput {
    ErrorInput(Some(message), None, "[object Object]", None, None)
  }

  /** The toasts for a classified failure: the user message now, the action
      hint after a delay. */
  function FailureToasts(message: string): seq<Toast> {
    var info := GetErrorMessage(ReportedError(message), Signup);
    [Toast(ErrorToast, info.userMessage), Toast(HintToast, info.actionMessage)]
  }

  /** `handleSubmit`, given the response the sign-up endpoint would give.
      `signUp` itself never throws, so the page's own `catch` is never taken. */
  function HandleSubmit(st: AuthSession.AuthState, password: string, confirm: string,
                        resp: Response<AuthSession.SignUpBody>): (r: (AuthSession.AuthState, Submission))
    ensures !r.1.loading
    ensures r.1.calledSignUp <==> password == confirm && |password| >= MinPasswordLength
    ensures password != confirm ==>
      r.1.toasts == [Toast(ErrorToast, MismatchError), Toast(HintToast, MismatchHint)]
    ensures password == confirm && |password| < MinPasswordLength ==>
      r.1.toasts == [Toast(ErrorToast, ShortError), Toast(HintToast, ShortHint)]
    ensures !r.1.calledSignUp ==> r.0 == st
    ensures r.1.calledSignUp ==> r.0 == AuthSession.SignUp(st, resp).0
    ensures r.1.success <==> r.1.calledSignUp && resp.Ok?
    ensures r.1.redirect.Some? <==> r.1.success
    ensures r.1.redirect.Some? ==> r.1.redirect.value == VerifyEmailRoute
    ensures r.1.success ==>
      r.1.toasts == [Toast(SuccessToast, CreatedToast), Toast(HintToast, CheckInboxHint)]
    ensures r.1.calledSignUp && !resp.Ok? ==>
      r.1.toasts == FailureToasts(AuthSession.FailureMessage(resp, "Failed to create account"))
    ensures |r.1.toasts| == 2 && r.1.toasts[0].kind != HintToast && r.1.toasts[1].kind == HintToast
    ensures forall i :: 0 <= i < |r.1.toasts| ==> r.1.toasts[i].text != ""
  {
    if password != confirm then
      (st, Submission([Toast(ErrorToast, MismatchError), Toast(HintToast, MismatchHint)], false, false, false, None))
    else if |password| < MinPasswordLength then
      (st, Submission([Toast(ErrorToast, ShortError), Toast(HintToast, ShortHint)], false, false, false, None))
    else
      var (st', err) := AuthSession.SignUp(st, resp);
      match err
      case Some(m) => (st', Submission(FailureToasts(m), false, false, true, None))
      case None =>
        (st', Submission([Toast(SuccessToast, CreatedToast), Toast(HintToast, CheckInboxHint)],
                         false, true, true, Some(VerifyEmailRoute)))
  }

  /** Inputs and buttons are disabled while loading or after success. */
  predicate FormDisabled(s: Submission) {
    s.loading || s.success
  }

  function ButtonLabel(s: Submission): string {
    if s.loading then "Creating account..."
    else if s.success then "Account created!"
    else "Sign Up & Start Evolving"
  }

  /** Once a submission settles, the form stays locked exactly when the
      account was created; every rejected submission leaves it usable. */
  lemma LockedOnlyAfterSuccess(st: AuthSession.AuthState, password: string, confirm: string,
                               resp: Response<AuthSession.SignUpBody>)
    ensures var s := HandleSubmit(st, password, confirm, resp).1;
      FormDisabled(s) <==> password == confirm && |password| >= MinPasswordLength && resp.Ok?
    ensures var s := HandleSubmit(st, password, confirm, resp).1;
      ButtonLabel(s) == "Account created!" <==> FormDisabled(s)
  {
  }

  /** The mismatch check comes first: a short password typed differently
      twice is reported as a mismatch, never as too short. */
  lemma MismatchBeforeLength(st: AuthSession.AuthState, password: string, confirm: string,
                             resp: Response<AuthSession.SignUpBody>)
    requires password != confirm && |password| < MinPasswordLength
    ensures HandleSubmit(st, password, confirm, resp).1.toasts[0] == Toast(ErrorToast, MismatchError)
    ensures !HandleSubmit(st, password, confirm, resp).1.calledSignUp
  {
  }

  /** The provider drops the HTTP status of a failed sign-up: a response
      without `detail` is classified from the fallback text alone, so two
      such responses read the same whatever their statuses, a 500 included. */
  lemma StatusNotReported(st: AuthSession.AuthState, password: string, s1: int, s2: int)
    requires |password| >= MinPasswordLength
    ensures HandleSubmit(st, password, password, HttpError(s1, None)) ==
            HandleSubmit(st, password, password, HttpError(s2, None))
    ensures HandleSubmit(st, password, password, HttpError(s1, None)).1.toasts ==
            FailureToasts("Failed to create account")
  {
  }

  /** The `Error` that `signInWithOAuth` throws: its string form is
      `Error: ` followed by the message. */
  function ThrownError(message: string): ErrorInput {
    ErrorInput(Some(message), None, "Error: " + message, None, None)
  }

  /** `handleOAuthSignIn`: on success the browser leaves for the provider's
      URL and nothing is shown; on failure the error is classified in the
      OAuth context and its two messages are toasted. Returns the URL
      navigated to and the toasts. */
  function HandleOAuthSignIn(resp: Response<AuthSession.OAuthStart>): (r: (Option<string>, seq<Toast>))
    ensures resp.Ok? ==> r == (Some(resp.body.url), [])
    ensures !resp.Ok? ==> r.0.None? && |r.1| == 2
    ensures !resp.Ok? ==>
      var info := GetErrorMessage(ThrownError(AuthSession.SignInWithOAuth(resp).message), OAuth);
      r.1 == [Toast(ErrorToast, info.userMessage), Toast(HintToast, info.actionMessage)]
  {
    match AuthSession.SignInWithOAuth(resp)
    case Success(url) => (Some(url), [])
    case Failure(m) =>
      var info := GetErrorMessage(ThrownError(m), OAuth);
      (None, [Toast(ErrorToast, info.userMessage), Toast(HintToast, info.actionMessage)])
  }

  /** A failed OAuth start is never reported with a login or sign-up
      message. */
  lemma OAuthFailureReadsAsOAuth(message: string)
    ensures var k := Classify(ThrownError(message), OAuth);
      RuleContext(k).None? || RuleContext(k) == Some(OAuth)
  {
    ContextIsolation(ThrownError(message), OAuth);
  }
}
