/**
  The user-facing error classifier (`lib/error-messages.ts`): an ordered list
  of case-insensitive substring rules, some of them restricted to the login,
  signup or OAuth context, ending in a generic fallback.
*/
module ErrorMessages {
  import opened Wrappers
  import opened Text

  /** The fields of the thrown value the classifier looks at. `shown` is
      `String(error)`, the value's own string form. */
  datatype ErrorInput = ErrorInput(message: Option<string>, detail: Option<string>, shown: string,
                                   code: Option<string>, status: Option<int>)

  datatype Context = Login | Signup | OAuth

  datatype ErrorInfo = ErrorInfo(userMessage: string, actionMessage: string)

  /** The outcome of classification, one per rule of the source plus the fallback. */
  datatype Kind =
    | Network
    | InvalidCredentials | AccountNotFound | EmailUnverified | RateLimited
    | AccountExists | WeakPassword | InvalidEmail
    | OAuthCancelled | PopupBlocked
    | Timeout | ServerError | BadRequest | Unauthorized | Forbidden
    | Fallback

  const DefaultText: string := "An unexpected error occurred"

  /** `error?.message || error?.detail || String(error) || 'An unexpected error occurred'`. */
  function RawText(e: ErrorInput): (t: string)
    ensures t != ""
    ensures Truthy(e.message) ==> t == e.message.value
    ensures !Truthy(e.message) && Truthy(e.detail) ==> t == e.detail.value
  {
    OrElse(e.message, OrElse(e.detail, if e.shown != "" then e.shown else DefaultText))
  }

  predicate AnyOf(s: string, ps: seq<string>) {
    exists i :: 0 <= i < |ps| && Contains(s, ps[i])
  }

  const NetworkWords: seq<string> := ["network", "fetch", "connection", "failed to fetch"]
  const InvalidCredentialsWords: seq<string> := ["invalid", "incorrect", "wrong password", "invalid credentials", "email or password"]
  const AccountNotFoundWords: seq<string> := ["user not found", "does not exist"]
  const EmailUnverifiedWords: seq<string> := ["email not verified", "email verification"]
  const RateLimitedWords: seq<string> := ["too many requests", "rate limit"]
  const AccountExistsWords: seq<string> := ["already exists", "already registered", "user already", "email already"]
  const InvalidEmailWords: seq<string> := ["invalid email", "email format"]
  const OAuthCancelledWords: seq<string> := ["cancelled", "denied"]
  const PopupBlockedWords: seq<string> := ["popup", "blocked"]
  const TimeoutWords: seq<string> := ["timeout", "timed out"]
  const ServerErrorWords: seq<string> := ["internal server error", "server error", "500", "502", "503"]
  const BadRequestWords: seq<string> := ["bad request"]
  const UnauthorizedWords: seq<string> := ["unauthorized"]
  const ForbiddenWords: seq<string> := ["forbidden"]
  const WeaknessWords: seq<string> := ["weak", "short", "minimum"]

  predicate IsNetwork(lower: string, e: ErrorInput) {
    AnyOf(lower, NetworkWords) ||
    e.code == Some("ECONNREFUSED") || e.code == Some("ENOTFOUND")
  }

  predicate IsWeakPassword(lower: string) {
    Contains(lower, "password") && AnyOf(lower, WeaknessWords)
  }

  predicate StatusIs(e: ErrorInput, code: int) {
    e.status == Some(code)
  }

  /** `getErrorMessage`'s decision, as its sequence of early returns. */
  function Classify(e: ErrorInput, ctx: Context): Kind {
    var lower := ToLower(RawText(e));
    if IsNetwork(lower, e) then Network
    else if ctx == Login && AnyOf(lower, InvalidCredentialsWords) then InvalidCredentials
    else if ctx == Login && AnyOf(lower, AccountNotFoundWords) then AccountNotFound
    else if ctx == Login && AnyOf(lower, EmailUnverifiedWords) then EmailUnverified
    else if ctx == Login && AnyOf(lower, RateLimitedWords) then RateLimited
    else if ctx == Signup && AnyOf(lower, AccountExistsWords) then AccountExists
    else if ctx == Signup && IsWeakPassword(lower) then WeakPassword
    else if ctx == Signup && AnyOf(lower, InvalidEmailWords) then InvalidEmail
    else if ctx == OAuth && AnyOf(lower, OAuthCancelledWords) then OAuthCancelled
    else if ctx == OAuth && AnyOf(lower, PopupBlockedWords) then PopupBlocked
    else if AnyOf(lower, TimeoutWords) then Timeout
    else if AnyOf(lower, ServerErrorWords) ||
            (e.status.Some? && e.status.value >= 500) then ServerError
    else if Contains(lower, "bad request") || StatusIs(e, 400) then BadRequest
    else if Contains(lower, "unauthorized") || StatusIs(e, 401) then Unauthorized
    else if Contains(lower, "forbidden") || StatusIs(e, 403) then Forbidden
    else Fallback
  }

  // The fixed wording of each outcome.
  const NetworkInfo: ErrorInfo := ErrorInfo("Unable to connect to our servers", "Please check your internet connection and try again in a moment.")
  const InvalidCredentialsInfo: ErrorInfo := ErrorInfo("Invalid email or password", "Please check your credentials and try again. If you forgot your password, use the \"Forgot Password\" link.")
  const AccountNotFoundInfo: ErrorInfo := ErrorInfo("Account not found", "No account exists with this email. Please sign up to create a new account.")
  const EmailUnverifiedInfo: ErrorInfo := ErrorInfo("Please verify your email first", "Check your inbox for a verification email and click the link to verify your account.")
  const RateLimitedInfo: ErrorInfo := ErrorInfo("Too many login attempts", "Please wait a few minutes before trying again.")
  const AccountExistsInfo: ErrorInfo := ErrorInfo("An account with this email already exists", "Please log in instead, or use a different email address to create a new account.")
  const WeakPasswordInfo: ErrorInfo := ErrorInfo("Password is too weak", "Please use a password that is at least 6 characters long.")
  const InvalidEmailInfo: ErrorInfo := ErrorInfo("Invalid email address", "Please enter a valid email address.")
  const OAuthCancelledInfo: ErrorInfo := ErrorInfo("Sign in was cancelled", "You can try again or use email and password to sign in.")
  const PopupBlockedInfo: ErrorInfo := ErrorInfo("Popup was blocked", "Please allow popups for this site and try again.")
  const TimeoutInfo: ErrorInfo := ErrorInfo("Request timed out", "The request took too long. Please try again.")
  const ServerErrorInfo: ErrorInfo := ErrorInfo("Something went wrong on our end", "We're working to fix this. Please try again in a few minutes.")
  const BadRequestInfo: ErrorInfo := ErrorInfo("Invalid request", "Please check your information and try again.")
  const UnauthorizedInfo: ErrorInfo := ErrorInfo("Session expired", "Please log in again to continue.")
  const ForbiddenInfo: ErrorInfo := ErrorInfo("Access denied", "You don't have permission to perform this action.")
  const FallbackInfo: ErrorInfo := ErrorInfo("Something went wrong", "Please try again. If the problem persists, contact support.")

  function Info(k: Kind): (i: ErrorInfo)
    ensures i.userMessage != "" && i.actionMessage != ""
  {
    match k
    case Network => NetworkInfo
    case InvalidCredentials => InvalidCredentialsInfo
    case AccountNotFound => AccountNotFoundInfo
    case EmailUnverified => EmailUnverifiedInfo
    case RateLimited => RateLimitedInfo
    case AccountExists => AccountExistsInfo
    case WeakPassword => WeakPasswordInfo
    case InvalidEmail => InvalidEmailInfo
    case OAuthCancelled => OAuthCancelledInfo
    case PopupBlocked => PopupBlockedInfo
    case Timeout => TimeoutInfo
    case ServerError => ServerErrorInfo
    case BadRequest => BadRequestInfo
    case Unauthorized => UnauthorizedInfo
    case Forbidden => ForbiddenInfo
    case Fallback => FallbackInfo
  }

  /** `getErrorMessage(error, context)`: every result carries both messages. */
  function GetErrorMessage(e: ErrorInput, ctx: Context): (i: ErrorInfo)
    ensures i.userMessage != "" && i.actionMessage != ""
  {
    Info(Classify(e, ctx))
  }

  // ---------------------------------------------------------------------------
  // Reference definition: a rule table scanned in order.

  /** The context a rule is restricted to, if any. */
  function RuleContext(k: Kind): Option<Context> {
    match k
    case InvalidCredentials | AccountNotFound | EmailUnverified | RateLimited => Some(Login)
    case AccountExists | WeakPassword | InvalidEmail => Some(Signup)
    case OAuthCancelled | PopupBlocked => Some(OAuth)
    case _ => None
  }

  /** The substrings that trigger a rule (the weak-password rule is the one
      conjunctive rule and is handled separately). */
  function Triggers(k: Kind): seq<string> {
    match k
    case Network => NetworkWords
    case InvalidCredentials => InvalidCredentialsWords
    case AccountNotFound => AccountNotFoundWords
    case EmailUnverified => EmailUnverifiedWords
    case RateLimited => RateLimitedWords
    case AccountExists => AccountExistsWords
    case WeakPassword => []
    case InvalidEmail => InvalidEmailWords
    case OAuthCancelled => OAuthCancelledWords
    case PopupBlocked => PopupBlockedWords
    case Timeout => TimeoutWords
    case ServerError => ServerErrorWords
    case BadRequest => BadRequestWords
    case Unauthorized => UnauthorizedWords
    case Forbidden => ForbiddenWords
    case Fallback => []
  }

  /** Whether the input's code or status alone fires a rule. */
  predicate FieldTrigger(k: Kind, e: ErrorInput) {
    match k
    case Network => e.code == Some("ECONNREFUSED") || e.code == Some("ENOTFOUND")
    case ServerError => e.status.Some? && e.status.value >= 500
    case BadRequest => StatusIs(e, 400)
    case Unauthorized => StatusIs(e, 401)
    case Forbidden => StatusIs(e, 403)
    case _ => false
  }

  predicate Applies(k: Kind, ctx: Context, lower: string, e: ErrorInput) {
    (RuleContext(k).None? || RuleContext(k) == Some(ctx)) &&
    (AnyOf(lower, Triggers(k)) || FieldTrigger(k, e) || (k == WeakPassword && IsWeakPassword(lower)))
  }

  /** The rules in the order the source checks them. */
  const RuleOrder: seq<Kind> := [
    Network, InvalidCredentials, AccountNotFound, EmailUnverified, RateLimited,
    AccountExists, WeakPassword, InvalidEmail, OAuthCancelled, PopupBlocked,
    Timeout, ServerError, BadRequest, Unauthorized, Forbidden
  ]

  /** Which rows of the table fire for the input, in table order. */
  function Firing(ctx: Context, lower: string, e: ErrorInput): (f: seq<bool>)
    ensures |f| == |RuleOrder|
    ensures forall j :: 0 <= j < |f| ==> f[j] == Applies(RuleOrder[j], ctx, lower, e)
  {
    seq(|RuleOrder|, j requires 0 <= j < |RuleOrder| => Applies(RuleOrder[j], ctx, lower, e))
  }

  /** The first position at or after `i` holding `true`, or `|f|` if none does. */
  function FirstTrue(f: seq<bool>, i: nat): (j: nat)
    requires i <= |f|
    ensures i <= j <= |f|
    ensures j < |f| ==> f[j]
    ensures forall m :: i <= m < j ==> !f[m]
    decreases |f| - i
  {
    if i == |f| || f[i] then i else FirstTrue(f, i + 1)
  }

  /** The reference classifier: the first row of the table that fires. */
  function FirstMatch(ctx: Context, lower: string, e: ErrorInput): Kind {
    var j := FirstTrue(Firing(ctx, lower, e), 0);
    if j < |RuleOrder| then RuleOrder[j] else Fallback
  }

  /** The classifier is the first rule of the table that applies. */
  lemma ClassifyIsFirstMatch(e: ErrorInput, ctx: Context)
    ensures Classify(e, ctx) == FirstMatch(ctx, ToLower(RawText(e)), e)
  {
    var lower := ToLower(RawText(e));
    ClassifyIsChain(e, ctx);
    FirstMatchIsChain(ctx, lower, e);
  }

  /** The table scan written out row by row. */
  function Chain(ctx: Context, lower: string, e: ErrorInput): Kind {
    if Applies(Network, ctx, lower, e) then Network
    else if Applies(InvalidCredentials, ctx, lower, e) then InvalidCredentials
    else if Applies(AccountNotFound, ctx, lower, e) then AccountNotFound
    else if Applies(EmailUnverified, ctx, lower, e) then EmailUnverified
    else if Applies(RateLimited, ctx, lower, e) then RateLimited
    else if Applies(AccountExists, ctx, lower, e) then AccountExists
    else if Applies(WeakPassword, ctx, lower, e) then WeakPassword
    else if Applies(InvalidEmail, ctx, lower, e) then InvalidEmail
    else if Applies(OAuthCancelled, ctx, lower, e) then OAuthCancelled
    else if Applies(PopupBlocked, ctx, lower, e) then PopupBlocked
    else if Applies(Timeout, ctx, lower, e) then Timeout
    else if Applies(ServerError, ctx, lower, e) then ServerError
    else if Applies(BadRequest, ctx, lower, e) then BadRequest
    else if Applies(Unauthorized, ctx, lower, e) then Unauthorized
    else if Applies(Forbidden, ctx, lower, e) then Forbidden
    else Fallback
  }

  lemma FirstMatchIsChain(ctx: Context, lower: string, e: ErrorInput)
    ensures FirstMatch(ctx, lower, e) == Chain(ctx, lower, e)
  {
    var f := Firing(ctx, lower, e);
    FirstTrueUnrolled(f);
  }

  lemma FirstTrueUnrolled(f: seq<bool>)
    requires |f| == 15
    ensures FirstTrue(f, 0) == if f[0] then 0 else if f[1] then 1 else if f[2] then 2 else if f[3] then 3 else if f[4] then 4 else if f[5] then 5 else if f[6] then 6 else if f[7] then 7 else if f[8] then 8 else if f[9] then 9 else if f[10] then 10 else if f[11] then 11 else if f[12] then 12 else if f[13] then 13 else if f[14] then 14 else 15
  {
    assert FirstTrue(f, 15) == 15;
    assert FirstTrue(f, 14) == if f[14] then 14 else FirstTrue(f, 15);
    assert FirstTrue(f, 13) == if f[13] then 13 else FirstTrue(f, 14);
    assert FirstTrue(f, 12) == if f[12] then 12 else FirstTrue(f, 13);
    assert FirstTrue(f, 11) == if f[11] then 11 else FirstTrue(f, 12);
    assert FirstTrue(f, 10) == if f[10] then 10 else FirstTrue(f, 11);
    assert FirstTrue(f, 9) == if f[9] then 9 else FirstTrue(f, 10);
    assert FirstTrue(f, 8) == if f[8] then 8 else FirstTrue(f, 9);
    assert FirstTrue(f, 7) == if f[7] then 7 else FirstTrue(f, 8);
    assert FirstTrue(f, 6) == if f[6] then 6 else FirstTrue(f, 7);
    assert FirstTrue(f, 5) == if f[5] then 5 else FirstTrue(f, 6);
    assert FirstTrue(f, 4) == if f[4] then 4 else FirstTrue(f, 5);
    assert FirstTrue(f, 3) == if f[3] then 3 else FirstTrue(f, 4);
    assert FirstTrue(f, 2) == if f[2] then 2 else FirstTrue(f, 3);
    assert FirstTrue(f, 1) == if f[1] then 1 else FirstTrue(f, 2);
    assert FirstTrue(f, 0) == if f[0] then 0 else FirstTrue(f, 1);
  }

  lemma ClassifyIsChain(e: ErrorInput, ctx: Context)
    ensures Classify(e, ctx) == Chain(ctx, ToLower(RawText(e)), e)
  {
    var lower := ToLower(RawText(e));
    GenericRows(ctx, lower, e);
    LoginRows(ctx, lower, e);
    SignupRows(ctx, lower, e);
    OAuthRows(ctx, lower, e);
  }

  // Each table row fires exactly when the matching early return does.

  lemma GenericRows(ctx: Context, lower: string, e: ErrorInput)
    ensures Applies(Network, ctx, lower, e) == IsNetwork(lower, e)
    ensures Applies(Timeout, ctx, lower, e) == AnyOf(lower, TimeoutWords)
    ensures Applies(ServerError, ctx, lower, e) ==
      (AnyOf(lower, ServerErrorWords) || (e.status.Some? && e.status.value >= 500))
    ensures Applies(BadRequest, ctx, lower, e) == (Contains(lower, "bad request") || StatusIs(e, 400))
    ensures Applies(Unauthorized, ctx, lower, e) == (Contains(lower, "unauthorized") || StatusIs(e, 401))
    ensures Applies(Forbidden, ctx, lower, e) == (Contains(lower, "forbidden") || StatusIs(e, 403))
  {
    SingleWord(lower, "bad request");
    SingleWord(lower, "unauthorized");
    SingleWord(lower, "forbidden");
  }

  lemma LoginRows(ctx: Context, lower: string, e: ErrorInput)
    ensures Applies(InvalidCredentials, ctx, lower, e) == (ctx == Login && AnyOf(lower, InvalidCredentialsWords))
    ensures Applies(AccountNotFound, ctx, lower, e) == (ctx == Login && AnyOf(lower, AccountNotFoundWords))
    ensures Applies(EmailUnverified, ctx, lower, e) == (ctx == Login && AnyOf(lower, EmailUnverifiedWords))
    ensures Applies(RateLimited, ctx, lower, e) == (ctx == Login && AnyOf(lower, RateLimitedWords))
  {
  }

  lemma SignupRows(ctx: Context, lower: string, e: ErrorInput)
    ensures Applies(AccountExists, ctx, lower, e) == (ctx == Signup && AnyOf(lower, AccountExistsWords))
    ensures Applies(WeakPassword, ctx, lower, e) == (ctx == Signup && IsWeakPassword(lower))
    ensures Applies(InvalidEmail, ctx, lower, e) == (ctx == Signup && AnyOf(lower, InvalidEmailWords))
  {
  }

  lemma OAuthRows(ctx: Context, lower: string, e: ErrorInput)
    ensures Applies(OAuthCancelled, ctx, lower, e) == (ctx == OAuth && AnyOf(lower, OAuthCancelledWords))
    ensures Applies(PopupBlocked, ctx, lower, e) == (ctx == OAuth && AnyOf(lower, PopupBlockedWords))
  {
  }

  lemma SingleWord(s: string, w: string)
    ensures AnyOf(s, [w]) == Contains(s, w)
  {
    if Contains(s, w) {
      assert [w][0] == w;
    }
  }

  /** A network failure is reported as such in every context. */
  lemma NetworkWins(e: ErrorInput, ctx: Context)
    requires IsNetwork(ToLower(RawText(e)), e)
    ensures GetErrorMessage(e, ctx) == Info(Network)
  {
  }

  /** A context rule fires only in its own context. */
  lemma ContextIsolation(e: ErrorInput, ctx: Context)
    ensures RuleContext(Classify(e, ctx)).None? || RuleContext(Classify(e, ctx)) == Some(ctx)
  {
  }

  /** In signup, a message mentioning a weak, short or minimum password is
      reported as a weak password unless an earlier rule applies, and the
      rule never fires without the word "password". */
  lemma WeakPasswordRule(e: ErrorInput)
    ensures var lower := ToLower(RawText(e));
      IsWeakPassword(lower) && !IsNetwork(lower, e) && !Applies(AccountExists, Signup, lower, e) ==>
        Classify(e, Signup) == WeakPassword
    ensures Classify(e, Signup) == WeakPassword ==> Contains(ToLower(RawText(e)), "password")
  {
  }

  /** Matching ignores case: inputs whose texts agree up to case, with the
      same code and status, get the same result. */
  lemma CaseInsensitive(e1: ErrorInput, e2: ErrorInput, ctx: Context)
    requires ToLower(RawText(e1)) == ToLower(RawText(e2))
    requires e1.code == e2.code && e1.status == e2.status
    ensures GetErrorMessage(e1, ctx) == GetErrorMessage(e2, ctx)
  {
  }

  /** The generic fallback is reached exactly when no rule applies, and any
      other outcome is the earliest rule of the table that applies. */
  lemma FallbackIffNoRule(e: ErrorInput, ctx: Context)
    ensures var lower := ToLower(RawText(e));
      Classify(e, ctx) == Fallback <==> forall j :: 0 <= j < |RuleOrder| ==> !Applies(RuleOrder[j], ctx, lower, e)
    ensures var lower := ToLower(RawText(e));
      Classify(e, ctx) != Fallback ==>
        exists j :: 0 <= j < |RuleOrder| && RuleOrder[j] == Classify(e, ctx) && Applies(RuleOrder[j], ctx, lower, e) &&
                    (forall m :: 0 <= m < j ==> !Applies(RuleOrder[m], ctx, lower, e))
  {
    ClassifyIsFirstMatch(e, ctx);
    var lower := ToLower(RawText(e));
    var f := Firing(ctx, lower, e);
    var j := FirstTrue(f, 0);
    assert Fallback !in RuleOrder;
  }
}
