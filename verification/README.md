# unemployeed-ui-poc: a Dafny model of the client's decision logic

The Next.js client keeps almost all of its behaviour behind a remote gateway. What it
does decide for itself is modelled here, one module per source file:

- the route guard (`middleware.ts`);
- the token store over the cookie jar and localStorage (`lib/auth-storage.ts`);
- the auth provider's state machine (`contexts/AuthContext.tsx`);
- the OAuth callback's redirect decision (`app/auth/callback/route.ts`);
- the diagnostic wizard and its controls (`app/diagnostics/page.tsx`, `components/diagnostics-body.tsx`, `data/diagnostics-data.ts`);
- the ordered error-message classifier (`lib/error-messages.ts`);
- request composition and endpoint paths (`lib/api.ts`);
- the forms of the forgot-password, sign-up, reset-password, verify-email, profile and account pages;
- the roadmap page, the phase strip of `components/main-header.tsx` and the helpers of `components/navbar/Navbar.tsx`.

Every gateway call is an input rather than an effect. `Response<T>` is a body, an HTTP error
with status and detail, or a thrown message. `Outcome` is a resolved or rejected promise.
Navigation is returned as a value. The two browser stores are `map<string, string>`. Shared
pieces live in `Wrappers` (`Option`, `Result`, JavaScript truthiness and `||`), `Text`
(ASCII string operations: lower/upper case, trim over an explicit whitespace set, `split`,
`join`, `includes`, decimal conversion and `parseInt`), `Gateway` (payload shapes) and
`Navigation` (URLs).

Each page handler is a function from the page's state and the awaited results to the settled
state. The operations are paired with partners: a reference definition, an inverse, or a
property that relates several calls. Where a member only computes a value, its row names the
lemma that relates it to another part of the model.

The model follows the code as written, including these points where the code's pieces do not
fit together:

- The provider writes the access token only to localStorage (`auth_token`), while the route
  guard reads only the `auth_token` cookie. A fresh sign-in therefore does not let the guard
  see a session (`AuthSession.SignInInvisibleToGuard`).
- The OAuth callback hands a verified user's token to `/dashboard` in the query, but nothing
  sets the `auth_token` cookie, so the guard sends that request to the login page and the
  token never reaches the provider (`OAuthCallback.VerifiedCallbackLosesToken`). Only the
  `/verify-email` redirect of an unverified user gets through with an empty cookie jar
  (`OAuthCallback.CallbackTokenReachesProvider`).
- The reset-password page stores a returned session under `access_token`, a key the provider
  never reads (`ResetPassword.StoredSessionUnseenByProvider`).
- The sign-up page classifies a failed sign-up without its HTTP status, because the provider
  returns only `{ message }` (`SignupPage.StatusNotReported`).
- The provider's `signUp` never throws, so the page's own `catch` branch cannot be taken.
- The verify-email page reports "Failed to verify email with both type=email and type=signup"
  even when only one attempt was made (a `signup` link).
- `authApi` is imported by several pages but is not defined in `lib/api.ts`, so its results
  are inputs of the page models.

## Model

| member | source | states |
|---|---|---|
| RouteGuard.MatchesPath | middleware.ts:53-55 | a path matches exactly when some pattern is a prefix of it |
| RouteGuard.Middleware | middleware.ts:57-87 | every redirect goes to `/dashboard` or to `/login` carrying the original path as `redirect` |
| RouteGuard.DecisionCases | middleware.ts:62-86 | auth page: with a token go to `/dashboard`, else pass; protected page: without a token go to `/login?redirect=path`, else pass; any other path passes |
| RouteGuard.OnlyAuthTokenConsulted | middleware.ts:38-48 | two cookie jars that agree on `auth_token` get the same decision for every path |
| RouteGuard.NoPathInBothLists | middleware.ts:10-25 | no path matches both an auth page and a protected page |
| RouteGuard.CheckOrderIrrelevant | middleware.ts:62-83 | checking the protected list first gives the same decision for every path and jar |
| RouteGuard.RedirectTargetPasses | middleware.ts:62-83 | the guard lets through the target of any redirect it issues, so redirects never chain |
| RouteGuard.Landing | middleware.ts:62-86 | the page a request ends on is the requested URL exactly when the guard lets it through, else the redirect target; either way the guard passes it |
| RouteGuard.PrefixExamples | middleware.ts:28-33 | `/login-help` counts as an auth page, `/profile/x` as protected, and every public page passes |
| TokenStore.SetCookie | lib/auth-storage.ts:11-24 | path `/`, max-age 432000; `Secure` with `SameSite=Strict` exactly under https or production, else `Lax` |
| TokenStore.ApplyCookie | lib/auth-storage.ts:49-53 | a positive max-age sets the entry; a non-positive one (the delete) removes it |
| TokenStore.StoreAuthTokens | lib/auth-storage.ts:58-78 | the access token goes to both stores; a refresh token or expiry only when truthy, else the old values stay; no other key changes |
| TokenStore.GetTokenExpiresAt | lib/auth-storage.ts:111-127 | the cookie's integer when it parses, otherwise localStorage's |
| TokenStore.StoreThenGet | lib/auth-storage.ts:58-127 | after storing with a truthy refresh token and expiry, all three getters return the stored values, and still do with the cookie jar emptied |
| TokenStore.CookieWins | lib/auth-storage.ts:83-106 | a truthy cookie value wins over localStorage |
| TokenStore.ExpiryFallsBackOnGarbage | lib/auth-storage.ts:114-124 | an expiry cookie containing no digit (such as "soon") does not parse, so the localStorage value is read instead |
| TokenStore.ExpiryDecision | lib/auth-storage.ts:132-139 | after storing a non-zero expiry the token counts as expired exactly when the expiry is before now plus 300000 ms; with no expiry in either store it never does |
| TokenStore.ClearAuthTokens | lib/auth-storage.ts:144-156 | the three keys are absent from both stores afterwards and every other entry stays |
| TokenStore.ClearThenGet | lib/auth-storage.ts:144-156 | after clearing, every getter returns nothing and the token is not expired |
| TokenStore.StripSpaces | lib/auth-storage.ts:37 | only leading spaces are removed, and the result starts with a non-space |
| TokenStore.GetCookieOfRendered | lib/auth-storage.ts:29-44 | on a rendered cookie string the parser returns the value of the first entry with that name |
| TokenStore.GetCookieReadsJar | lib/auth-storage.ts:29-44 | on the string rendered from a jar, the parser agrees with a lookup in that jar |
| AuthSession.StoreSession | contexts/AuthContext.tsx:57-66 | writes `auth_token`, and `refresh_token` only when truthy, to localStorage; sets session and user; leaves cookies and other keys untouched |
| AuthSession.ClearSession | contexts/AuthContext.tsx:69-78 | user, session, profile and verification cleared; both token keys removed; nothing else changes |
| AuthSession.RefreshProfile | contexts/AuthContext.tsx:80-93 | no user or a failed fetch leaves no profile, a fetched one is kept; only the profile changes |
| AuthSession.RefreshProfileStable | contexts/AuthContext.tsx:80-93 | refreshing twice with the same answer is refreshing once; the stores are untouched; signing out afterwards ends in the same state as signing out before |
| AuthSession.CheckEmailVerification | contexts/AuthContext.tsx:95-111 | true exactly when a token is stored and the check answers verified; the flag is recorded |
| AuthSession.SignIn | contexts/AuthContext.tsx:194-220 | a failure changes nothing and returns a non-empty message (the detail or "Failed to sign in" for an HTTP error); a 2xx reply without a session fails in `storeSession` before any write, with the thrown TypeError's message; a reply with a session stores it and records verification; cookies are never written |
| AuthSession.SignUp | contexts/AuthContext.tsx:222-252 | failure changes nothing; success sets user and verification, and stores a session only when one is returned |
| AuthSession.SignOut | contexts/AuthContext.tsx:254-271 | the signout call is made exactly when a token is stored; the state always ends cleared |
| AuthSession.SignInWithOAuth | contexts/AuthContext.tsx:273-292 | success navigates to the returned URL; an HTTP error throws "Failed to initiate OAuth"; a thrown error is rethrown |
| AuthSession.Resolve | contexts/AuthContext.tsx:134-141 | a successful lookup records the user and a session built from the token, and leaves both stores untouched |
| AuthSession.CheckSession | contexts/AuthContext.tsx:114-185 | loading ends on every path; a URL token is stored, stripped and looked up first; no token means no call; a failed lookup clears on the stored-token path but keeps the token on the URL path |
| AuthSession.FailedSignInTouchesNothing | contexts/AuthContext.tsx:205-212 | an HTTP error leaves the state as it was and reports the detail or the fallback |
| AuthSession.SignOutClears | contexts/AuthContext.tsx:254-271 | signing out is clearing the session, and clearing twice is clearing once |
| AuthSession.SignInInvisibleToGuard | contexts/AuthContext.tsx:59 | after a successful sign-in into an empty cookie jar, the guard still redirects `/dashboard` to the login page |
| AuthSession.SignInScenario | contexts/AuthContext.tsx:194-220 | signing in a verified user stores the token and records verification |
| OAuthCallback.HandleCallback | app/auth/callback/route.ts:7-46 | no code goes to `/login` without a call; the code is sent in the exchange URL; a failure goes to `/login?error=oauth_failed`; success goes to `/dashboard` exactly when verified, else `/verify-email`, with `token` exactly when an access token came back |
| OAuthCallback.CodeForwardedVerbatim | app/auth/callback/route.ts:16 | the exchange URL ends with the code exactly as received |
| OAuthCallback.RedirectTargets | app/auth/callback/route.ts:7-46 | the only targets are `/login`, `/dashboard` and `/verify-email`, and the only query keys are `token` and `error` |
| OAuthCallback.CallbackTokenReachesProvider | app/auth/callback/route.ts:37-40 | after the route guard, an exchanged access token reaches the provider exactly when the guard passes the redirect: a verified user needs an `auth_token` cookie for `/dashboard`, an unverified one must have none for `/verify-email`. Then the session check (contexts/AuthContext.tsx:116-137) stores the token under `auth_token`, looks the session up with it first and strips the URL; otherwise the page that loads has no `token` parameter |
| OAuthCallback.VerifiedCallbackLosesToken | app/auth/callback/route.ts:37-40 | a verified user with an empty cookie jar is redirected to `/dashboard?token=…`, which the guard sends to `/login?redirect=/dashboard`, dropping the token |
| Diagnostics.AllAnswered | app/diagnostics/page.tsx:20-22 | true exactly when every question has an answer that is not blank |
| Diagnostics.CategoryQuestions | app/diagnostics/page.tsx:26-27 | exactly the questions of that category |
| Diagnostics.UpdatedCategories | app/diagnostics/page.tsx:25-35 | one view per category, in order; completed when all its questions are answered; active when it is the current question's category |
| Diagnostics.CurrentAnswer | app/diagnostics/page.tsx:16 | the stored answer of the current question, or empty |
| Diagnostics.AnswerChange | app/diagnostics/page.tsx:37-42 | only the current question's answer is set; the index and every other answer stay |
| Diagnostics.Previous | app/diagnostics/page.tsx:44-48 | steps back one unless at the first question; answers never change |
| Diagnostics.Next | app/diagnostics/page.tsx:50-60 | steps forward one unless at the last question, where nothing changes and submission is ready exactly when all is answered |
| Diagnostics.FindCategory | app/diagnostics/page.tsx:63 | the first question of the category, or none when it has none |
| Diagnostics.CategoryClick | app/diagnostics/page.tsx:62-71 | answers never change |
| Diagnostics.ClickLandsOnCategory | app/diagnostics/page.tsx:62-71 | a click moves to the first question of the category; an unknown category changes nothing |
| Diagnostics.StepKeepsValid | app/diagnostics/page.tsx:44-71 | every move keeps the index inside the question list |
| Diagnostics.RunKeepsValid | app/diagnostics/page.tsx:44-71 | any sequence of moves keeps the index inside the question list |
| Diagnostics.OnlyEditsChangeAnswers | app/diagnostics/page.tsx:37-71 | moves without an answer edit never change the answers |
| Diagnostics.PreviousNextInverse | app/diagnostics/page.tsx:44-60 | away from the ends, previous undoes next and next undoes previous |
| Diagnostics.Quote | app/diagnostics/page.tsx:17 | a quote from the list, absent only for an empty list |
| Diagnostics.QuoteCycles | app/diagnostics/page.tsx:17 | the quote repeats with the list's length and is the indexed quote within it |
| Diagnostics.CompletedIff | app/diagnostics/page.tsx:30-34 | a category is completed exactly when each of its questions is answered, vacuously for one without questions |
| Diagnostics.AllAnsweredIffAllCompleted | app/diagnostics/page.tsx:20-35 | when every question belongs to a listed category, all answered is all categories completed |
| Diagnostics.OneActiveCategory | app/diagnostics/page.tsx:28 | with distinct ids, exactly the current question's category is active |
| DiagnosticsBody.RenderControls | components/diagnostics-body.tsx:71-190 | Prev shown exactly past the first question; Next disabled exactly on the last question when submission is not ready; the Submit label exactly on the last; the sidebar exactly outside the follow-up section |
| DiagnosticsBody.CategoryItem | components/diagnostics-body.tsx:29-49 | the check mark exactly when completed; the active style over the completed style |
| DiagnosticsBody.PrevShownIffItMoves | components/diagnostics-body.tsx:172-181 | Prev is shown exactly when pressing it moves the wizard |
| DiagnosticsBody.NextControlsMatchHandler | components/diagnostics-body.tsx:182-190 | the Submit label appears exactly when Next would not move, and Next is enabled exactly when it moves or can submit |
| DiagnosticsBody.CategoryLooksExclusive | components/diagnostics-body.tsx:29-41 | an active, completed category shows the active style with the check mark |
| DiagnosticsData.DataAligned | data/diagnostics-data.ts:3-92 | five questions, categories and quotes; question k belongs to category k; the category ids are distinct |
| DiagnosticsData.ClickOpensMatchingQuestion | data/diagnostics-data.ts:3-82 | clicking category k opens question k |
| DiagnosticsData.QuotePerQuestion | data/diagnostics-data.ts:84-92 | each question shows the quote with its own index |
| DiagnosticsData.MountedActive | app/diagnostics/page.tsx:12-35 | on mount only the first category is active |
| DiagnosticsData.MountedNothingCompleted | app/diagnostics/page.tsx:12-35 | on mount no category is completed |
| DiagnosticsData.MountedNext | app/diagnostics/page.tsx:50-60 | Next on mount moves to the second question |
| ErrorMessages.RawText | lib/error-messages.ts:15 | never empty; the message when truthy, else the detail when truthy |
| ErrorMessages.Info | lib/error-messages.ts:34-177 | every outcome has a non-empty user message and action message |
| ErrorMessages.GetErrorMessage | lib/error-messages.ts:14-177 | every result has a non-empty user message and action message |
| ErrorMessages.ClassifyIsFirstMatch | lib/error-messages.ts:26-177 | the chain of early returns equals the first applicable rule of the rule table in source order |
| ErrorMessages.FallbackIffNoRule | lib/error-messages.ts:26-177 | the fallback exactly when no rule applies, otherwise the earliest applicable rule |
| ErrorMessages.NetworkWins | lib/error-messages.ts:26-38 | a network error gets the network message in every context |
| ErrorMessages.ContextIsolation | lib/error-messages.ts:41-124 | a login, signup or OAuth rule fires only in its own context |
| ErrorMessages.WeakPasswordRule | lib/error-messages.ts:91-99 | in signup, "password" with "weak", "short" or "minimum" is a weak password unless an earlier rule applies, and never without "password" |
| ErrorMessages.CaseInsensitive | lib/error-messages.ts:16 | texts equal up to case, with equal code and status, get the same result |
| ApiClient.ConfiguredUrls | lib/api.ts:6-7 | each service URL is its environment variable when set and non-empty, else the localhost default; see RequestsUseConfiguredService for where requests go |
| ApiClient.RequestsUseConfiguredService | lib/api.ts:6-7 | with the configured URLs, a profile call goes to the user service's variable (or port 8001) and any other call to the diagnostics variable (or port 8006), followed by the endpoint path |
| ApiClient.ComposeHeaders | lib/api.ts:29-38 | JSON content type unless the caller gives one; `Bearer` authorization exactly when a token is obtained, overriding the caller's; other headers kept |
| ApiClient.HeadersCarryToken | lib/api.ts:29-38 | the bearer token read back is the one obtained, and composing twice changes nothing |
| ApiClient.ErrorMessage | lib/api.ts:45-48 | the truthy `detail`, else the status text for a non-JSON body, else `API request failed: ` and the status text |
| ApiClient.ErrorMessageInformative | lib/api.ts:45-48 | the thrown message is never empty and is the detail, the status text or the fixed prefix |
| ApiClient.BuildRequest | lib/api.ts:24-51 | the URL is the service's base URL plus the endpoint path; profile calls go to the user service and the rest to the diagnostics service |
| ApiClient.ApiResult | lib/api.ts:42-50 | a 2xx gives the body, a non-2xx gives the error message, a rejected fetch its message; see ApiFailureInformative |
| ApiClient.ApiFailureInformative | lib/api.ts:45-48 | every non-2xx call fails with a non-empty message, which is the gateway's detail whenever that is truthy |
| ApiClient.PathExample | lib/api.ts:161-173 | `submitResponse` posts to `/api/v1/diagnostics/{sessionId}/respond` |
| ApiClient.SegmentsRoute | lib/api.ts:150-294 | method and segments identify the endpoint |
| ApiClient.PathSplits | lib/api.ts:150-294 | with slash-free ids the path splits into `api`, `v1` and the endpoint's segments |
| ApiClient.RouteRoundTrip | lib/api.ts:150-294 | with slash-free ids, a router that parses the method and path recovers the endpoint |
| ForgotPassword.IsValidEmailMatchesPattern | app/forgot-password/page.tsx:31 | the direct check accepts exactly the texts that split as segment `@` segment `.` segment, with no whitespace or `@` in any segment |
| ForgotPassword.HandleSubmit | app/forgot-password/page.tsx:18-50 | empty text is required first, then the format; the API is called exactly for a valid address; loading always ends; a failure shows the message or the fallback |
| ForgotPassword.EmptyEmailNeverMatches | app/forgot-password/page.tsx:24-36 | the empty text fails both the check and the pattern |
| ForgotPassword.AcceptedExamples | app/forgot-password/page.tsx:31 | `a@b.co` and `a@.b.c` are accepted |
| ForgotPassword.RejectedExamples | app/forgot-password/page.tsx:31 | a domain without a dot, a second `@` and a space are rejected |
| SignupPage.HandleSubmit | app/signup/page.tsx:22-97 | mismatch is reported before length; sign-up is called exactly when both pass; success toasts and redirects to `/verify-email`; a failure is classified in the signup context; loading always ends |
| SignupPage.LockedOnlyAfterSuccess | app/signup/page.tsx:148-181 | once settled, the form is disabled and shows "Account created!" exactly after a successful sign-up |
| SignupPage.MismatchBeforeLength | app/signup/page.tsx:27-50 | a short, mismatched password is reported as a mismatch and never sent |
| SignupPage.StatusNotReported | app/signup/page.tsx:52-66 | failures with different HTTP statuses and no detail look the same to the user |
| SignupPage.HandleOAuthSignIn | app/signup/page.tsx:99-117 | success navigates to the provider URL without toasts; a failure raises the OAuth-context message and hint |
| SignupPage.OAuthFailureReadsAsOAuth | app/signup/page.tsx:103-104 | a failed OAuth start is never described with a login or sign-up message |
| ResetPassword.SelectToken | app/reset-password/page.tsx:23-38 | the access token for a recovery link, else the `token` parameter, else the access token, else none; never an empty token |
| ResetPassword.HandleSubmit | app/reset-password/page.tsx:40-87 | mismatch, then length, then a missing token are reported; the API is called exactly when all pass; a returned session is stored under `access_token`; loading always ends |
| ResetPassword.TokenPrecedence | app/reset-password/page.tsx:30-36 | with both parameters, a recovery link uses its access token and any other link the `token` parameter |
| ResetPassword.NoTokenNoCall | app/reset-password/page.tsx:63-81 | a link without tokens never reaches the API and stores nothing |
| ResetPassword.StoredSessionUnseenByProvider | app/reset-password/page.tsx:68-72 | a successful reset stores the session where the provider's `auth_token` lookup does not see it |
| VerifyEmail.LinkType | app/verify-email/page.tsx:28 | the `type` parameter when truthy, else `email` |
| VerifyEmail.OnLoad | app/verify-email/page.tsx:25-60 | access token first, then a code, then a verifiable token, then the user's email, then `/login` when no token; a token of another type without a user does nothing |
| VerifyEmail.ApplyAccessToken | app/verify-email/page.tsx:33-40 | stores `auth_token`, keeps other keys and reloads `/dashboard` |
| VerifyEmail.Settled | app/verify-email/page.tsx:99-105 | the first success wins; a failed `email` attempt falls to the `signup` retry; other types fail |
| VerifyEmail.HandleVerification | app/verify-email/page.tsx:79-155 | with a session the tokens are stored and the page goes to the dashboard; verified without a session goes to `/login`; otherwise an error; exactly one of error and success is shown |
| VerifyEmail.CheckStatus | app/verify-email/page.tsx:62-77 | verified exactly for a user whose check succeeds, and only then to `/dashboard`; see CheckStatusAgreesWithProvider |
| VerifyEmail.CheckStatusAgreesWithProvider | app/verify-email/page.tsx:62-77 | for a signed-in user with a stored token, the page's verdict (read against the provider's `checkEmailVerification`, contexts/AuthContext.tsx:95-111) on a status answer is the provider's, and the page moves to `/dashboard` exactly when the provider records the email verified |
| VerifyEmail.Resend | app/verify-email/page.tsx:157-176 | sends to the typed email, else the user's; with neither it sets "Email address is required" and sends nothing |
| VerifyEmail.SignOut | app/verify-email/page.tsx:178-181 | the provider is cleared and the page goes to `/login` |
| VerifyEmail.AtMostOneRetry | app/verify-email/page.tsx:99-105 | one or two attempts, the second exactly after a failed `email` attempt, and then with `signup` |
| VerifyEmail.RetryRescues | app/verify-email/page.tsx:99-105 | a successful retry settles as if it had been the first attempt |
| VerifyEmail.SignupLinkNoRetry | app/verify-email/page.tsx:99-109 | a failed `signup` link is not retried and reports the both-failed message |
| VerifyEmail.VerifiedSessionVisibleToProvider | app/verify-email/page.tsx:111-118 | a verification that returns a session leaves the token where the provider reads it |
| VerifyEmail.AccessTokenFirst | app/verify-email/page.tsx:33-41 | an access token in the URL wins over every other parameter |
| ProfilePage.Set | app/profile/page.tsx:53-56 | the named field takes the value and every other field stays |
| ProfilePage.FilledIffTrimmed | app/profile/page.tsx:84 | a field counts as filled exactly when its trim is not empty |
| ProfilePage.ProfileToForm | app/profile/page.tsx:37-47 | each field is the profile's value when truthy, else empty |
| ProfilePage.CountTrue | app/profile/page.tsx:82-85 | the count is zero exactly when none hold and full exactly when all hold |
| ProfilePage.Completion | app/profile/page.tsx:80-87 | between 0 and 100; 0 exactly when no field is filled, 100 exactly when all are |
| ProfilePage.CompletionIsRoundedShare | app/profile/page.tsx:86 | the integer formula equals the rounded real share of filled fields times 100 |
| ProfilePage.CompletionMonotone | app/profile/page.tsx:80-87 | filling more fields never lowers the percentage |
| ProfilePage.OnAuthChange | app/profile/page.tsx:28-49 | waits while loading; no user goes to `/login`; otherwise a profile is shown and loading ends |
| ProfilePage.HandleChange | app/profile/page.tsx:51-59 | only the named field changes and both banners are cleared |
| ProfilePage.HandleSubmit | app/profile/page.tsx:61-78 | the whole form is sent; success refreshes the profile; a failure shows the message or the fallback; saving always ends |
| ProfilePage.BlankEditNeverRaises | app/profile/page.tsx:51-87 | typing blank text never raises the percentage |
| ProfilePage.FilledEditNeverLowers | app/profile/page.tsx:51-87 | typing non-blank text never lowers the percentage |
| ProfilePage.FreshPageShowsZero | app/profile/page.tsx:13-22 | the empty form shows 0% |
| ProfilePage.LoadedFieldFilled | app/profile/page.tsx:37-47 | a loaded field is filled exactly when the stored value is present and not blank |
| ProfilePage.FullProfileShowsHundred | app/profile/page.tsx:37-87 | a profile with all seven values present shows 100% |
| AccountPage.LocalPart | app/account/page.tsx:46 | the email text before its first `@`, none without an email |
| AccountPage.SplitName | app/account/page.tsx:41-44 | the first word, and the rest that rebuilds the name with one space |
| AccountPage.NameSource | app/account/page.tsx:41 | the profile's full name, else the email's local part, else empty |
| AccountPage.LoadedForm | app/account/page.tsx:40-47 | the name split, the email, and a username without `@` |
| AccountPage.OnAuthChange | app/account/page.tsx:31-50 | waits while loading; no user goes to `/login`; otherwise the form is loaded when a profile exists and loading ends |
| AccountPage.HandleFormChange | app/account/page.tsx:52-60 | only the named field changes and both banners are cleared |
| AccountPage.HandleSave | app/account/page.tsx:62-81 | sends the trimmed joined name; success refreshes the profile; a failure shows the message or the fallback |
| AccountPage.SaveRoundTrip | app/account/page.tsx:41-44 | saving a name split on load sends back the trimmed original |
| AccountPage.LoadedNameSavesBack | app/account/page.tsx:41-68 | saving an untouched loaded form sends the trim of the name it was loaded from |
| AccountPage.HandleDelete | app/account/page.tsx:83-95 | nothing happens without the confirmation; with it the user is signed out and sent home |
| AccountPage.Display | app/account/page.tsx:97-102 | the full name is the profile's when truthy, else the email's local part when truthy, else "User"; the username is `@` plus that local part, else `@user`; the location is the profile's when truthy, else "India" |
| AccountPage.Greeting | app/account/page.tsx:104 | the first word of the display name |
| RoadmapPage.WithActive | app/roadmap/page.tsx:19-22 | exactly the phases with the active id are active, and nothing else changes |
| RoadmapPage.ActiveMilestones | app/roadmap/page.tsx:25 | exactly the milestones of the active phase |
| RoadmapPage.FilterKeepsOrder | app/roadmap/page.tsx:25 | the filter distributes over concatenation, so order is kept |
| RoadmapPage.FindPhase | app/roadmap/page.tsx:26 | the first phase with the id, none when no phase has it |
| RoadmapPage.PhaseInfo | app/roadmap/page.tsx:27 | `Phase {number} - {name}` of the found phase, else empty |
| RoadmapPage.PhaseClick | app/roadmap/page.tsx:14-16 | a click makes the clicked id the active one; see ClickMarksOnePhase for what that shows |
| RoadmapPage.ClickMarksOnePhase | app/roadmap/page.tsx:14-22 | clicking a listed phase marks it alone active and draws one indicator under it |
| RoadmapPage.InitialView | app/roadmap/page.tsx:12-27 | the page opens on "Phase 2 - Skill Deepening" with its three milestones |
| RoadmapPage.UnknownIdShowsNothing | app/roadmap/page.tsx:19-27 | an id no phase has shows no caption, no milestones and no indicator |
| MainHeader.IndicatorLeft | components/main-header.tsx:119-124 | the indicator starts at 120 pixels per preceding phase |
| MainHeader.IndicatorWithinTrack | components/main-header.tsx:105-124 | under any phase of the strip, the indicator lies inside the track |
| MainHeader.IndicatorsDisjoint | components/main-header.tsx:119-124 | indicators under distinct phases never overlap |
| MainHeader.Indicators | components/main-header.tsx:111-112 | an indicator under exactly the active phases, in order |
| MainHeader.OneIndicatorPerActivePhase | components/main-header.tsx:111-112 | one active phase gives exactly one indicator, under it |
| Navbar.PlanDisplayName | components/navbar/Navbar.tsx:21-28 | the first of Starter, Free, Basic, Member and Pro contained in the text gives its plan name, else the text unchanged |
| Navbar.PlanDisplayNameIdempotent | components/navbar/Navbar.tsx:21-28 | applying the mapping twice is applying it once |
| Navbar.FirstMatch | components/navbar/Navbar.tsx:32 | the leftmost position where a digit run followed by `%` starts |
| Navbar.ProfilePercentage | components/navbar/Navbar.tsx:31-34 | 0 when no digit run is followed by `%` |
| Navbar.MatchStartsRun | components/navbar/Navbar.tsx:32 | the leftmost match begins a maximal digit run |
| Navbar.InitialsOfJoin | components/navbar/Navbar.tsx:146 | the initials of two names joined by a space are their initials concatenated |
| Navbar.InitialOfWord | components/navbar/Navbar.tsx:146 | a word without spaces contributes its upper-cased first character, and an empty word nothing |
| Navbar.DoubleSpaceAddsNothing | components/navbar/Navbar.tsx:146 | the empty piece that a double space leaves in `split(' ')` adds no initial, so a double space reads like a single one |
| Navbar.FixedPlan | components/navbar/Navbar.tsx:15-18 | the configured plan shows as "Starter Plan" |
| Navbar.FixedPercentage | components/navbar/Navbar.tsx:8-13 | "Profile 40% Complete" gives 40 |
| Navbar.FixedInitials | components/navbar/Navbar.tsx:8-13 | "Himanshu Mishra" gives "HM" |
| Text.ContainsIff | lib/error-messages.ts:27-30 | `includes` holds exactly when the text occurs at some position |
| Text.TrimEmptyIff | app/diagnostics/page.tsx:21 | a text trims to empty exactly when it is all whitespace |
| Text.JoinSplit | app/account/page.tsx:41-44 | joining the pieces of a split restores the text |
| Text.SplitJoin | app/account/page.tsx:41-44 | splitting a join of separator-free pieces gives the pieces back |
| Text.SplitAppend | components/navbar/Navbar.tsx:146 | splitting two texts joined by the separator splits each |
| Text.ParseIntOfIntToString | lib/auth-storage.ts:67-124 | `parseInt` reads back the decimal string of any integer |

## Left out

- Rendering: JSX, styles, icons, the footers and the landing, about, contact, dashboard, error and not-found pages are not modelled; only the decisions they display are.
- The Supabase client and the dynamic import in `lib/api.ts:12-19` are not modelled: the token it yields is an input.
- Real `fetch`, JSON parsing, `window.location`, `history.replaceState` and the toast library are not modelled: results are inputs, and navigation and toasts are returned values.
- The typed endpoint methods of `lib/api.ts:150-294` are modelled by method, path, service and payload shape; the JSON text of each body is not.
- Timers are not modelled: a delayed redirect is a field of the settled state, and success banners that clear after three seconds are left as set.
- React scheduling is not modelled: effects and handlers are sequential transitions. Stale closures (such as `refreshProfile` seeing an old `user` inside `checkSession`) and the provider's `[user]` effect are out of scope.
- `progressDegree` (`components/navbar/Navbar.tsx:40`) is floating point and is not modelled.
- The middleware matcher regex (`middleware.ts:90-102`) is framework configuration, not logic.
- `app/login/page.tsx` is not modelled: its submit handler only logs.
- Unicode: `toLowerCase`, `toUpperCase`, `trim` and `\s` are modelled on ASCII with an explicit whitespace set; lengths count characters, not UTF-16 units.
- `typeof window` and `typeof document` guards are not modelled: the model is always in a browser.
- Console logging (`console.error` in `lib/error-messages.ts:19-23`, and `console.log`/`console.error` in the page handlers) is not modelled: it has no effect on state, navigation or what the user sees.
- A gateway error body's `detail` is modelled as a string or absent. A non-string `detail`, such as a validation-error array that `new Error(...)` turns into text like `"[object Object]"`, is not modelled.
- AuthSession.SignIn: the message for a 2xx reply without a session is fixed to the V8 engine's TypeError wording; other engines word that error differently.
- Query-string parsing is not modelled: each parameter is an `Option` input.
- `encodeURIComponent` is a parameter of `AuthSession.OAuthRequestUrl`, not a definition.
- Cookie values containing `;` or names containing `=` are not modelled: the `document.cookie` parser is related to the jar only for well-formed entries.
- The account page's theme, notification and tab controls hold local display state only and are not modelled.
- Integers are unbounded; `parseInt` precision limits and `Number` overflow are not modelled.
- The dashboard data and the remaining `data/*.ts` files are constants for rendering and are not modelled.
- Navbar.ProfilePercentage: its contract states only the no-match case; the value of a match is stated by `Navbar.MatchStartsRun` and the concrete `Navbar.FixedPercentage`.
- Diagnostics.CategoryClick: its contract states only that answers stay; where the click lands is stated by `Diagnostics.ClickLandsOnCategory`.
