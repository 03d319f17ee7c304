/**
  What the client sees of the remote API gateway: the settled outcome of one
  `fetch`, and the JSON payload shapes the client reads. The gateway itself is
  not modelled; every call's outcome is an input to the operation that makes it.
*/
module Gateway {
  import opened Wrappers

  /** The outcome of one gateway call once its body has been read as JSON.
      `HttpError` is a non-2xx response whose JSON body carried `detail`
      (None when absent); `Thrown` is a rejected `fetch`, carrying the thrown
      error's `message`. A body that is not JSON depends on the caller: one
      that parses before it checks `ok` (signIn, signUp) sees it as `Thrown`;
      one that checks `ok` first (signInWithOAuth, the OAuth callback) sees a
      non-2xx reply as `HttpError(status, None)` whatever its body. */
  datatype Response<T> =
    | Ok(body: T)
    | HttpError(status: int, detail: Option<string>)
    | Thrown(message: string)

  /** A call whose result the caller ignores: it resolves, or it throws an
      error whose `message` may be missing. */
  datatype Outcome = Resolved | Rejected(message: Option<string>)

  /** The user object the auth endpoints return. */
  datatype User = User(id: string, email: Option<string>, emailVerified: Option<bool>)

  /** The session object the auth endpoints return. */
  datatype Session = Session(accessToken: string, refreshToken: Option<string>)

  /** `UserProfile` of the user service (timestamps left out). */
  datatype Profile = Profile(
    id: string,
    fullName: Option<string>,
    avatarUrl: Option<string>,
    bio: Option<string>,
    location: Option<string>,
    linkedinUrl: Option<string>,
    githubUrl: Option<string>,
    websiteUrl: Option<string>,
    onboardingCompleted: bool)

  /** `data.user?.email_verified || false`. */
  function VerifiedFlag(u: Option<User>): bool {
    u.Some? && u.value.emailVerified == Some(true)
  }
}

/** Browser navigation targets, as values. */
module Navigation {
  import opened Wrappers

  /** A same-origin URL: a path and its query parameters in insertion order. */
  datatype Url = Url(path: string, query: seq<(string, string)>)

  function Path(p: string): Url {
    Url(p, [])
  }

  /** `URLSearchParams.get`: the first value under `key`, if any. */
  function QueryGet(query: seq<(string, string)>, key: string): (r: Option<string>)
    ensures r.Some? ==> exists i :: 0 <= i < |query| && query[i] == (key, r.value)
    ensures r.None? <==> forall i :: 0 <= i < |query| ==> query[i].0 != key
  {
    if |query| == 0 then None
    else if query[0].0 == key then Some(query[0].1)
    else QueryGet(query[1..], key)
  }
}
