/**
  The edge route guard (`middleware.ts`): classifies a request path by plain
  prefix matching and decides, from the `auth_token` cookie alone, whether the
  request passes or is redirected.
*/
module RouteGuard {
  import opened Text
  import opened Navigation

  const AuthTokenCookie: string := "auth_token"

  /** Pages that need a session. */
  const ProtectedPages: seq<string> := ["/dashboard", "/roadmap", "/diagnostics", "/account", "/profile"]

  /** Pages only for visitors without a session. */
  const AuthPages: seq<string> := ["/login", "/signup", "/verify-email", "/forgot-password", "/reset-password"]

  /** Declared by the guard but never consulted by its decision. */
  const PublicPages: seq<string> := ["/", "/about", "/contact", "/error"]

  datatype Decision = Pass | Redirect(to: Url)

  /** A request is authenticated when its `auth_token` cookie is present and non-empty. */
  predicate HasAuthToken(cookies: map<string, string>) {
    AuthTokenCookie in cookies && cookies[AuthTokenCookie] != ""
  }

  /** `patterns.some(p => pathname.startsWith(p))`, scanning left to right. */
  function MatchesPath(path: string, patterns: seq<string>): (b: bool)
    ensures b <==> exists i :: 0 <= i < |patterns| && StartsWith(path, patterns[i])
  {
    if |patterns| == 0 then false
    else if StartsWith(path, patterns[0]) then true
    else
      var b := MatchesPath(path, patterns[1..]);
      assert forall i :: 1 <= i < |patterns| ==> patterns[i] == patterns[1..][i - 1];
      b
  }

  /** The guard's decision: auth pages are checked first, then protected pages. */
  function Middleware(path: string, cookies: map<string, string>): (d: Decision)
    ensures d.Redirect? ==> d.to == Path("/dashboard") || d.to == Url("/login", [("redirect", path)])
  {
    var authenticated := HasAuthToken(cookies);
    if MatchesPath(path, AuthPages) then
      if authenticated then Redirect(Path("/dashboard")) else Pass
    else if MatchesPath(path, ProtectedPages) then
      if !authenticated then Redirect(Url("/login", [("redirect", path)])) else Pass
    else Pass
  }

  /** Where a request for `u` ends up: `u` itself when the guard lets it
      through, else the redirect's target, which the guard then lets through. */
  function Landing(u: Url, cookies: map<string, string>): (r: Url)
    ensures Middleware(r.path, cookies) == Pass
    ensures r == u <==> Middleware(u.path, cookies) == Pass
  {
    var d := Middleware(u.path, cookies);
    if d.Pass? then u
    else
      RedirectTargetPasses(u.path, cookies);
      d.to
  }

  /** The same decision with the two page lists checked in the other order. */
  function MiddlewareProtectedFirst(path: string, cookies: map<string, string>): Decision {
    var authenticated := HasAuthToken(cookies);
    if MatchesPath(path, ProtectedPages) then
      if !authenticated then Redirect(Url("/login", [("redirect", path)])) else Pass
    else if MatchesPath(path, AuthPages) then
      if authenticated then Redirect(Path("/dashboard")) else Pass
    else Pass
  }

  /** Only the `auth_token` cookie matters: two cookie jars that agree on it
      get the same decision for every path. */
  lemma OnlyAuthTokenConsulted(path: string, c1: map<string, string>, c2: map<string, string>)
    requires (AuthTokenCookie in c1) == (AuthTokenCookie in c2)
    requires AuthTokenCookie in c1 ==> c1[AuthTokenCookie] == c2[AuthTokenCookie]
    ensures Middleware(path, c1) == Middleware(path, c2)
  {
  }

  /** The four cases of the decision, stated by the class of the path. */
  lemma DecisionCases(path: string, cookies: map<string, string>)
    ensures MatchesPath(path, AuthPages) && HasAuthToken(cookies) ==>
      Middleware(path, cookies) == Redirect(Path("/dashboard"))
    ensures MatchesPath(path, AuthPages) && !HasAuthToken(cookies) ==>
      Middleware(path, cookies) == Pass
    ensures MatchesPath(path, ProtectedPages) && !HasAuthToken(cookies) ==>
      Middleware(path, cookies) == Redirect(Url("/login", [("redirect", path)]))
    ensures MatchesPath(path, ProtectedPages) && HasAuthToken(cookies) ==>
      Middleware(path, cookies) == Pass
    ensures !MatchesPath(path, AuthPages) && !MatchesPath(path, ProtectedPages) ==>
      Middleware(path, cookies) == Pass
  {
    if MatchesPath(path, ProtectedPages) {
      NoPathInBothLists(path);
    }
  }

  /** Two prefixes of one string agree up to the shorter length. */
  predicate Compatible(a: string, b: string) {
    if |a| <= |b| then b[..|a|] == a else a[..|b|] == b
  }

  lemma PrefixesCompatible(path: string, a: string, b: string)
    requires StartsWith(path, a) && StartsWith(path, b)
    ensures Compatible(a, b)
  {
    if |a| <= |b| {
      assert b[..|a|] == path[..|b|][..|a|];
    } else {
      assert a[..|b|] == path[..|a|][..|b|];
    }
  }

  /** No path is both an auth page and a protected page. */
  lemma NoPathInBothLists(path: string)
    ensures !(MatchesPath(path, AuthPages) && MatchesPath(path, ProtectedPages))
  {
    if MatchesPath(path, AuthPages) && MatchesPath(path, ProtectedPages) {
      var i :| 0 <= i < |AuthPages| && StartsWith(path, AuthPages[i]);
      var j :| 0 <= j < |ProtectedPages| && StartsWith(path, ProtectedPages[j]);
      PrefixesCompatible(path, AuthPages[i], ProtectedPages[j]);
      ListsIncompatible(i, j);
      assert false;
    }
  }

  lemma ListsIncompatible(i: nat, j: nat)
    requires i < |AuthPages| && j < |ProtectedPages|
    ensures !Compatible(AuthPages[i], ProtectedPages[j])
  {
    var a := AuthPages[i];
    var b := ProtectedPages[j];
    // Every auth page and every protected page differ at index 1 or 2.
    assert a[1] != b[1] || a[2] != b[2];
  }

  /** Because the lists are disjoint, the order of the two checks is irrelevant. */
  lemma CheckOrderIrrelevant(path: string, cookies: map<string, string>)
    ensures Middleware(path, cookies) == MiddlewareProtectedFirst(path, cookies)
  {
    NoPathInBothLists(path);
  }

  /** No redirect chains: following a redirect with the same cookies passes. */
  lemma RedirectTargetPasses(path: string, cookies: map<string, string>)
    ensures Middleware(path, cookies).Redirect? ==>
      Middleware(Middleware(path, cookies).to.path, cookies) == Pass
  {
    var d := Middleware(path, cookies);
    if d.Redirect? {
      if HasAuthToken(cookies) {
        assert StartsWith("/dashboard", ProtectedPages[0]);
        NoPathInBothLists("/dashboard");
      } else {
        assert StartsWith("/login", AuthPages[0]);
      }
    }
  }

  /** Matching is by prefix: `/login-help` is treated as an auth page and
      `/profile/x` as a protected page, while the public pages pass whatever
      the cookies say. */
  lemma PrefixExamples(cookies: map<string, string>)
    ensures MatchesPath("/login-help", AuthPages)
    ensures MatchesPath("/profile/x", ProtectedPages)
    ensures forall i :: 0 <= i < |PublicPages| ==> Middleware(PublicPages[i], cookies) == Pass
  {
    assert StartsWith("/login-help", AuthPages[0]);
    assert StartsWith("/profile/x", ProtectedPages[4]);
    forall i | 0 <= i < |PublicPages| ensures Middleware(PublicPages[i], cookies) == Pass {
      var p := PublicPages[i];
      assert !MatchesPath(p, AuthPages) && !MatchesPath(p, ProtectedPages) by {
        forall k | 0 <= k < 5 ensures !StartsWith(p, AuthPages[k]) && !StartsWith(p, ProtectedPages[k]) {
          if |p| > 1 {
            assert p[1] != AuthPages[k][1] || p[2] != AuthPages[k][2];
            assert p[1] != ProtectedPages[k][1] || p[2] != ProtectedPages[k][2];
          }
        }
      }
    }
  }
}
