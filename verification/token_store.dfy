/**
  The token store (`lib/auth-storage.ts`): access token, refresh token and
  expiry timestamp written to both the cookie jar and localStorage, read
  cookie-first with localStorage as the fallback.

  The two backing stores are maps from key to value. The browser's cookie
  string (`document.cookie`) and the parser that reads it are modelled
  separately below, with a lemma showing the parser reads exactly the jar.
*/
module TokenStore {
  import opened Wrappers
  import opened Text

  const AuthTokenKey: string := "auth_token"
  const RefreshTokenKey: string := "refresh_token"
  const TokenExpiryKey: string := "token_expires_at"

  /** Five days, in seconds. */
  const CookieMaxAge: int := 5 * 24 * 60 * 60

  /** Five minutes, in milliseconds. */
  const ExpiryMarginMs: int := 5 * 60 * 1000

  datatype Store = Store(cookies: map<string, string>, local: map<string, string>)

  /** Where the page is served from: `window.location.protocol` and `NODE_ENV`. */
  datatype Env = Env(protocol: string, nodeEnv: string)

  datatype SameSite = Strict | Lax | Unset

  datatype CookieWrite = CookieWrite(name: string, value: string, path: string, maxAge: int, sameSite: SameSite, secure: bool)

  function Lookup(m: map<string, string>, k: string): Option<string> {
    if k in m then Some(m[k]) else None
  }

  // ---------------------------------------------------------------- cookie writes

  /** The assignment `setCookie` makes to `document.cookie`. */
  function SetCookie(name: string, value: string, env: Env): (w: CookieWrite)
    ensures w.name == name && w.value == value && w.path == "/"
    ensures w.maxAge == 432000
    ensures w.secure <==> env.protocol == "https:" || env.nodeEnv == "production"
    ensures w.sameSite == (if w.secure then Strict else Lax)
  {
    var secure := env.protocol == "https:" || env.nodeEnv == "production";
    CookieWrite(name, value, "/", CookieMaxAge, if secure then Strict else Lax, secure)
  }

  /** The assignment `deleteCookie` makes: empty value, max-age 0. */
  function DeleteCookie(name: string): CookieWrite {
    CookieWrite(name, "", "/", 0, Unset, false)
  }

  /** The jar after the browser applies a cookie assignment. */
  function ApplyCookie(jar: map<string, string>, w: CookieWrite): (r: map<string, string>)
    ensures w.maxAge > 0 ==> r == jar[w.name := w.value]
    ensures w.maxAge <= 0 ==> r == jar - {w.name}
  {
    if w.maxAge > 0 then jar[w.name := w.value] else jar - {w.name}
  }

  // ---------------------------------------------------------------- operations

  /** `storeAuthTokens`: the access token always, the refresh token and the
      expiry only when truthy, each to the cookie jar and to localStorage. */
  function StoreAuthTokens(s: Store, env: Env, access: string, refresh: Option<string>, expiresAt: Option<int>): (r: Store)
    ensures Lookup(r.cookies, AuthTokenKey) == Some(access) && Lookup(r.local, AuthTokenKey) == Some(access)
    ensures Truthy(refresh) ==>
      Lookup(r.cookies, RefreshTokenKey) == refresh && Lookup(r.local, RefreshTokenKey) == refresh
    ensures !Truthy(refresh) ==>
      Lookup(r.cookies, RefreshTokenKey) == Lookup(s.cookies, RefreshTokenKey) &&
      Lookup(r.local, RefreshTokenKey) == Lookup(s.local, RefreshTokenKey)
    ensures expiresAt.Some? && expiresAt.value != 0 ==>
      Lookup(r.cookies, TokenExpiryKey) == Some(IntToString(expiresAt.value)) &&
      Lookup(r.local, TokenExpiryKey) == Some(IntToString(expiresAt.value))
    ensures !(expiresAt.Some? && expiresAt.value != 0) ==>
      Lookup(r.cookies, TokenExpiryKey) == Lookup(s.cookies, TokenExpiryKey) &&
      Lookup(r.local, TokenExpiryKey) == Lookup(s.local, TokenExpiryKey)
    ensures forall k :: k !in {AuthTokenKey, RefreshTokenKey, TokenExpiryKey} ==>
      Lookup(r.cookies, k) == Lookup(s.cookies, k) && Lookup(r.local, k) == Lookup(s.local, k)
  {
    var c0 := ApplyCookie(s.cookies, SetCookie(AuthTokenKey, access, env));
    var c1 := if Truthy(refresh) then ApplyCookie(c0, SetCookie(RefreshTokenKey, refresh.value, env)) else c0;
    var c2 := if expiresAt.Some? && expiresAt.value != 0
      then ApplyCookie(c1, SetCookie(TokenExpiryKey, IntToString(expiresAt.value), env)) else c1;
    var l0 := s.local[AuthTokenKey := access];
    var l1 := if Truthy(refresh) then l0[RefreshTokenKey := refresh.value] else l0;
    var l2 := if expiresAt.Some? && expiresAt.value != 0 then l1[TokenExpiryKey := IntToString(expiresAt.value)] else l1;
    Store(c2, l2)
  }

  /** Cookie first when non-empty, else whatever localStorage holds. */
  function ReadPreferCookie(s: Store, key: string): Option<string> {
    var c := Lookup(s.cookies, key);
    if Truthy(c) then c else Lookup(s.local, key)
  }

  /** `getAccessToken`. */
  function GetAccessToken(s: Store): Option<string> {
    ReadPreferCookie(s, AuthTokenKey)
  }

  /** `getRefreshToken`. */
  function GetRefreshToken(s: Store): Option<string> {
    ReadPreferCookie(s, RefreshTokenKey)
  }

  /** Parses a stored expiry when it is truthy text holding an integer. */
  function ParseStored(o: Option<string>): Option<int> {
    if Truthy(o) then ParseInt(o.value) else None
  }

  /** `getTokenExpiresAt`: the cookie's integer, else localStorage's, else none. */
  function GetTokenExpiresAt(s: Store): (r: Option<int>)
    ensures ParseStored(Lookup(s.cookies, TokenExpiryKey)).Some? ==>
      r == ParseStored(Lookup(s.cookies, TokenExpiryKey))
    ensures ParseStored(Lookup(s.cookies, TokenExpiryKey)).None? ==>
      r == ParseStored(Lookup(s.local, TokenExpiryKey))
  {
    var fromCookie := ParseStored(Lookup(s.cookies, TokenExpiryKey));
    if fromCookie.Some? then fromCookie else ParseStored(Lookup(s.local, TokenExpiryKey))
  }

  /** `isTokenExpired` at time `now` (milliseconds): no expiry, or expiry 0,
      means "assume valid"; otherwise expired when less than five minutes remain. */
  function IsTokenExpired(s: Store, now: int): bool {
    var e := GetTokenExpiresAt(s);
    if e.None? || e.value == 0 then false else e.value < now + ExpiryMarginMs
  }

  /** `clearAuthTokens`: the three keys leave both stores. */
  function ClearAuthTokens(s: Store): (r: Store)
    ensures forall k :: k in {AuthTokenKey, RefreshTokenKey, TokenExpiryKey} ==>
      Lookup(r.cookies, k).None? && k !in r.local
    ensures forall k :: k !in {AuthTokenKey, RefreshTokenKey, TokenExpiryKey} ==>
      Lookup(r.cookies, k) == Lookup(s.cookies, k) && Lookup(r.local, k) == Lookup(s.local, k)
  {
    var c := ApplyCookie(ApplyCookie(ApplyCookie(s.cookies, DeleteCookie(AuthTokenKey)),
      DeleteCookie(RefreshTokenKey)), DeleteCookie(TokenExpiryKey));
    Store(c, s.local - {AuthTokenKey, RefreshTokenKey, TokenExpiryKey})
  }

  // ---------------------------------------------------------------- properties

  /** After storing a full triple the getters return exactly what was
      stored, and they still do once every cookie has been lost. */
  lemma StoreThenGet(s: Store, env: Env, access: string, refresh: string, expiresAt: int)
    requires refresh != "" && expiresAt != 0
    ensures var r := StoreAuthTokens(s, env, access, Some(refresh), Some(expiresAt));
      && GetAccessToken(r) == Some(access)
      && GetRefreshToken(r) == Some(refresh)
      && GetTokenExpiresAt(r) == Some(expiresAt)
    ensures var r := StoreAuthTokens(s, env, access, Some(refresh), Some(expiresAt)).(cookies := map[]);
      && GetAccessToken(r) == Some(access)
      && GetRefreshToken(r) == Some(refresh)
      && GetTokenExpiresAt(r) == Some(expiresAt)
  {
    StoredExpiryReadsBack(expiresAt);
  }

  /** When both stores hold a non-empty value, the cookie's value is read. */
  lemma CookieWins(s: Store, key: string)
    requires Truthy(Lookup(s.cookies, key)) && Truthy(Lookup(s.local, key))
    ensures ReadPreferCookie(s, key) == Lookup(s.cookies, key)
  {
  }

  /** An expiry cookie that holds no digit at all (such as "soon") does not
      parse, so localStorage's value is read instead. */
  lemma ExpiryFallsBackOnGarbage(s: Store, t: string)
    requires Lookup(s.cookies, TokenExpiryKey) == Some(t)
    requires forall i :: 0 <= i < |t| ==> !IsDigit(t[i])
    ensures GetTokenExpiresAt(s) == ParseStored(Lookup(s.local, TokenExpiryKey))
  {
    NoDigitNoParse(t);
  }

  /** With a stored non-zero expiry, the token counts as expired exactly when
      fewer than five minutes remain; with no expiry in either store, never. */
  lemma ExpiryDecision(s: Store, env: Env, access: string, refresh: Option<string>, expiresAt: int, now: int)
    requires expiresAt != 0
    ensures IsTokenExpired(StoreAuthTokens(s, env, access, refresh, Some(expiresAt)), now)
      <==> expiresAt < now + 300000
    ensures Lookup(s.cookies, TokenExpiryKey).None? && TokenExpiryKey !in s.local ==> !IsTokenExpired(s, now)
  {
    var r := StoreAuthTokens(s, env, access, refresh, Some(expiresAt));
    StoredExpiryReadsBack(expiresAt);
    assert Lookup(r.cookies, TokenExpiryKey) == Some(IntToString(expiresAt));
    assert GetTokenExpiresAt(r) == Some(expiresAt);
  }

  /** A written non-zero expiry parses back to itself. */
  lemma StoredExpiryReadsBack(expiresAt: int)
    requires expiresAt != 0
    ensures ParseStored(Some(IntToString(expiresAt))) == Some(expiresAt)
  {
    ParseIntOfIntToString(expiresAt);
    assert IntToString(expiresAt) != "" by {
      if expiresAt < 0 {} else { assert |NatToString(expiresAt)| >= 1; }
    }
  }

  /** After clearing, every getter returns nothing and nothing is expired. */
  lemma ClearThenGet(s: Store, now: int)
    ensures GetAccessToken(ClearAuthTokens(s)) == None
    ensures GetRefreshToken(ClearAuthTokens(s)) == None
    ensures GetTokenExpiresAt(ClearAuthTokens(s)) == None
    ensures !IsTokenExpired(ClearAuthTokens(s), now)
  {
  }

  // ---------------------------------------------------------------- document.cookie

  /** `while (cookie.charAt(0) === ' ') cookie = cookie.substring(1)`. */
  function StripSpaces(c: string): (r: string)
    ensures |r| <= |c| && r == c[|c| - |r|..]
    ensures |r| > 0 ==> r[0] != ' '
    ensures forall i :: 0 <= i < |c| - |r| ==> c[i] == ' '
  {
    if |c| > 0 && c[0] == ' ' then StripSpaces(c[1..]) else c
  }

  /** The loop of `getCookie` over the `;`-separated entries. */
  function FindCookie(entries: seq<string>, nameEq: string): Option<string> {
    if |entries| == 0 then None
    else
      var c := StripSpaces(entries[0]);
      if StartsWith(c, nameEq) then Some(c[|nameEq|..]) else FindCookie(entries[1..], nameEq)
  }

  /** `getCookie(name)` reading the cookie string `doc`. */
  function GetCookie(doc: string, name: string): Option<string> {
    FindCookie(Split(doc, ';'), name + "=")
  }

  /** A jar entry the browser can list: the name is non-empty, does not start
      with a space and holds neither `=` nor `;`; the value holds no `;`. */
  predicate WellFormedEntry(e: (string, string)) {
    |e.0| > 0 && e.0[0] != ' ' && '=' !in e.0 && ';' !in e.0 && ';' !in e.1
  }

  function EntryText(e: (string, string)): string {
    e.0 + "=" + e.1
  }

  /** `document.cookie` for a jar listed in order: `a=1; b=2`. */
  function RenderCookies(entries: seq<(string, string)>): string {
    if |entries| == 0 then ""
    else if |entries| == 1 then EntryText(entries[0])
    else EntryText(entries[0]) + "; " + RenderCookies(entries[1..])
  }

  /** The value of the first listed entry named `name`. */
  function FirstValue(entries: seq<(string, string)>, name: string): Option<string> {
    if |entries| == 0 then None
    else if entries[0].0 == name then Some(entries[0].1)
    else FirstValue(entries[1..], name)
  }

  /** A rendered entry starts with `name=` exactly when it is named `name`. */
  lemma EntryPrefix(e: (string, string), name: string)
    requires WellFormedEntry(e) && '=' !in name
    ensures StartsWith(EntryText(e), name + "=") <==> e.0 == name
    ensures StartsWith(EntryText(e), name + "=") ==> EntryText(e)[|name + "="|..] == e.1
  {
    var t := EntryText(e);
    var n := |e.0|;
    assert t[n] == '=' && t[..n] == e.0;
    if StartsWith(t, name + "=") {
      var m := |name|;
      assert t[m] == '=' && t[..m] == name;
      // The first `=` of `t` sits at |e.0| and, read through the prefix, at |name|.
      assert m == n by {
        assert forall k :: 0 <= k < n ==> t[k] == e.0[k];
        assert forall k :: 0 <= k < m ==> t[k] == name[k];
        assert forall k :: 0 <= k < n ==> t[k] != '=';
        assert forall k :: 0 <= k < m ==> t[k] != '=';
      }
    }
    if e.0 == name {
      assert t[..|name + "="|] == name + "=";
      assert t[|name + "="|..] == e.1;
    }
  }

  /** Splitting a rendered jar on `;` yields the entries, every one but the
      first preceded by the single space of the `; ` separator. */
  lemma {:induction false} SplitRendered(entries: seq<(string, string)>)
    requires |entries| > 0
    requires forall i :: 0 <= i < |entries| ==> WellFormedEntry(entries[i])
    ensures var parts := Split(RenderCookies(entries), ';');
      && |parts| == |entries|
      && parts[0] == EntryText(entries[0])
      && forall i :: 1 <= i < |parts| ==> parts[i] == " " + EntryText(entries[i])
  {
    var t := EntryText(entries[0]);
    assert ';' !in t;
    if |entries| == 1 {
      SplitAtFirst(t, ';');
    } else {
      var rest := RenderCookies(entries[1..]);
      assert RenderCookies(entries) == t + "; " + rest;
      SplitAfterEntry(t, rest);
      SplitRendered(entries[1..]);
      var tail := Split(rest, ';');
      SplitLeadingSpace(rest);
      assert Split(" " + rest, ';') == [" " + tail[0]] + tail[1..];
    }
  }

  /** An entry without `;` followed by the `; ` separator is split off whole. */
  lemma SplitAfterEntry(t: string, rest: string)
    requires ';' !in t
    ensures Split(t + "; " + rest, ';') == [t] + Split(" " + rest, ';')
  {
    var doc := t + "; " + rest;
    SplitAtFirst(doc, ';');
    assert doc[..|t|] == t;
    assert IndexOf(doc, ';') == Some(|t|) by {
      assert doc[|t|] == ';';
    }
    assert doc[|t| + 1..] == " " + rest;
  }

  lemma SplitLeadingSpace(s: string)
    ensures Split(" " + s, ';') == [" " + Split(s, ';')[0]] + Split(s, ';')[1..]
  {
    assert (" " + s)[1..] == s;
  }

  /** The parser scans entries in order, so it finds the first match. */
  lemma {:induction false} FindCookieRendered(entries: seq<(string, string)>, parts: seq<string>, name: string)
    requires |parts| == |entries| && '=' !in name
    requires forall i :: 0 <= i < |entries| ==> WellFormedEntry(entries[i])
    requires forall i :: 0 <= i < |parts| ==> StripSpaces(parts[i]) == EntryText(entries[i])
    ensures FindCookie(parts, name + "=") == FirstValue(entries, name)
  {
    if |entries| > 0 {
      EntryPrefix(entries[0], name);
      FindCookieRendered(entries[1..], parts[1..], name);
    }
  }

  /** `getCookie` on a rendered jar returns the first listed value for the name. */
  lemma GetCookieOfRendered(entries: seq<(string, string)>, name: string)
    requires '=' !in name
    requires forall i :: 0 <= i < |entries| ==> WellFormedEntry(entries[i])
    ensures GetCookie(RenderCookies(entries), name) == FirstValue(entries, name)
  {
    if |entries| == 0 {
      assert Split("", ';') == [""];
      assert StripSpaces("") == "";
      assert !StartsWith("", name + "=");
      assert FindCookie([""], name + "=") == FindCookie([], name + "=");
    } else {
      SplitRendered(entries);
      var parts := Split(RenderCookies(entries), ';');
      forall i | 0 <= i < |parts| ensures StripSpaces(parts[i]) == EntryText(entries[i]) {
        var t := EntryText(entries[i]);
        assert t[0] != ' ';
        if i > 0 {
          assert (" " + t)[1..] == t;
        }
      }
      FindCookieRendered(entries, parts, name);
    }
  }

  /** The entries list exactly the jar, each name once. */
  predicate Lists(entries: seq<(string, string)>, jar: map<string, string>) {
    && (forall i, j :: 0 <= i < j < |entries| ==> entries[i].0 != entries[j].0)
    && (forall i :: 0 <= i < |entries| ==> entries[i].0 in jar && jar[entries[i].0] == entries[i].1)
    && (forall k :: k in jar ==> exists i :: 0 <= i < |entries| && entries[i].0 == k)
  }

  lemma {:induction false} FirstValueIsLookup(entries: seq<(string, string)>, jar: map<string, string>, name: string)
    requires Lists(entries, jar)
    ensures FirstValue(entries, name) == Lookup(jar, name)
  {
    if |entries| > 0 && entries[0].0 != name {
      var jar' := jar - {entries[0].0};
      assert Lists(entries[1..], jar') by {
        forall k | k in jar' ensures exists i :: 0 <= i < |entries[1..]| && entries[1..][i].0 == k {
          var i :| 0 <= i < |entries| && entries[i].0 == k;
          assert entries[1..][i - 1].0 == k;
        }
      }
      FirstValueIsLookup(entries[1..], jar', name);
    } else if |entries| == 0 {
      assert name !in jar;
    }
  }

  /** The cookie-string parser reads exactly the jar: for any listing of the
      jar the browser renders, `getCookie(name)` is the jar's value for `name`. */
  lemma GetCookieReadsJar(entries: seq<(string, string)>, jar: map<string, string>, name: string)
    requires '=' !in name
    requires forall i :: 0 <= i < |entries| ==> WellFormedEntry(entries[i])
    requires Lists(entries, jar)
    ensures GetCookie(RenderCookies(entries), name) == Lookup(jar, name)
  {
    GetCookieOfRendered(entries, name);
    FirstValueIsLookup(entries, jar, name);
  }
}
