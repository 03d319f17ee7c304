/**
  The profile page (`app/profile/page.tsx`): the form filled from the
  provider's profile, field edits, saving through the user service, and the
  completion percentage over the seven profile fields.
*/
module ProfilePage {
  import opened Wrappers
  import opened Gateway
  import opened Text
  import AuthSession

  /** The seven inputs of the form. */
  datatype Field = FullName | Bio | Location | LinkedinUrl | GithubUrl | WebsiteUrl | AvatarUrl

  /** The fields in the order the completion count lists them. */
  const Fields: seq<Field> := [FullName, Bio, Location, LinkedinUrl, GithubUrl, WebsiteUrl, AvatarUrl]

  /** The input `name` of each field, which is also its key in the saved body. */
  function Name(f: Field): string {
    match f
    case FullName => "full_name"
    case Bio => "bio"
    case Location => "location"
    case LinkedinUrl => "linkedin_url"
    case GithubUrl => "github_url"
    case WebsiteUrl => "website_url"
    case AvatarUrl => "avatar_url"
  }

  const SaveFallback: string := "Failed to update profile. Please try again."

  /** The form's values. */
  datatype Form = Form(fullName: string, bio: string, location: string, linkedinUrl: string,
                       githubUrl: string, websiteUrl: string, avatarUrl: string)

  function Get(form: Form, f: Field): string {
    match f
    case FullName => form.fullName
    case Bio => form.bio
    case Location => form.location
    case LinkedinUrl => form.linkedinUrl
    case GithubUrl => form.githubUrl
    case WebsiteUrl => form.websiteUrl
    case AvatarUrl => form.avatarUrl
  }

  /** `{ ...prev, [name]: value }` for one of the seven names. */
  function Set(form: Form, f: Field, value: string): (r: Form)
    ensures Get(r, f) == value
    ensures forall g :: g != f ==> Get(r, g) == Get(form, g)
  {
    match f
    case FullName => form.(fullName := value)
    case Bio => form.(bio := value)
    case Location => form.(location := value)
    case LinkedinUrl => form.(linkedinUrl := value)
    case GithubUrl => form.(githubUrl := value)
    case WebsiteUrl => form.(websiteUrl := value)
    case AvatarUrl => form.(avatarUrl := value)
  }

  predicate Blank(s: string) {
    forall i :: 0 <= i < |s| ==> IsWhitespace(s[i])
  }

  /** A field counts as filled when its text is not blank. */
  predicate Filled(form: Form, f: Field) {
    !Blank(Get(form, f))
  }

  /** `value && value.trim() !== ''` is the same test. */
  lemma FilledIffTrimmed(form: Form, f: Field)
    ensures Filled(form, f) <==> Trim(Get(form, f)) != ""
  {
    TrimEmptyIff(Get(form, f));
  }

  /** The form as first shown: every field empty. */
  const EmptyForm: Form := Form("", "", "", "", "", "", "")

  /** The form filled from a stored profile; a missing value reads as empty. */
  function ProfileToForm(p: Profile): (f: Form)
    ensures Get(f, FullName) == OrElse(p.fullName, "") && Get(f, Bio) == OrElse(p.bio, "")
    ensures Get(f, Location) == OrElse(p.location, "") && Get(f, AvatarUrl) == OrElse(p.avatarUrl, "")
    ensures Get(f, LinkedinUrl) == OrElse(p.linkedinUrl, "") && Get(f, GithubUrl) == OrElse(p.githubUrl, "")
    ensures Get(f, WebsiteUrl) == OrElse(p.websiteUrl, "")
  {
    Form(OrElse(p.fullName, ""), OrElse(p.bio, ""), OrElse(p.location, ""), OrElse(p.linkedinUrl, ""),
         OrElse(p.githubUrl, ""), OrElse(p.websiteUrl, ""), OrElse(p.avatarUrl, ""))
  }

  /** Which of the seven fields are filled, in the order of `Fields`. */
  function FilledFlags(form: Form): (bs: seq<bool>)
    ensures |bs| == |Fields|
    ensures forall i :: 0 <= i < |Fields| ==> bs[i] == Filled(form, Fields[i])
  {
    [Filled(form, FullName), Filled(form, Bio), Filled(form, Location), Filled(form, LinkedinUrl),
     Filled(form, GithubUrl), Filled(form, WebsiteUrl), Filled(form, AvatarUrl)]
  }

  /** How many flags are set. */
  function CountTrue(bs: seq<bool>): (n: nat)
    ensures n <= |bs|
    ensures n == 0 <==> forall i :: 0 <= i < |bs| ==> !bs[i]
    ensures n == |bs| <==> forall i :: 0 <= i < |bs| ==> bs[i]
  {
    if |bs| == 0 then 0
    else
      var rest := CountTrue(bs[1..]);
      assert forall i :: 1 <= i < |bs| ==> bs[i] == bs[1..][i - 1];
      (if bs[0] then 1 else 0) + rest
  }

  function FilledCount(form: Form): (k: nat)
    ensures k <= 7
  {
    CountTrue(FilledFlags(form))
  }

  /** `calculateProfileCompletion`: the filled share of the seven fields as
      a whole percentage, rounded half up. */
  function Completion(form: Form): (c: int)
    ensures 0 <= c <= 100
    ensures c == 0 <==> forall i :: 0 <= i < |Fields| ==> !Filled(form, Fields[i])
    ensures c == 100 <==> forall i :: 0 <= i < |Fields| ==> Filled(form, Fields[i])
  {
    var k := FilledCount(form);
    (200 * k + 7) / 14
  }

  /** `Math.round`: the nearest integer, halves rounded up. */
  function Round(x: real): int {
    (x + 0.5).Floor
  }

  /** The integer form of the rounded percentage: `round(100k/n)` is
      `(200k + n) / 2n` in integer division. */
  lemma RoundedShare(k: nat, n: nat)
    requires n > 0
    ensures (200 * k + n) / (2 * n) == Round(k as real / n as real * 100.0)
  {
    var m := 2 * n;
    var q := (200 * k + n) / m;
    assert m * q <= 200 * k + n < m * q + m;
    var x := k as real / n as real * 100.0 + 0.5;
    assert x == (200 * k + n) as real / m as real;
    BetweenMultiples(200 * k + n, m, q);
  }

  /** `m q <= a < m (q + 1)` places `a / m` in `[q, q + 1)`. */
  lemma BetweenMultiples(a: int, m: int, q: int)
    requires m > 0 && m * q <= a < m * q + m
    ensures q as real <= a as real / m as real < q as real + 1.0
  {
    var r := a - m * q;
    assert 0 <= r < m;
    assert a as real == m as real * q as real + r as real;
    assert a as real / m as real == q as real + r as real / m as real;
    assert 0.0 <= r as real / m as real < 1.0;
  }

  /** The percentage is the rounded share `filled / 7 * 100`. */
  lemma CompletionIsRoundedShare(form: Form)
    ensures Completion(form) == Round(FilledCount(form) as real / 7.0 * 100.0)
  {
    RoundedShare(FilledCount(form), 7);
  }

  /** Flags set in `b1` are set in `b2`: no fewer of them. */
  lemma {:induction false} CountMonotone(b1: seq<bool>, b2: seq<bool>)
    requires |b1| == |b2|
    requires forall i :: 0 <= i < |b1| ==> b1[i] ==> b2[i]
    ensures CountTrue(b1) <= CountTrue(b2)
    decreases |b1|
  {
    if |b1| > 0 {
      assert forall i :: 0 <= i < |b1[1..]| ==> b1[1..][i] == b1[i + 1] && b2[1..][i] == b2[i + 1];
      CountMonotone(b1[1..], b2[1..]);
    }
  }

  /** Filling more fields never lowers the percentage. */
  lemma CompletionMonotone(f1: Form, f2: Form)
    requires forall i :: 0 <= i < |Fields| ==> Filled(f1, Fields[i]) ==> Filled(f2, Fields[i])
    ensures Completion(f1) <= Completion(f2)
  {
    CountMonotone(FilledFlags(f1), FilledFlags(f2));
  }

  /** The page's own state. */
  datatype PageState = PageState(form: Form, loading: bool, saving: bool, error: Option<string>, success: bool)

  function Mounted(): PageState {
    PageState(EmptyForm, true, false, None, false)
  }

  /** The effect that runs when the provider's state changes: wait while it
      loads, send a visitor without a user to `/login`, otherwise show the
      stored profile (if any) and stop loading. */
  function OnAuthChange(p: PageState, authLoading: bool, user: Option<User>, profile: Option<Profile>): (r: (PageState, Option<string>))
    ensures authLoading ==> r == (p, None)
    ensures !authLoading && user.None? ==> r == (p, Some("/login"))
    ensures !authLoading && user.Some? ==> r.1.None? && !r.0.loading
    ensures !authLoading && user.Some? && profile.Some? ==> r.0.form == ProfileToForm(profile.value)
    ensures !authLoading && user.Some? && profile.None? ==> r.0.form == p.form
  {
    if authLoading then (p, None)
    else if user.None? then (p, Some("/login"))
    else
      var form := if profile.Some? then ProfileToForm(profile.value) else p.form;
      (p.(form := form, loading := false), None)
  }

  /** `handleChange`: one input's new value; banners are cleared. */
  function HandleChange(p: PageState, f: Field, value: string): (r: PageState)
    ensures Get(r.form, f) == value
    ensures forall g :: g != f ==> Get(r.form, g) == Get(p.form, g)
    ensures r.error.None? && !r.success
    ensures r.loading == p.loading && r.saving == p.saving
  {
    p.(form := Set(p.form, f, value), error := None, success := false)
  }

  /** `handleSubmit`: sends the whole form; on success the provider re-reads
      the profile (its own failures are swallowed). Returns the page, the
      provider state and the body sent. */
  function HandleSubmit(p: PageState, st: AuthSession.AuthState, update: Outcome,
                        fetched: Response<Profile>): (r: (PageState, AuthSession.AuthState, Form))
    ensures r.2 == p.form && r.0.form == p.form
    ensures !r.0.saving
    ensures r.0.success <==> update.Resolved?
    ensures update.Resolved? ==> r.0.error.None? && r.1 == AuthSession.RefreshProfile(st, fetched)
    ensures update.Rejected? ==> r.0.error == Some(OrElse(update.message, SaveFallback)) && r.1 == st
  {
    match update
    case Resolved => (p.(saving := false, error := None, success := true), AuthSession.RefreshProfile(st, fetched), p.form)
    case Rejected(m) => (p.(saving := false, error := Some(OrElse(m, SaveFallback)), success := false), st, p.form)
  }

  /** Typing only spaces into a field never raises the percentage, and
      typing a non-blank value into a listed field never lowers it. */
  lemma BlankEditNeverRaises(p: PageState, f: Field, value: string)
    requires Trim(value) == ""
    ensures Completion(HandleChange(p, f, value).form) <= Completion(p.form)
  {
    TrimEmptyIff(value);
    CompletionMonotone(HandleChange(p, f, value).form, p.form);
  }

  lemma FilledEditNeverLowers(p: PageState, f: Field, value: string)
    requires Trim(value) != ""
    ensures Completion(p.form) <= Completion(HandleChange(p, f, value).form)
  {
    TrimEmptyIff(value);
    CompletionMonotone(p.form, HandleChange(p, f, value).form);
  }

  /** A fresh page shows 0%. */
  lemma FreshPageShowsZero()
    ensures Completion(Mounted().form) == 0
  {
    assert forall i :: 0 <= i < |Fields| ==> Get(EmptyForm, Fields[i]) == "";
  }

  /** A stored value that is present and not blank. */
  predicate Present(o: Option<string>) {
    Truthy(o) && Trim(o.value) != ""
  }

  /** Loading a profile fills a field exactly when the stored value is
      present and not blank; with all seven present the page shows 100%. */
  lemma LoadedFieldFilled(p: Profile, f: Field)
    ensures Filled(ProfileToForm(p), f) <==> Present(Stored(p, f))
  {
    FilledIffTrimmed(ProfileToForm(p), f);
    TrimEmptyIff("");
  }

  /** The stored profile value behind each field. */
  function Stored(p: Profile, f: Field): Option<string> {
    match f
    case FullName => p.fullName
    case Bio => p.bio
    case Location => p.location
    case LinkedinUrl => p.linkedinUrl
    case GithubUrl => p.githubUrl
    case WebsiteUrl => p.websiteUrl
    case AvatarUrl => p.avatarUrl
  }

  lemma FullProfileShowsHundred(p: Profile)
    requires forall f :: Present(Stored(p, f))
    ensures Completion(ProfileToForm(p)) == 100
  {
    forall i | 0 <= i < |Fields| ensures Filled(ProfileToForm(p), Fields[i]) {
      LoadedFieldFilled(p, Fields[i]);
    }
  }
}
