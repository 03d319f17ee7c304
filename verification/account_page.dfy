/**
  The account page (`app/account/page.tsx`): the name form filled from the
  profile or the email address, saving the joined name, the sidebar's
  display values, and the guarded account deletion.
*/
module AccountPage {
  import opened Wrappers
  import opened Gateway
  import opened Text
  import AuthSession

  const SaveFallback: string := "Failed to update account. Please try again."

  /** `email?.split('@')[0]`: None when there is no email at all. */
  function LocalPart(email: Option<string>): (r: Option<string>)
    ensures email.None? <==> r.None?
    ensures r.Some? ==> '@' !in r.value
    ensures r.Some? && '@' !in email.value ==> r.value == email.value
    ensures r.Some? && '@' in email.value ==> r.value == email.value[..IndexOf(email.value, '@').value]
  {
    match email
    case None => None
    case Some(e) =>
      SplitAtFirst(e, '@');
      Some(Split(e, '@')[0])
  }

  /** A name split at its first space: the first word, and the rest joined
      back with spaces (`split(' ')`, `[0]`, `slice(1).join(' ')`). */
  function SplitName(src: string): (r: (string, string))
    ensures ' ' !in r.0
    ensures ' ' !in src ==> r == (src, "")
    ensures ' ' in src ==> r.0 + " " + r.1 == src
  {
    var parts := Split(src, ' ');
    SplitPieces(src);
    (parts[0], Join(parts[1..], " "))
  }

  /** The pieces of a split at spaces: one piece without a space, else the
      first piece, a space and the rest joined back. */
  lemma SplitPieces(src: string)
    ensures ' ' !in src ==> Split(src, ' ') == [src]
    ensures ' ' in src ==> var parts := Split(src, ' ');
      |parts| >= 2 && parts[0] + " " + Join(parts[1..], " ") == src
  {
    var parts := Split(src, ' ');
    JoinSplit(src, ' ');
    SplitAtFirst(src, ' ');
    if ' ' in src {
      var i := IndexOf(src, ' ').value;
      assert |Split(src[i + 1..], ' ')| >= 1;
      assert Join(parts, [' ']) == parts[0] + " " + Join(parts[1..], " ");
    }
  }

  /** The form's values. */
  datatype AccountForm = AccountForm(firstName: string, lastName: string, primaryEmail: string, username: string)

  datatype Field = FirstName | LastName | PrimaryEmail | Username

  const EmptyForm: AccountForm := AccountForm("", "", "", "")

  /** The name the form starts from: the profile's full name, else the
      email's local part, else nothing. */
  function NameSource(user: User, profile: Profile): (s: string)
    ensures Truthy(profile.fullName) ==> s == profile.fullName.value
    ensures !Truthy(profile.fullName) && Truthy(LocalPart(user.email)) ==> s == LocalPart(user.email).value
    ensures !Truthy(profile.fullName) && !Truthy(LocalPart(user.email)) ==> s == ""
  {
    OrElse(profile.fullName, OrElse(LocalPart(user.email), ""))
  }

  /** The form filled for a signed-in user with a profile. */
  function LoadedForm(user: User, profile: Profile): (f: AccountForm)
    ensures (f.firstName, f.lastName) == SplitName(NameSource(user, profile))
    ensures f.primaryEmail == OrElse(user.email, "")
    ensures '@' !in f.username
    ensures user.email.Some? && '@' !in user.email.value ==> f.username == user.email.value
  {
    var (first, last) := SplitName(NameSource(user, profile));
    AccountForm(first, last, OrElse(user.email, ""), OrElse(LocalPart(user.email), ""))
  }

  /** The page's own state. */
  datatype PageState = PageState(form: AccountForm, loading: bool, saving: bool,
                                 error: Option<string>, success: bool, deleteConfirm: bool)

  /** The effect that runs when the provider's state changes. */
  function OnAuthChange(p: PageState, authLoading: bool, user: Option<User>, profile: Option<Profile>): (r: (PageState, Option<string>))
    ensures authLoading ==> r == (p, None)
    ensures !authLoading && user.None? ==> r == (p, Some("/login"))
    ensures !authLoading && user.Some? ==> r.1.None? && !r.0.loading
    ensures !authLoading && user.Some? && profile.Some? ==> r.0.form == LoadedForm(user.value, profile.value)
    ensures !authLoading && user.Some? && profile.None? ==> r.0.form == p.form
  {
    if authLoading then (p, None)
    else if user.None? then (p, Some("/login"))
    else
      var form := if profile.Some? then LoadedForm(user.value, profile.value) else p.form;
      (p.(form := form, loading := false), None)
  }

  /** `handleFormChange`: one input's new value; banners are cleared. */
  function HandleFormChange(p: PageState, f: Field, value: string): (r: PageState)
    ensures f == FirstName ==> r.form == p.form.(firstName := value)
    ensures f == LastName ==> r.form == p.form.(lastName := value)
    ensures f == PrimaryEmail ==> r.form == p.form.(primaryEmail := value)
    ensures f == Username ==> r.form == p.form.(username := value)
    ensures r.error.None? && !r.success && r.saving == p.saving && r.deleteConfirm == p.deleteConfirm
  {
    var form := match f
      case FirstName => p.form.(firstName := value)
      case LastName => p.form.(lastName := value)
      case PrimaryEmail => p.form.(primaryEmail := value)
      case Username => p.form.(username := value);
    p.(form := form, error := None, success := false)
  }

  /** The `full_name` that `handleSave` sends. */
  function SavedName(form: AccountForm): string {
    Trim(form.firstName + " " + form.lastName)
  }

  /** `handleSave`: only the joined name is sent; on success the provider
      re-reads the profile. Returns the page, the provider state and the
      `full_name` sent. */
  function HandleSave(p: PageState, st: AuthSession.AuthState, update: Outcome,
                      fetched: Response<Profile>): (r: (PageState, AuthSession.AuthState, string))
    ensures r.2 == SavedName(p.form) && r.0.form == p.form
    ensures !r.0.saving
    ensures r.0.success <==> update.Resolved?
    ensures update.Resolved? ==> r.0.error.None? && r.1 == AuthSession.RefreshProfile(st, fetched)
    ensures update.Rejected? ==> r.0.error == Some(OrElse(update.message, SaveFallback)) && r.1 == st
  {
    var name := SavedName(p.form);
    match update
    case Resolved => (p.(saving := false, error := None, success := true), AuthSession.RefreshProfile(st, fetched), name)
    case Rejected(m) => (p.(saving := false, error := Some(OrElse(m, SaveFallback)), success := false), st, name)
  }

  /** Saving an untouched form sends back the loaded name, up to
      surrounding whitespace: split and re-join lose nothing else. */
  lemma SaveRoundTrip(src: string)
    ensures var (first, last) := SplitName(src);
      SavedName(AccountForm(first, last, "", "")) == Trim(src)
  {
    var (first, last) := SplitName(src);
    if ' ' !in src {
      TrimAppendSpace(src);
      assert first + " " + last == src + " ";
    }
  }

  lemma LoadedNameSavesBack(user: User, profile: Profile)
    ensures SavedName(LoadedForm(user, profile)) == Trim(NameSource(user, profile))
  {
    SaveRoundTrip(NameSource(user, profile));
  }

  /** `handleDeleteAccount`: nothing happens until the confirmation box is
      ticked; then the user is signed out and sent home. */
  function HandleDelete(p: PageState, st: AuthSession.AuthState): (r: (AuthSession.AuthState, Option<string>))
    ensures !p.deleteConfirm ==> r == (st, None)
    ensures p.deleteConfirm ==> r.1 == Some("/") && r.0.user.None? && r.0.session.None?
    ensures p.deleteConfirm ==> AuthSession.LocalToken(r.0).None?
  {
    if !p.deleteConfirm then (st, None)
    else (AuthSession.SignOut(st).0, Some("/"))
  }

  /** The sidebar's display values. */
  datatype UserData = UserData(fullName: string, username: string, location: string, avatar: string)

  function Display(user: Option<User>, profile: Option<Profile>): (d: UserData)
    ensures d.fullName != "" && d.location != ""
    ensures |d.username| >= 2 && d.username[0] == '@' && '@' !in d.username[1..]
    ensures profile.Some? && Truthy(profile.value.fullName) ==> d.fullName == profile.value.fullName.value
    ensures (profile.None? || !Truthy(profile.value.fullName)) && (user.None? || !Truthy(LocalPart(user.value.email))) ==>
      d.fullName == "User"
    ensures (user.None? || !Truthy(LocalPart(user.value.email))) ==> d.username == "@user"
    ensures (profile.None? || !Truthy(profile.value.location)) ==> d.location == "India"
    ensures (profile.None? || !Truthy(profile.value.fullName)) && user.Some? && Truthy(LocalPart(user.value.email)) ==>
      d.fullName == LocalPart(user.value.email).value
    ensures user.Some? && Truthy(LocalPart(user.value.email)) ==> d.username == "@" + LocalPart(user.value.email).value
    ensures profile.Some? && Truthy(profile.value.location) ==> d.location == profile.value.location.value
  {
    var local := if user.Some? then LocalPart(user.value.email) else None;
    var full := if profile.Some? && Truthy(profile.value.fullName) then profile.value.fullName.value
                else OrElse(local, "User");
    var location := if profile.Some? then OrElse(profile.value.location, "India") else "India";
    var avatar := if profile.Some? then OrElse(profile.value.avatarUrl, "") else "";
    UserData(full, "@" + OrElse(local, "user"), location, avatar)
  }

  /** The greeting's name: the first word of the display name. */
  function Greeting(d: UserData): (g: string)
    ensures ' ' !in g
    ensures ' ' !in d.fullName ==> g == d.fullName
  {
    SplitName(d.fullName).0
  }
}
