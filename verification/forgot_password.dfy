/**
  The password-reset request form (`app/forgot-password/page.tsx`): a
  required check, the email pattern `^[^\s@]+@[^\s@]+\.[^\s@]+$`, and the
  call to the reset endpoint only when both pass.
*/
module ForgotPassword {
  import opened Wrappers
  import opened Text
  import opened Gateway

  /** A run of the character class `[^\s@]+`: non-empty, no whitespace, no `@`. */
  predicate Segment(s: string) {
    |s| > 0 && forall i :: 0 <= i < |s| ==> !IsWhitespace(s[i]) && s[i] != '@'
  }

  /** The pattern, as the regular expression reads: some split of the text
      into `a @ b . c` with three segments. */
  ghost predicate EmailPattern(s: string) {
    exists a, b, c :: s == a + "@" + b + "." + c && Segment(a) && Segment(b) && Segment(c)
  }

  predicate NoWhitespace(s: string) {
    forall i :: 0 <= i < |s| ==> !IsWhitespace(s[i])
  }

  /** A `.` strictly inside the text: neither its first nor its last character. */
  predicate HasInnerDot(d: string) {
    |d| >= 3 && '.' in d[1..|d| - 1]
  }

  /** The matcher as a direct check: no whitespace, exactly one `@` that is
      not first, and a domain with an inner dot. */
  function IsValidEmail(s: string): bool {
    NoWhitespace(s) &&
    match IndexOf(s, '@')
    case None => false
    case Some(i) => i > 0 && '@' !in s[i + 1..] && HasInnerDot(s[i + 1..])
  }

  /** The direct check accepts exactly the strings the pattern matches. */
  lemma IsValidEmailMatchesPattern(s: string)
    ensures IsValidEmail(s) <==> EmailPattern(s)
  {
    if IsValidEmail(s) {
      ValidEmailHasSplit(s);
    }
    if EmailPattern(s) {
      var a, b, c :| s == a + "@" + b + "." + c && Segment(a) && Segment(b) && Segment(c);
      SplitIsValidEmail(a, b, c);
    }
  }

  lemma ValidEmailHasSplit(s: string)
    requires IsValidEmail(s)
    ensures EmailPattern(s)
  {
    var i := IndexOf(s, '@').value;
    var p := InnerDot(s, i);
    NoAtBefore(s, i);
    NoAtAfter(s, i);
    var a, b, c := s[..i], s[i + 1..p], s[p + 1..];
    SliceSegment(s, 0, i);
    SliceSegment(s, i + 1, p);
    SliceSegment(s, p + 1, |s|);
    Decompose(s, i, p);
    assert s == a + "@" + b + "." + c && Segment(a) && Segment(b) && Segment(c);
  }

  /** The position in `s` of the dot inside the domain after `i`. */
  lemma InnerDot(s: string, i: nat) returns (p: nat)
    requires i < |s| && HasInnerDot(s[i + 1..])
    ensures i + 1 < p < |s| - 1 && s[p] == '.'
  {
    var d := s[i + 1..];
    var m := d[1..|d| - 1];
    var j :| 0 <= j < |m| && m[j] == '.';
    assert m[j] == d[j + 1];
    assert d[j + 1] == s[i + 2 + j];
    p := i + 2 + j;
  }

  lemma NoAtBefore(s: string, i: nat)
    requires IndexOf(s, '@') == Some(i)
    ensures forall t :: 0 <= t < i ==> s[t] != '@'
  {
    forall t | 0 <= t < i ensures s[t] != '@' {
      assert s[t] == s[..i][t];
    }
  }

  lemma NoAtAfter(s: string, i: nat)
    requires i < |s| && '@' !in s[i + 1..]
    ensures forall t :: i < t < |s| ==> s[t] != '@'
  {
    forall t | i < t < |s| ensures s[t] != '@' {
      assert s[t] == s[i + 1..][t - i - 1];
    }
  }

  lemma SliceSegment(s: string, lo: nat, hi: nat)
    requires lo < hi <= |s|
    requires NoWhitespace(s)
    requires forall t :: lo <= t < hi ==> s[t] != '@'
    ensures Segment(s[lo..hi])
  {
  }

  lemma Decompose(s: string, i: nat, p: nat)
    requires i < p < |s| && s[i] == '@' && s[p] == '.'
    ensures s == s[..i] + "@" + s[i + 1..p] + "." + s[p + 1..]
  {
    assert s == s[..i] + [s[i]] + s[i + 1..];
    assert s[i + 1..] == s[i + 1..p] + [s[p]] + s[p + 1..];
  }

  lemma SplitIsValidEmail(a: string, b: string, c: string)
    requires Segment(a) && Segment(b) && Segment(c)
    ensures IsValidEmail(a + "@" + b + "." + c)
  {
    var s := a + "@" + b + "." + c;
    var i, p := |a|, |a| + 1 + |b|;
    Pieces(a, b, c);
    PieceChars(s, 0, i);
    PieceChars(s, i + 1, p);
    PieceChars(s, p + 1, |s|);
    assert NoWhitespace(s);
    AtIndex(s, i);
    DomainFacts(s, i, p);
  }

  /** Where the three segments and the two marks sit in `a @ b . c`. */
  lemma Pieces(a: string, b: string, c: string)
    ensures var s := a + "@" + b + "." + c;
      var i, p := |a|, |a| + 1 + |b|;
      s[..i] == a && s[i] == '@' && s[i + 1..p] == b && s[p] == '.' && s[p + 1..] == c
  {
    var s := a + "@" + b + "." + c;
    assert s == a + ("@" + (b + ("." + c)));
  }

  /** An `@` with none before it is the first one. */
  lemma AtIndex(s: string, i: nat)
    requires i < |s| && s[i] == '@' && forall t :: 0 <= t < i ==> s[t] != '@'
    ensures IndexOf(s, '@') == Some(i)
  {
    assert '@' !in s[..i] by {
      forall t | 0 <= t < i ensures s[..i][t] != '@' {
        assert s[..i][t] == s[t];
      }
    }
  }

  /** The domain after the `@` has no `@` and an inner dot at `p`. */
  lemma DomainFacts(s: string, i: nat, p: nat)
    requires i + 1 < p < |s| - 1 && s[p] == '.'
    requires forall t :: i < t < |s| ==> s[t] != '@'
    ensures '@' !in s[i + 1..] && HasInnerDot(s[i + 1..])
  {
    var d := s[i + 1..];
    forall t | 0 <= t < |d| ensures d[t] != '@' {
      assert d[t] == s[i + 1 + t];
    }
    assert d[1..|d| - 1][p - i - 2] == s[p];
  }

  /** The characters of a segment placed at `s[lo..hi]`. */
  lemma PieceChars(s: string, lo: nat, hi: nat)
    requires lo <= hi <= |s| && Segment(s[lo..hi])
    ensures forall t :: lo <= t < hi ==> !IsWhitespace(s[t]) && s[t] != '@'
  {
    forall t | lo <= t < hi ensures !IsWhitespace(s[t]) && s[t] != '@' {
      assert s[t] == s[lo..hi][t - lo];
    }
  }

  const RequiredMessage: string := "Email is required"
  const InvalidMessage: string := "Please enter a valid email address"
  const FailureFallback: string := "Failed to send password reset email. Please try again."

  /** What the form shows once `handleSubmit` settles. `redirectsToLogin`
      stands for the timer that opens `/login` after a successful send. */
  datatype FormState = FormState(error: Option<string>, success: bool, loading: bool,
                                 calledApi: bool, redirectsToLogin: bool)

  /** `handleSubmit`, given the outcome the reset endpoint would produce. */
  function HandleSubmit(email: string, reply: Outcome): (f: FormState)
    ensures !f.loading
    ensures f.calledApi <==> IsValidEmail(email)
    ensures email == "" ==> f.error == Some(RequiredMessage)
    ensures email != "" && !IsValidEmail(email) ==> f.error == Some(InvalidMessage)
    ensures f.success <==> f.calledApi && reply.Resolved?
    ensures f.redirectsToLogin <==> f.success
    ensures f.calledApi && reply.Rejected? ==> f.error == Some(OrElse(reply.message, FailureFallback))
  {
    if email == "" then FormState(Some(RequiredMessage), false, false, false, false)
    else if !IsValidEmail(email) then FormState(Some(InvalidMessage), false, false, false, false)
    else
      match reply
      case Resolved => FormState(None, true, false, true, true)
      case Rejected(m) => FormState(Some(OrElse(m, FailureFallback)), false, false, true, false)
  }

  /** The required check comes first: an empty email never reaches the
      pattern, and the pattern alone would reject it anyway. */
  lemma EmptyEmailNeverMatches()
    ensures !IsValidEmail("")
    ensures !EmailPattern("")
  {
    IsValidEmailMatchesPattern("");
  }

  /** A plain address passes; so does a dot right after the `@`, since `.`
      belongs to the class `[^\s@]`. */
  lemma AcceptedExamples()
    ensures IsValidEmail("a@b.co")
    ensures IsValidEmail("a@.b.c")
  {
    SplitIsValidEmail("a", "b", "co");
    assert "a" + "@" + "b" + "." + "co" == "a@b.co";
    SplitIsValidEmail("a", ".b", "c");
    assert "a" + "@" + ".b" + "." + "c" == "a@.b.c";
  }

  /** A missing dot, a second `@` or a space fails. */
  lemma RejectedExamples()
    ensures !IsValidEmail("a@bco")
    ensures !IsValidEmail("a@b@c.d")
    ensures !IsValidEmail("a b@c.d")
  {
    NoDot("a@bco");
    SecondAt("a@b@c.d");
    assert IsWhitespace("a b@c.d"[1]);
  }

  lemma NoDot(s: string)
    requires s == "a@bco"
    ensures !IsValidEmail(s)
  {
    assert IndexOf(s, '@') == Some(1);
    assert s[2..][1..|s[2..]| - 1] == "c";
  }

  lemma SecondAt(s: string)
    requires s == "a@b@c.d"
    ensures !IsValidEmail(s)
  {
    assert IndexOf(s, '@') == Some(1);
    assert s[2..][1] == '@';
  }
}
