/**
  The helpers of `components/navbar/Navbar.tsx`: the plan's display name,
  the percentage read out of the completion text, and the avatar initials.
*/
module Navbar {
  import opened Wrappers
  import opened Text

  const StarterPlan: string := "Starter Plan"
  const FreePlan: string := "Free Plan"
  const BasicPlan: string := "Basic Plan"
  const MemberPlan: string := "Member Plan"
  const ProPlan: string := "Pro Plan"

  /** `getPlanDisplayName`: the first of Starter, Free, Basic, Member, Pro
      the text mentions, else the text itself. */
  function PlanDisplayName(plan: string): (r: string)
    ensures Contains(plan, "Starter") ==> r == StarterPlan
    ensures !Contains(plan, "Starter") && Contains(plan, "Free") ==> r == FreePlan
    ensures !Contains(plan, "Starter") && !Contains(plan, "Free") && Contains(plan, "Basic") ==> r == BasicPlan
    ensures (!Contains(plan, "Starter") && !Contains(plan, "Free") && !Contains(plan, "Basic") &&
             Contains(plan, "Member")) ==> r == MemberPlan
    ensures (!Contains(plan, "Starter") && !Contains(plan, "Free") && !Contains(plan, "Basic") &&
             !Contains(plan, "Member") && Contains(plan, "Pro")) ==> r == ProPlan
    ensures (!Contains(plan, "Starter") && !Contains(plan, "Free") && !Contains(plan, "Basic") &&
             !Contains(plan, "Member") && !Contains(plan, "Pro")) ==> r == plan
  {
    if Contains(plan, "Starter") then StarterPlan
    else if Contains(plan, "Free") then FreePlan
    else if Contains(plan, "Basic") then BasicPlan
    else if Contains(plan, "Member") then MemberPlan
    else if Contains(plan, "Pro") then ProPlan
    else plan
  }

  /** A word whose first letter the text lacks is not in the text. */
  lemma {:induction false} FirstLetterAbsent(s: string, p: string)
    requires |p| > 0 && p[0] !in s
    ensures !Contains(s, p)
    decreases |s|
  {
    if |s| > 0 {
      assert s[0] != p[0];
      FirstLetterAbsent(s[1..], p);
    }
  }

  /** Every name the function produces is its own display name, so
      applying it twice changes nothing. */
  lemma PlanDisplayNameIdempotent(plan: string)
    ensures PlanDisplayName(PlanDisplayName(plan)) == PlanDisplayName(plan)
  {
    var r := PlanDisplayName(plan);
    if r == StarterPlan {
      StarterFixed(r);
    } else if r == FreePlan {
      FreeFixed(r);
    } else if r == BasicPlan {
      BasicFixed(r);
    } else if r == MemberPlan {
      MemberFixed(r);
    } else if r == ProPlan {
      ProFixed(r);
    } else {
      assert r == plan;
    }
  }

  lemma StarterFixed(r: string)
    requires r == StarterPlan
    ensures PlanDisplayName(r) == r
  {
    assert r[..7] == "Starter";
  }

  lemma FreeFixed(r: string)
    requires r == FreePlan
    ensures PlanDisplayName(r) == r
  {
    assert r[..4] == "Free";
    FirstLetterAbsent(r, "Starter");
  }

  lemma BasicFixed(r: string)
    requires r == BasicPlan
    ensures PlanDisplayName(r) == r
  {
    assert r[..5] == "Basic";
    Lacks2(r, "Starter", "Free");
  }

  lemma MemberFixed(r: string)
    requires r == MemberPlan
    ensures PlanDisplayName(r) == r
  {
    assert r[..6] == "Member";
    Lacks3(r, "Starter", "Free", "Basic");
  }

  lemma ProFixed(r: string)
    requires r == ProPlan
    ensures PlanDisplayName(r) == r
  {
    assert r[..3] == "Pro";
    Lacks4(r, "Starter", "Free", "Basic", "Member");
  }

  lemma Lacks2(s: string, p: string, q: string)
    requires |p| > 0 && p[0] !in s && |q| > 0 && q[0] !in s
    ensures !Contains(s, p) && !Contains(s, q)
  {
    FirstLetterAbsent(s, p);
    FirstLetterAbsent(s, q);
  }

  lemma Lacks3(s: string, p: string, q: string, u: string)
    requires |p| > 0 && p[0] !in s && |q| > 0 && q[0] !in s && |u| > 0 && u[0] !in s
    ensures !Contains(s, p) && !Contains(s, q) && !Contains(s, u)
  {
    Lacks2(s, p, q);
    FirstLetterAbsent(s, u);
  }

  lemma Lacks4(s: string, p: string, q: string, u: string, w: string)
    requires |p| > 0 && p[0] !in s && |q| > 0 && q[0] !in s && |u| > 0 && u[0] !in s && |w| > 0 && w[0] !in s
    ensures !Contains(s, p) && !Contains(s, q) && !Contains(s, u) && !Contains(s, w)
  {
    Lacks3(s, p, q, u);
    FirstLetterAbsent(s, w);
  }

  /** The regular expression `(\d+)%` matches starting at `i`: the run of
      digits from `i` is non-empty and followed by `%`. */
  predicate MatchAt(s: string, i: nat) {
    i < |s| && LeadingDigits(s[i..]) > 0 && i + LeadingDigits(s[i..]) < |s| && s[i + LeadingDigits(s[i..])] == '%'
  }

  /** The leftmost match at or after `from`, as a regular-expression search
      finds it. */
  function FirstMatch(s: string, from: nat): (r: Option<nat>)
    requires from <= |s|
    ensures r.None? ==> forall j :: from <= j < |s| ==> !MatchAt(s, j)
    ensures r.Some? ==> from <= r.value < |s| && MatchAt(s, r.value) &&
                        forall j :: from <= j < r.value ==> !MatchAt(s, j)
    decreases |s| - from
  {
    if from == |s| then None
    else if MatchAt(s, from) then Some(from)
    else FirstMatch(s, from + 1)
  }

  /** `getProfilePercentage`: the number of the first match, else 0. */
  function ProfilePercentage(completion: string): (n: nat)
    ensures (forall j :: 0 <= j < |completion| ==> !MatchAt(completion, j)) ==> n == 0
  {
    match FirstMatch(completion, 0)
    case None => 0
    case Some(i) => DigitsValue(completion[i..][..LeadingDigits(completion[i..])])
  }

  /** The leftmost match starts a whole run of digits: a match never begins
      in the middle of a number, since the number's start would match too. */
  lemma {:induction false} MatchStartsRun(s: string, i: nat)
    requires FirstMatch(s, 0).Some? && FirstMatch(s, 0).value == i
    ensures i == 0 || !IsDigit(s[i - 1])
  {
    if i > 0 && IsDigit(s[i - 1]) {
      RunExtends(s, i - 1);
      assert MatchAt(s, i - 1);
    }
  }

  /** A digit before a run joins it: the run from `i` is one longer than
      the run from `i + 1`. */
  lemma RunExtends(s: string, i: nat)
    requires i + 1 < |s| && IsDigit(s[i])
    ensures LeadingDigits(s[i..]) == LeadingDigits(s[i + 1..]) + 1
  {
    assert s[i..][1..] == s[i + 1..];
  }

  /** The first character of each word, empty words giving nothing
      (`n[0]` of an empty word is `undefined`, which `join` drops). */
  function FirstChars(words: seq<string>): (r: string)
    ensures |r| <= |words|
  {
    if |words| == 0 then ""
    else (if words[0] == "" then "" else [words[0][0]]) + FirstChars(words[1..])
  }

  /** The avatar's initials. */
  function Initials(fullName: string): string {
    ToUpper(FirstChars(Split(fullName, ' ')))
  }

  lemma {:induction false} FirstCharsAppend(a: seq<string>, b: seq<string>)
    ensures FirstChars(a + b) == FirstChars(a) + FirstChars(b)
    decreases |a|
  {
    if |a| > 0 {
      assert (a + b)[1..] == a[1..] + b;
      FirstCharsAppend(a[1..], b);
    } else {
      assert a + b == b;
    }
  }

  lemma ToUpperAppend(a: string, b: string)
    ensures ToUpper(a + b) == ToUpper(a) + ToUpper(b)
  {
  }

  /** Initials of a name are the initials of its words, in order: the
      initials of two parts joined by a space are the two sets of initials
      one after the other. */
  lemma InitialsOfJoin(a: string, b: string)
    ensures Initials(a + " " + b) == Initials(a) + Initials(b)
  {
    SplitAppend(a, b, ' ');
    assert a + " " + b == a + [' '] + b;
    FirstCharsAppend(Split(a, ' '), Split(b, ' '));
    ToUpperAppend(FirstChars(Split(a, ' ')), FirstChars(Split(b, ' ')));
  }

  /** A single word's initial is its upper-cased first character; an empty
      word contributes nothing. */
  lemma InitialOfWord(w: string)
    requires ' ' !in w
    ensures Initials(w) == (if w == "" then "" else [Upper(w[0])])
  {
    SplitNoSep(w, ' ');
  }

  /** The empty pieces that a doubled space leaves in `split(' ')` add no
      initial: a double space reads like a single one. */
  lemma DoubleSpaceAddsNothing(a: string, b: string)
    ensures Initials(a + "  " + b) == Initials(a + " " + b)
  {
    var rest := " " + b;
    assert a + "  " + b == a + " " + rest;
    InitialsOfJoin(a, rest);
    LeadingSpaceAddsNothing(b);
    InitialsOfJoin(a, b);
  }

  /** A leading space leaves an empty first piece, which adds no initial. */
  lemma LeadingSpaceAddsNothing(b: string)
    ensures Initials(" " + b) == Initials(b)
  {
    var empty: string := [];
    assert empty + " " + b == " " + b;
    InitialsOfJoin(empty, b);
    InitialOfWord(empty);
  }

  /** The navbar's fixed plan text keeps its name. */
  lemma FixedPlan()
    ensures PlanDisplayName("Starter Plan") == StarterPlan
  {
    assert "Starter Plan"[..7] == "Starter";
  }

  /** With no match in `[from, k)` the search from `from` is the search
      from `k`. */
  lemma {:induction false} SkipNoMatch(s: string, from: nat, k: nat)
    requires from <= k <= |s|
    requires forall j :: from <= j < k ==> !MatchAt(s, j)
    ensures FirstMatch(s, from) == FirstMatch(s, k)
    decreases k - from
  {
    if from < k {
      SkipNoMatch(s, from + 1, k);
    }
  }

  /** The navbar's fixed completion text reads as 40. */
  lemma FixedPercentage()
    ensures ProfilePercentage("Profile 40% Complete") == 40
  {
    var s := "Profile 40% Complete";
    FixedMatch(s);
    var t := s[8..];
    assert t == "40% Complete";
    FortyRun(t);
    FortyValue(t[..2]);
    PercentageAt(s, 8, 2);
  }

  lemma PercentageAt(s: string, i: nat, k: nat)
    requires FirstMatch(s, 0) == Some(i) && i < |s| && LeadingDigits(s[i..]) == k
    ensures ProfilePercentage(s) == DigitsValue(s[i..][..k])
  {
  }

  lemma FixedMatch(s: string)
    requires s == "Profile 40% Complete"
    ensures FirstMatch(s, 0) == Some(8)
  {
    assert s[..8] == "Profile ";
    forall j | 0 <= j < 8 ensures !MatchAt(s, j) {
      NoMatchAtNonDigit(s, j);
    }
    SkipNoMatch(s, 0, 8);
    var t := s[8..];
    assert t == "40% Complete";
    FortyRun(t);
    assert s[8 + 2] == t[2];
    assert MatchAt(s, 8);
  }

  /** No match starts at a character that is not a digit. */
  lemma NoMatchAtNonDigit(s: string, j: nat)
    requires j < |s| && !IsDigit(s[j])
    ensures !MatchAt(s, j)
  {
    assert s[j..][0] == s[j];
  }

  lemma FortyRun(t: string)
    requires t == "40% Complete"
    ensures LeadingDigits(t) == 2 && t[2] == '%' && t[..2] == "40"
  {
    assert LeadingDigits(t[1..][1..]) == 0;
    assert LeadingDigits(t[1..]) == 1;
  }

  lemma FortyValue(t: string)
    requires t == "40"
    ensures AllDigits(t) && DigitsValue(t) == 40
  {
    assert t[..1] == "4" && t[..1][..0] == "";
    assert DigitValue('4') == 4 && DigitValue('0') == 0;
    assert DigitsValue(t[..1][..0]) == 0;
    assert DigitsValue(t[..1]) == 4;
  }

  /** The navbar's fixed name gives the initials "HM". */
  lemma FixedInitials()
    ensures Initials("Himanshu Mishra") == "HM"
  {
    TwoCapitalWords("Himanshu", "Mishra");
    assert "Himanshu" + " " + "Mishra" == "Himanshu Mishra";
  }

  /** Two capitalised words separated by a space give their two capitals. */
  lemma TwoCapitalWords(a: string, b: string)
    requires |a| > 0 && ' ' !in a && 'A' <= a[0] <= 'Z'
    requires |b| > 0 && ' ' !in b && 'A' <= b[0] <= 'Z'
    ensures Initials(a + " " + b) == [a[0], b[0]]
  {
    InitialsOfJoin(a, b);
    InitialOfWord(a);
    InitialOfWord(b);
  }
}
