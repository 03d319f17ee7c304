/**
  String helpers shared by the model. Strings are `seq<char>` restricted to
  ASCII semantics: case mapping only touches `A`-`Z` / `a`-`z`, and the
  whitespace set is the six ASCII characters JavaScript's `trim` and the
  regular-expression class `\s` remove in that range.
*/
module Text {
  import opened Wrappers

  // ---------------------------------------------------------------- chars

  predicate IsWhitespace(c: char) {
    c == ' ' || c == '\t' || c == '\n' || c == '\r' || c == 11 as char || c == 12 as char
  }

  predicate IsDigit(c: char) {
    '0' <= c <= '9'
  }

  function Lower(c: char): char {
    if 'A' <= c <= 'Z' then (c as int + 32) as char else c
  }

  function Upper(c: char): char {
    if 'a' <= c <= 'z' then (c as int - 32) as char else c
  }

  /** `s.toLowerCase()`, character by character. */
  function ToLower(s: string): (r: string)
    ensures |r| == |s|
    ensures forall i :: 0 <= i < |s| ==> r[i] == Lower(s[i])
  {
    if |s| == 0 then "" else [Lower(s[0])] + ToLower(s[1..])
  }

  /** `s.toUpperCase()`, character by character. */
  function ToUpper(s: string): (r: string)
    ensures |r| == |s|
    ensures forall i :: 0 <= i < |s| ==> r[i] == Upper(s[i])
  {
    if |s| == 0 then "" else [Upper(s[0])] + ToUpper(s[1..])
  }

  // ---------------------------------------------------------------- search

  /** `s.startsWith(p)`, equivalently `s.indexOf(p) === 0`. */
  predicate StartsWith(s: string, p: string) {
    |p| <= |s| && s[..|p|] == p
  }

  /** `s.includes(p)`: `p` occurs at some position of `s`. */
  predicate Contains(s: string, p: string)
    decreases |s|
  {
    StartsWith(s, p) || (|s| > 0 && Contains(s[1..], p))
  }

  /** `p` occurs in `s` starting at position `i`. */
  predicate OccursAt(s: string, p: string, i: int) {
    0 <= i && i + |p| <= |s| && s[i..i + |p|] == p
  }

  /** `Contains` agrees with the positional reading of "occurs in". */
  lemma {:induction false} ContainsIff(s: string, p: string)
    ensures Contains(s, p) <==> exists i :: OccursAt(s, p, i)
    decreases |s|
  {
    if StartsWith(s, p) {
      assert OccursAt(s, p, 0);
    } else if |s| == 0 {
      assert forall i :: !OccursAt(s, p, i);
    } else {
      ContainsIff(s[1..], p);
      forall i | OccursAt(s, p, i) ensures OccursAt(s[1..], p, i - 1) {
        assert s[1..][i - 1..i - 1 + |p|] == s[i..i + |p|];
      }
      forall i | OccursAt(s[1..], p, i) ensures OccursAt(s, p, i + 1) {
        assert s[1..][i..i + |p|] == s[i + 1..i + 1 + |p|];
      }
    }
  }

  /** Position of the first `c` in `s`, as `indexOf` (None for -1). */
  function IndexOf(s: string, c: char): (r: Option<nat>)
    ensures r.None? <==> c !in s
    ensures r.Some? ==> r.value < |s| && s[r.value] == c && c !in s[..r.value]
  {
    if |s| == 0 then None
    else if s[0] == c then Some(0)
    else match IndexOf(s[1..], c)
      case None => None
      case Some(i) => assert s[1..][..i] == s[1..i + 1]; Some(i + 1)
  }

  // ---------------------------------------------------------------- trim

  /** Drops leading whitespace. */
  function TrimStart(s: string): (r: string)
    ensures |r| <= |s| && r == s[|s| - |r|..]
    ensures forall i :: 0 <= i < |s| - |r| ==> IsWhitespace(s[i])
    ensures |r| > 0 ==> !IsWhitespace(r[0])
  {
    if |s| > 0 && IsWhitespace(s[0]) then TrimStart(s[1..]) else s
  }

  /** Drops trailing whitespace. */
  function TrimEnd(s: string): (r: string)
    ensures |r| <= |s| && r == s[..|r|]
    ensures forall i :: |r| <= i < |s| ==> IsWhitespace(s[i])
    ensures |r| > 0 ==> !IsWhitespace(r[|r| - 1])
  {
    if |s| > 0 && IsWhitespace(s[|s| - 1]) then TrimEnd(s[..|s| - 1]) else s
  }

  /** `s.trim()`. */
  function Trim(s: string): string {
    TrimEnd(TrimStart(s))
  }

  /** A string trims to nothing exactly when it is all whitespace. */
  lemma TrimEmptyIff(s: string)
    ensures Trim(s) == "" <==> forall i :: 0 <= i < |s| ==> IsWhitespace(s[i])
  {
    var t := TrimStart(s);
    if Trim(s) == "" {
      assert |t| == 0;
    } else {
      assert !IsWhitespace(Trim(s)[0]);
    }
  }

  /** Appending whitespace does not change the trim. */
  lemma {:induction false} TrimAppendSpace(s: string)
    ensures Trim(s + " ") == Trim(s)
  {
    var t := TrimStart(s);
    if |t| == 0 {
      assert forall i :: 0 <= i < |s| ==> IsWhitespace(s[i]);
      assert forall i :: 0 <= i < |s + " "| ==> IsWhitespace((s + " ")[i]);
      TrimStartAllSpace(s + " ");
    } else {
      TrimStartAppend(s, " ");
      assert TrimStart(s + " ") == t + " ";
      assert (t + " ")[..|t + " "| - 1] == t;
    }
  }

  lemma TrimStartAllSpace(s: string)
    requires forall i :: 0 <= i < |s| ==> IsWhitespace(s[i])
    ensures TrimStart(s) == ""
  {
  }

  /** Leading whitespace of `s + u` is that of `s` once `s` has a non-space. */
  lemma {:induction false} TrimStartAppend(s: string, u: string)
    requires |TrimStart(s)| > 0
    ensures TrimStart(s + u) == TrimStart(s) + u
    decreases |s|
  {
    if |s| > 0 && IsWhitespace(s[0]) {
      assert (s + u)[1..] == s[1..] + u;
      TrimStartAppend(s[1..], u);
    }
  }

  // ---------------------------------------------------------------- split / join

  /** `s.split(sep)` for a one-character separator: never empty. */
  function Split(s: string, sep: char): (r: seq<string>)
    ensures |r| >= 1
    ensures forall i :: 0 <= i < |r| ==> sep !in r[i]
    decreases |s|
  {
    if |s| == 0 then [""]
    else if s[0] == sep then [""] + Split(s[1..], sep)
    else
      var rest := Split(s[1..], sep);
      [[s[0]] + rest[0]] + rest[1..]
  }

  /** `parts.join(sep)`. */
  function Join(parts: seq<string>, sep: string): string {
    if |parts| == 0 then ""
    else if |parts| == 1 then parts[0]
    else parts[0] + sep + Join(parts[1..], sep)
  }

  /** Joining the pieces of a split restores the original string. */
  lemma {:induction false} JoinSplit(s: string, sep: char)
    ensures Join(Split(s, sep), [sep]) == s
    decreases |s|
  {
    if |s| == 0 {
    } else if s[0] == sep {
      JoinSplit(s[1..], sep);
      assert s == [sep] + s[1..];
    } else {
      var rest := Split(s[1..], sep);
      JoinSplit(s[1..], sep);
      if |rest| == 1 {
        assert s == [s[0]] + s[1..];
      } else {
        assert rest == [rest[0]] + rest[1..];
        assert Join(rest, [sep]) == rest[0] + [sep] + Join(rest[1..], [sep]);
        assert s == [s[0]] + s[1..];
      }
    }
  }

  /** Text without the separator splits into itself. */
  lemma SplitNoSep(s: string, sep: char)
    requires sep !in s
    ensures Split(s, sep) == [s]
  {
    SplitAtFirst(s, sep);
  }

  /** Splitting at a separator splits the two sides independently. */
  lemma {:induction false} SplitAppend(x: string, y: string, sep: char)
    ensures Split(x + [sep] + y, sep) == Split(x, sep) + Split(y, sep)
    decreases |x|
  {
    var s := x + [sep] + y;
    if |x| == 0 {
      assert s == [sep] + y;
      assert s[1..] == y;
      assert Split(s, sep) == [""] + Split(y, sep);
    } else {
      assert s[0] == x[0];
      assert s[1..] == x[1..] + [sep] + y;
      SplitAppend(x[1..], y, sep);
      var a := Split(x[1..], sep);
      var b := Split(y, sep);
      assert Split(s[1..], sep) == a + b;
      if x[0] == sep {
        assert Split(s, sep) == [""] + (a + b);
        assert Split(x, sep) == [""] + a;
      } else {
        assert Split(s, sep) == [[x[0]] + (a + b)[0]] + (a + b)[1..];
        assert Split(x, sep) == [[x[0]] + a[0]] + a[1..];
        PieceThenRest(x[0], a, b);
      }
    }
  }

  /** Gluing a character onto the first piece commutes with appending
      further pieces. */
  lemma PieceThenRest(c: char, a: seq<string>, b: seq<string>)
    requires |a| >= 1
    ensures [[c] + (a + b)[0]] + (a + b)[1..] == ([[c] + a[0]] + a[1..]) + b
  {
    assert (a + b)[0] == a[0];
    assert (a + b)[1..] == a[1..] + b;
  }

  /** Splitting pieces joined by a separator they do not contain gives the
      pieces back. */
  lemma {:induction false} SplitJoin(parts: seq<string>, sep: char)
    requires |parts| >= 1
    requires forall i :: 0 <= i < |parts| ==> sep !in parts[i]
    ensures Split(Join(parts, [sep]), sep) == parts
    decreases |parts|
  {
    var a := parts[0];
    if |parts| == 1 {
      SplitAtFirst(a, sep);
    } else {
      var r := Join(parts[1..], [sep]);
      var s := a + [sep] + r;
      assert Join(parts, [sep]) == s;
      assert s[..|a|] == a;
      assert s[|a| + 1..] == r;
      assert IndexOf(s, sep) == Some(|a|) by {
        assert s[|a|] == sep;
      }
      SplitAtFirst(s, sep);
      SplitJoin(parts[1..], sep);
      assert parts == [a] + parts[1..];
    }
  }

  /** The first piece of a split is the text before the first separator,
      and the remaining pieces are the split of the text after it. */
  lemma {:induction false} SplitAtFirst(s: string, sep: char)
    ensures IndexOf(s, sep).None? ==> Split(s, sep) == [s]
    ensures IndexOf(s, sep).Some? ==>
      var i := IndexOf(s, sep).value;
      Split(s, sep) == [s[..i]] + Split(s[i + 1..], sep)
    decreases |s|
  {
    if |s| == 0 {
    } else if s[0] == sep {
      assert s[..0] == "";
    } else {
      SplitAtFirst(s[1..], sep);
      match IndexOf(s[1..], sep)
      case None =>
        assert s == [s[0]] + s[1..];
      case Some(j) =>
        assert s[..j + 1] == [s[0]] + s[1..][..j];
        assert s[j + 2..] == s[1..][j + 1..];
    }
  }

  // ---------------------------------------------------------------- numbers

  function DigitChar(d: nat): char
    requires d < 10
  {
    ('0' as int + d) as char
  }

  function DigitValue(c: char): nat
    requires IsDigit(c)
  {
    c as int - '0' as int
  }

  predicate AllDigits(s: string) {
    forall i :: 0 <= i < |s| ==> IsDigit(s[i])
  }

  /** Decimal value of a digit string, most significant digit first. */
  function DigitsValue(s: string): nat
    requires AllDigits(s)
  {
    if |s| == 0 then 0 else DigitsValue(s[..|s| - 1]) * 10 + DigitValue(s[|s| - 1])
  }

  /** `n.toString()` for a natural number. */
  function NatToString(n: nat): (r: string)
    ensures |r| >= 1 && AllDigits(r)
  {
    if n < 10 then [DigitChar(n)] else NatToString(n / 10) + [DigitChar(n % 10)]
  }

  /** `i.toString()` for an integer. */
  function IntToString(i: int): string {
    if i < 0 then "-" + NatToString(-i) else NatToString(i)
  }

  /** Length of the run of digits at the start of `s`. */
  function LeadingDigits(s: string): (k: nat)
    ensures k <= |s| && AllDigits(s[..k])
    ensures k < |s| ==> !IsDigit(s[k])
  {
    if |s| > 0 && IsDigit(s[0]) then
      var k := LeadingDigits(s[1..]);
      assert s[..k + 1] == [s[0]] + s[1..][..k];
      k + 1
    else 0
  }

  /** `parseInt(s, 10)`: leading whitespace, an optional sign, then the
      longest run of digits; None stands for NaN (no digit after the sign). */
  function ParseInt(s: string): Option<int> {
    var t := TrimStart(s);
    if |t| > 0 && t[0] == '-' then
      match ParseDigits(t[1..])
      case None => None
      case Some(v) => Some(-v)
    else if |t| > 0 && t[0] == '+' then ParseDigits(t[1..])
    else ParseDigits(t)
  }

  /** Text without a digit never parses as an integer. */
  lemma NoDigitNoParse(t: string)
    requires forall i :: 0 <= i < |t| ==> !IsDigit(t[i])
    ensures ParseInt(t).None?
  {
    var u := TrimStart(t);
    assert u == t[|t| - |u|..];
    if |u| > 0 {
      assert u[0] == t[|t| - |u|];
    }
    if |u| > 1 {
      assert u[1..][0] == t[|t| - |u| + 1];
    }
  }

  /** Value of the run of digits at the start of `s`, if there is one. */
  function ParseDigits(s: string): Option<int> {
    var k := LeadingDigits(s);
    if k == 0 then None else Some(DigitsValue(s[..k]))
  }

  lemma {:induction false} DigitsValueOfNatToString(n: nat)
    ensures DigitsValue(NatToString(n)) == n
  {
    var r := NatToString(n);
    if n >= 10 {
      DigitsValueOfNatToString(n / 10);
      assert r[..|r| - 1] == NatToString(n / 10);
    }
  }

  lemma {:induction false} LeadingDigitsOfAllDigits(s: string)
    requires AllDigits(s)
    ensures LeadingDigits(s) == |s|
  {
    if |s| > 0 {
      LeadingDigitsOfAllDigits(s[1..]);
    }
  }

  /** A digit string parses to its own value. */
  lemma ParseIntOfDigits(s: string)
    requires |s| > 0 && AllDigits(s)
    ensures ParseInt(s) == Some(DigitsValue(s))
  {
    assert IsDigit(s[0]) && !IsWhitespace(s[0]);
    assert TrimStart(s) == s;
    assert s[0] != '-' && s[0] != '+';
    LeadingDigitsOfAllDigits(s);
    assert s[..|s|] == s;
    assert ParseDigits(s) == Some(DigitsValue(s));
  }

  /** A minus sign before a digit string negates its value. */
  lemma ParseIntOfNegDigits(s: string)
    requires |s| > 0 && AllDigits(s)
    ensures ParseInt("-" + s) == Some(-(DigitsValue(s) as int))
  {
    var t := "-" + s;
    LeadingDigitsOfAllDigits(s);
    assert s[..|s|] == s;
    assert ParseDigits(s) == Some(DigitsValue(s));
    assert t[0] == '-' && !IsWhitespace(t[0]);
    assert TrimStart(t) == t;
    assert t[1..] == s;
    assert ParseInt(t) == (match ParseDigits(s) case None => None case Some(v) => Some(-v));
  }

  /** Reading back a printed integer gives the integer: the expiry timestamp
      survives its trip through `toString` and `parseInt`. */
  lemma ParseIntOfIntToString(i: int)
    ensures ParseInt(IntToString(i)) == Some(i)
  {
    if i < 0 {
      var n: nat := -i;
      var d := NatToString(n);
      assert IntToString(i) == "-" + d;
      DigitsValueOfNatToString(n);
      ParseIntOfNegDigits(d);
    } else {
      var n: nat := i;
      var d := NatToString(n);
      assert IntToString(i) == d;
      DigitsValueOfNatToString(n);
      ParseIntOfDigits(d);
    }
  }
}
