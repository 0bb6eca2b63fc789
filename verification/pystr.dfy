/**
 The handful of Python `str` operations the dictionary backend relies on:
 `isspace`/`strip`, `startswith`/`endswith`, `replace(label, "")`,
 `split('\n')`, ASCII `lower()` and `str(int)`.
 */
module PyStr {

  /** Characters for which Python's `str.isspace()` holds; the `re` module's
      `\s` matches exactly these in a `str` pattern. */
  predicate IsSpace(c: char) {
    || c == ' '
    || ('\t' <= c <= '\r')
    || ('\U{1C}' <= c <= '\U{1F}')
    || c == '\U{85}' || c == '\U{A0}' || c == '\U{1680}'
    || ('\U{2000}' <= c <= '\U{200A}')
    || c == '\U{2028}' || c == '\U{2029}' || c == '\U{202F}' || c == '\U{205F}'
    || c == '\U{3000}'
  }

  predicate AllSpace(s: string) {
    forall k :: 0 <= k < |s| ==> IsSpace(s[k])
  }

  /** Number of leading whitespace characters. */
  function LeadingSpaces(s: string): (n: nat)
    ensures n <= |s|
    ensures AllSpace(s[..n])
    ensures n == |s| || !IsSpace(s[n])
  {
    if |s| == 0 || !IsSpace(s[0]) then 0 else 1 + LeadingSpaces(s[1..])
  }

  /** Number of trailing whitespace characters. */
  function TrailingSpaces(s: string): (n: nat)
    ensures n <= |s|
    ensures AllSpace(s[|s| - n..])
    ensures n == |s| || !IsSpace(s[|s| - n - 1])
  {
    if |s| == 0 || !IsSpace(s[|s| - 1]) then 0
    else
      var m := TrailingSpaces(s[..|s| - 1]);
      assert s[..|s| - 1][|s| - 1 - m..] == s[|s| - 1 - m..|s| - 1];
      1 + m
  }

  /** `s.strip()`: the infix of `s` left after removing whitespace at both ends. */
  function Strip(s: string): (r: string)
    ensures exists i, j :: 0 <= i <= j <= |s| && r == s[i..j] && AllSpace(s[..i]) && AllSpace(s[j..])
    ensures r == [] || (!IsSpace(r[0]) && !IsSpace(r[|r| - 1]))
  {
    var i := LeadingSpaces(s);
    var t := s[i..];
    var j := TrailingSpaces(t);
    var r := t[..|t| - j];
    assert r == s[i..|s| - j];
    assert AllSpace(s[|s| - j..]) by {
      assert t[|t| - j..] == s[|s| - j..];
    }
    assert r == [] || (!IsSpace(r[0]) && !IsSpace(r[|r| - 1])) by {
      if r != [] {
        assert r[0] == s[i];
        assert r[|r| - 1] == t[|t| - j - 1];
      }
    }
    r
  }

  /** No whitespace at either end. */
  predicate Trimmed(s: string) {
    s == [] || (!IsSpace(s[0]) && !IsSpace(s[|s| - 1]))
  }

  /** Stripping a trimmed string gives it back. */
  lemma StripTrimmed(s: string)
    requires Trimmed(s)
    ensures Strip(s) == s
  {
    assert LeadingSpaces(s) == 0;
    assert s[0..] == s;
    assert TrailingSpaces(s) == 0;
    assert s[..|s|] == s;
  }

  /** Stripping a trimmed string with one blank after it gives the trimmed string. */
  lemma StripTrailingBlank(s: string)
    requires Trimmed(s)
    ensures Strip(s + " ") == s
  {
    var t := s + " ";
    assert t[..|t| - 1] == s;
    if |s| > 0 {
      assert LeadingSpaces(t) == 0;
      assert t[0..] == t;
      assert TrailingSpaces(s) == 0;
      assert TrailingSpaces(t) == 1;
      assert t[..|t| - 1] == s;
    } else {
      assert LeadingSpaces(t[1..]) == 0;
      assert LeadingSpaces(t) == 1;
      assert t[1..] == [];
    }
  }

  /** Stripping a trimmed string with one blank before it gives the trimmed string. */
  lemma StripLeadingBlank(s: string)
    requires Trimmed(s)
    ensures Strip(" " + s) == s
  {
    var u := " " + s;
    assert u[1..] == s;
    assert LeadingSpaces(s) == 0;
    assert LeadingSpaces(u) == 1;
    assert TrailingSpaces(s) == 0;
    assert s[..|s|] == s;
  }

  /** Regrouping a four-piece concatenation. */
  lemma ConcatRegroup(a: string, b: string, c: string, d: string)
    ensures a + (b + c + d) == a + b + c + d
  {
    assert a + (b + c + d) == a + (b + c) + d;
  }

  predicate StartsWith(s: string, prefix: string) {
    |prefix| <= |s| && s[..|prefix|] == prefix
  }

  predicate EndsWith(s: string, suffix: string) {
    |suffix| <= |s| && s[|s| - |suffix|..] == suffix
  }

  /** `w` occurs in `s` at position `k`. */
  predicate OccursAt(w: string, s: string, k: int) {
    0 <= k && k + |w| <= |s| && s[k..k + |w|] == w
  }

  /** Python's `w in s` for strings. */
  predicate Contains(s: string, w: string) {
    exists k | 0 <= k <= |s| :: OccursAt(w, s, k)
  }

  /** A string built around `w` contains it. */
  lemma ContainsInfix(a: string, w: string, b: string)
    ensures Contains(a + w + b, w)
  {
    var s := a + w + b;
    assert s[|a|..|a| + |w|] == w;
    assert OccursAt(w, s, |a|);
  }

  /** `s.replace(pat, "")`: every non-overlapping occurrence of `pat`,
      found left to right, is deleted; an empty pattern leaves `s` as it is. */
  function RemoveAll(s: string, pat: string): (r: string)
    ensures |r| <= |s|
    decreases |s|
  {
    if |pat| == 0 || |s| == 0 then s
    else if StartsWith(s, pat) then RemoveAll(s[|pat|..], pat)
    else [s[0]] + RemoveAll(s[1..], pat)
  }

  /** A pattern that does not occur is not removed: the replace is the identity. */
  lemma {:induction false} RemoveAllAbsent(s: string, pat: string)
    requires |pat| > 0
    requires !Contains(s, pat)
    ensures RemoveAll(s, pat) == s
    decreases |s|
  {
    if |s| > 0 {
      assert !OccursAt(pat, s, 0);
      assert !StartsWith(s, pat);
      forall k | OccursAt(pat, s[1..], k)
        ensures false
      {
        assert s[1..][k..k + |pat|] == s[k + 1..k + 1 + |pat|];
        assert OccursAt(pat, s, k + 1);
      }
      RemoveAllAbsent(s[1..], pat);
    }
  }

  /** `sep.join` with a one-character separator, the inverse of `Split`. */
  function JoinBy(parts: seq<string>, sep: char): string
    requires |parts| >= 1
  {
    if |parts| == 1 then parts[0] else parts[0] + [sep] + JoinBy(parts[1..], sep)
  }

  /** `s.split(sep)` for a one-character separator: never empty, no part
      contains the separator, and joining the parts gives `s` back. */
  function Split(s: string, sep: char): (parts: seq<string>)
    ensures |parts| >= 1
    ensures forall i :: 0 <= i < |parts| ==> sep !in parts[i]
    ensures JoinBy(parts, sep) == s
  {
    if |s| == 0 then [""]
    else
      var rest := Split(s[1..], sep);
      if s[0] == sep then
        assert s == [sep] + s[1..];
        [""] + rest
      else
        var parts := [[s[0]] + rest[0]] + rest[1..];
        assert parts[1..] == rest[1..];
        assert s == [s[0]] + s[1..];
        parts
  }

  /** Splitting at a separator that the first piece does not contain yields that piece first. */
  lemma {:induction false} SplitAfterPiece(a: string, sep: char, b: string)
    requires sep !in a
    ensures Split(a + [sep] + b, sep) == [a] + Split(b, sep)
    decreases |a|
  {
    var s := a + [sep] + b;
    if |a| == 0 {
      assert s[1..] == b;
    } else {
      assert s[1..] == a[1..] + [sep] + b;
      SplitAfterPiece(a[1..], sep, b);
      assert [a[0]] + a[1..] == a;
    }
  }

  /** Splitting the join of separator-free parts gives the parts back. */
  lemma {:induction false} SplitJoin(parts: seq<string>, sep: char)
    requires |parts| >= 1
    requires forall i :: 0 <= i < |parts| ==> sep !in parts[i]
    ensures Split(JoinBy(parts, sep), sep) == parts
    decreases |parts|
  {
    if |parts| > 1 {
      assert sep !in parts[0];
      SplitJoin(parts[1..], sep);
      SplitAfterPiece(parts[0], sep, JoinBy(parts[1..], sep));
      assert [parts[0]] + parts[1..] == parts;
    }
  }

  lemma EndsWithTransitive(a: string, b: string, c: string)
    requires EndsWith(a, b) && EndsWith(b, c)
    ensures EndsWith(a, c)
  {
    assert a[|a| - |c|..] == b[|b| - |c|..];
  }

  function LowerChar(c: char): char {
    if 'A' <= c <= 'Z' then (c as int + 32) as char else c
  }

  /** `s.lower()` restricted to ASCII letters; every comparison in the
      backend is against an ASCII language code. */
  function Lower(s: string): string {
    seq(|s|, i requires 0 <= i < |s| => LowerChar(s[i]))
  }

  predicate IsUpper(c: char) {
    'A' <= c <= 'Z'
  }

  /** A string without ASCII capitals is its own lower-case form. */
  lemma LowerOfLowercase(s: string)
    requires forall i :: 0 <= i < |s| ==> !IsUpper(s[i])
    ensures Lower(s) == s
  {
  }

  /** Lower-casing twice is lower-casing once. */
  lemma LowerIdempotent(s: string)
    ensures Lower(Lower(s)) == Lower(s)
  {
    LowerOfLowercase(Lower(s));
  }

  predicate IsDigit(c: char) {
    '0' <= c <= '9'
  }

  function DigitChar(d: nat): char
    requires d < 10
  {
    ('0' as int + d) as char
  }

  /** Decimal digits of a natural number, as `str(n)` prints it. */
  function NatToString(n: nat): (r: string)
    ensures |r| >= 1
    ensures forall i :: 0 <= i < |r| ==> IsDigit(r[i])
  {
    if n < 10 then [DigitChar(n)] else NatToString(n / 10) + [DigitChar(n % 10)]
  }

  /** `str(n)` for a Python int: digits, with a leading minus sign when negative. */
  function IntToString(n: int): (r: string)
    ensures |r| >= 1
    ensures forall i :: 0 <= i < |r| ==> r[i] == '-' || IsDigit(r[i])
  {
    if n < 0 then "-" + NatToString(-n) else NatToString(n)
  }
}
