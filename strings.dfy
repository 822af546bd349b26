/** Character-level string operations used on column labels and cell text:
    Python's `str.strip()` and `str.lower()` restricted to ASCII, substring search
    (`k in s`), and Python's ordering of strings (by code point, a proper prefix first). */
module Strings {

  /** The ASCII characters for which Python's `str.isspace()` holds:
      space, tab, line feed, vertical tab, form feed, carriage return (9 to 13)
      and the four information separators (28 to 31). */
  predicate IsSpace(c: char) {
    c == ' ' || ('\t' <= c <= '\r') || ('\U{1C}' <= c <= '\U{1F}')
  }

  predicate IsUpper(c: char) {
    'A' <= c <= 'Z'
  }

  predicate AllSpace(s: string) {
    forall i :: 0 <= i < |s| ==> IsSpace(s[i])
  }

  /** A string `str.strip()` leaves unchanged: no whitespace at either end. */
  predicate IsStripped(s: string) {
    s == [] || (!IsSpace(s[0]) && !IsSpace(s[|s| - 1]))
  }

  /** Removes the whitespace at the front. */
  function StripLeading(s: string): string {
    if |s| > 0 && IsSpace(s[0]) then StripLeading(s[1..]) else s
  }

  /** Removes the whitespace at the back. */
  function StripTrailing(s: string): string {
    if |s| > 0 && IsSpace(s[|s| - 1]) then StripTrailing(s[..|s| - 1]) else s
  }

  /** What `StripLeading` leaves is a suffix of `s` that does not start with
      whitespace, and everything it cut off was whitespace. */
  lemma {:induction false} StripLeadingSpec(s: string)
    ensures var r := StripLeading(s);
      |r| <= |s| && r == s[|s| - |r|..] && (r == [] || !IsSpace(r[0])) && AllSpace(s[..|s| - |r|])
  {
    if |s| > 0 && IsSpace(s[0]) {
      StripLeadingSpec(s[1..]);
      var r := StripLeading(s[1..]);
      assert s[..|s| - |r|] == [s[0]] + s[1..][..|s| - 1 - |r|];
    }
  }

  /** What `StripTrailing` leaves is a prefix of `s` that does not end with
      whitespace, and everything it cut off was whitespace. */
  lemma {:induction false} StripTrailingSpec(s: string)
    ensures var r := StripTrailing(s);
      |r| <= |s| && r == s[..|r|] && (r == [] || !IsSpace(r[|r| - 1])) && AllSpace(s[|r|..])
  {
    if |s| > 0 && IsSpace(s[|s| - 1]) {
      StripTrailingSpec(s[..|s| - 1]);
      var r := StripTrailing(s[..|s| - 1]);
      assert s[|r|..] == s[..|s| - 1][|r|..] + [s[|s| - 1]];
    }
  }

  /** Python's `str.strip()` over ASCII whitespace: no whitespace is left at either end. */
  function Strip(s: string): (r: string)
    ensures |r| <= |s| && IsStripped(r)
  {
    StripLeadingSpec(s);
    StripTrailingSpec(StripLeading(s));
    StripTrailing(StripLeading(s))
  }

  /** `Strip` removes only whitespace: its result is the middle part of `s`, and
      everything before and after that part is whitespace. */
  lemma StripRemovesOnlySpace(s: string)
    ensures var r := Strip(s);
      exists i :: 0 <= i <= i + |r| <= |s| && r == s[i..i + |r|] && AllSpace(s[..i]) && AllSpace(s[i + |r|..])
  {
    var front := StripLeading(s);
    var r := StripTrailing(front);
    StripLeadingSpec(s);
    StripTrailingSpec(front);
    var i := |s| - |front|;
    assert r == s[i..i + |r|];
    assert s[i + |r|..] == front[|r|..];
  }

  /** The lower-case letter of an upper-case ASCII letter; any other character as it is. */
  function LowerChar(c: char): char {
    if IsUpper(c) then (c as int + 32) as char else c
  }

  /** Python's `str.lower()` over ASCII, character by character. */
  function Lower(s: string): (r: string)
    ensures |r| == |s|
    ensures forall i :: 0 <= i < |s| ==> !IsUpper(r[i])
  {
    seq(|s|, i requires 0 <= i < |s| => LowerChar(s[i]))
  }

  /** `Lower` turns every upper-case letter into its lower-case letter and keeps every
      other character, so the length is unchanged and no upper-case letter is left. */
  lemma LowerSpec(s: string)
    ensures |Lower(s)| == |s|
    ensures forall i :: 0 <= i < |s| ==> !IsUpper(Lower(s)[i])
    ensures forall i :: 0 <= i < |s| && !IsUpper(s[i]) ==> Lower(s)[i] == s[i]
    ensures forall i :: 0 <= i < |s| && IsUpper(s[i]) ==> Lower(s)[i] as int == s[i] as int + 32
  {
  }

  predicate IsCanonical(name: string) {
    IsStripped(name) && forall i :: 0 <= i < |name| ==> !IsUpper(name[i])
  }

  lemma {:induction false} StripOfStripped(s: string)
    requires IsStripped(s)
    ensures Strip(s) == s
  {
  }

  /** A label with no whitespace at either end only needs lower-casing. */
  lemma NormalizeStripped(name: string)
    requires IsStripped(name)
    ensures Normalize(name) == Lower(name)
  {
    StripOfStripped(name);
  }

  /** Lower-casing leaves a string without upper-case letters as it is. */
  lemma {:induction false} LowerOfLower(s: string)
    requires forall i :: 0 <= i < |s| ==> !IsUpper(s[i])
    ensures Lower(s) == s
  {
    LowerSpec(s);
  }

  /** Lower-casing never turns a character into whitespace or whitespace into something else. */
  lemma {:induction false} LowerKeepsStripped(s: string)
    requires IsStripped(s)
    ensures IsStripped(Lower(s))
  {
    LowerSpec(s);
  }

  /** The canonical form of a column label: stripped, then lower-cased. It has no
      whitespace at either end and no upper-case letter. */
  function Normalize(name: string): (r: string)
    ensures |r| <= |name|
    ensures IsCanonical(r)
  {
    LowerKeepsStripped(Strip(name));
    Lower(Strip(name))
  }

  /** Normalising a normalised label changes nothing: `" Team "`, `"TEAM"` and
      `"team"` all end up as the same canonical label, and it stays that way. */
  lemma {:induction false} NormalizeIdempotent(name: string)
    ensures Normalize(Normalize(name)) == Normalize(name)
  {
    var n := Normalize(name);
    StripOfStripped(n);
    LowerOfLower(n);
  }

  /** `" Team "`, `"TEAM"` and `"team"` all normalise to `team`. */
  lemma NormalizeTeamSpellings(spelling: string)
    requires spelling == " Team " || spelling == "TEAM" || spelling == "team"
    ensures Normalize(spelling) == "team"
  {
    if spelling == " Team " {
      assert StripLeading(" Team ") == "Team " by {
        assert " Team "[1..] == "Team ";
      }
      assert StripTrailing("Team ") == "Team" by {
        assert "Team "[..4] == "Team";
      }
      assert Lower("Team") == "team";
    } else if spelling == "TEAM" {
      assert Strip("TEAM") == "TEAM";
      assert Lower("TEAM") == "team";
    } else {
      assert Strip("team") == "team";
      assert Lower("team") == "team";
    }
  }

  /** `k` occurs in `s` starting at position `i`. */
  predicate OccursAt(s: string, k: string, i: nat) {
    i + |k| <= |s| && s[i..i + |k|] == k
  }

  /** Python's `k in s` for strings: `k` occurs in `s` as a contiguous block. The
      empty string occurs in every string, and nothing longer than `s` occurs in it. */
  function Contains(s: string, k: string): (b: bool)
    ensures k == [] ==> b
    ensures b ==> |k| <= |s|
  {
    assert k == [] ==> OccursAt(s, k, 0);
    exists i: nat | i <= |s| :: OccursAt(s, k, i)
  }

  /** A string that lacks one of the characters of `k` does not contain `k`. */
  lemma LacksCharacter(s: string, k: string, c: char)
    requires c in k && c !in s
    ensures !Contains(s, k)
  {
  }

  /** Python's `a < b` on strings: lexicographic by code point, a proper prefix first.
      No string is below itself, and a proper prefix is below the longer string. */
  function Below(a: string, b: string): (r: bool)
    ensures r ==> a != b
    ensures |a| < |b| && a == b[..|a|] ==> r
  {
    if a == [] then b != []
    else if b == [] then false
    else a[0] < b[0] || (a[0] == b[0] && Below(a[1..], b[1..]))
  }

  lemma {:induction false} BelowIrreflexive(a: string)
    ensures !Below(a, a)
  {
    if a != [] {
      BelowIrreflexive(a[1..]);
    }
  }

  lemma {:induction false} BelowTransitive(a: string, b: string, c: string)
    requires Below(a, b) && Below(b, c)
    ensures Below(a, c)
  {
    if a != [] && a[0] == b[0] && b[0] == c[0] {
      BelowTransitive(a[1..], b[1..], c[1..]);
    }
  }

  /** Any two different strings are ordered one way or the other. */
  lemma {:induction false} BelowTotal(a: string, b: string)
    requires a != b
    ensures Below(a, b) || Below(b, a)
  {
    if a != [] && b != [] && a[0] == b[0] {
      assert a == [a[0]] + a[1..] && b == [b[0]] + b[1..];
      BelowTotal(a[1..], b[1..]);
    }
  }
}
