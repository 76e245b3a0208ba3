/**
 * String helpers with the exact semantics of the two runtimes: JavaScript's
 * `String.prototype.trim`, Python's `str.strip()`, `startsWith`, the substring test `in`,
 * first-occurrence `replace` and ASCII lower-casing.
 */
module Text {

  /** The characters JavaScript's `trim` removes: WhiteSpace and LineTerminator. */
  predicate IsJsSpace(c: char) {
    var n := c as int;
    n == 0x09 || n == 0x0A || n == 0x0B || n == 0x0C || n == 0x0D || n == 0x20 ||
    n == 0xA0 || n == 0x1680 || (0x2000 <= n <= 0x200A) || n == 0x2028 || n == 0x2029 ||
    n == 0x202F || n == 0x205F || n == 0x3000 || n == 0xFEFF
  }

  /** The characters Python's argument-less `str.strip()` removes (`str.isspace`). */
  predicate IsPySpace(c: char) {
    var n := c as int;
    (0x09 <= n <= 0x0D) || (0x1C <= n <= 0x20) || n == 0x85 || n == 0xA0 ||
    n == 0x1680 || (0x2000 <= n <= 0x200A) || n == 0x2028 || n == 0x2029 ||
    n == 0x202F || n == 0x205F || n == 0x3000
  }

  predicate AllSpace(s: string, isSpace: char -> bool) {
    forall k :: 0 <= k < |s| ==> isSpace(s[k])
  }

  /** The index of the first non-space character of `s` at or after `i` (`|s|` when there is none). */
  function LeadingEnd(s: string, isSpace: char -> bool, i: nat): (n: nat)
    requires i <= |s|
    ensures i <= n <= |s|
    ensures forall k :: i <= k < n ==> isSpace(s[k])
    ensures n < |s| ==> !isSpace(s[n])
    decreases |s| - i
  {
    if i < |s| && isSpace(s[i]) then LeadingEnd(s, isSpace, i + 1) else i
  }

  /** Scanning back from `j` towards `lo`: the end of the last non-space character (`lo` when there is none). */
  function TrailingStart(s: string, isSpace: char -> bool, lo: nat, j: nat): (n: nat)
    requires lo <= j <= |s|
    ensures lo <= n <= j
    ensures forall k :: n <= k < j ==> isSpace(s[k])
    ensures lo < n ==> !isSpace(s[n - 1])
    decreases j
  {
    if lo < j && isSpace(s[j - 1]) then TrailingStart(s, isSpace, lo, j - 1) else j
  }

  /** Leading spaces are skipped first, then trailing spaces of what is left. */
  function Strip(s: string, isSpace: char -> bool): string {
    var i := LeadingEnd(s, isSpace, 0);
    s[i..TrailingStart(s, isSpace, i, |s|)]
  }

  /** JavaScript `s.trim()`. */
  function JsTrim(s: string): string {
    Strip(s, IsJsSpace)
  }

  /** Python `s.strip()`. */
  function PyStrip(s: string): string {
    Strip(s, IsPySpace)
  }

  /** A string that `Strip` leaves as it is. */
  predicate Stripped(s: string, isSpace: char -> bool) {
    s == [] || (!isSpace(s[0]) && !isSpace(s[|s| - 1]))
  }

  /** Strip keeps a contiguous middle part of `s`, all that surrounds it is space, and nothing more can be removed. */
  lemma StripIsInfix(s: string, isSpace: char -> bool)
    ensures var r := Strip(s, isSpace);
      exists i, j :: 0 <= i <= j <= |s| && r == s[i..j] && AllSpace(s[..i], isSpace) && AllSpace(s[j..], isSpace)
    ensures Stripped(Strip(s, isSpace), isSpace)
  {
    var i := LeadingEnd(s, isSpace, 0);
    var j := TrailingStart(s, isSpace, i, |s|);
    var r := s[i..j];
    forall k | 0 <= k < i ensures isSpace(s[..i][k]) {
      assert s[..i][k] == s[k];
    }
    forall k | 0 <= k < |s| - j ensures isSpace(s[j..][k]) {
      assert s[j..][k] == s[j + k];
    }
    assert 0 <= i <= j <= |s| && r == s[i..j] && AllSpace(s[..i], isSpace) && AllSpace(s[j..], isSpace);
    if r != [] {
      assert r[0] == s[i] && r[|r| - 1] == s[j - 1];
    }
  }

  /** Strip is empty exactly when every character is a space. */
  lemma StripEmptyIff(s: string, isSpace: char -> bool)
    ensures Strip(s, isSpace) == [] <==> AllSpace(s, isSpace)
  {
    var i := LeadingEnd(s, isSpace, 0);
    var j := TrailingStart(s, isSpace, i, |s|);
    if i == j {
      forall k | 0 <= k < |s| ensures isSpace(s[k]) {
        if k < i {
          assert isSpace(s[k]);
        }
      }
    } else {
      assert |s[i..j]| != 0;
    }
  }

  /** A stripped string is a fixed point of Strip. */
  lemma StripOfStripped(s: string, isSpace: char -> bool)
    requires Stripped(s, isSpace)
    ensures Strip(s, isSpace) == s
  {
    assert s[0..|s|] == s;
  }

  /** Strip is idempotent. */
  lemma StripIdempotent(s: string, isSpace: char -> bool)
    ensures Strip(Strip(s, isSpace), isSpace) == Strip(s, isSpace)
  {
    StripIsInfix(s, isSpace);
    StripOfStripped(Strip(s, isSpace), isSpace);
  }

  /** Putting a character in front moves the forward scan one place on. */
  lemma {:induction false} LeadingEndShift(c: char, s: string, isSpace: char -> bool, i: nat)
    requires i <= |s|
    ensures LeadingEnd([c] + s, isSpace, i + 1) == LeadingEnd(s, isSpace, i) + 1
    decreases |s| - i
  {
    var t := [c] + s;
    if i < |s| {
      assert t[i + 1] == s[i];
      if isSpace(s[i]) {
        LeadingEndShift(c, s, isSpace, i + 1);
      }
    }
  }

  /** Putting a character in front moves the backward scan one place on. */
  lemma {:induction false} TrailingStartShift(c: char, s: string, isSpace: char -> bool, lo: nat, j: nat)
    requires lo <= j <= |s|
    ensures TrailingStart([c] + s, isSpace, lo + 1, j + 1) == TrailingStart(s, isSpace, lo, j) + 1
    decreases j
  {
    var t := [c] + s;
    if lo < j {
      assert t[j] == s[j - 1];
      if isSpace(s[j - 1]) {
        TrailingStartShift(c, s, isSpace, lo, j - 1);
      }
    }
  }

  /** A slice of `[c] + s` past its first character is a slice of `s`. */
  lemma ConsSlice(c: char, s: string, i: nat, j: nat)
    requires i <= j <= |s|
    ensures ([c] + s)[i + 1..j + 1] == s[i..j]
  {
  }

  /** A leading space character never survives Strip. */
  lemma StripLeadingSpace(c: char, s: string, isSpace: char -> bool)
    requires isSpace(c)
    ensures Strip([c] + s, isSpace) == Strip(s, isSpace)
  {
    var t := [c] + s;
    var i := LeadingEnd(s, isSpace, 0);
    var j := TrailingStart(s, isSpace, i, |s|);
    assert |t| == |s| + 1;
    assert LeadingEnd(t, isSpace, 0) == LeadingEnd(t, isSpace, 1);
    LeadingEndShift(c, s, isSpace, 0);
    var a := LeadingEnd(t, isSpace, 0);
    assert a == i + 1;
    TrailingStartShift(c, s, isSpace, i, |s|);
    var b := TrailingStart(t, isSpace, a, |t|);
    assert b == j + 1;
    assert Strip(t, isSpace) == t[a..b];
    ConsSlice(c, s, i, j);
  }

  /** `s.startsWith(prefix)`. */
  predicate StartsWith(s: string, prefix: string) {
    |prefix| <= |s| && s[..|prefix|] == prefix
  }

  /** `pat` occurs in `s` at index `i`. */
  predicate OccursAt(s: string, pat: string, i: int) {
    0 <= i && i + |pat| <= |s| && s[i..i + |pat|] == pat
  }

  /** `i` is the index of the first occurrence of `pat` in `s`. */
  predicate FirstOccurrence(s: string, pat: string, i: int) {
    OccursAt(s, pat, i) && forall j :: 0 <= j < i ==> !OccursAt(s, pat, j)
  }

  /** Python's `pat in s` and JavaScript's `s.includes(pat)`, as a left-to-right search. */
  predicate Contains(s: string, pat: string)
    decreases |s|
  {
    StartsWith(s, pat) || (s != [] && Contains(s[1..], pat))
  }

  /** The search finds `pat` exactly when it occurs somewhere in `s`. */
  lemma {:induction false} ContainsIffOccurs(s: string, pat: string)
    ensures Contains(s, pat) <==> exists i :: OccursAt(s, pat, i)
    decreases |s|
  {
    if StartsWith(s, pat) {
      assert OccursAt(s, pat, 0);
    } else if s == [] {
      assert forall i :: !OccursAt(s, pat, i);
    } else {
      ContainsIffOccurs(s[1..], pat);
      forall i: nat
        ensures OccursAt(s[1..], pat, i) <==> OccursAt(s, pat, i + 1)
      {
        OccursShift(s, pat, i);
      }
      if exists i :: OccursAt(s, pat, i) {
        var i :| OccursAt(s, pat, i);
        assert i != 0;
        assert OccursAt(s[1..], pat, i - 1);
      }
    }
  }

  /** JavaScript `s.replace(pat, rep)` with a string pattern: only the first occurrence is replaced. */
  function ReplaceFirst(s: string, pat: string, rep: string): string
    requires pat != []
    decreases |s|
  {
    if |s| < |pat| then s
    else if s[..|pat|] == pat then rep + s[|pat|..]
    else [s[0]] + ReplaceFirst(s[1..], pat, rep)
  }

  /** An occurrence in `s[1..]` is an occurrence in `s`, one place further on. */
  lemma OccursShift(s: string, pat: string, i: nat)
    requires s != []
    ensures OccursAt(s[1..], pat, i) <==> OccursAt(s, pat, i + 1)
  {
    if i + 1 + |pat| <= |s| {
      assert s[1..][i..i + |pat|] == s[i + 1..i + 1 + |pat|];
    }
  }

  /** Without an occurrence of the pattern, `replace` returns the string unchanged. */
  lemma {:induction false} ReplaceFirstAbsent(s: string, pat: string, rep: string)
    requires pat != []
    requires forall i :: !OccursAt(s, pat, i)
    ensures ReplaceFirst(s, pat, rep) == s
    decreases |s|
  {
    if |s| >= |pat| {
      assert !OccursAt(s, pat, 0);
      forall i ensures !OccursAt(s[1..], pat, i) {
        if i >= 0 {
          OccursShift(s, pat, i);
        }
      }
      ReplaceFirstAbsent(s[1..], pat, rep);
    }
  }

  /** Where the pattern does not start at the front, `replace` keeps the first character and goes on. */
  lemma ReplaceFirstStep(s: string, pat: string, rep: string)
    requires pat != [] && |pat| <= |s| && !OccursAt(s, pat, 0)
    ensures ReplaceFirst(s, pat, rep) == [s[0]] + ReplaceFirst(s[1..], pat, rep)
  {
    assert s[0..|pat|] == s[..|pat|];
  }

  /** Putting back the first character in front of the pieces around an occurrence. */
  lemma ConsAround(s: string, i: nat, m: nat, rep: string)
    requires 0 < i <= m <= |s|
    ensures [s[0]] + (s[1..][..i - 1] + rep + s[1..][m - 1..]) == s[..i] + rep + s[m..]
  {
    assert s[..i] == [s[0]] + s[1..][..i - 1];
    assert s[m..] == s[1..][m - 1..];
  }

  /** `replace` rewrites the first occurrence of the pattern and keeps every other character. */
  lemma {:induction false} ReplaceFirstAt(s: string, pat: string, rep: string, i: nat)
    requires pat != []
    requires FirstOccurrence(s, pat, i)
    ensures ReplaceFirst(s, pat, rep) == s[..i] + rep + s[i + |pat|..]
    decreases |s|
  {
    if i == 0 {
      assert s[..|pat|] == s[0..|pat|];
    } else {
      ReplaceFirstStep(s, pat, rep);
      OccursShift(s, pat, i - 1);
      forall j | 0 <= j < i - 1 ensures !OccursAt(s[1..], pat, j) {
        OccursShift(s, pat, j);
      }
      ReplaceFirstAt(s[1..], pat, rep, i - 1);
      ConsAround(s, i, i + |pat|, rep);
    }
  }

  /** A single mismatching character rules out an occurrence. */
  lemma NoOccurrenceAtMismatch(s: string, pat: string, i: int, k: nat)
    requires k < |pat|
    requires 0 <= i + k < |s| ==> s[i + k] != pat[k]
    ensures !OccursAt(s, pat, i)
  {
    if 0 <= i && i + |pat| <= |s| {
      assert s[i..i + |pat|][k] == s[i + k];
    }
  }

  /** A pattern cannot occur where its first character does not appear. */
  lemma AbsentWithoutLeadChar(s: string, pat: string)
    requires pat != []
    requires forall k :: 0 <= k < |s| ==> s[k] != pat[0]
    ensures forall i :: !OccursAt(s, pat, i)
  {
    forall i ensures !OccursAt(s, pat, i) {
      NoOccurrenceAtMismatch(s, pat, i, 0);
    }
  }

  /**
   * When no occurrence of the pattern starts inside the prefix `p`, replacing in `p + rest`
   * keeps `p` and replaces in `rest`.
   */
  lemma {:induction false} ReplaceFirstSkip(p: string, rest: string, pat: string, rep: string)
    requires pat != []
    requires forall i :: 0 <= i < |p| ==> !OccursAt(p + rest, pat, i)
    ensures ReplaceFirst(p + rest, pat, rep) == p + ReplaceFirst(rest, pat, rep)
    decreases |p|
  {
    if p == [] {
      assert p + rest == rest;
    } else {
      var s := p + rest;
      var tail := p[1..] + rest;
      assert s[1..] == tail;
      forall i | 0 <= i < |p| - 1 ensures !OccursAt(tail, pat, i) {
        OccursShift(s, pat, i);
      }
      ReplaceFirstSkip(p[1..], rest, pat, rep);
      assert !OccursAt(s, pat, 0);
      if |s| < |pat| {
        assert |rest| < |pat|;
        assert ReplaceFirst(rest, pat, rep) == rest;
        assert ReplaceFirst(s, pat, rep) == s;
      } else {
        assert s[..|pat|] != pat;
        calc {
          ReplaceFirst(s, pat, rep);
          [s[0]] + ReplaceFirst(tail, pat, rep);
          [p[0]] + (p[1..] + ReplaceFirst(rest, pat, rep));
          { assert [p[0]] + p[1..] == p; }
          p + ReplaceFirst(rest, pat, rep);
        }
      }
    }
  }

  /** ASCII lower-casing, as Python's `str.lower` does on ASCII letters. */
  function LowerAscii(s: string): (r: string)
    ensures |r| == |s|
    ensures forall k :: 0 <= k < |s| ==>
      r[k] == if 'A' <= s[k] <= 'Z' then ((s[k] as int) + 32) as char else s[k]
  {
    seq(|s|, k requires 0 <= k < |s| => if 'A' <= s[k] <= 'Z' then ((s[k] as int) + 32) as char else s[k])
  }
}
