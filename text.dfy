/** The string operations of the JavaScript platform that the source relies on:
    the white-space class of `\s` and `trim`, ASCII case folding, literal search,
    and the anchored `\s+\S*$` cut. */
module Text {
  import opened Prelude

  /** The characters that `\s` matches and that `String.prototype.trim` removes. */
  predicate IsSpace(c: char)
  {
    c == '\t' || c == '\n' || c == '\U{B}' || c == '\U{C}' || c == '\r' || c == ' '
    || c == '\U{A0}' || c == '\U{1680}' || ('\U{2000}' <= c <= '\U{200A}')
    || c == '\U{2028}' || c == '\U{2029}' || c == '\U{202F}' || c == '\U{205F}'
    || c == '\U{3000}' || c == '\U{FEFF}'
  }

  /** The characters that the regular-expression `.` does not match. */
  predicate IsLineTerminator(c: char)
  {
    c == '\n' || c == '\r' || c == '\U{2028}' || c == '\U{2029}'
  }

  /** `\d`. */
  predicate IsDigit(c: char)
  {
    '0' <= c <= '9'
  }

  /** `toLowerCase` on one character, for the ASCII letters. */
  function LowerChar(c: char): char
  {
    if 'A' <= c <= 'Z' then (c as int + 32) as char else c
  }

  /** `s.toLowerCase()`, for the ASCII letters. */
  function Lower(s: string): string
  {
    seq(|s|, i requires 0 <= i < |s| => LowerChar(s[i]))
  }

  /** Character comparison of a regular expression, with or without the `i` flag. */
  predicate CharEq(a: char, b: char, ci: bool)
  {
    if ci then LowerChar(a) == LowerChar(b) else a == b
  }

  predicate IsBlank(s: string)
  {
    forall k :: 0 <= k < |s| ==> IsSpace(s[k])
  }

  /** No white space at either end. */
  predicate Trimmed(s: string)
  {
    s == [] || (!IsSpace(s[0]) && !IsSpace(s[|s| - 1]))
  }

  /** No two white-space characters next to each other. */
  predicate NoDoubleSpace(s: string)
  {
    forall k :: 0 <= k < |s| - 1 ==> !(IsSpace(s[k]) && IsSpace(s[k + 1]))
  }

  /** The first index at or after `i` that does not hold white space. */
  function SkipSpaces(s: string, i: nat): (j: nat)
    requires i <= |s|
    ensures i <= j <= |s|
    ensures j < |s| ==> !IsSpace(s[j])
    ensures forall k :: i <= k < j ==> IsSpace(s[k])
    decreases |s| - i
  {
    if i < |s| && IsSpace(s[i]) then SkipSpaces(s, i + 1) else i
  }

  /** The index just after the last character of `s[lo..j]` that is not white
      space, or `lo` when there is none. */
  function BackSpaces(s: string, lo: nat, j: nat): (e: nat)
    requires lo <= j <= |s|
    ensures lo <= e <= j
    ensures e > lo ==> !IsSpace(s[e - 1])
    ensures forall k :: e <= k < j ==> IsSpace(s[k])
  {
    if lo < j && IsSpace(s[j - 1]) then BackSpaces(s, lo, j - 1) else j
  }

  /** The number of white-space characters at the start of `s`. */
  function Lead(s: string): (n: nat)
    ensures n <= |s|
    ensures n < |s| ==> !IsSpace(s[n])
    ensures forall k :: 0 <= k < n ==> IsSpace(s[k])
  {
    SkipSpaces(s, 0)
  }

  /** `s.trimStart()`. */
  function TrimStart(s: string): (r: string)
    ensures r == s[Lead(s)..]
  {
    s[Lead(s)..]
  }

  /** `s.trimEnd()`. */
  function TrimEnd(s: string): (r: string)
    ensures |r| <= |s| && r == s[..|r|]
    ensures r != [] ==> !IsSpace(r[|r| - 1])
    ensures forall k :: |r| <= k < |s| ==> IsSpace(s[k])
  {
    s[..BackSpaces(s, 0, |s|)]
  }

  /** `s.trim()`: the part of `s` between its leading and its trailing white space. */
  function Trim(s: string): (r: string)
    ensures Trimmed(r)
    ensures r == [] <==> IsBlank(s)
    ensures Lead(s) + |r| <= |s| && r == s[Lead(s)..Lead(s) + |r|]
    ensures forall k :: 0 <= k < |s| && !(Lead(s) <= k < Lead(s) + |r|) ==> IsSpace(s[k])
    ensures NoDoubleSpace(s) ==> NoDoubleSpace(r)
  {
    var a := Lead(s);
    var e := BackSpaces(s, a, |s|);
    var r := s[a..e];
    assert r != [] ==> r[0] == s[a] && r[|r| - 1] == s[e - 1];
    assert NoDoubleSpace(s) ==> NoDoubleSpace(r) by {
      if NoDoubleSpace(s) {
        forall k | 0 <= k < |r| - 1 ensures !(IsSpace(r[k]) && IsSpace(r[k + 1])) {
          assert r[k] == s[a + k] && r[k + 1] == s[a + k + 1];
        }
      }
    }
    r
  }

  /** Trimming a trimmed string changes nothing. */
  lemma TrimTrimmed(s: string)
    requires Trimmed(s)
    ensures Trim(s) == s
  {
  }

  /** `pat` occurs in `s` at position `i`. */
  predicate MatchAt(s: string, i: nat, pat: string, ci: bool)
  {
    i + |pat| <= |s| && forall k :: 0 <= k < |pat| ==> CharEq(s[i + k], pat[k], ci)
  }

  /** `pat` does not occur at `i`. It has a name of its own so that a fact about
      every position without an occurrence is used where a proof names a
      position, and not at every occurrence test in sight. */
  predicate NoMatchAt(s: string, i: nat, pat: string, ci: bool)
  {
    !MatchAt(s, i, pat, ci)
  }

  /** The leftmost position at or after `from` where `pat` occurs. */
  function Find(s: string, pat: string, from: nat, ci: bool): (r: Option<nat>)
    ensures r.Some? ==> from <= r.value && MatchAt(s, r.value, pat, ci)
    ensures forall k: nat :: from <= k && (r.None? || k < r.value) ==> NoMatchAt(s, k, pat, ci)
    decreases |s| - from
  {
    if from + |pat| > |s| then None
    else if MatchAt(s, from, pat, ci) then Some(from)
    else Find(s, pat, from + 1, ci)
  }

  /** An occurrence at `k` is found, at `k` or before it. */
  lemma FindFirst(s: string, pat: string, from: nat, ci: bool, k: nat)
    ensures from <= k && MatchAt(s, k, pat, ci) ==>
      Find(s, pat, from, ci).Some? && Find(s, pat, from, ci).value <= k
  {
    if from <= k && MatchAt(s, k, pat, ci) {
      assert !NoMatchAt(s, k, pat, ci);
    }
  }

  /** A one-character pattern occurs exactly where that character stands. */
  lemma CharAt(s: string, k: nat, c: char)
    ensures k < |s| ==> (MatchAt(s, k, [c], false) <==> s[k] == c)
  {
    assert [c][0] == c;
  }

  /** `s.includes(w)`. */
  predicate Contains(s: string, w: string)
  {
    Find(s, w, 0, false).Some?
  }

  /** `s.includes(w)` holds exactly when `w` occurs somewhere in `s`. */
  lemma ContainsMeaning(s: string, w: string)
    ensures Contains(s, w) <==> exists i: nat :: MatchAt(s, i, w, false)
  {
    if Contains(s, w) {
      assert MatchAt(s, Find(s, w, 0, false).value, w, false);
    } else {
      forall i: nat ensures !MatchAt(s, i, w, false) {
        assert NoMatchAt(s, i, w, false);
      }
    }
  }

  /** No white space at all. */
  predicate NoSpace(s: string)
  {
    forall k :: 0 <= k < |s| ==> !IsSpace(s[k])
  }

  /** `u.replace(/\s+\S*$/, "")`: the last run of white space and the word after it
      are cut off; a string without white space is left alone. */
  function DropLastWord(u: string): (r: string)
    ensures r <= u
    ensures NoSpace(u) ==> r == u
    ensures !NoSpace(u) ==>
      && |r| < |u| && IsSpace(u[|r|])
      && (r == [] || !IsSpace(r[|r| - 1]))
      && (forall j, k :: |r| <= j < k < |u| && IsSpace(u[k]) ==> IsSpace(u[j]))
  {
    var v := DropTrailingWord(u);
    if v == [] then
      assert NoSpace(u) by { assert u[|v|..] == u; }
      u
    else
      var r := TrimEnd(v);
      LastWordCut(u, v, r);
      r
  }

  /** Where `DropLastWord` cuts: `v` is `u` without its trailing word, and `r` is
      `v` without its trailing white space. */
  lemma LastWordCut(u: string, v: string, r: string)
    requires |v| <= |u| && v == u[..|v|] && NoSpace(u[|v|..])
    requires v != [] && IsSpace(v[|v| - 1])
    requires |r| <= |v| && r == v[..|r|] && (r != [] ==> !IsSpace(r[|r| - 1]))
    requires forall k :: |r| <= k < |v| ==> IsSpace(v[k])
    ensures r <= u && |r| < |u| && IsSpace(u[|r|]) && !NoSpace(u)
    ensures forall j, k :: |r| <= j < k < |u| && IsSpace(u[k]) ==> IsSpace(u[j])
  {
    assert |r| < |v|;
    assert r == u[..|r|];
    assert u[|r|] == v[|r|];
    forall k | |v| <= k < |u| ensures !IsSpace(u[k]) {
      assert u[k] == u[|v|..][k - |v|];
    }
    forall j, k | |r| <= j < k < |u| && IsSpace(u[k]) ensures IsSpace(u[j]) {
      assert u[j] == v[j];
    }
  }

  /** `u` without the non-white-space characters at its end. */
  function DropTrailingWord(u: string): (r: string)
    ensures |r| <= |u| && r == u[..|r|]
    ensures r != [] ==> IsSpace(r[|r| - 1])
    ensures NoSpace(u[|r|..])
  {
    if u != [] && !IsSpace(u[|u| - 1]) then
      var q := DropTrailingWord(u[..|u| - 1]);
      assert u[|q|..] == u[..|u| - 1][|q|..] + [u[|u| - 1]];
      q
    else u
  }

  /** `a || b` on two strings: `a` unless it is empty. */
  function OrElse(a: string, b: string): string
  {
    if a != "" then a else b
  }

  /** `xs.join(sep)`. */
  function Join(xs: seq<string>, sep: string): string
  {
    if xs == [] then "" else if |xs| == 1 then xs[0] else xs[0] + sep + Join(xs[1..], sep)
  }
}
