/** The regular expressions the source applies to markup, each written out as the
    match the JavaScript engine finds: global replacement (`s.replace(/…/g, rep)`),
    the first match of a lazy `open[\s\S]*?close`, and the list of all such matches
    (`s.match(/…/g)`). */
module Regex {
  import opened Prelude
  import opened Text

  /** The global patterns used with `replace`. */
  datatype Pattern =
    | Lit(text: string, ci: bool)  // a literal; with `ci`, the `i` flag
    | Break                        // /<br\s*\/?>/i
    | Tag                          // /<[^>]+>/
    | Spaces                       // /\s+/
    | CdataMark                    // /<!\[CDATA\[|\]\]>/
    | SpacesNewline                // /\s+\n/
    | NewlineRun                   // /\n{3,}/

  /** The first index at or after `i` that does not hold a line feed. */
  function NewlinesFrom(s: string, i: nat): (j: nat)
    requires i <= |s|
    ensures i <= j <= |s|
    ensures j < |s| ==> s[j] != '\n'
    ensures forall k :: i <= k < j ==> s[k] == '\n'
    decreases |s| - i
  {
    if i < |s| && s[i] == '\n' then NewlinesFrom(s, i + 1) else i
  }

  /** The last line feed in `s[lo..hi]`. */
  function LastNewline(s: string, lo: nat, hi: nat): (r: Option<nat>)
    requires lo <= hi <= |s|
    ensures r.Some? ==> lo <= r.value < hi && s[r.value] == '\n'
    ensures forall k :: (if r.Some? then r.value + 1 else lo) <= k < hi ==> s[k] != '\n'
    decreases hi - lo
  {
    if hi == lo then None
    else if s[hi - 1] == '\n' then Some(hi - 1)
    else LastNewline(s, lo, hi - 1)
  }

  /** `<br\s*\/?>` with the `i` flag at the start of `s`. */
  function BreakLen(s: string): (r: Option<nat>)
    ensures r.Some? ==> 4 <= r.value <= |s|
  {
    if MatchAt(s, 0, "<br", true) then
      var j := SkipSpaces(s, 3);
      if j < |s| && s[j] == '>' then Some(j + 1)
      else if j + 1 < |s| && s[j] == '/' && s[j + 1] == '>' then Some(j + 2)
      else None
    else None
  }

  /** `<[^>]+>` at the start of `s`: up to the first `>`, with at least one
      character in between. */
  function TagLen(s: string): (r: Option<nat>)
    ensures r.Some? ==> 3 <= r.value <= |s|
  {
    if s != [] && s[0] == '<' then
      match Find(s, ">", 1, false)
      case Some(g) => if g > 1 then Some(g + 1) else None
      case None => None
    else None
  }

  /** The length of the match that the engine finds for `p` when it starts at the
      beginning of `s`, if there is one. */
  function MatchLen(s: string, p: Pattern): (r: Option<nat>)
    ensures r.Some? ==> 0 < r.value <= |s|
  {
    match p
    case Lit(t, ci) => if t != [] && MatchAt(s, 0, t, ci) then Some(|t|) else None
    case Break => BreakLen(s)
    case Tag => TagLen(s)
    case Spaces => if Lead(s) > 0 then Some(Lead(s)) else None
    case CdataMark =>
      if MatchAt(s, 0, "<![CDATA[", false) then Some(9)
      else if MatchAt(s, 0, "]]>", false) then Some(3)
      else None
    case SpacesNewline =>
      // `\s+` takes the whole run of white space and gives back characters
      // until a line feed follows; the run must keep at least one character.
      if Lead(s) < 2 then None
      else (match LastNewline(s, 1, Lead(s)) case Some(k) => Some(k + 1) case None => None)
    case NewlineRun =>
      var j := NewlinesFrom(s, 0);
      if j >= 3 then Some(j) else None
  }

  /** `s.replace(p, rep)` with the `g` flag: matches are found left to right and
      do not overlap. */
  function Replace(s: string, p: Pattern, rep: string): string
    decreases |s|
  {
    if s == [] then []
    else match MatchLen(s, p)
      case Some(n) => rep + Replace(s[n..], p, rep)
      case None => [s[0]] + Replace(s[1..], p, rep)
  }

  lemma DropOneNoDoubleSpace(s: string, n: nat)
    requires n <= |s| && NoDoubleSpace(s)
    ensures NoDoubleSpace(s[n..])
  {
    var t := s[n..];
    forall k | 0 <= k < |t| - 1 ensures !(IsSpace(t[k]) && IsSpace(t[k + 1])) {
      assert t[k] == s[n + k] && t[k + 1] == s[n + k + 1];
    }
  }

  /** Putting `h` in front of `q` keeps `NoDoubleSpace` when the join is not two
      white-space characters. */
  lemma JoinNoDoubleSpace(h: string, q: string)
    requires NoDoubleSpace(h) && NoDoubleSpace(q)
    requires h != [] && q != [] ==> !(IsSpace(h[|h| - 1]) && IsSpace(q[0]))
    ensures NoDoubleSpace(h + q)
  {
    var r := h + q;
    forall k | 0 <= k < |r| - 1 ensures !(IsSpace(r[k]) && IsSpace(r[k + 1])) {
      if k + 1 < |h| {
        assert r[k] == h[k] && r[k + 1] == h[k + 1];
      } else if k + 1 == |h| {
        assert r[k] == h[k] && r[k + 1] == q[0];
      } else {
        assert r[k] == q[k - |h|] && r[k + 1] == q[k + 1 - |h|];
      }
    }
  }

  /** `r` has the white-space layout of `s`: empty together, the same kind of
      character at each end, and no two white-space neighbours when `s` has none. */
  predicate SameSpacing(s: string, r: string)
  {
    && (r == [] <==> s == [])
    && (s != [] ==> IsSpace(r[0]) == IsSpace(s[0]) && IsSpace(r[|r| - 1]) == IsSpace(s[|s| - 1]))
    && (NoDoubleSpace(s) ==> NoDoubleSpace(r))
  }

  /** A visible replacement in front of the rest keeps the layout, when the match it
      replaces starts and ends with a visible character. */
  lemma MatchedSpacing(s: string, n: nat, rep: string, q: string)
    requires 0 < n <= |s| && !IsSpace(s[0]) && !IsSpace(s[n - 1])
    requires rep != [] && NoSpace(rep)
    requires SameSpacing(s[n..], q)
    ensures SameSpacing(s, rep + q)
  {
    var rest := s[n..];
    if NoDoubleSpace(s) {
      DropOneNoDoubleSpace(s, n);
      assert NoDoubleSpace(rep) by {
        forall k | 0 <= k < |rep| - 1 ensures !IsSpace(rep[k]) { }
      }
      JoinNoDoubleSpace(rep, q);
    }
    if q != [] {
      assert s[|s| - 1] == rest[|rest| - 1];
    }
  }

  /** One character kept in front of the rest keeps the layout. */
  lemma KeptSpacing(s: string, q: string)
    requires s != [] && SameSpacing(s[1..], q)
    ensures SameSpacing(s, [s[0]] + q)
  {
    var rest := s[1..];
    if NoDoubleSpace(s) {
      DropOneNoDoubleSpace(s, 1);
      assert rest != [] ==> rest[0] == s[1];
      JoinNoDoubleSpace([s[0]], q);
    }
    if q != [] {
      assert s[|s| - 1] == rest[|rest| - 1];
    }
  }

  /** Replacing a literal that starts and ends with a visible character by visible
      text keeps the string's white-space layout: the ends keep their kind and no
      two white-space characters become neighbours. */
  lemma {:induction false} ReplaceLitKeepsSpacing(s: string, t: string, ci: bool, rep: string)
    requires t != [] && !IsSpace(t[0]) && !IsSpace(t[|t| - 1])
    requires rep != [] && NoSpace(rep)
    ensures var r := Replace(s, Lit(t, ci), rep);
      && (r == [] <==> s == [])
      && (s != [] ==> IsSpace(r[0]) == IsSpace(s[0]) && IsSpace(r[|r| - 1]) == IsSpace(s[|s| - 1]))
      && (NoDoubleSpace(s) ==> NoDoubleSpace(r))
    decreases |s|
  {
    if s != [] {
      LitStep(s, t, ci, rep);
      if MatchAt(s, 0, t, ci) {
        assert CharEq(s[0], t[0], ci) && CharEq(s[|t| - 1], t[|t| - 1], ci);
        ReplaceLitKeepsSpacing(s[|t|..], t, ci, rep);
        MatchedSpacing(s, |t|, rep, Replace(s[|t|..], Lit(t, ci), rep));
      } else {
        ReplaceLitKeepsSpacing(s[1..], t, ci, rep);
        KeptSpacing(s, Replace(s[1..], Lit(t, ci), rep));
      }
    }
  }

  /** One step of replacing a non-empty literal. */
  lemma LitStep(s: string, t: string, ci: bool, rep: string)
    requires s != [] && t != []
    ensures MatchAt(s, 0, t, ci) ==> |t| <= |s| && Replace(s, Lit(t, ci), rep) == rep + Replace(s[|t|..], Lit(t, ci), rep)
    ensures !MatchAt(s, 0, t, ci) ==> Replace(s, Lit(t, ci), rep) == [s[0]] + Replace(s[1..], Lit(t, ci), rep)
  {
  }

  /** What collapsing the white space of `s` into `r` keeps: no longer, empty
      only when `s` is, white space at the ends where `s` has it, and single
      plain spaces. */
  predicate Collapsed(s: string, r: string)
  {
    && |r| <= |s|
    && (r == [] <==> s == [])
    && (s != [] ==> IsSpace(r[0]) == IsSpace(s[0]) && IsSpace(r[|r| - 1]) == IsSpace(s[|s| - 1]))
    && NoDoubleSpace(r)
    && (forall k :: 0 <= k < |r| && IsSpace(r[k]) ==> r[k] == ' ')
  }

  /** `s.replace(/\s+/g, " ")`: every run of white space becomes one plain space. */
  lemma {:induction false} CollapseFacts(s: string)
    ensures Collapsed(s, Replace(s, Spaces, " "))
    decreases |s|
  {
    if s != [] {
      var r := Replace(s, Spaces, " ");
      if Lead(s) > 0 {
        var n := Lead(s);
        CollapseFacts(s[n..]);
        assert r == " " + Replace(s[n..], Spaces, " ");
        CollapsedRun(s, n, Replace(s[n..], Spaces, " "));
      } else {
        CollapseFacts(s[1..]);
        assert r == [s[0]] + Replace(s[1..], Spaces, " ");
        CollapsedChar(s, Replace(s[1..], Spaces, " "));
      }
    }
  }

  /** A leading run of `n` white-space characters becomes one space. */
  lemma CollapsedRun(s: string, n: nat, q: string)
    requires 0 < n <= |s| && IsSpace(s[0]) && IsSpace(s[n - 1])
    requires n < |s| ==> !IsSpace(s[n])
    requires Collapsed(s[n..], q)
    ensures Collapsed(s, " " + q)
  {
    var rest, r := s[n..], " " + q;
    assert rest != [] ==> rest[0] == s[n];
    JoinNoDoubleSpace(" ", q);
    if q != [] {
      assert s[|s| - 1] == rest[|rest| - 1];
    }
    forall k | 0 <= k < |r| && IsSpace(r[k]) ensures r[k] == ' ' {
      if k > 0 { assert r[k] == q[k - 1]; }
    }
  }

  /** A leading visible character is kept. */
  lemma CollapsedChar(s: string, q: string)
    requires s != [] && !IsSpace(s[0])
    requires Collapsed(s[1..], q)
    ensures Collapsed(s, [s[0]] + q)
  {
    var rest, r := s[1..], [s[0]] + q;
    JoinNoDoubleSpace([s[0]], q);
    if q != [] {
      assert s[|s| - 1] == rest[|rest| - 1];
    }
    forall k | 0 <= k < |r| && IsSpace(r[k]) ensures r[k] == ' ' {
      if k > 0 { assert r[k] == q[k - 1]; }
    }
  }

  /** No three line feeds in a row. */
  predicate NoTripleNewline(s: string)
  {
    forall k :: 0 <= k < |s| - 2 ==> !(s[k] == '\n' && s[k + 1] == '\n' && s[k + 2] == '\n')
  }

  /** The number of line feeds at the start of `s`. */
  function LeadNewlines(s: string): nat
  {
    NewlinesFrom(s, 0)
  }

  /** `s.replace(/\n{3,}/g, "\n\n")` leaves no run of three line feeds, and a run at
      the start keeps its length up to two. */
  lemma {:induction false} SquashFacts(s: string)
    ensures var r := Replace(s, NewlineRun, "\n\n");
      && NoTripleNewline(r)
      && LeadNewlines(r) == (if LeadNewlines(s) < 2 then LeadNewlines(s) else 2)
    decreases |s|
  {
    if s != [] {
      var r := Replace(s, NewlineRun, "\n\n");
      var j := LeadNewlines(s);
      if j >= 3 {
        var rest := s[j..];
        SquashFacts(rest);
        var q := Replace(rest, NewlineRun, "\n\n");
        assert r == "\n\n" + q;
        assert rest != [] ==> rest[0] == s[j];
        assert LeadNewlines(rest) == 0;
        assert q != [] ==> q[0] != '\n';
        NewlinePrefix(r, 2);
      } else {
        var rest := s[1..];
        SquashFacts(rest);
        var q := Replace(rest, NewlineRun, "\n\n");
        assert r == [s[0]] + q;
        LeadNewlinesTail(s);
        if s[0] == '\n' {
          assert LeadNewlines(rest) == j - 1;
          assert LeadNewlines(q) == j - 1;
          NewlineCons(q);
        } else {
          assert LeadNewlines(r) == 0;
        }
        forall k | 0 <= k < |r| - 2 ensures !(r[k] == '\n' && r[k + 1] == '\n' && r[k + 2] == '\n') {
          if k > 0 {
            assert r[k] == q[k - 1] && r[k + 1] == q[k] && r[k + 2] == q[k + 1];
          }
        }
      }
    }
  }

  lemma LeadNewlinesTail(s: string)
    requires s != []
    ensures s[0] == '\n' ==> LeadNewlines(s[1..]) == LeadNewlines(s) - 1
    ensures s[0] != '\n' ==> LeadNewlines(s) == 0
  {
    if s[0] == '\n' {
      var t := s[1..];
      var j := LeadNewlines(s);
      var i := LeadNewlines(t);
      assert forall k :: 0 <= k < j - 1 ==> t[k] == s[k + 1];
      assert i < |t| ==> t[i] == s[i + 1];
    }
  }

  lemma NewlineCons(q: string)
    ensures LeadNewlines(['\n'] + q) == LeadNewlines(q) + 1
  {
    LeadNewlinesTail(['\n'] + q);
    assert (['\n'] + q)[1..] == q;
  }

  lemma LeadNewlinesAtLeast(q: string, n: nat)
    requires n <= |q| && forall k :: 0 <= k < n ==> q[k] == '\n'
    ensures LeadNewlines(q) >= n
  {
  }

  /** `h` line feeds followed by something else. */
  lemma NewlinePrefix(r: string, h: nat)
    requires h <= |r| && (forall k :: 0 <= k < h ==> r[k] == '\n') && (h < |r| ==> r[h] != '\n')
    requires NoTripleNewline(r[h..]) && h <= 2
    ensures LeadNewlines(r) == h && NoTripleNewline(r)
  {
    LeadNewlinesAtLeast(r, h);
    var q := r[h..];
    forall k | 0 <= k < |r| - 2 ensures !(r[k] == '\n' && r[k + 1] == '\n' && r[k + 2] == '\n') {
      if k >= h {
        assert r[k] == q[k - h] && r[k + 1] == q[k - h + 1] && r[k + 2] == q[k - h + 2];
      }
    }
  }

  /** The text between the first `open` and the first `close` after it: the capture
      group of `s.match(/open([\s\S]*?)close/)`, or nothing when there is no match. */
  function Between(s: string, open: string, close: string, ci: bool): (r: Option<string>)
    ensures r.Some? ==> exists i: nat, c: nat :: LazyMatch(s, open, close, ci, i, c) && r.value == s[i + |open|..c]
  {
    match Find(s, open, 0, ci)
    case None => None
    case Some(i) =>
      match Find(s, close, i + |open|, ci)
      case None => None
      case Some(c) =>
        assert LazyMatch(s, open, close, ci, i, c);
        Some(s[i + |open|..c])
  }

  /** `open[\s\S]*?close` matched with `open` at `i` and `close` at `c`: the lazy
      body stops at the first `close`. */
  predicate LazyMatch(s: string, open: string, close: string, ci: bool, i: nat, c: nat)
  {
    && MatchAt(s, i, open, ci)
    && i + |open| <= c
    && MatchAt(s, c, close, ci)
    && forall k: nat :: i + |open| <= k < c ==> NoMatchAt(s, k, close, ci)
  }

  /** `Between` finds nothing exactly when there is no match at all. */
  lemma BetweenNone(s: string, open: string, close: string, ci: bool)
    ensures Between(s, open, close, ci).None? <==>
      forall i: nat, c: nat :: !LazyMatch(s, open, close, ci, i, c)
  {
    match Find(s, open, 0, ci)
    case None =>
      forall i: nat, c: nat ensures !LazyMatch(s, open, close, ci, i, c) {
        FindFirst(s, open, 0, ci, i);
      }
    case Some(i0) =>
      match Find(s, close, i0 + |open|, ci)
      case None =>
        forall i: nat, c: nat ensures !LazyMatch(s, open, close, ci, i, c) {
          FindFirst(s, open, 0, ci, i);
          FindFirst(s, close, i0 + |open|, ci, c);
        }
      case Some(c0) =>
        assert LazyMatch(s, open, close, ci, i0, c0);
  }

  /** The match `Between` reports starts no later than any other. */
  lemma BetweenLeftmost(s: string, open: string, close: string, ci: bool, i: nat, c: nat)
    requires LazyMatch(s, open, close, ci, i, c)
    ensures Between(s, open, close, ci).Some?
    ensures var i0 := Find(s, open, 0, ci).value;
      && i0 <= i
      && Find(s, close, i0 + |open|, ci).Some?
      && Between(s, open, close, ci) == Some(s[i0 + |open|..Find(s, close, i0 + |open|, ci).value])
  {
    FindFirst(s, open, 0, ci, i);
    var i0 := Find(s, open, 0, ci).value;
    FindFirst(s, close, i0 + |open|, ci, c);
  }

  /** The list of `s.match(/open[\s\S]*?close/g)` from position `from` on. */
  function Blocks(s: string, open: string, close: string, ci: bool, from: nat): (r: seq<string>)
    requires open != []
    ensures forall k :: 0 <= k < |r| ==> IsBlock(r[k], open, close, ci)
    decreases |s| - from
  {
    match Find(s, open, from, ci)
    case None => []
    case Some(i) =>
      match Find(s, close, i + |open|, ci)
      case None => []
      case Some(c) =>
        BlockEnds(s, open, close, ci, i, c);
        [s[i..c + |close|]] + Blocks(s, open, close, ci, c + |close|)
  }

  /** `b` starts with `open` and ends with `close`. */
  predicate IsBlock(b: string, open: string, close: string, ci: bool)
  {
    MatchAt(b, 0, open, ci) && |open| <= |b| && |close| <= |b| && MatchAt(b, |b| - |close|, close, ci)
  }

  lemma BlockEnds(s: string, open: string, close: string, ci: bool, i: nat, c: nat)
    requires MatchAt(s, i, open, ci) && i + |open| <= c && MatchAt(s, c, close, ci)
    ensures IsBlock(s[i..c + |close|], open, close, ci)
  {
    var b := s[i..c + |close|];
    forall k | 0 <= k < |open| ensures CharEq(b[k], open[k], ci) {
      assert b[k] == s[i + k];
    }
    forall k | 0 <= k < |close| ensures CharEq(b[|b| - |close| + k], close[k], ci) {
      assert b[|b| - |close| + k] == s[c + k];
    }
  }
}
