/** Values and sequence helpers shared by the whole model: JavaScript's optional
    values and numbers, `Array.prototype.slice(0, n)`, filtering, and subsequences. */
module Prelude {

  datatype Option<+T> = None | Some(value: T)

  /** A JavaScript number as far as the model needs one: an integer, NaN, or one of
      the infinities. A fractional number is represented by its truncation toward
      zero, which is what `slice` applies to its arguments anyway. */
  datatype Num = Finite(v: int) | NaN | PosInf | NegInf

  /** `Math.min(x, cap)` for an integer `cap`. */
  function MinNum(x: Num, cap: int): (r: Num)
    ensures r.NaN? <==> x.NaN?
    ensures r.Finite? ==> r.v <= cap
    ensures x.Finite? ==> r.Finite? && (r.v == x.v || r.v == cap)
  {
    match x
    case NaN => NaN
    case PosInf => Finite(cap)
    case NegInf => NegInf
    case Finite(v) => Finite(if v < cap then v else cap)
  }

  /** The end index that `slice(0, n)` uses on a list of length `len`: a negative
      `n` counts from the end, NaN counts as 0. */
  function SliceEnd(len: nat, n: Num): nat
  {
    match n
    case NaN => 0
    case NegInf => 0
    case PosInf => len
    case Finite(v) =>
      if v < 0 then (if len + v < 0 then 0 else len + v)
      else if v < len then v else len
  }

  /** `s.slice(0, n)`. */
  function SlicePrefix<T>(s: seq<T>, n: Num): (r: seq<T>)
    ensures r <= s
    ensures n.Finite? && n.v >= 0 ==> |r| <= n.v && (|r| == n.v || r == s)
    ensures n.NaN? || n.NegInf? ==> r == []
    ensures n.PosInf? ==> r == s
    ensures n.Finite? && n.v < 0 ==> r == s[..if |s| + n.v < 0 then 0 else |s| + n.v]
  {
    s[..SliceEnd(|s|, n)]
  }

  /** `n` raised to 0 when it is a negative number: the reading of a limit that
      a cap taken with `Math.min` evidently intends. */
  function AtLeastZero(n: Num): (r: Num)
    ensures r.Finite? ==> r.v >= 0
    ensures n.Finite? && n.v < 0 ==> r == Finite(0)
    ensures !(n.Finite? && n.v < 0) ==> r == n
  {
    if n.Finite? && n.v < 0 then Finite(0) else n
  }

  /** A limit below `cap` and never positive infinity, once raised to 0, takes
      at most `cap` items. */
  lemma SliceAtLeastZeroBound<T>(s: seq<T>, n: Num, cap: nat)
    requires !n.PosInf?
    requires n.Finite? ==> n.v <= cap
    ensures |SlicePrefix(s, AtLeastZero(n))| <= cap
  {
  }

  /** `s.slice(0, n)` for a non-negative integer `n`. */
  function Take<T>(s: seq<T>, n: nat): (r: seq<T>)
    ensures r <= s
    ensures |r| == (if |s| < n then |s| else n)
  {
    if |s| <= n then s else s[..n]
  }

  /** `s.filter(p)`. */
  function Filter<T>(s: seq<T>, p: T -> bool): seq<T>
  {
    if s == [] then [] else (if p(s[0]) then [s[0]] else []) + Filter(s[1..], p)
  }

  /** The elements of `s` for which `f` gives a value, in order (a loop that pushes
      only some of the values it computes). */
  function FilterMap<A, B>(s: seq<A>, f: A -> Option<B>): seq<B>
  {
    if s == [] then []
    else (if f(s[0]).Some? then [f(s[0]).value] else []) + FilterMap(s[1..], f)
  }

  /** `a` is `b` with some elements left out, the rest in their order. */
  predicate Subseq<T(==)>(a: seq<T>, b: seq<T>)
    decreases |b|
  {
    if a == [] then true
    else if b == [] then false
    else if a[0] == b[0] then Subseq(a[1..], b[1..])
    else Subseq(a, b[1..])
  }

  /** No two elements of `s` have the same image under `f`. */
  predicate InjectiveOn<T, U(==)>(s: seq<T>, f: T -> U)
  {
    forall i, j :: 0 <= i < |s| && 0 <= j < |s| && i != j ==> f(s[i]) != f(s[j])
  }

  lemma {:induction false} FilterConcat<T>(a: seq<T>, b: seq<T>, p: T -> bool)
    ensures Filter(a + b, p) == Filter(a, p) + Filter(b, p)
  {
    if a == [] {
      assert a + b == b;
    } else {
      assert (a + b)[0] == a[0];
      assert (a + b)[1..] == a[1..] + b;
      FilterConcat(a[1..], b, p);
      var h := if p(a[0]) then [a[0]] else [];
      calc {
        Filter(a + b, p);
        h + Filter(a[1..] + b, p);
        h + (Filter(a[1..], p) + Filter(b, p));
        (h + Filter(a[1..], p)) + Filter(b, p);
      }
    }
  }

  /** Filtering one more element at the end. */
  lemma FilterSnoc<T>(s: seq<T>, x: T, p: T -> bool)
    ensures Filter(s + [x], p) == Filter(s, p) + (if p(x) then [x] else [])
  {
    FilterConcat(s, [x], p);
    assert [x][1..] == [];
  }

  /** A filter that every element passes keeps the sequence. */
  lemma {:induction false} FilterAll<T>(s: seq<T>, p: T -> bool)
    requires forall k :: 0 <= k < |s| ==> p(s[k])
    ensures Filter(s, p) == s
  {
    if s != [] {
      assert forall k :: 0 <= k < |s| - 1 ==> s[1..][k] == s[k + 1];
      FilterAll(s[1..], p);
    }
  }

  lemma {:induction false} FilterMember<T>(s: seq<T>, p: T -> bool, x: T)
    ensures x in Filter(s, p) <==> x in s && p(x)
  {
    if s != [] {
      FilterMember(s[1..], p, x);
      assert s == [s[0]] + s[1..];
    }
  }

  lemma {:induction false} FilterLength<T>(s: seq<T>, p: T -> bool)
    ensures |Filter(s, p)| <= |s|
    ensures |Filter(s, p)| == |s| <==> forall k :: 0 <= k < |s| ==> p(s[k])
  {
    if s != [] {
      FilterLength(s[1..], p);
      if forall k :: 0 <= k < |s| - 1 ==> p(s[1..][k]) {
        assert forall k :: 1 <= k < |s| ==> p(s[k]) by {
          forall k | 1 <= k < |s| ensures p(s[k]) { assert s[k] == s[1..][k - 1]; }
        }
      } else {
        var k :| 0 <= k < |s| - 1 && !p(s[1..][k]);
        assert !p(s[k + 1]);
      }
    }
  }

  lemma {:induction false} FilterIdempotent<T>(s: seq<T>, p: T -> bool)
    ensures Filter(Filter(s, p), p) == Filter(s, p)
  {
    if s != [] {
      FilterIdempotent(s[1..], p);
      if p(s[0]) {
        var t := [s[0]] + Filter(s[1..], p);
        assert t[0] == s[0] && t[1..] == Filter(s[1..], p);
      } else {
        assert Filter(s, p) == Filter(s[1..], p);
      }
    }
  }

  lemma {:induction false} FilterSubseq<T>(s: seq<T>, p: T -> bool)
    ensures Subseq(Filter(s, p), s)
  {
    if s != [] {
      FilterSubseq(s[1..], p);
      assert [s[0]] + s[1..] == s;
      if p(s[0]) {
        var t := [s[0]] + Filter(s[1..], p);
        assert t[0] == s[0] && t[1..] == Filter(s[1..], p);
      } else {
        assert Filter(s, p) == Filter(s[1..], p);
        SubseqSkip(Filter(s[1..], p), s[1..], s[0]);
      }
    }
  }

  /** Putting an element in front of the bigger sequence keeps a subsequence. */
  lemma {:induction false} SubseqSkip<T>(a: seq<T>, b: seq<T>, x: T)
    requires Subseq(a, b)
    ensures Subseq(a, [x] + b)
    decreases |b|, 1
  {
    assert ([x] + b)[1..] == b;
    if a != [] && a[0] == x {
      SubseqDropHead(a, b);
    }
  }

  /** A subsequence of `b` stays one when its first element is dropped. */
  lemma {:induction false} SubseqDropHead<T>(a: seq<T>, b: seq<T>)
    requires a != [] && Subseq(a, b)
    ensures Subseq(a[1..], b)
    decreases |b|, 0
  {
    if a[1..] != [] {
      assert [b[0]] + b[1..] == b;
      if a[0] == b[0] {
        SubseqSkip(a[1..], b[1..], b[0]);
      } else {
        SubseqDropHead(a, b[1..]);
        SubseqSkip(a[1..], b[1..], b[0]);
      }
    }
  }

  /** Every element of a subsequence is an element of the bigger sequence. */
  lemma {:induction false} SubseqIn<T>(a: seq<T>, b: seq<T>)
    requires Subseq(a, b)
    ensures forall x :: x in a ==> x in b
    decreases |b|
  {
    if a != [] {
      if a[0] == b[0] {
        SubseqIn(a[1..], b[1..]);
        assert forall x :: x in a ==> x == a[0] || x in a[1..];
      } else {
        SubseqIn(a, b[1..]);
      }
      assert forall x :: x in b[1..] ==> x in b;
    }
  }

  /** Cutting a prefix shorter still. */
  lemma TakeTake<T>(s: seq<T>, a: nat, b: nat)
    requires b <= a
    ensures Take(Take(s, a), b) == Take(s, b)
  {
  }

  lemma {:induction false} FilterMapConcat<A, B>(a: seq<A>, b: seq<A>, f: A -> Option<B>)
    ensures FilterMap(a + b, f) == FilterMap(a, f) + FilterMap(b, f)
  {
    if a == [] {
      assert a + b == b;
    } else {
      assert (a + b)[0] == a[0];
      assert (a + b)[1..] == a[1..] + b;
      FilterMapConcat(a[1..], b, f);
      var h := if f(a[0]).Some? then [f(a[0]).value] else [];
      calc {
        FilterMap(a + b, f);
        h + FilterMap(a[1..] + b, f);
        h + (FilterMap(a[1..], f) + FilterMap(b, f));
        (h + FilterMap(a[1..], f)) + FilterMap(b, f);
      }
    }
  }

  lemma {:induction false} FilterMapBounds<A, B>(s: seq<A>, f: A -> Option<B>)
    ensures |FilterMap(s, f)| <= |s|
    ensures forall y :: y in FilterMap(s, f) ==> exists x :: x in s && f(x) == Some(y)
    ensures FilterMap(s, f) == [] <==> forall x :: x in s ==> f(x).None?
  {
    if s != [] {
      FilterMapBounds(s[1..], f);
      assert forall x :: x in s[1..] ==> x in s;
      assert forall x :: x in s ==> x == s[0] || x in s[1..];
    }
  }

  /** One more element processed by a loop that pushes what `f` gives. */
  lemma FilterMapSnoc<A, B>(s: seq<A>, k: nat, f: A -> Option<B>)
    requires k < |s|
    ensures FilterMap(s[..k + 1], f)
      == FilterMap(s[..k], f) + (if f(s[k]).Some? then [f(s[k]).value] else [])
  {
    assert s[..k + 1] == s[..k] + [s[k]];
    FilterMapConcat(s[..k], [s[k]], f);
    assert [s[k]][1..] == [];
  }
}
