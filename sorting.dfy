/** A stable sort into descending order of an integer key: the model of
    `xs.sort((a, b) => key(b) - key(a))`, where the platform's sort is stable. */
module Sorting {
  import opened Prelude

  predicate SortedDesc<T>(s: seq<T>, key: T -> int)
  {
    forall i, j :: 0 <= i < j < |s| ==> key(s[i]) >= key(s[j])
  }

  /** The test "has key `v`", written once so that every use is the same function. */
  function KeyIs<T>(key: T -> int, v: int): T -> bool
  {
    x => key(x) == v
  }

  /** The first position whose element has a key not greater than `key(x)`. */
  function InsertPos<T>(x: T, s: seq<T>, key: T -> int, from: nat): (m: nat)
    requires from <= |s|
    ensures from <= m <= |s|
    ensures forall k :: from <= k < m ==> key(s[k]) > key(x)
    ensures m < |s| ==> key(x) >= key(s[m])
    decreases |s| - from
  {
    if from == |s| || key(x) >= key(s[from]) then from else InsertPos(x, s, key, from + 1)
  }

  /** Puts `x` before the first element whose key is not greater than its own. */
  function Insert<T>(x: T, s: seq<T>, key: T -> int): seq<T>
  {
    var m := InsertPos(x, s, key, 0);
    s[..m] + [x] + s[m..]
  }

  function SortDesc<T>(s: seq<T>, key: T -> int): seq<T>
  {
    if s == [] then [] else Insert(s[0], SortDesc(s[1..], key), key)
  }

  /** Where every element of `Insert(x, s, key)` comes from. */
  lemma InsertAt<T>(x: T, s: seq<T>, key: T -> int)
    ensures var m := InsertPos(x, s, key, 0); var r := Insert(x, s, key);
      && |r| == |s| + 1
      && forall i :: 0 <= i < |r| ==> r[i] == (if i < m then s[i] else if i == m then x else s[i - 1])
  {
  }

  lemma InsertFacts<T>(x: T, s: seq<T>, key: T -> int)
    ensures multiset(Insert(x, s, key)) == multiset{x} + multiset(s)
    ensures |Insert(x, s, key)| == |s| + 1
    ensures SortedDesc(s, key) ==> SortedDesc(Insert(x, s, key), key)
  {
    var m := InsertPos(x, s, key, 0);
    assert s == s[..m] + s[m..];
    if SortedDesc(s, key) {
      InsertSorted(x, s, key);
    }
  }

  lemma InsertSorted<T>(x: T, s: seq<T>, key: T -> int)
    requires SortedDesc(s, key)
    ensures SortedDesc(Insert(x, s, key), key)
  {
    var m := InsertPos(x, s, key, 0);
    var r := Insert(x, s, key);
    InsertAt(x, s, key);
    forall i, j | 0 <= i < j < |r| ensures key(r[i]) >= key(r[j]) {
      if j < m || i > m {
      } else if i < m && j == m {
      } else if i < m {
        assert key(s[i]) >= key(s[j - 1]);
      } else {
        assert key(x) >= key(s[m]);
      }
    }
  }

  /** The sort returns its input rearranged, in descending key order. */
  lemma {:induction false} SortDescFacts<T>(s: seq<T>, key: T -> int)
    ensures multiset(SortDesc(s, key)) == multiset(s)
    ensures |SortDesc(s, key)| == |s|
    ensures SortedDesc(SortDesc(s, key), key)
  {
    if s != [] {
      SortDescFacts(s[1..], key);
      InsertFacts(s[0], SortDesc(s[1..], key), key);
      assert s == [s[0]] + s[1..];
    }
  }

  lemma {:induction false} FilterNone<T>(s: seq<T>, p: T -> bool)
    requires forall k :: 0 <= k < |s| ==> !p(s[k])
    ensures Filter(s, p) == []
  {
    if s != [] {
      assert forall k :: 0 <= k < |s| - 1 ==> s[1..][k] == s[k + 1];
      FilterNone(s[1..], p);
    }
  }

  /** Inserting `x` leaves the elements of every other key where they were, and puts
      `x` in front of those of its own key. */
  lemma InsertStable<T>(x: T, s: seq<T>, key: T -> int, v: int)
    ensures Filter(Insert(x, s, key), KeyIs(key, v))
      == (if key(x) == v then [x] else []) + Filter(s, KeyIs(key, v))
  {
    var p := KeyIs(key, v);
    var m := InsertPos(x, s, key, 0);
    assert s == s[..m] + s[m..];
    FilterConcat(s[..m] + [x], s[m..], p);
    FilterConcat(s[..m], [x], p);
    FilterConcat(s[..m], s[m..], p);
    assert Filter([x], p) == (if key(x) == v then [x] else []) by {
      assert [x][1..] == [];
    }
    if key(x) == v {
      FilterNone(s[..m], p);
    }
  }

  /** Stability: for every key, the elements with that key keep their relative order. */
  lemma {:induction false} SortDescStable<T>(s: seq<T>, key: T -> int, v: int)
    ensures Filter(SortDesc(s, key), KeyIs(key, v)) == Filter(s, KeyIs(key, v))
  {
    if s != [] {
      SortDescStable(s[1..], key, v);
      InsertStable(s[0], SortDesc(s[1..], key), key, v);
    }
  }

  lemma InsertInjective<T, U>(x: T, s: seq<T>, key: T -> int, f: T -> U)
    requires InjectiveOn(s, f)
    requires forall k :: 0 <= k < |s| ==> f(s[k]) != f(x)
    ensures InjectiveOn(Insert(x, s, key), f)
  {
    InsertAt(x, s, key);
  }

  /** Sorting keeps a list free of duplicate values of `f`. */
  lemma {:induction false} SortDescInjective<T, U>(s: seq<T>, key: T -> int, f: T -> U)
    requires InjectiveOn(s, f)
    ensures InjectiveOn(SortDesc(s, key), f)
  {
    if s != [] {
      var t := s[1..];
      assert InjectiveOn(t, f) by {
        forall i, j | 0 <= i < |t| && 0 <= j < |t| && i != j ensures f(t[i]) != f(t[j]) {
          assert t[i] == s[i + 1] && t[j] == s[j + 1];
        }
      }
      SortDescInjective(t, key, f);
      SortDescFacts(t, key);
      var u := SortDesc(t, key);
      forall k | 0 <= k < |u| ensures f(u[k]) != f(s[0]) {
        assert u[k] in multiset(t);
        var m :| 0 <= m < |t| && t[m] == u[k];
        assert s[m + 1] == u[k];
      }
      InsertInjective(s[0], u, key, f);
    }
  }

  /** The first `n` of the sorted list are in order, come from `s`, and no
      element of `s` left behind has a greater key than any of them. */
  lemma TakeSortDesc<T>(s: seq<T>, key: T -> int, n: nat)
    ensures var r := Take(SortDesc(s, key), n);
      && SortedDesc(r, key)
      && (forall x :: x in r ==> x in s)
      && (forall i, y :: 0 <= i < |r| && y in s && y !in r ==> key(r[i]) >= key(y))
  {
    var t := SortDesc(s, key);
    SortDescFacts(s, key);
    var r := Take(t, n);
    assert forall i :: 0 <= i < |r| ==> r[i] == t[i];
    forall x | x in r ensures x in s {
      assert x in multiset(t);
    }
    forall i, y | 0 <= i < |r| && y in s && y !in r ensures key(r[i]) >= key(y) {
      assert y in multiset(t);
      var j :| 0 <= j < |t| && t[j] == y;
      assert j >= |r|;
    }
  }
}
