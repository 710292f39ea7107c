/** First-wins removal of duplicates under a key: what `uniqByUrl` does with a
    `Set` of seen URLs, and what a `Map` does with the order of its keys. */
module Dedup {
  import opened Prelude

  /** Some element of `s` has key `k`. */
  predicate HasKey<T, K(==)>(s: seq<T>, key: T -> K, k: K)
  {
    exists i :: 0 <= i < |s| && key(s[i]) == k
  }

  /** One more element seen: its key is had too. */
  lemma HasKeyPrefix<T, K>(s: seq<T>, k: nat, key: T -> K)
    requires k < |s|
    ensures forall u :: HasKey(s[..k + 1], key, u) <==> HasKey(s[..k], key, u) || key(s[k]) == u
  {
    forall u ensures HasKey(s[..k + 1], key, u) <==> HasKey(s[..k], key, u) || key(s[k]) == u {
      if HasKey(s[..k + 1], key, u) {
        var i :| 0 <= i < k + 1 && key(s[..k + 1][i]) == u;
        if i < k { assert s[..k][i] == s[..k + 1][i]; }
      }
      if HasKey(s[..k], key, u) {
        var i :| 0 <= i < k && key(s[..k][i]) == u;
        assert s[..k + 1][i] == s[..k][i];
      }
      if key(s[k]) == u {
        assert s[..k + 1][k] == s[k];
      }
    }
  }

  /** `s` with every element dropped whose key an earlier element already has;
      written the way the loop grows it, one element at the end at a time. */
  function DedupBy<T, K(==)>(s: seq<T>, key: T -> K): seq<T>
    decreases |s|
  {
    if s == [] then []
    else
      var d := DedupBy(s[..|s| - 1], key);
      if HasKey(s[..|s| - 1], key, key(s[|s| - 1])) then d else d + [s[|s| - 1]]
  }

  /** No element before position `i` has the key of `s[i]`. */
  predicate FirstOfKey<T, K(==)>(s: seq<T>, key: T -> K, i: nat)
  {
    i < |s| && forall j :: 0 <= j < i ==> key(s[j]) != key(s[i])
  }

  /** `x` stands in `s` at a position where its key first occurs. */
  ghost predicate IsFirstOfKey<T, K>(s: seq<T>, key: T -> K, x: T)
  {
    exists i: nat :: i < |s| && x == s[i] && FirstOfKey(s, key, i)
  }

  /** The kept elements come in their original order. */
  lemma {:induction false} DedupBySubseq<T, K>(s: seq<T>, key: T -> K)
    ensures Subseq(DedupBy(s, key), s)
    decreases |s|
  {
    if s != [] {
      var p := s[..|s| - 1];
      DedupBySubseq(p, key);
      assert s == p + [s[|s| - 1]];
      SubseqAppend(DedupBy(p, key), p, s[|s| - 1]);
    }
  }

  /** Every key of the input is kept, and no other. */
  lemma {:induction false} DedupByKeys<T, K>(s: seq<T>, key: T -> K)
    ensures forall i :: 0 <= i < |s| ==> HasKey(DedupBy(s, key), key, key(s[i]))
    ensures forall k :: HasKey(DedupBy(s, key), key, k) ==> HasKey(s, key, k)
    decreases |s|
  {
    if s != [] {
      var p := s[..|s| - 1];
      var x := s[|s| - 1];
      var d := DedupBy(p, key);
      DedupByKeys(p, key);
      assert forall i :: 0 <= i < |p| ==> p[i] == s[i];
      var r := DedupBy(s, key);
      forall k | HasKey(r, key, k) ensures HasKey(s, key, k) {
        var m :| 0 <= m < |r| && key(r[m]) == k;
        if m < |d| {
          assert r[m] == d[m] && HasKey(d, key, k);
          var i :| 0 <= i < |p| && key(p[i]) == k;
          assert s[i] == p[i];
        } else {
          assert key(s[|s| - 1]) == k;
        }
      }
      forall i | 0 <= i < |s| ensures HasKey(r, key, key(s[i])) {
        if i == |s| - 1 {
          if HasKey(p, key, key(x)) {
            var j :| 0 <= j < |p| && key(p[j]) == key(x);
            assert HasKey(d, key, key(p[j]));
            var m :| 0 <= m < |d| && key(d[m]) == key(p[j]);
            assert r[m] == d[m];
          } else {
            assert r[|d|] == x;
          }
        } else {
          var m :| 0 <= m < |d| && key(d[m]) == key(p[i]);
          assert r[m] == d[m];
        }
      }
    }
  }

  /** The kept elements have distinct keys. */
  lemma {:induction false} DedupByInjective<T, K>(s: seq<T>, key: T -> K)
    ensures InjectiveOn(DedupBy(s, key), key)
    decreases |s|
  {
    if s != [] {
      var p := s[..|s| - 1];
      var x := s[|s| - 1];
      var d := DedupBy(p, key);
      DedupByInjective(p, key);
      DedupByKeys(p, key);
      if !HasKey(p, key, key(x)) {
        var r := d + [x];
        assert !HasKey(d, key, key(x));
        forall a, b | 0 <= a < |r| && 0 <= b < |r| && a != b ensures key(r[a]) != key(r[b]) {
          if a == |d| {
            assert r[b] == d[b];
          } else if b == |d| {
            assert r[a] == d[a];
          } else {
            assert r[a] == d[a] && r[b] == d[b];
          }
        }
      }
    }
  }

  /** Every kept element is the first of its key in the input. */
  lemma {:induction false} DedupByFirst<T, K>(s: seq<T>, key: T -> K)
    ensures forall k :: 0 <= k < |DedupBy(s, key)| ==> IsFirstOfKey(s, key, DedupBy(s, key)[k])
    decreases |s|
  {
    if s != [] {
      var p := s[..|s| - 1];
      var d := DedupBy(p, key);
      DedupByFirst(p, key);
      assert forall i :: 0 <= i < |p| ==> p[i] == s[i];
      var r := DedupBy(s, key);
      forall k | 0 <= k < |r| ensures IsFirstOfKey(s, key, r[k]) {
        if k < |d| {
          assert r[k] == d[k] && IsFirstOfKey(p, key, d[k]);
          var i: nat :| i < |p| && d[k] == p[i] && FirstOfKey(p, key, i);
          assert FirstOfKey(s, key, i);
        } else {
          assert !HasKey(p, key, key(s[|s| - 1])) && r[k] == s[|s| - 1];
          forall j | 0 <= j < |s| - 1 ensures key(s[j]) != key(s[|s| - 1]) {
            assert s[j] == p[j];
          }
          assert FirstOfKey(s, key, |s| - 1);
        }
      }
    } else {
      assert DedupBy(s, key) == [];
    }
  }

  /** Appending the same element to both sides, or to the bigger side only, keeps
      a subsequence. */
  lemma {:induction false} SubseqAppend<T>(a: seq<T>, b: seq<T>, x: T)
    requires Subseq(a, b)
    ensures Subseq(a, b + [x]) && Subseq(a + [x], b + [x])
    decreases |b|
  {
    if a == [] {
      assert a + [x] == [x];
      SubseqLast(b, x);
    } else {
      assert (b + [x])[1..] == b[1..] + [x];
      assert (a + [x])[1..] == a[1..] + [x];
      assert (a + [x])[0] == a[0] && (b + [x])[0] == b[0];
      if a[0] == b[0] {
        SubseqAppend(a[1..], b[1..], x);
      } else {
        SubseqAppend(a, b[1..], x);
      }
    }
  }

  lemma {:induction false} SubseqLast<T>(b: seq<T>, x: T)
    ensures Subseq([x], b + [x])
    decreases |b|
  {
    if b != [] {
      assert (b + [x])[0] == b[0];
      assert (b + [x])[1..] == b[1..] + [x];
      if b[0] != x {
        SubseqLast(b[1..], x);
      }
    }
  }
}
