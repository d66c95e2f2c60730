/** Keep-first de-duplication on a key, as pandas' DataFrame.drop_duplicates
    with its default keep="first" over a subset of columns. Used by the
    delivery-report merger and by the reconciler's final pass. */
module Dedup {

  /** Some element of `s` has key `k`. */
  predicate HasKey<T, K(==)>(s: seq<T>, k: K, key: T -> K) {
    exists i :: 0 <= i < |s| && key(s[i]) == k
  }

  /** No two elements of `s` share a key. */
  predicate UniqueKeys<T, K(==)>(s: seq<T>, key: T -> K) {
    forall i, j :: 0 <= i < j < |s| ==> key(s[i]) != key(s[j])
  }

  /** The position of the first element of `s` whose key is `k`. */
  function FirstIndex<T, K(==)>(s: seq<T>, k: K, key: T -> K): (i: nat)
    requires HasKey(s, k, key)
    ensures i < |s| && key(s[i]) == k
    ensures forall j :: 0 <= j < i ==> key(s[j]) != k
    decreases |s|
  {
    if key(s[0]) == k then 0
    else
      assert HasKey(s[1..], k, key) by {
        var w :| 0 <= w < |s| && key(s[w]) == k;
        assert key(s[1..][w - 1]) == k;
      }
      1 + FirstIndex(s[1..], k, key)
  }

  /** The first element of each key, in the order those first elements
      appear in `s`. */
  function DedupBy<T, K(==)>(s: seq<T>, key: T -> K): (r: seq<T>)
    ensures |r| <= |s|
    ensures forall x :: x in r ==> x in s
    decreases |s|
  {
    if |s| == 0 then []
    else
      var d := DedupBy(s[..|s| - 1], key);
      if HasKey(d, key(s[|s| - 1]), key) then d else d + [s[|s| - 1]]
  }

  /** FirstIndex over a prefix agrees with FirstIndex over the whole. */
  lemma FirstIndexPrefix<T, K>(s: seq<T>, n: nat, k: K, key: T -> K)
    requires n <= |s| && HasKey(s[..n], k, key)
    ensures HasKey(s, k, key) && FirstIndex(s, k, key) == FirstIndex(s[..n], k, key)
  {
    var f := FirstIndex(s[..n], k, key);
    assert key(s[..n][f]) == k;
    forall j | 0 <= j < f ensures key(s[j]) != k {
      assert s[j] == s[..n][j];
    }
    FirstIndexAt(s, k, key, f);
  }

  /** An index holding `k` with no `k` before it is the first index. */
  lemma FirstIndexAt<T, K>(s: seq<T>, k: K, key: T -> K, f: nat)
    requires f < |s| && key(s[f]) == k
    requires forall j :: 0 <= j < f ==> key(s[j]) != k
    ensures HasKey(s, k, key) && FirstIndex(s, k, key) == f
  {
  }

  /** The result holds exactly the keys of the input. */
  lemma {:induction false} DedupKeys<T, K>(s: seq<T>, key: T -> K, k: K)
    ensures HasKey(DedupBy(s, key), k, key) <==> HasKey(s, k, key)
    decreases |s|
  {
    if |s| > 0 {
      var p, x := s[..|s| - 1], s[|s| - 1];
      var d := DedupBy(p, key);
      DedupKeys(p, key, k);
      DedupKeys(p, key, key(x));
      if HasKey(p, k, key) {
        var w :| 0 <= w < |p| && key(p[w]) == k;
        assert key(s[w]) == k;
      }
      if HasKey(s, k, key) && !HasKey(p, k, key) {
        var w :| 0 <= w < |s| && key(s[w]) == k;
        assert w == |p|;
      }
      if !HasKey(d, key(x), key) {
        var r := d + [x];
        if HasKey(d, k, key) {
          var w :| 0 <= w < |d| && key(d[w]) == k;
          assert key(r[w]) == k;
        }
        if HasKey(r, k, key) && k != key(x) {
          var w :| 0 <= w < |r| && key(r[w]) == k;
          assert key(d[w]) == k;
        }
        assert key(r[|d|]) == key(x);
      }
    }
  }

  /** No two elements of the result share a key. */
  lemma {:induction false} DedupUnique<T, K>(s: seq<T>, key: T -> K)
    ensures UniqueKeys(DedupBy(s, key), key)
    decreases |s|
  {
    if |s| > 0 {
      var p, x := s[..|s| - 1], s[|s| - 1];
      DedupUnique(p, key);
      var d := DedupBy(p, key);
      if !HasKey(d, key(x), key) {
        var r := d + [x];
        forall i, j | 0 <= i < j < |r| ensures key(r[i]) != key(r[j]) {
          if j == |d| {
            assert r[i] == d[i];
          } else {
            assert r[i] == d[i] && r[j] == d[j];
          }
        }
      }
    }
  }

  /** Each element of `r` is the first element of `s` with its key. */
  ghost predicate FirstsOf<T, K>(s: seq<T>, r: seq<T>, key: T -> K) {
    forall i :: 0 <= i < |r| ==>
      HasKey(s, key(r[i]), key) && r[i] == s[FirstIndex(s, key(r[i]), key)]
  }

  /** The elements of `r` come in the order of their keys' first
      occurrences in `s`. */
  predicate InFirstOrder<T, K(==)>(s: seq<T>, r: seq<T>, key: T -> K) {
    forall i, j :: 0 <= i < j < |r| ==>
      HasKey(s, key(r[i]), key) && HasKey(s, key(r[j]), key) &&
      FirstIndex(s, key(r[i]), key) < FirstIndex(s, key(r[j]), key)
  }

  /** Each element of the result is the first element of the input with its
      key, and the result lists them in the order of those first
      occurrences. */
  lemma {:induction false} DedupKeepsFirst<T, K>(s: seq<T>, key: T -> K)
    ensures FirstsOf(s, DedupBy(s, key), key) && InFirstOrder(s, DedupBy(s, key), key)
    decreases |s|
  {
    if |s| > 0 {
      var p, x := s[..|s| - 1], s[|s| - 1];
      assert s == p + [x];
      DedupKeepsFirst(p, key);
      var d := DedupBy(p, key);
      FirstsExtend(p, x, d, key);
      if !HasKey(d, key(x), key) {
        DedupKeys(p, key, key(x));
        NewKeyKeptLast(p, x, d, key);
      }
    }
  }

  /** Appending to the input keeps the facts about elements already kept:
      their first occurrences all lie before the appended element. */
  lemma FirstsExtend<T, K>(p: seq<T>, x: T, d: seq<T>, key: T -> K)
    requires FirstsOf(p, d, key) && InFirstOrder(p, d, key)
    ensures FirstsOf(p + [x], d, key) && InFirstOrder(p + [x], d, key)
    ensures forall i :: 0 <= i < |d| ==>
      HasKey(p + [x], key(d[i]), key) && FirstIndex(p + [x], key(d[i]), key) < |p|
  {
    var s := p + [x];
    assert s[..|p|] == p;
    forall i | 0 <= i < |d|
      ensures HasKey(s, key(d[i]), key) && FirstIndex(s, key(d[i]), key) == FirstIndex(p, key(d[i]), key) < |p|
    {
      FirstIndexPrefix(s, |p|, key(d[i]), key);
    }
  }

  /** An element whose key the prefix lacks is its key's first occurrence,
      after every element kept so far. */
  lemma NewKeyKeptLast<T, K>(p: seq<T>, x: T, d: seq<T>, key: T -> K)
    requires !HasKey(p, key(x), key)
    requires FirstsOf(p + [x], d, key) && InFirstOrder(p + [x], d, key)
    requires forall i :: 0 <= i < |d| ==>
      HasKey(p + [x], key(d[i]), key) && FirstIndex(p + [x], key(d[i]), key) < |p|
    ensures FirstsOf(p + [x], d + [x], key) && InFirstOrder(p + [x], d + [x], key)
  {
    NewKeyFirstAtEnd(p, x, key);
    NewKeyFirsts(p + [x], d, x, key);
    NewKeyOrder(p + [x], d, x, key);
  }

  lemma NewKeyFirstAtEnd<T, K>(p: seq<T>, x: T, key: T -> K)
    requires !HasKey(p, key(x), key)
    ensures HasKey(p + [x], key(x), key) && FirstIndex(p + [x], key(x), key) == |p|
  {
    var s := p + [x];
    forall w | 0 <= w < |p| ensures key(s[w]) != key(x) {
      assert s[w] == p[w];
    }
    assert key(s[|p|]) == key(x);
    FirstIndexAt(s, key(x), key, |p|);
  }

  lemma NewKeyFirsts<T, K>(s: seq<T>, d: seq<T>, x: T, key: T -> K)
    requires |s| > 0 && s[|s| - 1] == x
    requires HasKey(s, key(x), key) && FirstIndex(s, key(x), key) == |s| - 1
    requires FirstsOf(s, d, key)
    ensures FirstsOf(s, d + [x], key)
  {
    var r := d + [x];
    forall i | 0 <= i < |r|
      ensures HasKey(s, key(r[i]), key) && r[i] == s[FirstIndex(s, key(r[i]), key)]
    {
      if i < |d| { assert r[i] == d[i]; }
    }
  }

  lemma NewKeyOrder<T, K>(s: seq<T>, d: seq<T>, x: T, key: T -> K)
    requires HasKey(s, key(x), key) && FirstIndex(s, key(x), key) == |s| - 1
    requires InFirstOrder(s, d, key)
    requires forall i :: 0 <= i < |d| ==>
      HasKey(s, key(d[i]), key) && FirstIndex(s, key(d[i]), key) < |s| - 1
    ensures InFirstOrder(s, d + [x], key)
  {
    var r := d + [x];
    forall i, j | 0 <= i < j < |r|
      ensures HasKey(s, key(r[i]), key) && HasKey(s, key(r[j]), key) &&
              FirstIndex(s, key(r[i]), key) < FirstIndex(s, key(r[j]), key)
    {
      assert r[i] == d[i];
      if j < |d| { assert r[j] == d[j]; }
    }
  }

  /** De-duplicating a sequence whose keys are already unique changes
      nothing. */
  lemma {:induction false} DedupOfUnique<T, K>(s: seq<T>, key: T -> K)
    requires UniqueKeys(s, key)
    ensures DedupBy(s, key) == s
    decreases |s|
  {
    if |s| > 0 {
      var p, x := s[..|s| - 1], s[|s| - 1];
      assert UniqueKeys(p, key) by {
        forall i, j | 0 <= i < j < |p| ensures key(p[i]) != key(p[j]) {
          assert p[i] == s[i] && p[j] == s[j];
        }
      }
      DedupOfUnique(p, key);
      assert !HasKey(p, key(x), key) by {
        forall w | 0 <= w < |p| ensures key(p[w]) != key(x) {
          assert p[w] == s[w];
        }
      }
      assert p + [x] == s;
    }
  }

  /** A second de-duplication pass on the same key is a no-op. */
  lemma DedupIdempotent<T, K>(s: seq<T>, key: T -> K)
    ensures DedupBy(DedupBy(s, key), key) == DedupBy(s, key)
  {
    DedupUnique(s, key);
    DedupOfUnique(DedupBy(s, key), key);
  }

  /** [f(x) for x in s]. */
  function Project<T, U>(s: seq<T>, f: T -> U): (r: seq<U>)
    ensures |r| == |s| && forall i :: 0 <= i < |s| ==> r[i] == f(s[i])
  {
    seq(|s|, i requires 0 <= i < |s| => f(s[i]))
  }

  function Identity<U>(u: U): U { u }

  lemma ProjectSnoc<T, U>(s: seq<T>, x: T, f: T -> U)
    ensures Project(s + [x], f) == Project(s, f) + [f(x)]
  {
  }

  lemma DedupSnoc<T, K>(s: seq<T>, x: T, key: T -> K)
    ensures DedupBy(s + [x], key) ==
      if HasKey(DedupBy(s, key), key(x), key) then DedupBy(s, key) else DedupBy(s, key) + [x]
  {
    assert (s + [x])[..|s|] == s;
  }

  /** Some element of a finer de-duplication has coarse key `k` exactly when
      some element of the input has. */
  lemma CoarseKeySurvives<T, K, C>(s: seq<T>, fine: T -> K, coarse: T -> C, of: K -> C, k: C)
    requires forall x :: coarse(x) == of(fine(x))
    ensures HasKey(DedupBy(s, fine), k, coarse) <==> HasKey(s, k, coarse)
  {
    var d := DedupBy(s, fine);
    if HasKey(d, k, coarse) {
      var w :| 0 <= w < |d| && coarse(d[w]) == k;
      assert d[w] in s;
      var v :| 0 <= v < |s| && s[v] == d[w];
    }
    if HasKey(s, k, coarse) {
      var v :| 0 <= v < |s| && coarse(s[v]) == k;
      DedupKeys(s, fine, fine(s[v]));
      var w :| 0 <= w < |d| && fine(d[w]) == fine(s[v]);
      assert coarse(d[w]) == k;
    }
  }

  /** A projection holds `c` exactly when some element projects to `c`. */
  lemma ProjectedKey<T, C>(s: seq<T>, f: T -> C, c: C)
    ensures HasKey(Project(s, f), c, Identity) <==> HasKey(s, c, f)
  {
    if HasKey(s, c, f) {
      var w :| 0 <= w < |s| && f(s[w]) == c;
      assert Identity(Project(s, f)[w]) == c;
    }
  }

  /** Both sides of the two-pass equation hold the same coarse keys. */
  lemma TwoPassKeys<T, K, C>(s: seq<T>, fine: T -> K, coarse: T -> C, of: K -> C, c: C)
    requires forall x :: coarse(x) == of(fine(x))
    ensures HasKey(DedupBy(Project(DedupBy(s, fine), coarse), Identity), c, Identity) <==>
            HasKey(DedupBy(s, coarse), c, coarse)
  {
    var df := DedupBy(s, fine);
    DedupKeys(Project(df, coarse), Identity, c);
    ProjectedKey(df, coarse, c);
    CoarseKeySurvives(s, fine, coarse, of, c);
    DedupKeys(s, coarse, c);
  }

  /** An element whose fine key is already kept has its coarse key kept too. */
  lemma FineKeptCoarseKept<T, K, C>(s: seq<T>, x: T, fine: T -> K, coarse: T -> C, of: K -> C)
    requires forall y :: coarse(y) == of(fine(y))
    requires HasKey(DedupBy(s, fine), fine(x), fine)
    ensures HasKey(DedupBy(s, coarse), coarse(x), coarse)
  {
    var df := DedupBy(s, fine);
    var w :| 0 <= w < |df| && fine(df[w]) == fine(x);
    assert df[w] in s;
    var v :| 0 <= v < |s| && s[v] == df[w];
    assert coarse(s[v]) == coarse(x);
    CoarseKeySurvives(s, fine, coarse, of, coarse(x));
    DedupKeys(s, coarse, coarse(x));
  }

  /** De-duplicating on a finer key, projecting, then de-duplicating the
      projections is the same as projecting the de-duplication on the
      projection itself. */
  lemma {:induction false} TwoPassDedup<T, K, C>(s: seq<T>, fine: T -> K, coarse: T -> C, of: K -> C)
    requires forall x :: coarse(x) == of(fine(x))
    ensures DedupBy(Project(DedupBy(s, fine), coarse), Identity) == Project(DedupBy(s, coarse), coarse)
    decreases |s|
  {
    if |s| > 0 {
      var p, x := s[..|s| - 1], s[|s| - 1];
      assert s == p + [x];
      TwoPassDedup(p, fine, coarse, of);
      var df := DedupBy(p, fine);
      var dc := DedupBy(p, coarse);
      DedupSnoc(p, x, fine);
      DedupSnoc(p, x, coarse);
      if HasKey(df, fine(x), fine) {
        FineKeptCoarseKept(p, x, fine, coarse, of);
      } else {
        TwoPassKeys(p, fine, coarse, of, coarse(x));
        ProjectSnoc(df, x, coarse);
        DedupSnoc(Project(df, coarse), coarse(x), Identity);
        if !HasKey(dc, coarse(x), coarse) {
          ProjectSnoc(dc, x, coarse);
        }
      }
    }
  }
}
