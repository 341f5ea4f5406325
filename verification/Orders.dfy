/** Sorted and duplicate-free sequences. */
module Orders {

  ghost predicate StrictlyIncreasing(xs: seq<int>) {
    forall i, j :: 0 <= i < j < |xs| ==> xs[i] < xs[j]
  }

  lemma Pick<T>(s: set<T>) returns (x: T)
    requires s != {}
    ensures x in s
  {
    x :| x in s;
  }

  lemma {:induction false} MinimumExists(s: set<int>)
    requires s != {}
    ensures exists x :: x in s && forall y :: y in s ==> x <= y
    decreases |s|
  {
    var m := Pick(s);
    if y :| y in s && y < m {
      assert y in s - {m};
      MinimumExists(s - {m});
      var x :| x in s - {m} && forall z :: z in s - {m} ==> x <= z;
      assert forall z :: z in s ==> z == m || z in s - {m};
      assert x in s;
    }
  }

  /** The increasing enumeration of `s`. */
  function SortedSet(s: set<int>): (xs: seq<int>)
    ensures StrictlyIncreasing(xs)
    ensures forall x :: x in xs ==> x in s
    ensures forall x :: x in s ==> x in xs
    decreases |s|
  {
    if s == {} then [] else
      MinimumExists(s);
      var m :| m in s && forall x :: x in s ==> m <= x;
      [m] + SortedSet(s - {m})
  }

  /** A set has one increasing enumeration. */
  lemma {:induction false} IncreasingUnique(xs: seq<int>, ys: seq<int>)
    requires StrictlyIncreasing(xs) && StrictlyIncreasing(ys)
    requires forall x :: x in xs ==> x in ys
    requires forall x :: x in ys ==> x in xs
    ensures xs == ys
    decreases |xs|
  {
    assert |xs| > 0 ==> xs[0] in xs && xs[0] in ys;
    assert |ys| > 0 ==> ys[0] in ys && ys[0] in xs;
    if xs != [] {
      var a, b := xs[0], ys[0];
      assert a == b;
      forall x | x in xs[1..] ensures x in ys[1..] {
        assert x in ys && x != b;
      }
      forall x | x in ys[1..] ensures x in xs[1..] {
        assert x in xs && x != a;
      }
      IncreasingUnique(xs[1..], ys[1..]);
    }
  }

  predicate Distinct<T(==)>(xs: seq<T>) {
    forall i, j :: 0 <= i < j < |xs| ==> xs[i] != xs[j]
  }

  lemma {:induction false} DistinctSize<T>(xs: seq<T>)
    requires Distinct(xs)
    ensures |set x | x in xs| == |xs|
  {
    if xs != [] {
      var n := |xs| - 1;
      DistinctSize(xs[..n]);
      assert xs == xs[..n] + [xs[n]];
      assert (set x | x in xs) == (set x | x in xs[..n]) + {xs[n]};
    }
  }

  // ----- Sorting by a key -------------------------------------------------------------------------

  function InsertBy<T>(x: T, sorted: seq<T>, key: T -> real): (r: seq<T>)
    ensures |r| == |sorted| + 1
  {
    if sorted == [] then [x]
    else if key(sorted[|sorted| - 1]) <= key(x) then sorted + [x]
    else InsertBy(x, sorted[..|sorted| - 1], key) + [sorted[|sorted| - 1]]
  }

  /** Python's `sorted(s, key=key)`, which is stable. */
  function SortBy<T>(s: seq<T>, key: T -> real): (r: seq<T>)
    ensures |r| == |s|
  {
    if s == [] then [] else InsertBy(s[|s| - 1], SortBy(s[..|s| - 1], key), key)
  }

  ghost predicate SortedBy<T>(s: seq<T>, key: T -> real) {
    forall i, j :: 0 <= i <= j < |s| ==> key(s[i]) <= key(s[j])
  }

  lemma {:induction false} InsertKeeps<T>(x: T, sorted: seq<T>, key: T -> real, y: T)
    ensures y in InsertBy(x, sorted, key) <==> y == x || y in sorted
  {
    if sorted != [] {
      var n := |sorted| - 1;
      InsertKeeps(x, sorted[..n], key, y);
      assert sorted == sorted[..n] + [sorted[n]];
    }
  }

  lemma {:induction false} InsertSorts<T>(x: T, sorted: seq<T>, key: T -> real)
    requires SortedBy(sorted, key)
    ensures SortedBy(InsertBy(x, sorted, key), key)
  {
    if sorted != [] && key(sorted[|sorted| - 1]) > key(x) {
      var n := |sorted| - 1;
      var rest := InsertBy(x, sorted[..n], key);
      InsertSorts(x, sorted[..n], key);
      forall k | 0 <= k < |rest| ensures key(rest[k]) <= key(sorted[n]) {
        InsertKeeps(x, sorted[..n], key, rest[k]);
        assert rest[k] in rest;
      }
      assert InsertBy(x, sorted, key) == rest + [sorted[n]];
    }
  }

  /** Sorting sorts. */
  lemma {:induction false} SortSorts<T>(s: seq<T>, key: T -> real)
    ensures SortedBy(SortBy(s, key), key)
  {
    if s != [] {
      SortSorts(s[..|s| - 1], key);
      InsertSorts(s[|s| - 1], SortBy(s[..|s| - 1], key), key);
    }
  }

  /** Sorting keeps the elements. */
  lemma {:induction false} SortKeeps<T>(s: seq<T>, key: T -> real, x: T)
    ensures x in SortBy(s, key) <==> x in s
  {
    if s != [] {
      var n := |s| - 1;
      SortKeeps(s[..n], key, x);
      InsertKeeps(s[n], SortBy(s[..n], key), key, x);
      assert s == s[..n] + [s[n]];
    }
  }

  /** Elements with equal keys stand in the order of `rank`. */
  ghost predicate StableBy<T>(s: seq<T>, key: T -> real, rank: T -> nat) {
    forall i, j :: 0 <= i < j < |s| && key(s[i]) == key(s[j]) ==> rank(s[i]) < rank(s[j])
  }

  lemma {:induction false} InsertIsStable<T>(x: T, sorted: seq<T>, key: T -> real, rank: T -> nat)
    requires StableBy(sorted, key, rank) && forall i :: 0 <= i < |sorted| ==> rank(sorted[i]) < rank(x)
    ensures StableBy(InsertBy(x, sorted, key), key, rank)
  {
    if sorted != [] && key(sorted[|sorted| - 1]) > key(x) {
      var n := |sorted| - 1;
      var rest := InsertBy(x, sorted[..n], key);
      InsertIsStable(x, sorted[..n], key, rank);
      forall k | 0 <= k < |rest| && key(rest[k]) == key(sorted[n]) ensures rank(rest[k]) < rank(sorted[n]) {
        InsertKeeps(x, sorted[..n], key, rest[k]);
        assert rest[k] in rest;
        var m :| 0 <= m < n && sorted[..n][m] == rest[k];
        assert sorted[m] == rest[k];
      }
      assert InsertBy(x, sorted, key) == rest + [sorted[n]];
    }
  }

  /** Sorting is stable: what comes in the order of `rank` keeps it among equal keys. */
  lemma {:induction false} SortIsStable<T>(s: seq<T>, key: T -> real, rank: T -> nat)
    requires forall i, j :: 0 <= i < j < |s| ==> rank(s[i]) < rank(s[j])
    ensures StableBy(SortBy(s, key), key, rank)
  {
    if s != [] {
      var n := |s| - 1;
      SortIsStable(s[..n], key, rank);
      forall i | 0 <= i < |SortBy(s[..n], key)| ensures rank(SortBy(s[..n], key)[i]) < rank(s[n]) {
        var y := SortBy(s[..n], key)[i];
        SortKeeps(s[..n], key, y);
        assert y in SortBy(s[..n], key);
        var m :| 0 <= m < n && s[..n][m] == y;
        assert s[m] == y;
      }
      InsertIsStable(s[n], SortBy(s[..n], key), key, rank);
    }
  }
}
