/** Sequence operations the viewers take from the JavaScript library:
    `Array.prototype.sort` with a descending numeric comparator (stable since
    ES2019) and `Array.prototype.filter`. */
module Lists {

  /** Ordered by key, largest first. */
  ghost predicate SortedDesc<T>(s: seq<T>, key: T -> int)
  {
    forall i, j :: 0 <= i < j < |s| ==> key(s[i]) >= key(s[j])
  }

  /** The elements of s whose key is k, in their order in s. */
  function WithKey<T>(s: seq<T>, key: T -> int, k: int): seq<T>
  {
    if s == [] then []
    else (if key(s[0]) == k then [s[0]] else []) + WithKey(s[1..], key, k)
  }

  /** Places x in front of the first element whose key is not larger than its own. */
  function Insert<T>(x: T, s: seq<T>, key: T -> int): seq<T>
  {
    if s == [] || key(s[0]) <= key(x) then [x] + s
    else [s[0]] + Insert(x, s[1..], key)
  }

  /** `s.sort((a, b) => key(b) - key(a))`: a stable sort by descending key. */
  function SortDesc<T>(s: seq<T>, key: T -> int): seq<T>
  {
    if s == [] then [] else Insert(s[0], SortDesc(s[1..], key), key)
  }

  lemma {:induction false} InsertPermutes<T>(x: T, s: seq<T>, key: T -> int)
    ensures |Insert(x, s, key)| == |s| + 1
    ensures multiset(Insert(x, s, key)) == multiset{x} + multiset(s)
  {
    if s != [] && key(s[0]) > key(x) {
      InsertPermutes(x, s[1..], key);
      assert s == [s[0]] + s[1..];
    }
  }

  lemma {:induction false} InsertSorted<T>(x: T, s: seq<T>, key: T -> int)
    requires SortedDesc(s, key)
    ensures SortedDesc(Insert(x, s, key), key)
  {
    if s != [] && key(s[0]) > key(x) {
      InsertSorted(x, s[1..], key);
      InsertPermutes(x, s[1..], key);
      var r := Insert(x, s[1..], key);
      forall y | y in r ensures key(s[0]) >= key(y) {
        assert y in multiset(r);
        assert y == x || y in multiset(s[1..]);
      }
    }
  }

  /** Sorting yields a permutation of its input. */
  lemma {:induction false} SortDescPermutes<T>(s: seq<T>, key: T -> int)
    ensures |SortDesc(s, key)| == |s|
    ensures multiset(SortDesc(s, key)) == multiset(s)
  {
    if s != [] {
      SortDescPermutes(s[1..], key);
      InsertPermutes(s[0], SortDesc(s[1..], key), key);
      assert s == [s[0]] + s[1..];
    }
  }

  /** Sorting yields a sequence ordered by descending key. */
  lemma {:induction false} SortDescSorted<T>(s: seq<T>, key: T -> int)
    ensures SortedDesc(SortDesc(s, key), key)
  {
    if s != [] {
      SortDescSorted(s[1..], key);
      InsertSorted(s[0], SortDesc(s[1..], key), key);
    }
  }

  lemma WithKeyCons<T>(y: T, t: seq<T>, key: T -> int, k: int)
    ensures WithKey([y] + t, key, k) == (if key(y) == k then [y] else []) + WithKey(t, key, k)
  {
    assert ([y] + t)[0] == y;
    assert ([y] + t)[1..] == t;
  }

  lemma {:induction false} InsertWithKey<T>(x: T, s: seq<T>, key: T -> int, k: int)
    ensures WithKey(Insert(x, s, key), key, k)
         == (if key(x) == k then [x] else []) + WithKey(s, key, k)
  {
    if s == [] || key(s[0]) <= key(x) {
      WithKeyCons(x, s, key, k);
    } else {
      var r := Insert(x, s[1..], key);
      InsertWithKey(x, s[1..], key, k);
      WithKeyCons(s[0], r, key, k);
      WithKeyCons(s[0], s[1..], key, k);
      assert [s[0]] + s[1..] == s;
    }
  }

  /** Sorting is stable: elements with equal keys keep their relative order. */
  lemma {:induction false} SortDescStable<T>(s: seq<T>, key: T -> int, k: int)
    ensures WithKey(SortDesc(s, key), key, k) == WithKey(s, key, k)
  {
    if s != [] {
      SortDescStable(s[1..], key, k);
      InsertWithKey(s[0], SortDesc(s[1..], key), key, k);
    }
  }

  /** A sequence that is already ordered is left as it is. */
  lemma {:induction false} SortDescOfSorted<T>(s: seq<T>, key: T -> int)
    requires SortedDesc(s, key)
    ensures SortDesc(s, key) == s
  {
    if s != [] {
      assert SortedDesc(s[1..], key);
      SortDescOfSorted(s[1..], key);
      assert [s[0]] + s[1..] == s;
    }
  }

  /** Sorting twice is sorting once. */
  lemma SortDescIdempotent<T>(s: seq<T>, key: T -> int)
    ensures SortDesc(SortDesc(s, key), key) == SortDesc(s, key)
  {
    SortDescSorted(s, key);
    SortDescOfSorted(SortDesc(s, key), key);
  }

  /** No two elements share a value of g. */
  ghost predicate DistinctBy<T, U>(s: seq<T>, g: T -> U)
  {
    forall i, j :: 0 <= i < j < |s| ==> g(s[i]) != g(s[j])
  }

  lemma {:induction false} InsertDistinct<T, U>(x: T, s: seq<T>, key: T -> int, g: T -> U)
    requires DistinctBy(s, g)
    requires forall y | y in s :: g(y) != g(x)
    ensures DistinctBy(Insert(x, s, key), g)
  {
    if s != [] && key(s[0]) > key(x) {
      InsertDistinct(x, s[1..], key, g);
      InsertPermutes(x, s[1..], key);
      var r := Insert(x, s[1..], key);
      forall y | y in r ensures g(s[0]) != g(y) {
        assert y in multiset(r);
        if y != x {
          assert y in multiset(s[1..]);
          var j :| 0 <= j < |s[1..]| && s[1..][j] == y;
          assert s[j + 1] == y;
        }
      }
    }
  }

  /** Sorting keeps a sequence free of repeated g-values. */
  lemma {:induction false} SortDescDistinct<T, U>(s: seq<T>, key: T -> int, g: T -> U)
    requires DistinctBy(s, g)
    ensures DistinctBy(SortDesc(s, key), g)
  {
    if s != [] {
      assert DistinctBy(s[1..], g);
      SortDescDistinct(s[1..], key, g);
      SortDescPermutes(s[1..], key);
      forall y | y in SortDesc(s[1..], key) ensures g(y) != g(s[0]) {
        assert y in multiset(SortDesc(s[1..], key));
        var j :| 0 <= j < |s[1..]| && s[1..][j] == y;
        assert s[j + 1] == y;
      }
      InsertDistinct(s[0], SortDesc(s[1..], key), key, g);
    }
  }

  /** Strictly increasing in rank: the order the elements were first met in. */
  ghost predicate Increasing<T>(s: seq<T>, rank: T -> int)
  {
    forall i, j :: 0 <= i < j < |s| ==> rank(s[i]) < rank(s[j])
  }

  /** Elements with equal keys appear in increasing rank. */
  ghost predicate TiesOrdered<T>(s: seq<T>, key: T -> int, rank: T -> int)
  {
    forall i, j :: 0 <= i < j < |s| && key(s[i]) == key(s[j]) ==> rank(s[i]) < rank(s[j])
  }

  lemma ConsTiesOrdered<T>(x: T, s: seq<T>, key: T -> int, rank: T -> int)
    requires TiesOrdered(s, key, rank)
    requires forall y | y in s && key(y) == key(x) :: rank(x) < rank(y)
    ensures TiesOrdered([x] + s, key, rank)
  {
    var r := [x] + s;
    forall i, j | 0 <= i < j < |r| && key(r[i]) == key(r[j]) ensures rank(r[i]) < rank(r[j]) {
      assert r[j] == s[j - 1];
      if i > 0 {
        assert r[i] == s[i - 1];
      }
    }
  }

  lemma {:induction false} InsertTiesOrdered<T>(x: T, s: seq<T>, key: T -> int, rank: T -> int)
    requires TiesOrdered(s, key, rank)
    requires forall y | y in s :: rank(x) < rank(y)
    ensures TiesOrdered(Insert(x, s, key), key, rank)
  {
    if s == [] || key(s[0]) <= key(x) {
      ConsTiesOrdered(x, s, key, rank);
    } else {
      assert TiesOrdered(s[1..], key, rank) by {
        forall i, j | 0 <= i < j < |s[1..]| ensures s[1..][i] == s[i + 1] && s[1..][j] == s[j + 1] { }
      }
      InsertTiesOrdered(x, s[1..], key, rank);
      InsertPermutes(x, s[1..], key);
      var t := Insert(x, s[1..], key);
      forall y | y in t && key(y) == key(s[0]) ensures rank(s[0]) < rank(y) {
        assert y in multiset(t);
        if y != x {
          assert y in multiset(s[1..]);
          var k :| 0 <= k < |s[1..]| && s[1..][k] == y;
          assert s[k + 1] == y;
        }
      }
      ConsTiesOrdered(s[0], t, key, rank);
    }
  }

  /** Sorting a sequence listed in increasing rank leaves every group of equal keys
      in increasing rank: ties keep the order of the input. */
  lemma {:induction false} SortDescTiesOrdered<T>(s: seq<T>, key: T -> int, rank: T -> int)
    requires Increasing(s, rank)
    ensures TiesOrdered(SortDesc(s, key), key, rank)
  {
    if s != [] {
      assert Increasing(s[1..], rank) by {
        forall i, j | 0 <= i < j < |s[1..]| ensures s[1..][i] == s[i + 1] && s[1..][j] == s[j + 1] { }
      }
      SortDescTiesOrdered(s[1..], key, rank);
      SortDescPermutes(s[1..], key);
      forall y | y in SortDesc(s[1..], key) ensures rank(s[0]) < rank(y) {
        assert y in multiset(SortDesc(s[1..], key));
        var j :| 0 <= j < |s[1..]| && s[1..][j] == y;
        assert s[j + 1] == y;
      }
      InsertTiesOrdered(s[0], SortDesc(s[1..], key), key, rank);
    }
  }

  /** r is s with some elements left out, the rest in their order. */
  predicate IsSubsequence<T(==)>(r: seq<T>, s: seq<T>)
    decreases |s|
  {
    r == [] || (s != [] && |r| <= |s| &&
      ((r[0] == s[0] && IsSubsequence(r[1..], s[1..])) || IsSubsequence(r, s[1..])))
  }

  /** `s.filter(p)`. */
  function Filter<T>(s: seq<T>, p: T -> bool): (r: seq<T>)
    ensures |r| <= |s|
    ensures forall i | 0 <= i < |r| :: p(r[i])
  {
    if s == [] then []
    else
      var rest := Filter(s[1..], p);
      if p(s[0]) then [s[0]] + rest else rest
  }

  /** The filtered sequence keeps, in order and with their multiplicities, exactly
      the elements that pass the test. */
  lemma {:induction false} FilterKeeps<T(!new)>(s: seq<T>, p: T -> bool)
    ensures IsSubsequence(Filter(s, p), s)
    ensures forall x :: multiset(Filter(s, p))[x] == if p(x) then multiset(s)[x] else 0
  {
    if s != [] {
      FilterKeeps(s[1..], p);
      var rest := Filter(s[1..], p);
      assert s == [s[0]] + s[1..];
      if p(s[0]) {
        assert ([s[0]] + rest)[1..] == rest;
      }
    }
  }

  /** Every element the filter keeps is an element of the input. */
  lemma {:induction false} FilterIn<T>(s: seq<T>, p: T -> bool, x: T)
    requires x in Filter(s, p)
    ensures x in s
  {
    if x != s[0] {
      FilterIn(s[1..], p, x);
    }
  }

  /** Filtering a concatenation filters each part. */
  lemma {:induction false} FilterAppend<T>(s: seq<T>, t: seq<T>, p: T -> bool)
    ensures Filter(s + t, p) == Filter(s, p) + Filter(t, p)
  {
    if s == [] {
      assert s + t == t;
    } else {
      FilterAppend(s[1..], t, p);
      assert (s + t)[0] == s[0];
      assert (s + t)[1..] == s[1..] + t;
    }
  }

  /** Filtering a sequence extended by one element. */
  lemma FilterSnoc<T>(s: seq<T>, x: T, p: T -> bool)
    ensures Filter(s + [x], p) == Filter(s, p) + (if p(x) then [x] else [])
  {
    FilterAppend(s, [x], p);
    assert [x][1..] == [];
  }

  /** Two tests that agree on every element filter alike. */
  lemma {:induction false} FilterExtensional<T>(s: seq<T>, p: T -> bool, q: T -> bool)
    requires forall x | x in s :: p(x) == q(x)
    ensures Filter(s, p) == Filter(s, q)
  {
    if s != [] {
      FilterExtensional(s[1..], p, q);
    }
  }

  /** Filtering sequences that are permutations of each other keeps equally many elements. */
  lemma FilterCountPermutation<T(!new)>(a: seq<T>, b: seq<T>, p: T -> bool)
    requires multiset(a) == multiset(b)
    ensures |Filter(a, p)| == |Filter(b, p)|
  {
    FilterKeeps(a, p);
    FilterKeeps(b, p);
    assert multiset(Filter(a, p)) == multiset(Filter(b, p));
  }

  lemma {:induction false} FilterLengthAppend<T>(s: seq<T>, t: seq<T>, p: T -> bool)
    ensures |Filter(s + t, p)| == |Filter(s, p)| + |Filter(t, p)|
  {
    FilterAppend(s, t, p);
  }
}
