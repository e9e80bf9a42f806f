/**
 * Python's `sorted(xs, key=k, reverse=True)`: a stable sort into descending
 * key order, modelled as an insertion sort. Stability is stated as "for every
 * key value, the elements with that key keep their input order", which also
 * makes the result a permutation of the input.
 */
module Sorting {
  import opened Common

  predicate SortedDesc<T>(s: seq<T>, key: T -> int) {
    forall i, j :: 0 <= i < j < |s| ==> key(s[i]) >= key(s[j])
  }

  /** The elements of `s` whose key is `v`, in order. */
  function WithKey<T>(s: seq<T>, key: T -> int, v: int): seq<T>
    decreases |s|
  {
    if s == [] then [] else (if key(s[0]) == v then [s[0]] else []) + WithKey(s[1..], key, v)
  }

  /** Puts `x` after every element whose key is at least its own. */
  function Insert<T>(x: T, s: seq<T>, key: T -> int): (r: seq<T>)
    ensures |r| == |s| + 1
    ensures multiset(r) == multiset(s) + multiset{x}
    decreases |s|
  {
    if s == [] then [x]
    else if key(s[0]) >= key(x) then
      assert s == [s[0]] + s[1..];
      [s[0]] + Insert(x, s[1..], key)
    else [x] + s
  }

  /** `sorted(xs, key=key, reverse=True)` */
  function SortDesc<T>(xs: seq<T>, key: T -> int): (r: seq<T>)
    ensures |r| == |xs|
    decreases |xs|
  {
    if xs == [] then [] else Insert(xs[|xs| - 1], SortDesc(xs[..|xs| - 1], key), key)
  }

  lemma {:induction false} InsertSorted<T>(x: T, s: seq<T>, key: T -> int)
    requires SortedDesc(s, key)
    ensures SortedDesc(Insert(x, s, key), key)
    decreases |s|
  {
    if s != [] && key(s[0]) >= key(x) {
      InsertSorted(x, s[1..], key);
      var r := Insert(x, s, key);
      var t := Insert(x, s[1..], key);
      assert r == [s[0]] + t;
      InsertFirst(x, s[1..], key);
      forall i, j | 0 <= i < j < |r| ensures key(r[i]) >= key(r[j]) {
        if i > 0 {
          assert r[i] == t[i - 1] && r[j] == t[j - 1];
        } else {
          assert r[j] == t[j - 1];
          assert t[j - 1] in t;
        }
      }
    }
  }

  /** Every element of an insertion result is `x` or an element of `s`. */
  lemma InsertFirst<T>(x: T, s: seq<T>, key: T -> int)
    ensures forall y :: y in Insert(x, s, key) ==> y == x || y in s
  {
    var r := Insert(x, s, key);
    forall y | y in r ensures y == x || y in s {
      assert y in multiset(r);
    }
  }

  lemma {:induction false} WithKeyAppend<T>(a: seq<T>, b: seq<T>, key: T -> int, v: int)
    ensures WithKey(a + b, key, v) == WithKey(a, key, v) + WithKey(b, key, v)
    decreases |a|
  {
    if a == [] {
      assert a + b == b;
    } else {
      var ab := a + b;
      TailAppend(a, b);
      WithKeyAppend(a[1..], b, key, v);
      assert WithKey(ab, key, v) == (if key(a[0]) == v then [a[0]] else []) + WithKey(a[1..] + b, key, v);
    }
  }

  /** A descending sequence that starts below `v` holds nothing with key `v`. */
  lemma {:induction false} WithKeyBelow<T>(s: seq<T>, key: T -> int, v: int)
    requires SortedDesc(s, key) && s != [] && key(s[0]) < v
    ensures WithKey(s, key, v) == []
    decreases |s|
  {
    if |s| > 1 {
      assert key(s[1]) <= key(s[0]);
      WithKeyBelow(s[1..], key, v);
    }
  }

  /** Inserting `x` adds it after the elements that share its key. */
  lemma {:induction false} InsertWithKey<T>(x: T, s: seq<T>, key: T -> int, v: int)
    requires SortedDesc(s, key)
    ensures WithKey(Insert(x, s, key), key, v) == WithKey(s, key, v) + (if key(x) == v then [x] else [])
    decreases |s|
  {
    var r := Insert(x, s, key);
    if s == [] {
      assert r == [x];
      assert WithKey(r, key, v) == (if key(x) == v then [x] else []) + WithKey([], key, v);
    } else if key(s[0]) >= key(x) {
      InsertWithKey(x, s[1..], key, v);
      assert r == [s[0]] + Insert(x, s[1..], key);
      assert r[0] == s[0] && r[1..] == Insert(x, s[1..], key);
      assert WithKey(r, key, v) == (if key(s[0]) == v then [s[0]] else []) + WithKey(r[1..], key, v);
      assert WithKey(s, key, v) == (if key(s[0]) == v then [s[0]] else []) + WithKey(s[1..], key, v);
    } else {
      assert r == [x] + s;
      assert r[0] == x && r[1..] == s;
      assert WithKey(r, key, v) == (if key(x) == v then [x] else []) + WithKey(s, key, v);
      if key(x) == v {
        WithKeyBelow(s, key, v);
      }
    }
  }

  /**
   * The sort's result is in descending key order, and the elements of each
   * key keep their input order (stability).
   */
  lemma {:induction false} SortDescCorrect<T>(xs: seq<T>, key: T -> int)
    ensures SortedDesc(SortDesc(xs, key), key)
    ensures forall v :: WithKey(SortDesc(xs, key), key, v) == WithKey(xs, key, v)
    decreases |xs|
  {
    if xs != [] {
      var n := |xs| - 1;
      var prev := SortDesc(xs[..n], key);
      SortDescCorrect(xs[..n], key);
      InsertSorted(xs[n], prev, key);
      forall v ensures WithKey(SortDesc(xs, key), key, v) == WithKey(xs, key, v) {
        SortDescStep(xs, key, v);
      }
    }
  }

  lemma SortDescStep<T>(xs: seq<T>, key: T -> int, v: int)
    requires xs != []
    requires SortedDesc(SortDesc(xs[..|xs| - 1], key), key)
    requires WithKey(SortDesc(xs[..|xs| - 1], key), key, v) == WithKey(xs[..|xs| - 1], key, v)
    ensures WithKey(SortDesc(xs, key), key, v) == WithKey(xs, key, v)
  {
    var n := |xs| - 1;
    var init, x := xs[..n], xs[n];
    var prev := SortDesc(init, key);
    var one := if key(x) == v then [x] else [];
    LastSplit(xs);
    assert [x][1..] == [];
    calc {
      WithKey(SortDesc(xs, key), key, v);
      WithKey(Insert(x, prev, key), key, v);
      { InsertWithKey(x, prev, key, v); }
      WithKey(prev, key, v) + one;
      WithKey(init, key, v) + WithKey([x], key, v);
      { WithKeyAppend(init, [x], key, v); }
      WithKey(init + [x], key, v);
    }
  }

  /** The sort is a permutation of its input. */
  lemma {:induction false} SortDescPermutes<T>(xs: seq<T>, key: T -> int)
    ensures multiset(SortDesc(xs, key)) == multiset(xs)
    decreases |xs|
  {
    if xs != [] {
      var n := |xs| - 1;
      SortDescPermutes(xs[..n], key);
      assert xs == xs[..n] + [xs[n]];
    }
  }

  /** The elements whose key is at least `min`. */
  function AtLeast<T>(key: T -> int, min: int): T -> bool {
    x => key(x) >= min
  }

  /** Appending an element no larger than every element keeps a sequence descending. */
  lemma SortedSnoc<T>(s: seq<T>, x: T, key: T -> int)
    requires SortedDesc(s, key) && forall y :: y in s ==> key(y) >= key(x)
    ensures SortedDesc(s + [x], key)
  {
    var r := s + [x];
    forall i, j | 0 <= i < j < |r| ensures key(r[i]) >= key(r[j]) {
      assert r[i] == s[i];
      if j == |s| {
        assert s[i] in s;
      } else {
        assert r[j] == s[j];
      }
    }
  }

  /** Filtering a descending sequence leaves it descending. */
  lemma {:induction false} FilterSorted<T>(s: seq<T>, key: T -> int, p: T -> bool)
    requires SortedDesc(s, key)
    ensures SortedDesc(Filter(s, p), key)
    decreases |s|
  {
    if s != [] {
      var n := |s| - 1;
      assert SortedDesc(s[..n], key);
      FilterSorted(s[..n], key, p);
      var f := Filter(s[..n], p);
      assert s == s[..n] + [s[n]];
      FilterSnoc(s[..n], s[n], p);
      if p(s[n]) {
        forall y | y in f ensures key(y) >= key(s[n]) {
          var j :| 0 <= j < n && s[..n][j] == y;
          assert key(s[j]) >= key(s[n]);
        }
        SortedSnoc(f, s[n], key);
      } else {
        assert Filter(s, p) == f;
      }
    }
  }

  /**
   * Keeping the elements whose key is at least `min` keeps, for each key
   * value at or above `min`, all its elements in their order, and drops the
   * rest.
   */
  lemma {:induction false} FilterWithKey<T>(s: seq<T>, key: T -> int, min: int, v: int)
    ensures WithKey(Filter(s, AtLeast(key, min)), key, v) == if v >= min then WithKey(s, key, v) else []
    decreases |s|
  {
    if s != [] {
      var n := |s| - 1;
      var p := AtLeast(key, min);
      FilterWithKey(s[..n], key, min, v);
      assert s == s[..n] + [s[n]];
      WithKeyAppend(s[..n], [s[n]], key, v);
      WithKeyAppend(Filter(s[..n], p), if p(s[n]) then [s[n]] else [], key, v);
    }
  }

  /** `s[:n]` */
  function Take<T>(s: seq<T>, n: nat): (r: seq<T>)
    ensures |r| <= n && |r| <= |s|
    ensures |r| == if n < |s| then n else |s|
  {
    if n < |s| then s[..n] else s
  }

  /** The first `n` after sorting are sorted and come from the input. */
  lemma TopSorted<T>(xs: seq<T>, key: T -> int, n: nat)
    ensures SortedDesc(Take(SortDesc(xs, key), n), key)
    ensures forall x :: x in Take(SortDesc(xs, key), n) ==> x in xs
  {
    var sorted := SortDesc(xs, key);
    SortDescCorrect(xs, key);
    SortDescPermutes(xs, key);
    var top := Take(sorted, n);
    forall x | x in top ensures x in xs {
      assert x in multiset(sorted);
    }
  }

  /** No item left out of the first `n` has a larger key than one kept. */
  lemma TopMaximal<T>(xs: seq<T>, key: T -> int, n: nat)
    ensures forall x, y :: x in xs && x !in Take(SortDesc(xs, key), n) && y in Take(SortDesc(xs, key), n) ==> key(y) >= key(x)
  {
    var sorted := SortDesc(xs, key);
    SortDescCorrect(xs, key);
    SortDescPermutes(xs, key);
    var top := Take(sorted, n);
    forall x, y | x in xs && x !in top && y in top ensures key(y) >= key(x) {
      assert x in multiset(sorted);
      var j :| 0 <= j < |sorted| && sorted[j] == x;
      var k :| 0 <= k < |top| && top[k] == y;
      assert sorted[k] == y;
      assert forall i :: 0 <= i < |top| ==> top[i] == sorted[i];
      assert j >= |top|;
    }
  }
}
