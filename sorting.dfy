/** Python's `list.sort(key=...)` as used by the booking agent: a stable sort
    on a key that compares lexicographically (a capacity, or a (date, capacity)
    pair). The built-in sort is outside this model; it is stated here by its
    specification, a stable insertion sort, and proved to sort, to permute and
    to keep the original order among equal keys. */
module Sorting {

  /** A sort key: compared on `major` first, then on `minor`. */
  datatype Key = Key(major: int, minor: int)

  predicate KeyLe(a: Key, b: Key)
  {
    a.major < b.major || (a.major == b.major && a.minor <= b.minor)
  }

  predicate SortedBy<T>(s: seq<T>, key: T -> Key)
  {
    forall i, j :: 0 <= i < j < |s| ==> KeyLe(key(s[i]), key(s[j]))
  }

  /** Inserts `x` after every element whose key is not greater than its own. */
  function InsertStable<T>(s: seq<T>, x: T, key: T -> Key): (r: seq<T>)
    ensures |r| == |s| + 1
    decreases |s|
  {
    if s == [] || KeyLe(key(s[|s| - 1]), key(x)) then s + [x]
    else InsertStable(s[..|s| - 1], x, key) + [s[|s| - 1]]
  }

  /** The list `s` after `s.sort(key=key)`. */
  function SortBy<T>(s: seq<T>, key: T -> Key): (r: seq<T>)
    ensures |r| == |s|
    decreases |s|
  {
    if s == [] then [] else InsertStable(SortBy(s[..|s| - 1], key), s[|s| - 1], key)
  }

  /** The elements of `s` whose key is `k`, in their order in `s`. */
  function WithKey<T>(s: seq<T>, key: T -> Key, k: Key): (r: seq<T>)
    decreases |s|
  {
    if s == [] then []
    else WithKey(s[..|s| - 1], key, k) + (if key(s[|s| - 1]) == k then [s[|s| - 1]] else [])
  }

  lemma {:induction false} InsertStablePermutes<T>(s: seq<T>, x: T, key: T -> Key)
    ensures multiset(InsertStable(s, x, key)) == multiset(s) + multiset{x}
    decreases |s|
  {
    if s == [] || KeyLe(key(s[|s| - 1]), key(x)) {
    } else {
      var init, last := s[..|s| - 1], s[|s| - 1];
      InsertStablePermutes(init, x, key);
      assert s == init + [last];
    }
  }

  lemma {:induction false} InsertStableSorted<T>(s: seq<T>, x: T, key: T -> Key)
    requires SortedBy(s, key)
    ensures SortedBy(InsertStable(s, x, key), key)
    decreases |s|
  {
    var r := InsertStable(s, x, key);
    if s == [] || KeyLe(key(s[|s| - 1]), key(x)) {
      forall i, j | 0 <= i < j < |r| ensures KeyLe(key(r[i]), key(r[j])) {
        if j == |s| && i < |s| {
          assert KeyLe(key(s[i]), key(s[|s| - 1]));
        }
      }
    } else {
      var init, last := s[..|s| - 1], s[|s| - 1];
      var r' := InsertStable(init, x, key);
      InsertStableSorted(init, x, key);
      InsertStablePermutes(init, x, key);
      forall i, j | 0 <= i < j < |r| ensures KeyLe(key(r[i]), key(r[j])) {
        if j == |r| - 1 {
          // every element of r' is x or an element of init, none above `last`
          assert r[i] in multiset(r') by { assert r[i] == r'[i]; }
          if r[i] == x {
          } else {
            assert r[i] in multiset(init);
            var k :| 0 <= k < |init| && init[k] == r[i];
            assert KeyLe(key(s[k]), key(s[|s| - 1]));
          }
        } else {
          assert r[i] == r'[i] && r[j] == r'[j];
        }
      }
    }
  }

  /** Keys of the result are non-decreasing. */
  lemma {:induction false} SortBySorted<T>(s: seq<T>, key: T -> Key)
    ensures SortedBy(SortBy(s, key), key)
    decreases |s|
  {
    if s != [] {
      SortBySorted(s[..|s| - 1], key);
      InsertStableSorted(SortBy(s[..|s| - 1], key), s[|s| - 1], key);
    }
  }

  /** The result is a permutation of the input. */
  lemma {:induction false} SortByPermutes<T>(s: seq<T>, key: T -> Key)
    ensures multiset(SortBy(s, key)) == multiset(s)
    ensures |SortBy(s, key)| == |s|
    decreases |s|
  {
    if s != [] {
      var init, last := s[..|s| - 1], s[|s| - 1];
      SortByPermutes(init, key);
      InsertStablePermutes(SortBy(init, key), last, key);
      assert s == init + [last];
    }
  }

  lemma {:induction false} WithKeyAppend<T>(a: seq<T>, b: seq<T>, key: T -> Key, k: Key)
    ensures WithKey(a + b, key, k) == WithKey(a, key, k) + WithKey(b, key, k)
    decreases |b|
  {
    if b == [] {
      assert a + b == a;
    } else {
      var init, last := b[..|b| - 1], b[|b| - 1];
      assert a + b == (a + init) + [last];
      assert (a + b)[..|a + b| - 1] == a + init;
      WithKeyAppend(a, init, key, k);
    }
  }

  lemma {:induction false} InsertStableKeepsKeyOrder<T>(s: seq<T>, x: T, key: T -> Key, k: Key)
    ensures WithKey(InsertStable(s, x, key), key, k)
         == WithKey(s, key, k) + (if key(x) == k then [x] else [])
    decreases |s|
  {
    if s == [] || KeyLe(key(s[|s| - 1]), key(x)) {
      WithKeyAppend(s, [x], key, k);
      assert WithKey([x], key, k) == WithKey([], key, k) + (if key(x) == k then [x] else []) by {
        assert [x][..0] == [];
      }
    } else {
      var init, last := s[..|s| - 1], s[|s| - 1];
      InsertStableKeepsKeyOrder(init, x, key, k);
      var r' := InsertStable(init, x, key);
      assert (r' + [last])[..|r' + [last]| - 1] == r';
      assert s == init + [last];
      // `last` has a strictly larger key than `x`, so at most one of them has key `k`
      assert key(last) != key(x);
    }
  }

  /** Stability: elements with equal keys keep their relative order. */
  lemma {:induction false} SortByStable<T>(s: seq<T>, key: T -> Key, k: Key)
    ensures WithKey(SortBy(s, key), key, k) == WithKey(s, key, k)
    decreases |s|
  {
    if s != [] {
      var init, last := s[..|s| - 1], s[|s| - 1];
      SortByStable(init, key, k);
      InsertStableKeepsKeyOrder(SortBy(init, key), last, key, k);
    }
  }

  /** An element is in the sorted list iff it is in the input. */
  lemma SortByMembers<T>(s: seq<T>, key: T -> Key)
    ensures forall x :: x in SortBy(s, key) <==> x in s
  {
    SortByPermutes(s, key);
    forall x ensures x in SortBy(s, key) <==> x in s {
      assert x in multiset(SortBy(s, key)) <==> x in multiset(s);
    }
  }

  /** The first element of the sorted list has a least key. */
  lemma SortByFirstIsLeast<T>(s: seq<T>, key: T -> Key, x: T)
    requires x in s
    ensures SortBy(s, key) != []
    ensures KeyLe(key(SortBy(s, key)[0]), key(x))
  {
    var r := SortBy(s, key);
    SortByMembers(s, key);
    SortBySorted(s, key);
    var j :| 0 <= j < |r| && r[j] == x;
    if j == 0 {
    } else {
      assert KeyLe(key(r[0]), key(r[j]));
    }
  }

  /** A list that is already in key order is left as it is. */
  lemma {:induction false} SortBySortedIsIdentity<T>(s: seq<T>, key: T -> Key)
    requires SortedBy(s, key)
    ensures SortBy(s, key) == s
    decreases |s|
  {
    if s != [] {
      var init, last := s[..|s| - 1], s[|s| - 1];
      assert SortedBy(init, key) by {
        forall i, j | 0 <= i < j < |init| ensures KeyLe(key(init[i]), key(init[j])) {
          assert init[i] == s[i] && init[j] == s[j];
        }
      }
      SortBySortedIsIdentity(init, key);
      if init != [] {
        assert KeyLe(key(s[|s| - 2]), key(s[|s| - 1]));
      }
      assert s == init + [last];
    }
  }

  /** Inserting by a finer key that orders every element already in the
      list against `x` the same way as `key` does changes nothing. */
  lemma {:induction false} InsertStableFinerKey<T>(s: seq<T>, x: T, key: T -> Key, finer: T -> Key)
    requires forall y :: y in s ==> (KeyLe(key(y), key(x)) <==> KeyLe(finer(y), finer(x)))
    ensures InsertStable(s, x, key) == InsertStable(s, x, finer)
    decreases |s|
  {
    if s != [] {
      var init, last := s[..|s| - 1], s[|s| - 1];
      assert last in s;
      if !KeyLe(key(last), key(x)) {
        forall y | y in init ensures KeyLe(key(y), key(x)) <==> KeyLe(finer(y), finer(x)) {
          var i :| 0 <= i < |init| && init[i] == y;
          assert s[i] == y;
        }
        InsertStableFinerKey(init, x, key, finer);
      }
    }
  }

  /** Breaking the ties of `key` in favour of the element that comes first
      does not change the stable sort: sorting by `key` is sorting by `finer`. */
  lemma {:induction false} SortByFinerKey<T>(s: seq<T>, key: T -> Key, finer: T -> Key)
    requires forall i, j :: 0 <= i < j < |s| ==> (KeyLe(key(s[i]), key(s[j])) <==> KeyLe(finer(s[i]), finer(s[j])))
    ensures SortBy(s, key) == SortBy(s, finer)
    decreases |s|
  {
    if s != [] {
      var init, last := s[..|s| - 1], s[|s| - 1];
      forall i, j | 0 <= i < j < |init|
        ensures KeyLe(key(init[i]), key(init[j])) <==> KeyLe(finer(init[i]), finer(init[j]))
      {
        assert init[i] == s[i] && init[j] == s[j];
      }
      SortByFinerKey(init, key, finer);
      var u := SortBy(init, key);
      forall y | y in u ensures KeyLe(key(y), key(last)) <==> KeyLe(finer(y), finer(last)) {
        SortByPermutes(init, key);
        assert y in multiset(u);
        assert y in multiset(init);
        var i :| 0 <= i < |init| && init[i] == y;
        assert s[i] == y;
      }
      InsertStableFinerKey(u, last, key, finer);
    }
  }

  /** Appending an element whose key bounds every key of a sorted list keeps it sorted. */
  lemma SortedAppend<T>(s: seq<T>, x: T, key: T -> Key)
    requires SortedBy(s, key)
    requires forall y :: y in s ==> KeyLe(key(y), key(x))
    ensures SortedBy(s + [x], key)
  {
    var r := s + [x];
    forall i, j | 0 <= i < j < |r| ensures KeyLe(key(r[i]), key(r[j])) {
      if j == |s| {
        assert r[i] in s;
      } else {
        assert r[i] == s[i] && r[j] == s[j];
      }
    }
  }
}
