/**
 * Python's `list.sort(key=..., reverse=True)`: a stable sort into
 * non-increasing key order. Stability is what makes the result unique:
 * elements with equal keys keep their input order. The source calls the
 * library sort in three places (the weighted reranker, the embedding
 * reranker and the keyword scan); all three are modelled by `SortDesc`.
 */
module Sorting {
  import opened Candidates

  /** Every element's key is at least that of every later element. */
  ghost predicate Descending<T>(s: seq<T>, key: T -> real) {
    forall i, j :: 0 <= i < j < |s| ==> key(s[i]) >= key(s[j])
  }

  /** The elements of `s` whose key is `k`, in their order in `s`. */
  function WithKey<T>(s: seq<T>, key: T -> real, k: real): seq<T>
    decreases |s|
  {
    if s == [] then []
    else (if key(s[0]) == k then [s[0]] else []) + WithKey(s[1..], key, k)
  }

  lemma {:induction false} WithKeyAppend<T>(a: seq<T>, b: seq<T>, key: T -> real, k: real)
    ensures WithKey(a + b, key, k) == WithKey(a, key, k) + WithKey(b, key, k)
    decreases |a|
  {
    if a != [] {
      assert (a + b)[1..] == a[1..] + b;
      WithKeyAppend(a[1..], b, key, k);
    } else {
      assert a + b == b;
    }
  }

  lemma {:induction false} WithKeyNone<T>(s: seq<T>, key: T -> real, k: real)
    requires forall i :: 0 <= i < |s| ==> key(s[i]) < k
    ensures WithKey(s, key, k) == []
    decreases |s|
  {
    if s != [] {
      WithKeyNone(s[1..], key, k);
    }
  }

  /**
   * Inserts `x` after every element whose key is at least `key(x)`: the step
   * of a stable insertion sort.
   */
  function InsertDesc<T>(s: seq<T>, x: T, key: T -> real): (r: seq<T>)
    ensures |r| == |s| + 1
    decreases |s|
  {
    if s == [] then [x]
    else if key(s[0]) >= key(x) then [s[0]] + InsertDesc(s[1..], x, key)
    else [x] + s
  }

  /** Inserting adds `x` and keeps every other element. */
  lemma {:induction false} InsertPermutes<T>(s: seq<T>, x: T, key: T -> real)
    ensures multiset(InsertDesc(s, x, key)) == multiset(s) + multiset{x}
    decreases |s|
  {
    if s != [] {
      assert s == [s[0]] + s[1..];
      if key(s[0]) >= key(x) {
        InsertPermutes(s[1..], x, key);
      }
    }
  }

  /** Every key of the inserted sequence is bounded by `b` when those of `s` and `x` are. */
  lemma {:induction false} InsertBound<T>(s: seq<T>, x: T, key: T -> real, b: real)
    requires forall i :: 0 <= i < |s| ==> key(s[i]) <= b
    requires key(x) <= b
    ensures forall i :: 0 <= i < |s| + 1 ==> key(InsertDesc(s, x, key)[i]) <= b
    decreases |s|
  {
    if s != [] && key(s[0]) >= key(x) {
      InsertBound(s[1..], x, key, b);
      var r := InsertDesc(s, x, key);
      assert forall i :: 1 <= i < |r| ==> r[i] == InsertDesc(s[1..], x, key)[i - 1];
    }
  }

  lemma {:induction false} InsertDescending<T>(s: seq<T>, x: T, key: T -> real)
    requires Descending(s, key)
    ensures Descending(InsertDesc(s, x, key), key)
    decreases |s|
  {
    if s != [] && key(s[0]) >= key(x) {
      var rest := InsertDesc(s[1..], x, key);
      assert Descending(rest, key) by {
        assert Descending(s[1..], key);
        InsertDescending(s[1..], x, key);
      }
      InsertBound(s[1..], x, key, key(s[0]));
      var r := InsertDesc(s, x, key);
      assert r == [s[0]] + rest;
    }
  }

  lemma {:induction false} InsertWithKey<T>(s: seq<T>, x: T, key: T -> real, k: real)
    requires Descending(s, key)
    ensures WithKey(InsertDesc(s, x, key), key, k) == WithKey(s, key, k) + (if key(x) == k then [x] else [])
    decreases |s|
  {
    var t := if key(x) == k then [x] else [];
    if s == [] {
      assert WithKey([x], key, k) == t + WithKey([], key, k) by { assert [x][1..] == []; }
    } else if key(s[0]) >= key(x) {
      var h := if key(s[0]) == k then [s[0]] else [];
      var rest := InsertDesc(s[1..], x, key);
      assert WithKey([s[0]] + rest, key, k) == h + WithKey(rest, key, k) by {
        assert ([s[0]] + rest)[1..] == rest;
      }
      assert WithKey(rest, key, k) == WithKey(s[1..], key, k) + t by {
        assert Descending(s[1..], key);
        InsertWithKey(s[1..], x, key, k);
      }
      Assoc(h, WithKey(s[1..], key, k), t);
    } else {
      assert WithKey([x] + s, key, k) == t + WithKey(s, key, k) by { assert ([x] + s)[1..] == s; }
      if key(x) == k {
        assert forall i :: 0 <= i < |s| ==> key(s[i]) < k by {
          forall i | 0 < i < |s| ensures key(s[i]) <= key(s[0]) { }
        }
        WithKeyNone(s, key, k);
        assert t + [] == [] + t;
      } else {
        assert [] + WithKey(s, key, k) == WithKey(s, key, k) + [];
      }
    }
  }

  /** The stable descending sort (its properties are `SortDescSpec` and `SortDescStable`). */
  function SortDesc<T>(s: seq<T>, key: T -> real): (r: seq<T>)
    ensures |r| == |s|
    decreases |s|
  {
    if s == [] then []
    else InsertDesc(SortDesc(s[..|s| - 1], key), s[|s| - 1], key)
  }

  /** The sort is a permutation of its input, in non-increasing key order. */
  lemma {:induction false} SortDescSpec<T>(s: seq<T>, key: T -> real)
    ensures multiset(SortDesc(s, key)) == multiset(s)
    ensures Descending(SortDesc(s, key), key)
    decreases |s|
  {
    if s != [] {
      var init, last := s[..|s| - 1], s[|s| - 1];
      assert s == init + [last];
      SortDescSpec(init, key);
      InsertPermutes(SortDesc(init, key), last, key);
      InsertDescending(SortDesc(init, key), last, key);
    }
  }

  /** Stability: the elements that share a key keep their input order. */
  lemma {:induction false} SortDescStable<T>(s: seq<T>, key: T -> real, k: real)
    ensures WithKey(SortDesc(s, key), key, k) == WithKey(s, key, k)
    decreases |s|
  {
    if s != [] {
      var init, last := s[..|s| - 1], s[|s| - 1];
      assert s == init + [last];
      SortDescStable(init, key, k);
      SortDescSpec(init, key);
      InsertWithKey(SortDesc(init, key), last, key, k);
      WithKeyAppend(init, [last], key, k);
    }
  }

  /** Every element of the sorted sequence comes from the input. */
  lemma SortDescMembers<T>(s: seq<T>, key: T -> real, x: T)
    requires x in SortDesc(s, key)
    ensures x in s
  {
    SortDescSpec(s, key);
    assert x in multiset(SortDesc(s, key));
  }

  lemma {:induction false} InsertMap<T, U>(s: seq<T>, x: T, f: T -> U, k1: T -> real, k2: U -> real)
    requires forall y :: y in s ==> k1(y) == k2(f(y))
    requires k1(x) == k2(f(x))
    ensures MapSeq(f, InsertDesc(s, x, k1)) == InsertDesc(MapSeq(f, s), f(x), k2)
    decreases |s|
  {
    if s != [] {
      assert MapSeq(f, s)[1..] == MapSeq(f, s[1..]);
      assert s[0] in s;
      if k1(s[0]) >= k1(x) {
        InsertMap(s[1..], x, f, k1, k2);
        assert MapSeq(f, [s[0]] + InsertDesc(s[1..], x, k1)) == [f(s[0])] + MapSeq(f, InsertDesc(s[1..], x, k1));
      } else {
        assert MapSeq(f, [x] + s) == [f(x)] + MapSeq(f, s);
      }
    }
  }

  /**
   * Sorting pairs by a key that is a function of the projected component,
   * then projecting, is sorting the projections: the source's
   * "sort `(item, score)` pairs, then keep the items" idiom.
   */
  lemma {:induction false} SortMap<T, U>(s: seq<T>, f: T -> U, k1: T -> real, k2: U -> real)
    requires forall y :: y in s ==> k1(y) == k2(f(y))
    ensures MapSeq(f, SortDesc(s, k1)) == SortDesc(MapSeq(f, s), k2)
    decreases |s|
  {
    if s != [] {
      var init, last := s[..|s| - 1], s[|s| - 1];
      assert forall y :: y in init ==> k1(y) == k2(f(y)) by {
        forall y | y in init ensures k1(y) == k2(f(y)) {
          assert y in s;
        }
      }
      SortMap(init, f, k1, k2);
      var m := MapSeq(f, s);
      assert m[..|m| - 1] == MapSeq(f, init) && m[|m| - 1] == f(last);
      var sorted := SortDesc(init, k1);
      assert forall y :: y in sorted ==> k1(y) == k2(f(y)) by {
        forall y | y in sorted ensures k1(y) == k2(f(y)) {
          SortDescMembers(init, k1, y);
        }
      }
      assert last in s;
      InsertMap(sorted, last, f, k1, k2);
      assert SortDesc(m, k2) == InsertDesc(SortDesc(m[..|m| - 1], k2), m[|m| - 1], k2);
    }
  }

  /** An input already in non-increasing key order is left unchanged. */
  lemma {:induction false} SortDescSorted<T>(s: seq<T>, key: T -> real)
    requires Descending(s, key)
    ensures SortDesc(s, key) == s
    decreases |s|
  {
    if s != [] {
      var init, last := s[..|s| - 1], s[|s| - 1];
      assert Descending(init, key);
      SortDescSorted(init, key);
      assert forall i :: 0 <= i < |init| ==> key(init[i]) >= key(last) by {
        forall i | 0 <= i < |init| ensures key(init[i]) >= key(last) {
          assert init[i] == s[i];
        }
      }
      InsertLast(init, last, key);
      assert init + [last] == s;
    }
  }

  lemma {:induction false} InsertLast<T>(s: seq<T>, x: T, key: T -> real)
    requires forall i :: 0 <= i < |s| ==> key(s[i]) >= key(x)
    ensures InsertDesc(s, x, key) == s + [x]
    decreases |s|
  {
    if s != [] {
      InsertLast(s[1..], x, key);
      assert s == [s[0]] + s[1..];
    }
  }
}
