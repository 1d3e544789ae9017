/**
 * A stable sort by descending key, the behaviour of
 * `scores.sort((a, b) => b.score - a.score)`: `Array.prototype.sort` is
 * stable (ECMA-262, ES2023, section 23.1.3.30), so elements with equal keys
 * keep their input order.
 *
 * Modelled as a functional insertion sort. Stability is stated through
 * `WithKey`, the subsequence of the elements carrying one key value: sorting
 * leaves every such subsequence unchanged.
 */
module StableSort {

  /** Keys never increase from left to right. */
  predicate SortedDesc<T>(s: seq<T>, key: T -> real) {
    forall i, j :: 0 <= i < j < |s| ==> key(s[i]) >= key(s[j])
  }

  /** The elements of `s` whose key is `v`, in their order in `s`. */
  function WithKey<T>(s: seq<T>, key: T -> real, v: real): (r: seq<T>)
    ensures |r| <= |s|
    ensures forall i :: 0 <= i < |r| ==> key(r[i]) == v
  {
    if |s| == 0 then []
    else WithKey(s[..|s| - 1], key, v) + (if key(s[|s| - 1]) == v then [s[|s| - 1]] else [])
  }

  lemma WithKeyAppend<T>(s: seq<T>, x: T, key: T -> real, v: real)
    ensures WithKey(s + [x], key, v) == WithKey(s, key, v) + (if key(x) == v then [x] else [])
  {
    assert (s + [x])[..|s|] == s;
  }

  lemma {:induction false} WithKeyPrepend<T>(x: T, s: seq<T>, key: T -> real, v: real)
    ensures WithKey([x] + s, key, v) == (if key(x) == v then [x] else []) + WithKey(s, key, v)
    decreases |s|
  {
    if |s| == 0 {
      assert [x] + s == [x];
      assert [x][..0] == [];
    } else {
      var p := s[..|s| - 1];
      var y := s[|s| - 1];
      assert s == p + [y];
      assert [x] + s == ([x] + p) + [y];
      WithKeyAppend([x] + p, y, key, v);
      WithKeyPrepend(x, p, key, v);
      WithKeyAppend(p, y, key, v);
    }
  }

  /** A sequence whose keys all differ from `v` has no element with key `v`. */
  lemma {:induction false} WithKeyNone<T>(s: seq<T>, key: T -> real, v: real)
    requires forall i :: 0 <= i < |s| ==> key(s[i]) != v
    ensures WithKey(s, key, v) == []
  {
    if |s| > 0 {
      WithKeyNone(s[..|s| - 1], key, v);
    }
  }

  /**
   * Inserts `x` into a sorted sequence after every element whose key is at
   * least its own, which is where a stable sort puts a later element.
   */
  function Insert<T>(x: T, s: seq<T>, key: T -> real): (r: seq<T>)
    requires SortedDesc(s, key)
    ensures |r| == |s| + 1
    ensures SortedDesc(r, key)
    ensures multiset(r) == multiset(s) + multiset{x}
    ensures r[0] == x || (|s| > 0 && r[0] == s[0])
  {
    if |s| == 0 then [x]
    else if key(s[0]) >= key(x) then
      var rest := Insert(x, s[1..], key);
      ConsSorted(s[0], rest, key);
      assert s == [s[0]] + s[1..];
      [s[0]] + rest
    else
      ConsSorted(x, s, key);
      [x] + s
  }

  /** An element whose key is at least the head's keeps a sorted sequence sorted when put in front. */
  lemma ConsSorted<T>(h: T, t: seq<T>, key: T -> real)
    requires SortedDesc(t, key)
    requires |t| > 0 ==> key(h) >= key(t[0])
    ensures SortedDesc([h] + t, key)
  {
    var r := [h] + t;
    forall i, j | 0 <= i < j < |r|
      ensures key(r[i]) >= key(r[j])
    {
      if i == 0 {
        assert r[j] == t[j - 1];
      } else {
        assert r[i] == t[i - 1] && r[j] == t[j - 1];
      }
    }
  }

  /** Inserting `x` appends it to the elements with its key and leaves the others alone. */
  lemma {:induction false} InsertWithKey<T>(x: T, s: seq<T>, key: T -> real, v: real)
    requires SortedDesc(s, key)
    ensures WithKey(Insert(x, s, key), key, v) == WithKey(s, key, v) + (if key(x) == v then [x] else [])
    decreases |s|
  {
    if |s| == 0 {
      assert Insert(x, s, key) == [] + [x];
      WithKeyAppend([], x, key, v);
    } else if key(s[0]) >= key(x) {
      InsertWithKey(x, s[1..], key, v);
      InsertBehindWithKey(x, s, key, v);
    } else {
      InsertInFrontWithKey(x, s, key, v);
    }
  }

  /** The step of `InsertWithKey` where `x` passes the first element. */
  lemma InsertBehindWithKey<T>(x: T, s: seq<T>, key: T -> real, v: real)
    requires SortedDesc(s, key) && |s| > 0 && key(s[0]) >= key(x)
    requires WithKey(Insert(x, s[1..], key), key, v) == WithKey(s[1..], key, v) + (if key(x) == v then [x] else [])
    ensures WithKey(Insert(x, s, key), key, v) == WithKey(s, key, v) + (if key(x) == v then [x] else [])
  {
    var tail := if key(x) == v then [x] else [];
    var head := if key(s[0]) == v then [s[0]] else [];
    var rest := s[1..];
    var inserted := Insert(x, rest, key);
    assert s == [s[0]] + rest;
    assert Insert(x, s, key) == [s[0]] + inserted;
    WithKeyPrepend(s[0], inserted, key, v);
    WithKeyPrepend(s[0], rest, key, v);
    var w := WithKey(rest, key, v);
    assert WithKey(s, key, v) == head + w;
    ConcatAssoc(head, w, tail);
    calc {
      WithKey(Insert(x, s, key), key, v);
      head + WithKey(inserted, key, v);
      head + (w + tail);
      (head + w) + tail;
      WithKey(s, key, v) + tail;
    }
  }

  lemma ConcatAssoc<T>(a: seq<T>, b: seq<T>, c: seq<T>)
    ensures a + (b + c) == (a + b) + c
  {
  }

  /** The step of `InsertWithKey` where `x` goes in front: no element has its key. */
  lemma InsertInFrontWithKey<T>(x: T, s: seq<T>, key: T -> real, v: real)
    requires SortedDesc(s, key) && |s| > 0 && key(s[0]) < key(x)
    ensures WithKey(Insert(x, s, key), key, v) == WithKey(s, key, v) + (if key(x) == v then [x] else [])
  {
    assert Insert(x, s, key) == [x] + s;
    WithKeyPrepend(x, s, key, v);
    if key(x) == v {
      WithKeyNone(s, key, v);
    }
  }

  /** The stable sort by descending key: each element in turn is inserted into the sorted prefix. */
  function InsertionSort<T>(s: seq<T>, key: T -> real): (r: seq<T>)
    ensures |r| == |s|
    ensures SortedDesc(r, key)
    ensures multiset(r) == multiset(s)
  {
    if |s| == 0 then []
    else
      assert s == s[..|s| - 1] + [s[|s| - 1]];
      Insert(s[|s| - 1], InsertionSort(s[..|s| - 1], key), key)
  }

  /** Sorting keeps the order of the elements within each key: the sort is stable. */
  lemma {:induction false} InsertionSortStable<T>(s: seq<T>, key: T -> real, v: real)
    ensures WithKey(InsertionSort(s, key), key, v) == WithKey(s, key, v)
  {
    if |s| > 0 {
      var p := s[..|s| - 1];
      var x := s[|s| - 1];
      InsertionSortStable(p, key, v);
      InsertWithKey(x, InsertionSort(p, key), key, v);
    }
  }

  /** Two sequences sorted by descending key with the same elements per key are equal. */
  lemma {:induction false} SortedUnique<T>(a: seq<T>, b: seq<T>, key: T -> real)
    requires SortedDesc(a, key) && SortedDesc(b, key)
    requires forall v :: WithKey(a, key, v) == WithKey(b, key, v)
    ensures a == b
    decreases |a| + |b|
  {
    LastHasKey(a, key);
    LastHasKey(b, key);
    if |a| > 0 && |b| > 0 {
      var pa, pb := a[..|a| - 1], b[..|b| - 1];
      LastKeysAgree(a, b, key);
      forall v
        ensures WithKey(pa, key, v) == WithKey(pb, key, v)
      {
        PrefixKeysAgree(a, b, key, v);
      }
      PrefixKeysAgree(a, b, key, key(a[|a| - 1]));
      SortedUnique(pa, pb, key);
      assert a == pa + [a[|a| - 1]] && b == pb + [b[|b| - 1]];
    }
  }

  /** A non-empty sequence has an element with the key of its last element. */
  lemma LastHasKey<T>(s: seq<T>, key: T -> real)
    ensures |s| > 0 ==> |WithKey(s, key, key(s[|s| - 1]))| > 0
  {
    if |s| > 0 {
      WithKeyAppend(s[..|s| - 1], s[|s| - 1], key, key(s[|s| - 1]));
      assert s == s[..|s| - 1] + [s[|s| - 1]];
    }
  }

  /** Sorted sequences with the same elements per key end with the same key: the smallest key of both. */
  lemma LastKeysAgree<T>(a: seq<T>, b: seq<T>, key: T -> real)
    requires SortedDesc(a, key) && SortedDesc(b, key) && |a| > 0 && |b| > 0
    requires forall v :: WithKey(a, key, v) == WithKey(b, key, v)
    ensures key(a[|a| - 1]) == key(b[|b| - 1])
  {
    var x, y := a[|a| - 1], b[|b| - 1];
    LastHasKey(a, key);
    LastHasKey(b, key);
    LastKeyIsMin(a, key, key(y), WithKey(b, key, key(y)));
    LastKeyIsMin(b, key, key(x), WithKey(a, key, key(x)));
  }

  /**
   * When the last elements share a key, equal elements per key before the
   * last ones, and the last elements themselves are equal.
   */
  lemma PrefixKeysAgree<T>(a: seq<T>, b: seq<T>, key: T -> real, v: real)
    requires |a| > 0 && |b| > 0 && key(a[|a| - 1]) == key(b[|b| - 1])
    requires WithKey(a, key, v) == WithKey(b, key, v)
    ensures WithKey(a[..|a| - 1], key, v) == WithKey(b[..|b| - 1], key, v)
    ensures v == key(a[|a| - 1]) ==> a[|a| - 1] == b[|b| - 1]
  {
    var x, y := a[|a| - 1], b[|b| - 1];
    var pa, pb := a[..|a| - 1], b[..|b| - 1];
    LastSplit(a);
    LastSplit(b);
    WithKeyAppend(pa, x, key, v);
    WithKeyAppend(pb, y, key, v);
    var wa, wb := WithKey(pa, key, v), WithKey(pb, key, v);
    if key(x) == v {
      DropLast(wa, wb, x, y);
    } else {
      assert wa + [] == wa && wb + [] == wb;
    }
  }

  lemma LastSplit<T>(s: seq<T>)
    requires |s| > 0
    ensures s == s[..|s| - 1] + [s[|s| - 1]]
  {
  }

  lemma DropLast<T>(p: seq<T>, q: seq<T>, x: T, y: T)
    requires p + [x] == q + [y]
    ensures p == q && x == y
  {
    assert |p| == |q|;
    assert p == (p + [x])[..|p|];
    assert q == (q + [y])[..|q|];
    assert x == (p + [x])[|p|];
  }

  /**
   * In a sequence sorted by descending key, a key value `v` that has elements
   * (`w` non-empty) is at least the key of the last element.
   */
  lemma LastKeyIsMin<T>(s: seq<T>, key: T -> real, v: real, w: seq<T>)
    requires SortedDesc(s, key) && |s| > 0
    requires w == WithKey(s, key, v) && |w| > 0
    ensures v >= key(s[|s| - 1])
  {
    var i := WithKeyWitness(s, key, v);
    assert key(s[i]) == v;
  }

  /** A position of an element with key `v`, when there is one. */
  lemma {:induction false} WithKeyWitness<T>(s: seq<T>, key: T -> real, v: real) returns (i: int)
    requires |WithKey(s, key, v)| > 0
    ensures 0 <= i < |s| && key(s[i]) == v
  {
    var p := s[..|s| - 1];
    if key(s[|s| - 1]) == v {
      i := |s| - 1;
    } else {
      assert WithKey(s, key, v) == WithKey(p, key, v) + [];
      i := WithKeyWitness(p, key, v);
      assert s[i] == p[i];
    }
  }
}
