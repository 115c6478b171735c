/** The two in-place `Vec` algorithms the header code relies on, for any element type:
    `retain` (order-preserving compaction) and `sort_by` on an integer key (a stable
    sort, here insertion sort), each proved against a function on sequences. */
module Sorting {
  import opened Seqs

  // ---------------------------------------------------------------- retain

  /** `Vec::retain`: moves the kept elements to the front, in order, and returns how
      many there are. */
  method Retain<T>(a: array<T>, keep: T -> bool) returns (len: nat)
    modifies a
    ensures len <= a.Length
    ensures a[..len] == Filter(old(a[..]), keep)
  {
    ghost var s := a[..];
    var w, r := 0, 0;
    while r < a.Length
      invariant 0 <= w <= r <= a.Length
      invariant a[..w] == Filter(s[..r], keep)
      invariant a[r..] == s[r..]
    {
      assert s[..r + 1][..r] == s[..r];
      assert a[r] == s[r];
      if keep(a[r]) {
        a[w] := a[r];
        w := w + 1;
      }
      r := r + 1;
    }
    assert s[..r] == s;
    len := w;
  }

  // ---------------------------------------------------------------- stable sort

  /** Places `x` after the last element whose key does not exceed its own. */
  function Insert<T>(s: seq<T>, x: T, key: T -> int): (r: seq<T>)
    ensures |r| == |s| + 1
  {
    if |s| == 0 || key(s[|s| - 1]) <= key(x) then s + [x]
    else Insert(s[..|s| - 1], x, key) + [s[|s| - 1]]
  }

  /** The result of a stable sort by `key`: each element inserted in turn. */
  function SortByKey<T>(s: seq<T>, key: T -> int): (r: seq<T>)
    ensures |r| == |s|
  {
    if |s| == 0 then [] else Insert(SortByKey(s[..|s| - 1], key), s[|s| - 1], key)
  }

  predicate SortedByKey<T>(s: seq<T>, key: T -> int)
  {
    forall i, j :: 0 <= i < j < |s| ==> key(s[i]) <= key(s[j])
  }

  /** `slice::sort_by(|a, b| key(a).cmp(&key(b)))`, as an insertion sort that moves each
      element left past the strictly greater keys only. */
  method InsertionSort<T>(a: array<T>, key: T -> int)
    modifies a
    ensures a[..] == SortByKey(old(a[..]), key)
  {
    ghost var s := a[..];
    var i := 0;
    while i < a.Length
      invariant 0 <= i <= a.Length
      invariant a[..i] == SortByKey(s[..i], key)
      invariant a[i..] == s[i..]
    {
      assert a[i] == s[i];
      InsertInto(a, i, key);
      SortByKeyPrefix(s, i, key);
      assert a[i + 1..] == s[i + 1..];
      i := i + 1;
    }
    assert s[..i] == s;
  }

  /** The inner loop of the sort: `a[i]` moves left past the strictly greater keys of
      the sorted prefix `a[..i]`; the rest of the array is left alone. */
  method InsertInto<T>(a: array<T>, i: nat, key: T -> int)
    requires i < a.Length
    modifies a
    ensures a[..i + 1] == Insert(old(a[..i]), old(a[i]), key)
    ensures a[i + 1..] == old(a[i + 1..])
  {
    ghost var sorted := a[..i];
    var x := a[i];
    var j := i;
    while j > 0 && key(a[j - 1]) > key(x)
      invariant 0 <= j <= i
      invariant forall k :: 0 <= k < j ==> a[k] == sorted[k]
      invariant forall k :: j < k <= i ==> a[k] == sorted[k - 1]
      invariant forall k :: i < k < a.Length ==> a[k] == old(a[k])
      invariant forall k :: j <= k < i ==> key(sorted[k]) > key(x)
    {
      a[j] := a[j - 1];
      j := j - 1;
    }
    a[j] := x;
    InsertGap(sorted, j, x, key);
    Assemble(a[..i + 1], sorted, j, x);
  }

  /** `x` goes into the gap after the last key not above its own, before the
      greater keys that follow it. */
  lemma {:induction false} InsertGap<T>(sorted: seq<T>, j: nat, x: T, key: T -> int)
    requires j <= |sorted| && (j == 0 || key(sorted[j - 1]) <= key(x))
    requires forall k :: j <= k < |sorted| ==> key(sorted[k]) > key(x)
    ensures Insert(sorted, x, key) == sorted[..j] + [x] + sorted[j..]
    decreases |sorted|
  {
    if j < |sorted| {
      var init, last := sorted[..|sorted| - 1], sorted[|sorted| - 1];
      assert key(last) > key(x);
      assert Insert(sorted, x, key) == Insert(init, x, key) + [last];
      assert forall k :: j <= k < |init| ==> init[k] == sorted[k];
      InsertGap(init, j, x, key);
      assert init[..j] == sorted[..j];
      assert sorted[j..] == init[j..] + [last];
      AppendLast(sorted[..j] + [x], init[j..], last);
    } else {
      assert sorted[..j] == sorted && sorted[j..] == [];
    }
  }

  lemma AppendLast<T>(p: seq<T>, t: seq<T>, last: T)
    ensures p + t + [last] == p + (t + [last])
  {
  }

  /** Sorting one more element of `s` inserts it into the sorted prefix. */
  lemma SortByKeyPrefix<T>(s: seq<T>, i: nat, key: T -> int)
    requires i < |s|
    ensures SortByKey(s[..i + 1], key) == Insert(SortByKey(s[..i], key), s[i], key)
  {
    assert s[..i + 1][..i] == s[..i];
  }

  /** The array after the inner loop: the sorted prefix with `x` in its gap. */
  lemma Assemble<T>(b: seq<T>, sorted: seq<T>, j: nat, x: T)
    requires |b| == |sorted| + 1 && j <= |sorted| && b[j] == x
    requires forall k :: 0 <= k < j ==> b[k] == sorted[k]
    requires forall k :: j < k < |b| ==> b[k] == sorted[k - 1]
    ensures b == sorted[..j] + [x] + sorted[j..]
  {
  }

  lemma {:induction false} InsertPermutes<T>(s: seq<T>, x: T, key: T -> int)
    ensures multiset(Insert(s, x, key)) == multiset(s) + multiset{x}
  {
    if |s| > 0 && key(s[|s| - 1]) > key(x) {
      InsertPermutes(s[..|s| - 1], x, key);
      SplitLast(s);
    }
  }

  lemma {:induction false} InsertSorted<T>(s: seq<T>, x: T, key: T -> int)
    requires SortedByKey(s, key)
    ensures SortedByKey(Insert(s, x, key), key)
  {
    if |s| > 0 && key(s[|s| - 1]) > key(x) {
      var init, last := s[..|s| - 1], s[|s| - 1];
      InsertSorted(init, x, key);
      var r := Insert(init, x, key);
      InsertPermutes(init, x, key);
      forall k | 0 <= k < |r|
        ensures key(r[k]) <= key(last)
      {
        assert r[k] in multiset(init) + multiset{x};
        if r[k] != x {
          var m :| 0 <= m < |init| && init[m] == r[k];
        }
      }
    }
  }

  /** Sorting keeps every element: the output is a permutation of the input. */
  lemma {:induction false} SortByKeyPermutes<T>(s: seq<T>, key: T -> int)
    ensures multiset(SortByKey(s, key)) == multiset(s)
  {
    if |s| > 0 {
      SortByKeyPermutes(s[..|s| - 1], key);
      InsertPermutes(SortByKey(s[..|s| - 1], key), s[|s| - 1], key);
      SplitLast(s);
    }
  }

  /** The output is ordered by key. */
  lemma {:induction false} SortByKeySorted<T>(s: seq<T>, key: T -> int)
    ensures SortedByKey(SortByKey(s, key), key)
  {
    if |s| > 0 {
      SortByKeySorted(s[..|s| - 1], key);
      InsertSorted(SortByKey(s[..|s| - 1], key), s[|s| - 1], key);
    }
  }

  /** The elements whose key is `k`. */
  function HasKey<T>(key: T -> int, k: int): T -> bool
  {
    x => key(x) == k
  }

  lemma SwapEmpty<T>(a: seq<T>, b: seq<T>, c: seq<T>)
    requires b == [] || c == []
    ensures a + b + c == a + c + b
  {
  }

  lemma {:induction false} InsertStable<T>(s: seq<T>, x: T, key: T -> int, k: int)
    ensures Filter(Insert(s, x, key), HasKey(key, k)) == Filter(s, HasKey(key, k)) + Filter([x], HasKey(key, k))
  {
    var keep := HasKey(key, k);
    if |s| == 0 || key(s[|s| - 1]) <= key(x) {
      FilterAppend(s, [x], keep);
    } else {
      var init, last := s[..|s| - 1], s[|s| - 1];
      var r := Insert(init, x, key);
      InsertStable(init, x, key, k);
      FilterAppend(r, [last], keep);
      FilterAppend(init, [last], keep);
      SplitLast(s);
      FilterSingleton(x, keep);
      FilterSingleton(last, keep);
      SwapEmpty(Filter(init, keep), Filter([x], keep), Filter([last], keep));
    }
  }

  /** The sort is stable: the elements of any one key keep their input order. */
  lemma {:induction false} SortByKeyStable<T>(s: seq<T>, key: T -> int, k: int)
    ensures Filter(SortByKey(s, key), HasKey(key, k)) == Filter(s, HasKey(key, k))
  {
    if |s| > 0 {
      var init, last := s[..|s| - 1], s[|s| - 1];
      SortByKeyStable(init, key, k);
      InsertStable(SortByKey(init, key), last, key, k);
      FilterAppend(init, [last], HasKey(key, k));
      SplitLast(s);
    }
  }

  /** A sequence already ordered by key is left as it is. */
  lemma {:induction false} SortByKeyOfSorted<T>(s: seq<T>, key: T -> int)
    requires SortedByKey(s, key)
    ensures SortByKey(s, key) == s
  {
    if |s| > 0 {
      SortByKeyOfSorted(s[..|s| - 1], key);
      SplitLast(s);
    }
  }

  /** Sorting twice is sorting once. */
  lemma SortByKeyIdempotent<T>(s: seq<T>, key: T -> int)
    ensures SortByKey(SortByKey(s, key), key) == SortByKey(s, key)
  {
    SortByKeySorted(s, key);
    SortByKeyOfSorted(SortByKey(s, key), key);
  }

  /** Three elements whose keys rank second, third, first. */
  lemma SortThree<T>(a: T, b: T, c: T, key: T -> int)
    requires key(b) < key(c) < key(a)
    ensures SortByKey([a, b, c], key) == [b, c, a]
  {
    var s := [a, b, c];
    assert s[..2] == [a, b] && s[..2][..1] == [a] && [a, b][..1] == [a];
    assert SortByKey([a], key) == Insert([], a, key) == [a];
    assert SortByKey([a, b], key) == Insert([a], b, key) == [b, a];
    assert [b, a][..1] == [b];
    assert Insert([b, a], c, key) == Insert([b], c, key) + [a];
    assert Insert([b], c, key) == [b, c];
  }
}
