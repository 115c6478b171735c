/** Order-preserving filtering, the shape shared by `retain`, `filter(..).collect()`
    and the header deny-lists of the source. */
module Seqs {

  /** The elements of `s` that satisfy `keep`, in their original order. */
  function Filter<T>(s: seq<T>, keep: T -> bool): (r: seq<T>)
    ensures |r| <= |s|
    ensures forall x :: x in r ==> x in s && keep(x)
  {
    if |s| == 0 then []
    else Filter(s[..|s| - 1], keep) + (if keep(s[|s| - 1]) then [s[|s| - 1]] else [])
  }

  lemma SplitLast<T>(s: seq<T>)
    requires |s| > 0
    ensures s == s[..|s| - 1] + [s[|s| - 1]]
  {
  }

  /** `t` can be obtained from `s` by deleting elements (order is kept). */
  predicate IsSubsequence<T(==)>(t: seq<T>, s: seq<T>)
  {
    if |t| == 0 then true
    else if |s| == 0 then false
    else if t[|t| - 1] == s[|s| - 1] then IsSubsequence(t[..|t| - 1], s[..|s| - 1])
    else IsSubsequence(t, s[..|s| - 1])
  }

  lemma {:induction false} FilterIsSubsequence<T>(s: seq<T>, keep: T -> bool)
    ensures IsSubsequence(Filter(s, keep), s)
  {
    if |s| > 0 {
      var init, last := s[..|s| - 1], s[|s| - 1];
      FilterIsSubsequence(init, keep);
      var f := Filter(init, keep);
      if keep(last) {
        assert Filter(s, keep) == f + [last];
        assert (f + [last])[..|f|] == f;
        assert s[..|s| - 1] == init;
      } else {
        assert Filter(s, keep) == f;
        SubsequenceOfPrefix(f, init, last);
      }
    }
  }

  lemma {:induction false} SubsequenceOfPrefix<T>(t: seq<T>, s: seq<T>, x: T)
    requires IsSubsequence(t, s)
    ensures IsSubsequence(t, s + [x])
    decreases |s|, 1
  {
    assert (s + [x])[..|s|] == s;
    if |t| > 0 && t[|t| - 1] == x {
      SubsequenceDropLast(t, s);
    }
  }

  lemma {:induction false} SubsequenceDropLast<T>(t: seq<T>, s: seq<T>)
    requires |t| > 0 && IsSubsequence(t, s)
    ensures IsSubsequence(t[..|t| - 1], s)
    decreases |s|, 0
  {
    var s' := s[..|s| - 1];
    assert s' + [s[|s| - 1]] == s;
    if t[|t| - 1] == s[|s| - 1] {
      SubsequenceOfPrefix(t[..|t| - 1], s', s[|s| - 1]);
    } else {
      SubsequenceDropLast(t, s');
      SubsequenceOfPrefix(t[..|t| - 1], s', s[|s| - 1]);
    }
  }

  lemma FilterSingleton<T>(x: T, keep: T -> bool)
    ensures Filter([x], keep) == if keep(x) then [x] else []
  {
    assert [x][..0] == [];
  }

  /** Membership in a filtered sequence, both directions. */
  lemma {:induction false} FilterMembership<T>(s: seq<T>, keep: T -> bool, x: T)
    ensures x in Filter(s, keep) <==> x in s && keep(x)
  {
    if |s| > 0 {
      FilterMembership(s[..|s| - 1], keep, x);
      SplitLast(s);
    }
  }

  /** Filtering distributes over concatenation. */
  lemma {:induction false} FilterAppend<T>(a: seq<T>, b: seq<T>, keep: T -> bool)
    ensures Filter(a + b, keep) == Filter(a, keep) + Filter(b, keep)
    decreases |b|
  {
    if |b| == 0 {
      assert a + b == a;
    } else {
      var b' := b[..|b| - 1];
      assert (a + b)[..|a + b| - 1] == a + b';
      FilterAppend(a, b', keep);
    }
  }

  /** A sequence whose every element is kept is its own filter. */
  lemma {:induction false} FilterKeepsAll<T>(s: seq<T>, keep: T -> bool)
    requires forall x :: x in s ==> keep(x)
    ensures Filter(s, keep) == s
  {
    if |s| > 0 {
      SplitLast(s);
      FilterKeepsAll(s[..|s| - 1], keep);
    }
  }

  /** Filtering twice with the same predicate is filtering once. */
  lemma FilterIdempotent<T>(s: seq<T>, keep: T -> bool)
    ensures Filter(Filter(s, keep), keep) == Filter(s, keep)
  {
    FilterKeepsAll(Filter(s, keep), keep);
  }

  /** Four elements of which the middle two are dropped. */
  lemma FilterFirstAndLast<T>(a: T, b: T, c: T, d: T, keep: T -> bool)
    requires keep(a) && !keep(b) && !keep(c) && keep(d)
    ensures Filter([a, b, c, d], keep) == [a, d]
  {
    assert [a, b, c, d][..3] == [a, b, c];
    assert [a, b, c][..2] == [a, b];
    assert [a, b][..1] == [a];
    assert [a][..0] == [];
    assert Filter([a], keep) == [a];
    assert Filter([a, b, c], keep) == [a];
  }

  /** Three elements of which the middle one is dropped. */
  lemma FilterDropMiddle<T>(a: T, b: T, c: T, keep: T -> bool)
    requires keep(a) && !keep(b) && keep(c)
    ensures Filter([a, b, c], keep) == [a, c]
  {
    assert [a, b, c][..2] == [a, b];
    assert [a, b][..1] == [a];
    assert [a][..0] == [];
    assert Filter([a], keep) == [a];
    assert Filter([a, b], keep) == [a];
  }

  /** Two elements, both dropped. */
  lemma FilterDropBoth<T>(a: T, b: T, keep: T -> bool)
    requires !keep(a) && !keep(b)
    ensures Filter([a, b], keep) == []
  {
    assert [a, b][..1] == [a];
    assert [a][..0] == [];
    assert Filter([a], keep) == [];
  }
}
