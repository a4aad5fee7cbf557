/** Facts about sequences used by the filters and the aggregation. */
module Seqs {

  /** `a` is `b` with some elements removed, order kept (greedy matching). */
  predicate IsSubsequence<T(==)>(a: seq<T>, b: seq<T>)
    decreases |b|
  {
    a == [] || (b != [] && if a[0] == b[0] then IsSubsequence(a[1..], b[1..]) else IsSubsequence(a, b[1..]))
  }

  /** A subsequence is no longer than its source. */
  lemma {:induction false} SubsequenceLength<T>(a: seq<T>, b: seq<T>)
    requires IsSubsequence(a, b)
    ensures |a| <= |b|
    decreases |b|
  {
    if a != [] {
      if a[0] == b[0] {
        SubsequenceLength(a[1..], b[1..]);
      } else {
        SubsequenceLength(a, b[1..]);
      }
    }
  }

  /** Dropping the head of a subsequence keeps it a subsequence. */
  lemma {:induction false} SubsequenceTail<T>(a: seq<T>, b: seq<T>)
    requires a != [] && IsSubsequence(a, b)
    ensures IsSubsequence(a[1..], b)
    decreases |b|, 0
  {
    assert [b[0]] + b[1..] == b;
    if a[0] == b[0] {
      SubsequenceWiden(a[1..], b[1..], b[0]);
    } else {
      SubsequenceTail(a, b[1..]);
      SubsequenceWiden(a[1..], b[1..], b[0]);
    }
  }

  /** Putting one more element in front of the source keeps a subsequence. */
  lemma {:induction false} SubsequenceWiden<T>(a: seq<T>, b: seq<T>, x: T)
    requires IsSubsequence(a, b)
    ensures IsSubsequence(a, [x] + b)
    decreases |b|, 1
  {
    assert ([x] + b)[1..] == b;
    if a != [] && a[0] == x {
      SubsequenceTail(a, b);
    }
  }

  /** Prepending the same element to both keeps a subsequence. */
  lemma SubsequenceCons<T>(a: seq<T>, b: seq<T>, x: T)
    requires IsSubsequence(a, b)
    ensures IsSubsequence([x] + a, [x] + b)
  {
  }

  /** `xs.map(f)`. */
  function Map<A, B>(f: A -> B, xs: seq<A>): (r: seq<B>)
    ensures |r| == |xs|
    ensures forall i :: 0 <= i < |xs| ==> r[i] == f(xs[i])
  {
    seq(|xs|, i requires 0 <= i < |xs| => f(xs[i]))
  }

  /** Mapping a concatenation maps each part. */
  lemma MapAppend<A, B>(f: A -> B, a: seq<A>, b: seq<A>)
    ensures Map(f, a + b) == Map(f, a) + Map(f, b)
  {
    var ab := a + b;
    forall i | 0 <= i < |ab|
      ensures Map(f, ab)[i] == (Map(f, a) + Map(f, b))[i]
    {
      if i < |a| {
        assert ab[i] == a[i];
      } else {
        assert ab[i] == b[i - |a|];
      }
    }
  }

  /** A concatenation starts with its first half and ends with any suffix
      of its second half. */
  lemma ConcatEnds<T>(a: seq<T>, b: seq<T>, n: nat)
    requires n <= |b|
    ensures (a + b)[..|a|] == a
    ensures (a + b)[|a + b| - n..] == b[|b| - n..]
  {
    var ab := a + b;
    assert forall i :: |ab| - n <= i < |ab| ==> ab[i] == b[i - |a|];
  }

  /** Two concatenations whose first halves have equal length differ
      unless both halves are equal. */
  lemma ConcatDistinct<T>(a: seq<T>, b: seq<T>, c: seq<T>, d: seq<T>)
    requires |a| == |c| && (a != c || b != d)
    ensures a + b != c + d
  {
    if a != c {
      assert (a + b)[..|a|] == a && (c + d)[..|c|] == c;
    } else {
      assert (a + b)[|a|..] == b && (c + d)[|c|..] == d;
    }
  }

  /** Two strings built from the same frame `p _ m _ q` with slots of equal
      lengths are equal only when both slots are equal. */
  lemma TwoSlotsDistinct<T>(p: seq<T>, x1: seq<T>, m: seq<T>, y1: seq<T>, q: seq<T>, x2: seq<T>, y2: seq<T>)
    requires |x1| == |x2| && |y1| == |y2| && (x1 != x2 || y1 != y2)
    ensures p + x1 + m + y1 + q != p + x2 + m + y2 + q
  {
    assert p + x1 + m + y1 + q == (p + x1) + (m + y1 + q);
    assert p + x2 + m + y2 + q == (p + x2) + (m + y2 + q);
    if x1 != x2 {
      ConcatDistinct(p, x1, p, x2);
      ConcatDistinct(p + x1, m + y1 + q, p + x2, m + y2 + q);
    } else {
      ConcatDistinct(y1, q, y2, q);
      ConcatDistinct(p + x1 + m, y1 + q, p + x2 + m, y2 + q);
      assert p + x1 + m + y1 + q == (p + x1 + m) + (y1 + q);
      assert p + x2 + m + y2 + q == (p + x2 + m) + (y2 + q);
    }
  }
}
