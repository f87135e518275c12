/** `Array.prototype.filter` over sequences, and what it means for the result
    to be an order-preserving subsequence of the input. */
module Sequences {

  /** The elements of `s` that satisfy `keep`, visited from the front. */
  function Filter<T>(s: seq<T>, keep: T -> bool): (r: seq<T>)
    ensures |r| <= |s|
    ensures forall i :: 0 <= i < |r| ==> r[i] in s && keep(r[i])
    ensures forall i :: 0 <= i < |s| && keep(s[i]) ==> s[i] in r
  {
    if s == [] then []
    else if keep(s[0]) then [s[0]] + Filter(s[1..], keep)
    else Filter(s[1..], keep)
  }

  /** `idx` picks the elements of `r` out of `s` at strictly increasing
      positions. */
  ghost predicate Embedding<T>(idx: seq<int>, r: seq<T>, s: seq<T>) {
    && |idx| == |r|
    && (forall j :: 0 <= j < |idx| ==> 0 <= idx[j] < |s| && r[j] == s[idx[j]])
    && (forall j, k :: 0 <= j < k < |idx| ==> idx[j] < idx[k])
  }

  /** `r` is `s` with some elements left out and the rest in their order. */
  ghost predicate IsSubsequence<T>(r: seq<T>, s: seq<T>) {
    exists idx :: Embedding(idx, r, s)
  }

  /** Every position moved one place to the right. */
  function Shift(idx: seq<int>): seq<int> {
    seq(|idx|, j requires 0 <= j < |idx| => idx[j] + 1)
  }

  /** An embedding into the tail of `s` is one into `s`, shifted. */
  lemma EmbedInTail<T>(idx: seq<int>, r: seq<T>, s: seq<T>)
    requires |s| > 0 && Embedding(idx, r, s[1..])
    ensures Embedding(Shift(idx), r, s)
  {
  }

  /** Keeping the head of `s` puts position 0 in front of the shifted
      embedding. */
  lemma EmbedWithHead<T>(idx: seq<int>, r: seq<T>, s: seq<T>)
    requires |s| > 0 && Embedding(idx, r, s[1..])
    ensures Embedding([0] + Shift(idx), [s[0]] + r, s)
  {
    EmbedInTail(idx, r, s);
  }

  /** Filtering keeps the survivors in their original order. */
  lemma {:induction false} FilterIsSubsequence<T>(s: seq<T>, keep: T -> bool)
    ensures IsSubsequence(Filter(s, keep), s)
  {
    if s == [] {
      assert Embedding([], Filter(s, keep), s);
    } else {
      var tail := Filter(s[1..], keep);
      FilterIsSubsequence(s[1..], keep);
      var idx :| Embedding(idx, tail, s[1..]);
      if keep(s[0]) {
        EmbedWithHead(idx, tail, s);
      } else {
        EmbedInTail(idx, tail, s);
      }
    }
  }

  /** Filtering keeps every occurrence of a kept value and no occurrence of
      any other value. */
  lemma {:induction false} FilterCount<T>(s: seq<T>, keep: T -> bool, x: T)
    ensures multiset(Filter(s, keep))[x] == if keep(x) then multiset(s)[x] else 0
  {
    if s != [] {
      FilterCount(s[1..], keep, x);
      assert s == [s[0]] + s[1..];
    }
  }

  /** When every element passes, filtering changes nothing. */
  lemma {:induction false} FilterKeepsAll<T>(s: seq<T>, keep: T -> bool)
    requires forall x :: x in s ==> keep(x)
    ensures Filter(s, keep) == s
  {
    if s != [] {
      FilterKeepsAll(s[1..], keep);
    }
  }

  /** Filtering distributes over concatenation. */
  lemma {:induction false} FilterAppend<T>(a: seq<T>, b: seq<T>, keep: T -> bool)
    ensures Filter(a + b, keep) == Filter(a, keep) + Filter(b, keep)
  {
    if a == [] {
      assert a + b == b;
    } else {
      assert (a + b)[0] == a[0] && (a + b)[1..] == a[1..] + b;
      FilterAppend(a[1..], b, keep);
      if keep(a[0]) {
        calc {
          Filter(a + b, keep);
          [a[0]] + Filter(a[1..] + b, keep);
          [a[0]] + (Filter(a[1..], keep) + Filter(b, keep));
          ([a[0]] + Filter(a[1..], keep)) + Filter(b, keep);
        }
      }
    }
  }

  /** Two tests that agree on the elements of `s` filter `s` alike. */
  lemma {:induction false} FilterCongruent<T>(s: seq<T>, keep: T -> bool, keep': T -> bool)
    requires forall x :: x in s ==> keep(x) == keep'(x)
    ensures Filter(s, keep) == Filter(s, keep')
  {
    if s != [] {
      FilterCongruent(s[1..], keep, keep');
    }
  }
}
