/** Order-preserving filtering of sequences, the model of `Array.prototype.filter`
    used by the cull phase. */
module Seqs {

  /** The elements of `s` that satisfy `keep`, in their original order. */
  function Filter<T>(s: seq<T>, keep: T -> bool): (r: seq<T>)
    ensures |r| <= |s|
    ensures forall x :: x in r ==> x in s && keep(x)
    ensures forall x :: x in s && keep(x) ==> x in r
    ensures forall x :: x in s ==> multiset(r)[x] == if keep(x) then multiset(s)[x] else 0
    decreases |s|
  {
    if |s| == 0 then []
    else
      var rest := Filter(s[1..], keep);
      assert multiset(s) == multiset([s[0]]) + multiset(s[1..]) by {
        assert s == [s[0]] + s[1..];
      }
      if keep(s[0]) then [s[0]] + rest else rest
  }

  /** `sub` is obtained from `s` by deleting elements, without reordering. */
  ghost predicate IsSubsequence<T>(sub: seq<T>, s: seq<T>)
    decreases |s|
  {
    if |sub| == 0 then true
    else if |s| == 0 then false
    else if sub[0] == s[0] then IsSubsequence(sub[1..], s[1..])
    else IsSubsequence(sub, s[1..])
  }

  /** Filtering keeps the original order: its result is a subsequence. */
  lemma {:induction false} FilterIsSubsequence<T>(s: seq<T>, keep: T -> bool)
    ensures IsSubsequence(Filter(s, keep), s)
    decreases |s|
  {
    if |s| > 0 {
      FilterIsSubsequence(s[1..], keep);
      var f := Filter(s[1..], keep);
      if !keep(s[0]) && |f| > 0 {
        // The head of `f` is kept and `s[0]` is not, so they differ.
        assert f[0] in f;
        assert f[0] != s[0];
      }
    }
  }

  /** Filtering distributes over concatenation: the order of the kept elements
      is the order of the input. */
  lemma {:induction false} FilterAppend<T>(a: seq<T>, b: seq<T>, keep: T -> bool)
    ensures Filter(a + b, keep) == Filter(a, keep) + Filter(b, keep)
    decreases |a|
  {
    if |a| == 0 {
      assert a + b == b;
    } else {
      assert (a + b)[1..] == a[1..] + b;
      FilterAppend(a[1..], b, keep);
    }
  }

  /** Every element that satisfies `keep` survives: filtering a sequence
      whose elements all satisfy `keep` returns it unchanged. */
  lemma {:induction false} FilterAllKept<T>(s: seq<T>, keep: T -> bool)
    requires forall i :: 0 <= i < |s| ==> keep(s[i])
    ensures Filter(s, keep) == s
    decreases |s|
  {
    if |s| > 0 {
      FilterAllKept(s[1..], keep);
    }
  }

  /** Filtering twice with the same predicate is filtering once. */
  lemma FilterIdempotent<T>(s: seq<T>, keep: T -> bool)
    ensures Filter(Filter(s, keep), keep) == Filter(s, keep)
  {
    var f := Filter(s, keep);
    forall i | 0 <= i < |f|
      ensures keep(f[i])
    {
      assert f[i] in f;
    }
    FilterAllKept(f, keep);
  }
}
