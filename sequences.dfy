/** Order-preserving selection and mapping, the models of `Array.prototype.filter` and `map`. */
module Sequences {

  /** `a` is obtained from `b` by deleting elements, keeping the order of the rest. */
  predicate IsSubsequence<T(==)>(a: seq<T>, b: seq<T>)
    decreases |b|
  {
    |a| == 0 || (|b| > 0 && ((a[0] == b[0] && IsSubsequence(a[1..], b[1..])) || IsSubsequence(a, b[1..])))
  }

  /** Every sequence is a subsequence of itself. */
  lemma {:induction false} SubsequenceOfItself<T>(s: seq<T>)
    ensures IsSubsequence(s, s)
  {
    if |s| > 0 {
      SubsequenceOfItself(s[1..]);
    }
  }

  /** `s.filter(keep)`: the elements `keep` accepts, in their original order. */
  function Filter<T(==)>(s: seq<T>, keep: T -> bool): (r: seq<T>)
    ensures |r| <= |s|
    ensures forall k :: 0 <= k < |r| ==> r[k] in s && keep(r[k])
    ensures forall k :: 0 <= k < |s| && keep(s[k]) ==> s[k] in r
    ensures IsSubsequence(r, s)
  {
    if |s| == 0 then []
    else if keep(s[0]) then [s[0]] + Filter(s[1..], keep)
    else Filter(s[1..], keep)
  }

  /** The filter keeps every accepted element as often as it occurs, and nothing else. */
  lemma {:induction false} FilterCounts<T>(s: seq<T>, keep: T -> bool)
    ensures forall x :: multiset(Filter(s, keep))[x] == if keep(x) then multiset(s)[x] else 0
  {
    if |s| > 0 {
      FilterCounts(s[1..], keep);
      assert s == [s[0]] + s[1..];
      assert multiset(s) == multiset{s[0]} + multiset(s[1..]);
      if keep(s[0]) {
        assert multiset(Filter(s, keep)) == multiset{s[0]} + multiset(Filter(s[1..], keep));
      }
    }
  }

  /** A filter that accepts everything returns its input. */
  lemma {:induction false} FilterKeepsAll<T>(s: seq<T>, keep: T -> bool)
    requires forall k :: 0 <= k < |s| ==> keep(s[k])
    ensures Filter(s, keep) == s
  {
    if |s| > 0 {
      assert keep(s[0]);
      FilterKeepsAll(s[1..], keep);
    }
  }

  /** `s.map(f)`: `f` applied to every element, in order. */
  function Map<T, U>(s: seq<T>, f: T -> U): (r: seq<U>)
    ensures |r| == |s| && forall k :: 0 <= k < |s| ==> r[k] == f(s[k])
  {
    seq(|s|, k requires 0 <= k < |s| => f(s[k]))
  }

  /** Filtering a concatenation filters each part. */
  lemma {:induction false} FilterAppend<T>(a: seq<T>, b: seq<T>, keep: T -> bool)
    ensures Filter(a + b, keep) == Filter(a, keep) + Filter(b, keep)
  {
    if |a| == 0 {
      assert a + b == b;
    } else {
      assert (a + b)[1..] == a[1..] + b;
      FilterAppend(a[1..], b, keep);
    }
  }

  /** Concatenation is associative; stated once so that proofs about long concatenations can
      regroup them without unfolding their elements. */
  lemma AppendAssoc<T>(a: seq<T>, b: seq<T>, c: seq<T>)
    ensures a + b + c == a + (b + c)
  {
  }

  lemma Regroup4<T>(a: seq<T>, b: seq<T>, c: seq<T>, d: seq<T>)
    ensures a + b + c + d == a + (b + c + d)
  {
    AppendAssoc(a, b, c);
    AppendAssoc(a, b + c, d);
  }

  lemma Regroup5<T>(a: seq<T>, b: seq<T>, c: seq<T>, d: seq<T>, e: seq<T>)
    ensures a + b + c + d + e == a + (b + c + d + e)
  {
    Regroup4(a, b, c, d);
    AppendAssoc(a, b + c + d, e);
  }
}
