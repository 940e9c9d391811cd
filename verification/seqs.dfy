/** Sequence helpers: order-preserving selection (a Python list
    comprehension with an `if` clause) and the subsequence relation. */
module Seqs {

  /** `a` can be obtained from `b` by deleting elements, keeping the order. */
  predicate IsSubsequence<T(==)>(a: seq<T>, b: seq<T>)
    decreases |b|
  {
    if |b| == 0 then |a| == 0
    else IsSubsequence(a, b[1..]) || (|a| > 0 && a[0] == b[0] && IsSubsequence(a[1..], b[1..]))
  }

  /** `[x for x in s if keep(x)]` */
  function Filter<T(==)>(s: seq<T>, keep: T -> bool): (r: seq<T>)
    ensures |r| <= |s|
    ensures forall i :: 0 <= i < |r| ==> r[i] in s && keep(r[i])
    ensures forall i :: 0 <= i < |s| && keep(s[i]) ==> s[i] in r
    ensures IsSubsequence(r, s)
  {
    if |s| == 0 then []
    else if keep(s[0]) then [s[0]] + Filter(s[1..], keep)
    else Filter(s[1..], keep)
  }

  /** Filtering a prefix extended by one element: how a loop that appends
      the kept elements builds `Filter` step by step. */
  lemma {:induction false} FilterSnoc<T>(s: seq<T>, x: T, keep: T -> bool)
    ensures Filter(s + [x], keep) == Filter(s, keep) + (if keep(x) then [x] else [])
    decreases |s|
  {
    if |s| == 0 {
      assert s + [x] == [x];
    } else {
      assert (s + [x])[0] == s[0];
      assert (s + [x])[1..] == s[1..] + [x];
      FilterSnoc(s[1..], x, keep);
    }
  }

  /** When every element satisfies exactly one of three tests, the three
      selections together hold every element of `s`, as often as `s` does. */
  lemma {:induction false} FilterPartition<T>(s: seq<T>, p: T -> bool, q: T -> bool, r: T -> bool)
    requires forall i :: 0 <= i < |s| ==>
               && (p(s[i]) || q(s[i]) || r(s[i]))
               && !(p(s[i]) && q(s[i])) && !(p(s[i]) && r(s[i])) && !(q(s[i]) && r(s[i]))
    ensures multiset(Filter(s, p)) + multiset(Filter(s, q)) + multiset(Filter(s, r)) == multiset(s)
    decreases |s|
  {
    if |s| > 0 {
      assert s == [s[0]] + s[1..];
      FilterPartition(s[1..], p, q, r);
    }
  }

  /** The first element kept is the first element of `s` that passes. */
  lemma {:induction false} FilterHead<T>(s: seq<T>, keep: T -> bool)
    requires |Filter(s, keep)| > 0
    ensures exists i :: 0 <= i < |s| && s[i] == Filter(s, keep)[0] && keep(s[i]) &&
                        forall j :: 0 <= j < i ==> !keep(s[j])
    decreases |s|
  {
    if !keep(s[0]) {
      FilterHead(s[1..], keep);
      var i :| 0 <= i < |s[1..]| && s[1..][i] == Filter(s[1..], keep)[0] && keep(s[1..][i]) &&
               forall j :: 0 <= j < i ==> !keep(s[1..][j]);
      assert s[i + 1] == s[1..][i];
      forall j | 0 <= j < i + 1
        ensures !keep(s[j])
      {
        if j > 0 {
          assert s[j] == s[1..][j - 1];
        }
      }
    }
  }
}
