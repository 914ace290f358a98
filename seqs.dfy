/** `Array.prototype.filter` and SQL's row selection, as one function on sequences. */
module Seqs {

  /** The elements of `s` that satisfy `keep`, in their original order. */
  function Filter<T(!new)>(s: seq<T>, keep: T -> bool): (r: seq<T>)
    ensures |r| <= |s|
    ensures forall x :: x in r <==> x in s && keep(x)
  {
    if s == [] then []
    else (if keep(s[0]) then [s[0]] else []) + Filter(s[1..], keep)
  }

  /** Filtering distributes over concatenation, so the kept elements stay in order. */
  lemma {:induction false} FilterAppend<T(!new)>(a: seq<T>, b: seq<T>, keep: T -> bool)
    ensures Filter(a + b, keep) == Filter(a, keep) + Filter(b, keep)
  {
    if a == [] {
      assert a + b == b;
    } else {
      assert (a + b)[1..] == a[1..] + b;
      FilterAppend(a[1..], b, keep);
    }
  }

  /** Every element survives exactly as often as it occurs, when it is kept. */
  lemma {:induction false} FilterCount<T(!new)>(s: seq<T>, keep: T -> bool, x: T)
    ensures multiset(Filter(s, keep))[x] == if keep(x) then multiset(s)[x] else 0
  {
    if s != [] {
      FilterCount(s[1..], keep, x);
      assert s == [s[0]] + s[1..];
    }
  }

  /** Sequences that agree on which positions are kept, and on the kept elements, filter alike. */
  lemma {:induction false} FilterAgree<T(!new)>(a: seq<T>, b: seq<T>, keep: T -> bool)
    requires |a| == |b|
    requires forall m :: 0 <= m < |a| ==> keep(a[m]) == keep(b[m])
    requires forall m :: 0 <= m < |b| && keep(b[m]) ==> a[m] == b[m]
    ensures Filter(a, keep) == Filter(b, keep)
  {
    if a != [] {
      FilterAgree(a[1..], b[1..], keep);
    }
  }

  /** Nothing is kept when no element qualifies. */
  lemma {:induction false} FilterNone<T(!new)>(s: seq<T>, keep: T -> bool)
    requires forall m :: 0 <= m < |s| ==> !keep(s[m])
    ensures Filter(s, keep) == []
  {
    if s != [] {
      assert !keep(s[0]);
      assert forall m :: 0 <= m < |s[1..]| ==> s[1..][m] == s[m + 1];
      FilterNone(s[1..], keep);
    }
  }
}
