/** Sequence operations the stores are built from: JavaScript's
    `Array.prototype.filter`, `reverse` and `slice` with a negative start. */
module Lists {

  /** `s.filter(keep)`: the elements that satisfy `keep`, in their order. */
  function Filter<T>(s: seq<T>, keep: T -> bool): (r: seq<T>)
    ensures |r| <= |s|
    ensures forall i :: 0 <= i < |r| ==> keep(r[i]) && r[i] in s
  {
    if s == [] then []
    else if keep(s[0]) then [s[0]] + Filter(s[1..], keep)
    else Filter(s[1..], keep)
  }

  /** Filtering distributes over concatenation, so it keeps the relative order. */
  lemma {:induction false} FilterAppend<T>(a: seq<T>, b: seq<T>, keep: T -> bool)
    ensures Filter(a + b, keep) == Filter(a, keep) + Filter(b, keep)
  {
    if a != [] {
      assert (a + b)[1..] == a[1..] + b;
      FilterAppend(a[1..], b, keep);
    } else {
      assert a + b == b;
    }
  }

  /** An element is kept exactly when it is in the input and satisfies the predicate. */
  lemma {:induction false} FilterMembers<T>(s: seq<T>, keep: T -> bool, x: T)
    ensures x in Filter(s, keep) <==> x in s && keep(x)
  {
    if s != [] {
      FilterMembers(s[1..], keep, x);
      assert x in s <==> x == s[0] || x in s[1..];
    }
  }

  /** A filter that rejects nothing is the identity. */
  lemma {:induction false} FilterKeepsAll<T>(s: seq<T>, keep: T -> bool)
    requires forall i :: 0 <= i < |s| ==> keep(s[i])
    ensures Filter(s, keep) == s
  {
    if s != [] {
      FilterKeepsAll(s[1..], keep);
    }
  }

  /** Filtering by a stronger predicate after a weaker one is filtering by
      the stronger one alone; in particular filtering twice by the same
      predicate is filtering once. */
  lemma {:induction false} FilterFilter<T>(s: seq<T>, weak: T -> bool, strong: T -> bool)
    requires forall x :: strong(x) ==> weak(x)
    ensures Filter(Filter(s, weak), strong) == Filter(s, strong)
  {
    if s != [] {
      FilterFilter(s[1..], weak, strong);
    }
  }

  function Reverse<T>(s: seq<T>): (r: seq<T>)
    ensures |r| == |s|
    ensures forall i :: 0 <= i < |s| ==> r[i] == s[|s| - 1 - i]
  {
    if s == [] then [] else Reverse(s[1..]) + [s[0]]
  }

  /** `s.slice(start)` with JavaScript's handling of a negative start. */
  function SliceFrom<T>(s: seq<T>, start: int): (r: seq<T>)
  {
    if start < 0 then s[(if |s| + start < 0 then 0 else |s| + start)..]
    else s[(if start < |s| then start else |s|)..]
  }

  /** `s.slice(-n)` for `n > 0` is the last `min(n, |s|)` elements. */
  lemma SliceFromLast<T>(s: seq<T>, n: int)
    requires n > 0
    ensures |SliceFrom(s, -n)| == if n < |s| then n else |s|
    ensures SliceFrom(s, -n) == s[|s| - |SliceFrom(s, -n)|..]
  {
  }
}
