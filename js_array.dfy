/**
 * The Array.prototype operations the services and hooks rely on:
 * `findIndex` (first position satisfying a predicate, or -1), `filter`
 * (the satisfying elements, in their original order), a summing `reduce`
 * and `join`.
 */
module JsArray {

  /** `s.findIndex(p)`: the first index whose element satisfies `p`, or -1. */
  function FindIndex<T>(s: seq<T>, p: T -> bool): (k: int)
    ensures -1 <= k < |s|
    ensures k >= 0 ==> p(s[k])
    ensures k >= 0 ==> forall j :: 0 <= j < k ==> !p(s[j])
    ensures k == -1 <==> forall j :: 0 <= j < |s| ==> !p(s[j])
  {
    if |s| == 0 then -1
    else if p(s[0]) then 0
    else
      var k := FindIndex(s[1..], p);
      if k == -1 then -1 else k + 1
  }

  /** `s.filter(p)`: the elements satisfying `p`, in order. */
  function Filter<T>(s: seq<T>, p: T -> bool): (r: seq<T>)
    ensures |r| <= |s|
    ensures forall i :: 0 <= i < |r| ==> p(r[i])
  {
    if |s| == 0 then []
    else if p(s[0]) then [s[0]] + Filter(s[1..], p)
    else Filter(s[1..], p)
  }

  /** An element survives `filter` exactly when it was there and satisfies the predicate. */
  lemma {:induction false} FilterMembership<T>(s: seq<T>, p: T -> bool, x: T)
    ensures x in Filter(s, p) <==> x in s && p(x)
  {
    if |s| > 0 {
      FilterMembership(s[1..], p, x);
      assert s == [s[0]] + s[1..];
    }
  }

  /** Filtering with a predicate every element satisfies changes nothing. */
  lemma {:induction false} FilterKeepsAll<T>(s: seq<T>, p: T -> bool)
    requires forall i :: 0 <= i < |s| ==> p(s[i])
    ensures Filter(s, p) == s
  {
    if |s| > 0 {
      FilterKeepsAll(s[1..], p);
      assert s == [s[0]] + s[1..];
    }
  }

  /** Two filters in a row keep the elements satisfying both, in their original order. */
  lemma {:induction false} FilterFilter<T>(s: seq<T>, p: T -> bool, q: T -> bool, both: T -> bool)
    requires forall i :: 0 <= i < |s| ==> both(s[i]) == (p(s[i]) && q(s[i]))
    ensures Filter(Filter(s, p), q) == Filter(s, both)
  {
    if |s| > 0 {
      FilterFilter(s[1..], p, q, both);
      if p(s[0]) {
        assert Filter(s, p) == [s[0]] + Filter(s[1..], p);
        assert Filter(s, p)[1..] == Filter(s[1..], p);
      }
    }
  }

  /** Filters with predicates that agree on every element give the same result. */
  lemma {:induction false} FilterSame<T>(s: seq<T>, p: T -> bool, q: T -> bool)
    requires forall i :: 0 <= i < |s| ==> p(s[i]) == q(s[i])
    ensures Filter(s, p) == Filter(s, q)
  {
    if |s| > 0 {
      FilterSame(s[1..], p, q);
    }
  }

  /** `a` is `b` with some elements dropped and the rest kept in their order. */
  predicate IsSubsequence<T(==)>(a: seq<T>, b: seq<T>)
    decreases |b|
  {
    |a| == 0 || (|b| > 0 && ((a[0] == b[0] && IsSubsequence(a[1..], b[1..])) || IsSubsequence(a, b[1..])))
  }

  /** `filter` keeps the surviving elements in their original order. */
  lemma {:induction false} FilterIsSubsequence<T>(s: seq<T>, p: T -> bool)
    ensures IsSubsequence(Filter(s, p), s)
  {
    if |s| > 0 {
      FilterIsSubsequence(s[1..], p);
      if p(s[0]) {
        assert Filter(s, p)[1..] == Filter(s[1..], p);
      }
    }
  }

  /** Filtering out the one element at `k` that fails `p` is removing position `k`. */
  lemma {:induction false} FilterRemovesOne<T>(s: seq<T>, p: T -> bool, k: nat)
    requires k < |s|
    requires !p(s[k])
    requires forall i :: 0 <= i < |s| && i != k ==> p(s[i])
    ensures Filter(s, p) == s[..k] + s[k + 1..]
  {
    if k == 0 {
      FilterKeepsAll(s[1..], p);
    } else {
      FilterRemovesOne(s[1..], p, k - 1);
      assert s[1..][..k - 1] == s[1..k];
      assert s[1..][k..] == s[k + 1..];
      assert s[..k] == [s[0]] + s[1..k];
    }
  }

  /** The sequence without its element at `k` (`s.splice(k, 1)` on a copy). */
  function RemoveAt<T>(s: seq<T>, k: nat): (r: seq<T>)
    requires k < |s|
    ensures |r| == |s| - 1
    decreases |s|
  {
    if k == 0 then s[1..] else [s[0]] + RemoveAt(s[1..], k - 1)
  }

  /** Removing position `k` keeps what precedes it and what follows it. */
  lemma {:induction false} RemoveAtSlices<T>(s: seq<T>, k: nat)
    requires k < |s|
    ensures RemoveAt(s, k) == s[..k] + s[k + 1..]
    decreases |s|
  {
    if k > 0 {
      RemoveAtSlices(s[1..], k - 1);
      assert s[1..][..k - 1] == s[1..k];
      assert s[1..][k..] == s[k + 1..];
      assert s[..k] == [s[0]] + s[1..k];
    }
  }

  /** Element `i` of the shortened sequence is element `i` or `i + 1` of the original. */
  lemma RemoveAtIndex<T>(s: seq<T>, k: nat)
    requires k < |s|
    ensures forall i :: 0 <= i < |s| - 1 ==> RemoveAt(s, k)[i] == s[if i < k then i else i + 1]
  {
    RemoveAtSlices(s, k);
  }

  /** `s.reduce((sum, x) => sum + f(x), 0)`: the running total, added left to right. */
  function SumBy<T>(s: seq<T>, f: T -> int): int {
    if |s| == 0 then 0 else SumBy(s[..|s| - 1], f) + f(s[|s| - 1])
  }

  lemma {:induction false} SumByConcat<T>(a: seq<T>, b: seq<T>, f: T -> int)
    ensures SumBy(a + b, f) == SumBy(a, f) + SumBy(b, f)
  {
    if |b| > 0 {
      SumByConcat(a, b[..|b| - 1], f);
      assert (a + b)[..|a + b| - 1] == a + b[..|b| - 1];
    } else {
      assert a + b == a;
    }
  }

  /** Replacing one element changes the total by the difference of the two. */
  lemma SumByUpdate<T>(s: seq<T>, k: nat, x: T, f: T -> int)
    requires k < |s|
    ensures SumBy(s[k := x], f) == SumBy(s, f) - f(s[k]) + f(x)
  {
    SumBySplit(s, k, f);
    SumBySplit(s[k := x], k, f);
    assert s[k := x][..k] == s[..k];
    assert s[k := x][k + 1..] == s[k + 1..];
  }

  /** Removing one element lowers the total by that element's share. */
  lemma SumByRemove<T>(s: seq<T>, k: nat, f: T -> int)
    requires k < |s|
    ensures SumBy(s[..k] + s[k + 1..], f) == SumBy(s, f) - f(s[k])
  {
    SumBySplit(s, k, f);
    SumByConcat(s[..k], s[k + 1..], f);
  }

  lemma SumBySplit<T>(s: seq<T>, k: nat, f: T -> int)
    requires k < |s|
    ensures SumBy(s, f) == SumBy(s[..k], f) + f(s[k]) + SumBy(s[k + 1..], f)
  {
    assert s == s[..k] + [s[k]] + s[k + 1..];
    SumByConcat(s[..k] + [s[k]], s[k + 1..], f);
    assert (s[..k] + [s[k]])[..k] == s[..k];
  }

  /** `parts.join(sep)`. */
  function Join(parts: seq<string>, sep: string): string {
    if |parts| == 0 then ""
    else if |parts| == 1 then parts[0]
    else parts[0] + sep + Join(parts[1..], sep)
  }

  /** Joining one more part appends the separator and that part. */
  lemma {:induction false} JoinAppend(parts: seq<string>, p: string, sep: string)
    requires |parts| > 0
    ensures Join(parts + [p], sep) == Join(parts, sep) + sep + p
  {
    if |parts| > 1 {
      JoinAppend(parts[1..], p, sep);
      assert (parts + [p])[1..] == parts[1..] + [p];
    }
  }
}
