/**
  Sequence operations that the note store borrows from JavaScript arrays:
  `filter`, and what it means for one array to be an order-preserving
  selection of another.
 */
module Sequences {

  /** No element occurs twice. */
  predicate Distinct<T(==)>(s: seq<T>) {
    forall i, j :: 0 <= i < j < |s| ==> s[i] != s[j]
  }

  /** `Array.prototype.filter`: the elements of `s` that satisfy `p`, in order. */
  function Filter<T>(s: seq<T>, p: T -> bool): (r: seq<T>)
    ensures |r| <= |s|
    ensures forall k :: 0 <= k < |r| ==> r[k] in s && p(r[k])
    ensures forall k :: 0 <= k < |s| && p(s[k]) ==> s[k] in r
  {
    if s == [] then []
    else if p(s[0]) then [s[0]] + Filter(s[1..], p)
    else Filter(s[1..], p)
  }

  /** `r` is `s` read at the strictly increasing positions `idx`. */
  ghost predicate Selects<T>(s: seq<T>, idx: seq<int>, r: seq<T>) {
    && |idx| == |r|
    && (forall k :: 0 <= k < |idx| ==> 0 <= idx[k] < |s| && r[k] == s[idx[k]])
    && (forall j, k :: 0 <= j < k < |idx| ==> idx[j] < idx[k])
  }

  /** `r` is an order-preserving subsequence of `s`. */
  ghost predicate IsSubsequence<T>(r: seq<T>, s: seq<T>) {
    exists idx :: Selects(s, idx, r)
  }

  lemma {:induction false} FilterIsSubsequence<T>(s: seq<T>, p: T -> bool)
    ensures IsSubsequence(Filter(s, p), s)
  {
    if s == [] {
      assert Selects(s, [], Filter(s, p));
    } else {
      FilterIsSubsequence(s[1..], p);
      var idx :| Selects(s[1..], idx, Filter(s[1..], p));
      var shifted := ShiftedSelects(s, idx, Filter(s[1..], p));
      if p(s[0]) {
        ConsSelects(s, shifted, Filter(s[1..], p));
      }
    }
  }

  /** Positions into `s[1..]` become positions into `s`. */
  lemma ShiftedSelects<T>(s: seq<T>, idx: seq<int>, r: seq<T>) returns (shifted: seq<int>)
    requires s != [] && Selects(s[1..], idx, r)
    ensures Selects(s, shifted, r)
    ensures forall k :: 0 <= k < |shifted| ==> 1 <= shifted[k]
  {
    shifted := seq(|idx|, k requires 0 <= k < |idx| => idx[k] + 1);
  }

  /** Selecting the head as well adds position 0 in front. */
  lemma ConsSelects<T>(s: seq<T>, idx: seq<int>, r: seq<T>)
    requires s != [] && Selects(s, idx, r)
    requires forall k :: 0 <= k < |idx| ==> 1 <= idx[k]
    ensures Selects(s, [0] + idx, [s[0]] + r)
  {
    var all := [0] + idx;
    assert forall k :: 1 <= k < |all| ==> all[k] == idx[k - 1];
  }

  lemma {:induction false} FilterAppend<T>(a: seq<T>, b: seq<T>, p: T -> bool)
    ensures Filter(a + b, p) == Filter(a, p) + Filter(b, p)
  {
    if a == [] {
      assert a + b == b;
    } else {
      assert (a + b)[1..] == a[1..] + b;
      FilterAppend(a[1..], b, p);
    }
  }

  /** Filtering with a predicate every element satisfies changes nothing. */
  lemma {:induction false} FilterKeepsAll<T>(s: seq<T>, p: T -> bool)
    requires forall i :: 0 <= i < |s| ==> p(s[i])
    ensures Filter(s, p) == s
  {
    if s != [] {
      FilterKeepsAll(s[1..], p);
    }
  }

  /** Filtering out exactly the element at `k` is splicing it out. */
  lemma {:induction false} FilterDropsOne<T>(s: seq<T>, p: T -> bool, k: int)
    requires 0 <= k < |s| && !p(s[k])
    requires forall i :: 0 <= i < |s| && i != k ==> p(s[i])
    ensures Filter(s, p) == s[..k] + s[k + 1..]
  {
    if k == 0 {
      FilterKeepsAll(s[1..], p);
    } else {
      FilterDropsOne(s[1..], p, k - 1);
      assert s[..k] + s[k + 1..] == [s[0]] + (s[1..][..k - 1] + s[1..][k..]);
    }
  }

  lemma {:induction false} FilterKeepsDistinct<T>(s: seq<T>, p: T -> bool)
    requires Distinct(s)
    ensures Distinct(Filter(s, p))
  {
    if s != [] {
      FilterKeepsDistinct(s[1..], p);
      if p(s[0]) {
        var rest := Filter(s[1..], p);
        assert s[0] !in s[1..];
        assert s[0] !in rest;
        var r := [s[0]] + rest;
        forall i, j | 0 <= i < j < |r| ensures r[i] != r[j] {
          if i > 0 {
            assert r[i] == rest[i - 1] && r[j] == rest[j - 1];
          } else {
            assert r[j] in rest;
          }
        }
      }
    }
  }
}
