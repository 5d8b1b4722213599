/** What the visualizer's sorting algorithms promise about the array they leave behind. */
module SortSpec {

  /** Non-decreasing from left to right. */
  predicate Sorted(s: seq<int>) {
    forall p, q :: 0 <= p < q < |s| ==> s[p] <= s[q]
  }

  /** Non-decreasing on the index range [lo, hi). */
  predicate SortedBetween(s: seq<int>, lo: int, hi: int) {
    forall p, q :: 0 <= lo <= p < q < hi <= |s| ==> s[p] <= s[q]
  }

  /** Every element of `s` is strictly below `bound`. */
  predicate AllBelow(s: seq<int>, bound: int) {
    forall k :: 0 <= k < |s| ==> s[k] < bound
  }

  /** Every element of `s` is at least `bound`. */
  predicate AllAtLeast(s: seq<int>, bound: int) {
    forall k :: 0 <= k < |s| ==> bound <= s[k]
  }

  /** A bound on every element survives a rearrangement. */
  lemma BoundsSurvivePermutation(s: seq<int>, t: seq<int>, bound: int)
    requires multiset(s) == multiset(t)
    ensures AllBelow(s, bound) ==> AllBelow(t, bound)
    ensures AllAtLeast(s, bound) ==> AllAtLeast(t, bound)
  {
    forall k | 0 <= k < |t| ensures t[k] in multiset(s) {
      assert t[k] in multiset(t);
    }
    forall k | 0 <= k < |t| ensures exists j :: 0 <= j < |s| && s[j] == t[k] {
      assert t[k] in multiset(s);
    }
  }

  /** The number of pairs among `len` elements: 0 + 1 + ... + (len - 1). */
  function Pairs(len: int): nat {
    if len <= 1 then 0 else Pairs(len - 1) + (len - 1)
  }

  /** The closed form len(len - 1)/2. */
  lemma {:induction false} PairsClosedForm(len: nat)
    ensures 2 * Pairs(len) == len * (len - 1)
  {
    if len > 1 {
      PairsClosedForm(len - 1);
    }
  }

  /** s[lo..hi] is a rearrangement of t[lo..hi]. */
  predicate SameSegment(s: seq<int>, t: seq<int>, lo: int, hi: int)
    requires 0 <= lo <= hi <= |s| && hi <= |t|
  {
    multiset(s[lo..hi]) == multiset(t[lo..hi])
  }

  /** `s` and `t` agree everywhere outside [lo, hi). */
  predicate UnchangedOutside(s: seq<int>, t: seq<int>, lo: int, hi: int) {
    |s| == |t| && forall k :: 0 <= k < |s| && !(lo <= k < hi) ==> s[k] == t[k]
  }

  /** Exchanging two positions inside [lo, hi) keeps that segment's multiset. */
  lemma SwapKeepsSegment(s: seq<int>, i: int, j: int, lo: int, hi: int)
    requires 0 <= lo <= i < hi <= |s| && lo <= j < hi
    ensures SameSegment(s[i := s[j]][j := s[i]], s, lo, hi)
  {
    var t := s[i := s[j]][j := s[i]];
    assert t[lo..hi] == s[lo..hi][i - lo := s[j]][j - lo := s[i]];
  }

  /** `s` is `t` with the segment [lo, hi) rearranged and nothing else touched. */
  predicate RearrangesSegment(s: seq<int>, t: seq<int>, lo: int, hi: int)
    requires 0 <= lo <= hi <= |s| && hi <= |t|
  {
    SameSegment(s, t, lo, hi) && UnchangedOutside(s, t, lo, hi)
  }

  /** `s` is `t` with the segment [lo, hi) sorted in place and nothing else touched. */
  predicate SortsSegment(s: seq<int>, t: seq<int>, lo: int, hi: int)
    requires 0 <= lo <= hi <= |s| && hi <= |t|
  {
    SortedBetween(s, lo, hi) && RearrangesSegment(s, t, lo, hi)
  }

  /** Exchanges two elements of the segment a[lo..hi]; the segment keeps its multiset. */
  method Swap(a: array<int>, i: int, j: int, ghost lo: int, ghost hi: int)
    requires 0 <= lo <= i < hi <= a.Length && lo <= j < hi
    modifies a
    ensures a[..] == old(a[..])[i := old(a[j])][j := old(a[i])]
    ensures RearrangesSegment(a[..], old(a[..]), lo, hi)
  {
    SwapKeepsSegment(a[..], i, j, lo, hi);
    a[i], a[j] := a[j], a[i];
  }

  /**
   * The indices bubble sort and heap sort mark as sorted, in order: the last
   * position of each pass (n - 1, n - 2, ..., 1), then 0.
   */
  function PassMarks(n: nat): seq<int> {
    seq(if n == 0 then 0 else n - 1, k => n - 1 - k) + [0]
  }

  /** On a non-empty array every index is marked exactly once. */
  lemma PassMarksCoverIndices(n: nat)
    requires n >= 1
    ensures |PassMarks(n)| == n
    ensures forall k :: 0 <= k < n <==> k in PassMarks(n)
    ensures forall p, q :: 0 <= p < q < n ==> PassMarks(n)[p] != PassMarks(n)[q]
  {
    var marks := PassMarks(n);
    forall k | 0 <= k < n ensures k in marks {
      if k == 0 {
        assert marks[n - 1] == 0;
      } else {
        assert marks[n - 1 - k] == k;
      }
    }
  }

  /**
   * Rearranging a prefix keeps it below a suffix that was above all of it.
   */
  lemma PrefixBoundKept(before: seq<int>, after: seq<int>, limit: int)
    requires 0 <= limit <= |before| == |after|
    requires multiset(after[..limit]) == multiset(before[..limit])
    requires forall k :: limit <= k < |before| ==> after[k] == before[k]
    requires forall p, q :: 0 <= p < limit <= q < |before| ==> before[p] <= before[q]
    ensures forall p, q :: 0 <= p < limit <= q < |after| ==> after[p] <= after[q]
  {
    forall p, q | 0 <= p < limit <= q < |after| ensures after[p] <= after[q] {
      assert after[p] == after[..limit][p];
      assert after[p] in multiset(before[..limit]);
      var r :| 0 <= r < limit && before[..limit][r] == after[p];
      assert before[r] <= before[q];
    }
  }

  /** Rearranging one segment rearranges the whole sequence. */
  lemma SegmentToWhole(s: seq<int>, t: seq<int>, lo: int, hi: int)
    requires 0 <= lo <= hi <= |s| == |t| && RearrangesSegment(s, t, lo, hi)
    ensures multiset(s) == multiset(t)
  {
    assert s == s[..lo] + s[lo..hi] + s[hi..];
    assert t == t[..lo] + t[lo..hi] + t[hi..];
    assert s[..lo] == t[..lo] && s[hi..] == t[hi..];
  }

  /** Rearranging a sub-segment of a rearranged segment is a rearrangement of that segment. */
  lemma RearrangeWithin(s0: seq<int>, s1: seq<int>, s2: seq<int>, lo: int, hi: int, lo2: int, hi2: int)
    requires 0 <= lo <= lo2 <= hi2 <= hi <= |s0| == |s1| == |s2|
    requires RearrangesSegment(s1, s0, lo, hi) && RearrangesSegment(s2, s1, lo2, hi2)
    ensures RearrangesSegment(s2, s0, lo, hi)
  {
    assert s2[lo..hi] == s2[lo..lo2] + s2[lo2..hi2] + s2[hi2..hi];
    assert s1[lo..hi] == s1[lo..lo2] + s1[lo2..hi2] + s1[hi2..hi];
    assert s2[lo..lo2] == s1[lo..lo2] && s2[hi2..hi] == s1[hi2..hi];
  }
}
