/**
 * `bubbleSortVisualization` of app/components/algorithm-visualizer.tsx,
 * without its animation: n - 1 passes over a copy of the array, each
 * comparing every adjacent pair of the unsorted prefix and swapping it when
 * the left element is larger.  There is no early exit, so every run makes the
 * same number of comparisons.
 */
module BubbleSortVisualizer {
  import opened SortSpec

  /**
   * One pass over the unsorted prefix a[..limit]: compares each adjacent
   * pair from the left and swaps it when the left element is larger, which
   * carries the largest element of the prefix to position limit - 1.
   */
  method BubblePass(a: array<int>, limit: int) returns (comparisons: nat)
    requires 1 <= limit <= a.Length
    modifies a
    ensures comparisons == limit - 1
    ensures forall k :: 0 <= k < limit ==> a[k] <= a[limit - 1]
    ensures RearrangesSegment(a[..], old(a[..]), 0, limit)
  {
    comparisons := 0;
    var j := 0;
    while j < limit - 1
      invariant 0 <= j <= limit - 1
      invariant comparisons == j
      invariant MaxAt(a[..], j)
      invariant RearrangesSegment(a[..], old(a[..]), 0, limit)
    {
      CompareAdjacent(a, j, limit);
      comparisons := comparisons + 1;
      j := j + 1;
    }
  }

  /** One comparison of the pass: swaps a[j] and a[j + 1] when a[j] is larger. */
  method CompareAdjacent(a: array<int>, j: int, limit: int)
    requires 0 <= j < j + 1 < limit <= a.Length && MaxAt(a[..], j)
    modifies a
    ensures MaxAt(a[..], j + 1)
    ensures RearrangesSegment(a[..], old(a[..]), 0, limit)
  {
    ghost var before := a[..];
    if a[j] > a[j + 1] {
      Swap(a, j, j + 1, 0, limit);
    }
    CarryMax(before, a[..], j);
  }

  /** No element of s[..j + 1] exceeds s[j]. */
  predicate MaxAt(s: seq<int>, j: int)
    requires 0 <= j < |s|
  {
    forall k :: 0 <= k <= j ==> s[k] <= s[j]
  }

  /** Comparing s[j] with s[j + 1] and swapping them when out of order carries the maximum one step right. */
  lemma CarryMax(s: seq<int>, t: seq<int>, j: int)
    requires 0 <= j < j + 1 < |s| && MaxAt(s, j)
    requires if s[j] > s[j + 1] then t == s[j := s[j + 1]][j + 1 := s[j]] else t == s
    ensures MaxAt(t, j + 1)
  {
  }

  /**
   * Sorts `a` in place and returns the number of comparisons (the final
   * `stepCount`, which becomes `totalSteps`) and the sorted marks.  After pass
   * i the position n - 1 - i holds the largest element of a[..n - i].
   */
  method BubbleSort(a: array<int>) returns (steps: nat, marks: seq<int>)
    modifies a
    ensures Sorted(a[..])
    ensures multiset(a[..]) == multiset(old(a[..]))
    ensures 2 * steps == a.Length * (a.Length - 1)
    ensures marks == PassMarks(a.Length)
  {
    var n := a.Length;
    steps := 0;
    marks := [];
    var limit := n;
    while limit > 1
      invariant 0 <= limit <= n && (n > 0 ==> limit >= 1)
      invariant multiset(a[..]) == multiset(old(a[..]))
      invariant SuffixSettled(a[..], limit)
      invariant steps == Pairs(n) - Pairs(limit)
      invariant marks == seq(n - limit, k => n - 1 - k)
    {
      var comparisons := SettleOneMore(a, limit);
      steps := steps + comparisons;
      marks := marks + [limit - 1];
      limit := limit - 1;
    }
    marks := marks + [0];
    PairsClosedForm(n);
    if n > 0 {
      SettledIsSorted(a[..]);
    }
  }

  /** Pass i of the outer loop: one pass over a[..limit], after which position limit - 1 is settled. */
  method SettleOneMore(a: array<int>, limit: int) returns (comparisons: nat)
    requires 1 < limit <= a.Length && SuffixSettled(a[..], limit)
    modifies a
    ensures comparisons == limit - 1
    ensures SuffixSettled(a[..], limit - 1)
    ensures multiset(a[..]) == multiset(old(a[..]))
  {
    ghost var before := a[..];
    comparisons := BubblePass(a, limit);
    PassSettlesOneMore(before, a[..], limit);
    SegmentToWhole(a[..], before, 0, limit);
  }

  /**
   * The positions from m on are sorted and hold the largest elements:
   * nothing before m exceeds anything from m on.
   */
  predicate SuffixSettled(s: seq<int>, m: int) {
    SortedBetween(s, m, |s|) && forall p, q :: 0 <= p < m <= q < |s| ==> s[p] <= s[q]
  }

  /** A pass that carries the maximum of the prefix a[..m] to m - 1 settles that position too. */
  lemma PassSettlesOneMore(before: seq<int>, after: seq<int>, m: int)
    requires 1 <= m <= |before| == |after| && SuffixSettled(before, m)
    requires forall k :: 0 <= k < m ==> after[k] <= after[m - 1]
    requires RearrangesSegment(after, before, 0, m)
    ensures SuffixSettled(after, m - 1)
  {
    assert after[..m] == after[0..m] && before[..m] == before[0..m];
    PrefixBoundKept(before, after, m);
  }

  /** Once all but the first position are settled, the whole sequence is sorted. */
  lemma SettledIsSorted(s: seq<int>)
    requires |s| > 0 && SuffixSettled(s, 1)
    ensures Sorted(s)
  {
  }
}
