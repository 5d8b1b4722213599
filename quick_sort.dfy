/**
 * `quickSortVisualization` of app/components/algorithm-visualizer.tsx,
 * without its animation: Lomuto partitioning around the last element with a
 * strict `<` test, then recursion on both sides of the pivot, all in place on
 * a copy of the array.  The shared `stepCount` counter becomes the sum of the
 * counts each call returns.
 */
module QuickSortVisualizer {
  import opened SortSpec

  /**
   * `partition(arr, low, high)`: moves every element below the pivot
   * `a[high]` in front of it and returns the pivot's final position, counting
   * one step per element compared with the pivot.
   */
  method Partition(a: array<int>, low: int, high: int) returns (p: int, comparisons: nat)
    requires 0 <= low < high < a.Length
    modifies a
    ensures low <= p <= high
    ensures a[p] == old(a[high])
    ensures forall k :: low <= k < p ==> a[k] < a[p]
    ensures forall k :: p < k <= high ==> a[p] <= a[k]
    ensures RearrangesSegment(a[..], old(a[..]), low, high + 1)
    ensures comparisons == high - low
  {
    var i := SplitBelowPivot(a, low, high);
    ghost var before := a[..];
    Swap(a, i + 1, high, low, high + 1);
    PivotPlaced(before, a[..], low, i, high);
    p := i + 1;
    comparisons := high - low;
  }

  /** Swapping the pivot to just after the front part puts it between the two parts. */
  lemma PivotPlaced(s: seq<int>, t: seq<int>, low: int, i: int, high: int)
    requires 0 <= low && low - 1 <= i < high < |s|
    requires forall k :: low <= k <= i ==> s[k] < s[high]
    requires forall k :: i < k < high ==> s[high] <= s[k]
    requires t == s[i + 1 := s[high]][high := s[i + 1]]
    ensures t[i + 1] == s[high]
    ensures forall k :: low <= k < i + 1 ==> t[k] < t[i + 1]
    ensures forall k :: i + 1 < k <= high ==> t[i + 1] <= t[k]
  {
  }

  /**
   * The loop of `partition`: scans a[low..high] and gathers the elements
   * below the pivot a[high] at the front, returning the last index of that
   * front part.
   */
  method SplitBelowPivot(a: array<int>, low: int, high: int) returns (i: int)
    requires 0 <= low < high < a.Length
    modifies a
    ensures low - 1 <= i < high && a[high] == old(a[high])
    ensures forall k :: low <= k <= i ==> a[k] < a[high]
    ensures forall k :: i < k < high ==> a[high] <= a[k]
    ensures RearrangesSegment(a[..], old(a[..]), low, high + 1)
  {
    var pivotValue := a[high];
    i := low - 1;
    for j := low to high
      invariant low - 1 <= i < j
      invariant a[high] == pivotValue
      invariant forall k :: low <= k <= i ==> a[k] < pivotValue
      invariant forall k :: i < k < j ==> pivotValue <= a[k]
      invariant RearrangesSegment(a[..], old(a[..]), low, high + 1)
    {
      i := PartitionStep(a, low, high, i, j, pivotValue);
    }
  }

  /**
   * One iteration of the partition loop: an element below the pivot joins
   * the front part (swapped into place unless it is already there); any
   * other element joins the part at least the pivot.
   */
  method PartitionStep(a: array<int>, low: int, high: int, i: int, j: int, pivotValue: int) returns (next: int)
    requires 0 <= low <= j < high < a.Length && low - 1 <= i < j && a[high] == pivotValue
    requires forall k :: low <= k <= i ==> a[k] < pivotValue
    requires forall k :: i < k < j ==> pivotValue <= a[k]
    modifies a
    ensures low - 1 <= next < j + 1 && a[high] == pivotValue
    ensures forall k :: low <= k <= next ==> a[k] < pivotValue
    ensures forall k :: next < k < j + 1 ==> pivotValue <= a[k]
    ensures RearrangesSegment(a[..], old(a[..]), low, high + 1)
  {
    next := i;
    if a[j] < pivotValue {
      next := i + 1;
      if next != j {
        Swap(a, next, j, low, high + 1);
      }
    }
  }

  /**
   * `quickSort(arr, low, high)`: sorts a[low..high] (inclusive) in place,
   * leaves the rest of the array alone, and makes at most as many
   * comparisons as the segment has pairs of elements.
   */
  method QuickSort(a: array<int>, low: int, high: int) returns (comparisons: nat)
    requires 0 <= low <= high + 1 <= a.Length
    modifies a
    ensures SortsSegment(a[..], old(a[..]), low, high + 1)
    ensures comparisons <= Pairs(high - low + 1)
    decreases high - low, 1
  {
    comparisons := 0;
    if low < high {
      var pi, partitionSteps := Partition(a, low, high);
      ghost var partitioned := a[..];
      var sideSteps := SortSides(a, low, pi, high);
      comparisons := partitionSteps + sideSteps;
      SortAfterRearranging(old(a[..]), partitioned, a[..], low, high + 1);
      ComparisonBound(pi - low, high - pi);
    }
  }

  /**
   * The two recursive calls after a partition: sorts the elements before the
   * pivot and those after it, which sorts the whole segment.
   */
  method SortSides(a: array<int>, low: int, pi: int, high: int) returns (comparisons: nat)
    requires 0 <= low <= pi <= high < a.Length
    requires forall k :: low <= k < pi ==> a[k] < a[pi]
    requires forall k :: pi < k <= high ==> a[pi] <= a[k]
    modifies a
    ensures SortsSegment(a[..], old(a[..]), low, high + 1)
    ensures comparisons <= Pairs(pi - low) + Pairs(high - pi)
    decreases high - low, 0
  {
    ghost var s0 := a[..];
    var leftSteps := QuickSort(a, low, pi - 1);
    ghost var s1 := a[..];
    var rightSteps := QuickSort(a, pi + 1, high);
    comparisons := leftSteps + rightSteps;
    CombineSortedSides(s0, s1, a[..], low, pi, high);
  }

  /** Sorting a rearrangement of a segment sorts the segment. */
  lemma SortAfterRearranging(s0: seq<int>, s1: seq<int>, s2: seq<int>, lo: int, hi: int)
    requires 0 <= lo <= hi <= |s0| == |s1| == |s2|
    requires RearrangesSegment(s1, s0, lo, hi) && SortsSegment(s2, s1, lo, hi)
    ensures SortsSegment(s2, s0, lo, hi)
  {
  }

  /**
   * After sorting both sides of a partitioned segment in place, the segment
   * is a sorted rearrangement of what it was.
   */
  lemma CombineSortedSides(s0: seq<int>, s1: seq<int>, s2: seq<int>, low: int, pi: int, high: int)
    requires |s0| == |s1| == |s2| && 0 <= low <= pi <= high < |s0|
    requires forall k :: low <= k < pi ==> s0[k] < s0[pi]
    requires forall k :: pi < k <= high ==> s0[pi] <= s0[k]
    requires SortsSegment(s1, s0, low, pi - 1 + 1)
    requires SortsSegment(s2, s1, pi + 1, high + 1)
    ensures SortsSegment(s2, s0, low, high + 1)
  {
    assert AllBelow(s0[low..pi], s0[pi]);
    BoundsSurvivePermutation(s0[low..pi], s1[low..pi], s0[pi]);
    assert s2[low..pi] == s1[low..pi];
    assert s2[pi] == s1[pi] == s0[pi];
    assert s1[pi + 1..high + 1] == s0[pi + 1..high + 1];
    assert AllAtLeast(s1[pi + 1..high + 1], s0[pi]);
    BoundsSurvivePermutation(s1[pi + 1..high + 1], s2[pi + 1..high + 1], s0[pi]);
    assert SortedBetween(s2, low, pi) by {
      forall p, q | low <= p < q < pi ensures s2[p] <= s2[q] {
        assert s2[p] == s1[p] && s2[q] == s1[q];
      }
    }
    JoinAroundPivot(s2, low, pi, high);
    MultisetThreeParts(s2, s0, low, pi, high);
  }

  /** Two sorted runs on either side of a pivot they are below and above make one sorted run. */
  lemma JoinAroundPivot(s: seq<int>, low: int, pi: int, high: int)
    requires 0 <= low <= pi <= high < |s|
    requires SortedBetween(s, low, pi) && SortedBetween(s, pi + 1, high + 1)
    requires AllBelow(s[low..pi], s[pi]) && AllAtLeast(s[pi + 1..high + 1], s[pi])
    ensures SortedBetween(s, low, high + 1)
  {
    forall p, q | low <= p < q < high + 1 ensures s[p] <= s[q] {
      if p < pi {
        assert s[low..pi][p - low] == s[p];
      }
      if q > pi {
        assert s[pi + 1..high + 1][q - pi - 1] == s[q];
      }
    }
  }

  /** A segment split around a fixed middle element keeps its multiset when both sides do. */
  lemma MultisetThreeParts(s: seq<int>, t: seq<int>, low: int, pi: int, high: int)
    requires 0 <= low <= pi <= high < |s| == |t|
    requires multiset(s[low..pi]) == multiset(t[low..pi])
    requires s[pi] == t[pi]
    requires multiset(s[pi + 1..high + 1]) == multiset(t[pi + 1..high + 1])
    ensures multiset(s[low..high + 1]) == multiset(t[low..high + 1])
  {
    assert s[low..high + 1] == s[low..pi] + [s[pi]] + s[pi + 1..high + 1];
    assert t[low..high + 1] == t[low..pi] + [t[pi]] + t[pi + 1..high + 1];
  }

  /**
   * Partitioning l + r + 1 elements compares l + r of them with the pivot;
   * with the bounds of the two sides that stays within the pairs of the whole.
   */
  lemma {:induction false} ComparisonBound(l: nat, r: nat)
    ensures (l + r) + Pairs(l) + Pairs(r) <= Pairs(l + r + 1)
  {
    if r > 0 {
      ComparisonBound(l, r - 1);
    }
  }

  /**
   * The whole run: sorts the array, counts the comparisons, and marks every
   * index as sorted.
   */
  method QuickSortVisualization(a: array<int>) returns (steps: nat, marks: seq<int>)
    modifies a
    ensures Sorted(a[..])
    ensures multiset(a[..]) == multiset(old(a[..]))
    ensures 2 * steps <= a.Length * (a.Length - 1)
    ensures |marks| == a.Length && forall k :: 0 <= k < a.Length ==> marks[k] == k
  {
    steps := QuickSort(a, 0, a.Length - 1);
    assert a[..] == a[0..a.Length] && old(a[..]) == old(a[..])[0..a.Length];
    PairsClosedForm(a.Length);
    marks := seq(a.Length, k => k);
  }
}
