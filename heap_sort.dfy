/**
 * `heapSortVisualization` and `heapify` of
 * app/components/algorithm-visualizer.tsx, without their animation: build a
 * max-heap bottom-up, then repeatedly move the root to the end of the
 * shrinking heap and sift the new root down.
 */
module HeapSortVisualizer {
  import opened SortSpec

  /** Node k of the heap a[..n] is at least each of its children that lies inside the heap. */
  predicate HeapAt(s: seq<int>, n: int, k: int)
    requires 0 <= k && n <= |s|
  {
    && (2 * k + 1 < n ==> s[2 * k + 1] <= s[k])
    && (2 * k + 2 < n ==> s[2 * k + 2] <= s[k])
  }

  /** s[..n] is a max-heap from node `lo` on. */
  predicate HeapFrom(s: seq<int>, n: int, lo: int)
    requires 0 <= lo && n <= |s|
  {
    forall k :: lo <= k < n ==> HeapAt(s, n, k)
  }

  /** In a max-heap every element is at most its ancestors, so at most the root. */
  lemma {:induction false} HeapRootMax(s: seq<int>, n: int, k: int)
    requires 0 <= k < n <= |s| && HeapFrom(s, n, 0)
    ensures s[k] <= s[0]
    decreases k
  {
    if k > 0 {
      var parent := (k - 1) / 2;
      assert HeapAt(s, n, parent);
      assert 2 * parent + 1 == k || 2 * parent + 2 == k;
      HeapRootMax(s, n, parent);
    }
  }

  /**
   * What sifting node i down needs: every node from `lo` on except i is a
   * heap node, and i's parent, when it is from `lo` on, dominates i's children.
   */
  predicate SiftReady(s: seq<int>, n: int, i: int, lo: int)
    requires 0 <= lo <= i < n <= |s|
  {
    && (forall k :: lo <= k < n && k != i ==> HeapAt(s, n, k))
    && (i > 0 && lo <= (i - 1) / 2 ==>
          && (2 * i + 1 < n ==> s[2 * i + 1] <= s[(i - 1) / 2])
          && (2 * i + 2 < n ==> s[2 * i + 2] <= s[(i - 1) / 2]))
  }

  /**
   * `heapify(arr, n, i)`: sifts a[i] down inside the heap a[..n], comparing
   * with the left child before the right and swapping with a strictly larger
   * child.  Afterwards every node from `lo` on is a heap node and only
   * a[i..n] has been rearranged.
   */
  method Heapify(a: array<int>, n: int, i: int, ghost lo: int)
    requires 0 <= lo <= i < n <= a.Length
    requires SiftReady(a[..], n, i, lo)
    modifies a
    ensures HeapFrom(a[..], n, lo)
    ensures RearrangesSegment(a[..], old(a[..]), i, n)
    decreases n - i
  {
    var largest := i;
    var left := 2 * i + 1;
    var right := 2 * i + 2;
    if left < n && a[left] > a[largest] {
      largest := left;
    }
    if right < n && a[right] > a[largest] {
      largest := right;
    }
    if largest != i {
      ghost var before := a[..];
      Swap(a, i, largest, i, n);
      SiftStep(before, a[..], n, i, largest, lo);
      ghost var swapped := a[..];
      Heapify(a, n, largest, lo);
      RearrangeWithin(before, swapped, a[..], i, n, largest, n);
    } else {
      SiftDone(a[..], n, i, lo);
    }
  }

  /** A node at least as large as its children completes the heap. */
  lemma SiftDone(s: seq<int>, n: int, i: int, lo: int)
    requires 0 <= lo <= i < n <= |s| && SiftReady(s, n, i, lo)
    requires 2 * i + 1 < n ==> s[2 * i + 1] <= s[i]
    requires 2 * i + 2 < n ==> s[2 * i + 2] <= s[i]
    ensures HeapFrom(s, n, lo)
  {
    assert HeapAt(s, n, i);
  }

  /**
   * Exchanging node i with its larger child `largest` fixes node i and leaves
   * `largest` ready to be sifted down.
   */
  lemma SiftStep(s: seq<int>, t: seq<int>, n: int, i: int, largest: int, lo: int)
    requires 0 <= lo <= i < n <= |s| && largest in {2 * i + 1, 2 * i + 2} && largest < n
    requires SiftReady(s, n, i, lo)
    requires s[largest] > s[i]
    requires 2 * i + 1 < n ==> s[2 * i + 1] <= s[largest]
    requires 2 * i + 2 < n ==> s[2 * i + 2] <= s[largest]
    requires t == s[i := s[largest]][largest := s[i]]
    ensures SiftReady(t, n, largest, lo)
  {
    assert (largest - 1) / 2 == i;
    assert HeapAt(s, n, largest);
    forall k | lo <= k < n && k != largest ensures HeapAt(t, n, k) {
      if k != i && k != (i - 1) / 2 {
        assert HeapAt(s, n, k);
        assert 2 * k + 1 != i && 2 * k + 1 != largest;
        assert 2 * k + 2 != i && 2 * k + 2 != largest;
      } else if k != i {
        assert HeapAt(s, n, k);
      }
    }
  }

  /**
   * Moving the root to position i shrinks the heap to a[..i]; every node of
   * it but the new root is still a heap node.
   */
  lemma ShrinkHeap(s: seq<int>, t: seq<int>, i: int)
    requires 0 < i < |s| && HeapFrom(s, i + 1, 0)
    requires t == s[0 := s[i]][i := s[0]]
    ensures SiftReady(t, i, 0, 0)
  {
    forall k | 0 < k < i ensures HeapAt(t, i, k) {
      assert HeapAt(s, i + 1, k);
    }
  }

  /** The first phase: builds the max-heap from node ⌊n/2⌋ - 1 down to the root. */
  method BuildHeap(a: array<int>)
    modifies a
    ensures HeapFrom(a[..], a.Length, 0)
    ensures multiset(a[..]) == multiset(old(a[..]))
  {
    var n := a.Length;
    var i := n / 2 - 1;
    while i >= 0
      invariant -1 <= i < n
      invariant i >= n / 2 - 1 ==> i == n / 2 - 1
      invariant HeapFrom(a[..], n, i + 1)
      invariant multiset(a[..]) == multiset(old(a[..]))
    {
      ghost var before := a[..];
      Heapify(a, n, i, i);
      SegmentToWhole(a[..], before, i, n);
      i := i - 1;
    }
  }

  /**
   * The whole run: builds the heap, then for i from n - 1 down to 1 moves the
   * root to position i and sifts the new root down in a[..i], counting one
   * step per extraction and marking i, then 0.
   */
  method HeapSort(a: array<int>) returns (steps: nat, marks: seq<int>)
    modifies a
    ensures Sorted(a[..])
    ensures multiset(a[..]) == multiset(old(a[..]))
    ensures steps == if a.Length == 0 then 0 else a.Length - 1
    ensures marks == PassMarks(a.Length)
  {
    var n := a.Length;
    steps := 0;
    marks := [];
    BuildHeap(a);
    var i := n - 1;
    while i > 0
      invariant n == 0 ==> i == -1
      invariant n > 0 ==> 0 <= i < n
      invariant HeapFrom(a[..], i + 1, 0)
      invariant SortedBetween(a[..], i + 1, n)
      invariant forall p, q :: 0 <= p <= i < q < n ==> a[p] <= a[q]
      invariant multiset(a[..]) == multiset(old(a[..]))
      invariant steps == n - 1 - i
      invariant marks == seq(n - 1 - i, k => n - 1 - k)
    {
      ghost var before := a[..];
      ExtractRoot(a, i);
      SegmentToWhole(a[..], before, 0, n);
      marks := marks + [i];
      steps := steps + 1;
      i := i - 1;
    }
    marks := marks + [0];
  }

  /**
   * One extraction: swaps the root of the heap a[..i + 1] to position i and
   * sifts the new root down in a[..i].  Position i then holds the heap's
   * largest element, above everything left in the heap.
   */
  method ExtractRoot(a: array<int>, i: int)
    requires 0 < i < a.Length && HeapFrom(a[..], i + 1, 0)
    requires SortedBetween(a[..], i + 1, a.Length)
    requires forall p, q :: 0 <= p <= i < q < a.Length ==> a[p] <= a[q]
    modifies a
    ensures HeapFrom(a[..], i, 0)
    ensures SortedBetween(a[..], i, a.Length)
    ensures forall p, q :: 0 <= p < i <= q < a.Length ==> a[p] <= a[q]
    ensures RearrangesSegment(a[..], old(a[..]), 0, a.Length)
  {
    ghost var before := a[..];
    Swap(a, 0, i, 0, a.Length);
    ShrinkHeap(before, a[..], i);
    ghost var swapped := a[..];
    Heapify(a, i, 0, 0);
    ExtractionOrder(before, swapped, a[..], i);
    RearrangeWithin(before, swapped, a[..], 0, a.Length, 0, i);
  }

  /**
   * The order facts of one extraction: the old root, now at i, is at least
   * everything in the heap and at most everything after it.
   */
  lemma ExtractionOrder(s0: seq<int>, s1: seq<int>, s2: seq<int>, i: int)
    requires 0 < i < |s0| == |s1| == |s2| && HeapFrom(s0, i + 1, 0)
    requires SortedBetween(s0, i + 1, |s0|)
    requires forall p, q :: 0 <= p <= i < q < |s0| ==> s0[p] <= s0[q]
    requires s1 == s0[0 := s0[i]][i := s0[0]]
    requires RearrangesSegment(s2, s1, 0, i)
    ensures SortedBetween(s2, i, |s2|)
    ensures forall p, q :: 0 <= p < i <= q < |s2| ==> s2[p] <= s2[q]
  {
    forall k | 0 <= k <= i ensures s0[k] <= s0[0] {
      HeapRootMax(s0, i + 1, k);
    }
    assert forall p, q :: 0 <= p < i <= q < |s1| ==> s1[p] <= s1[q];
    PrefixBoundKept(s1, s2, i);
  }
}
