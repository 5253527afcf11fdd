/**
  The four complete sorting routines of llm_vscode_test.py, each an in-place
  sort of a mutable list of integers that returns that same list.  Every
  method keeps the loops and index variables of the original and is proved
  to leave the array sorted and a permutation of its input.
 */
module Sorting {

  /** Non-decreasing order. */
  predicate Sorted(s: seq<int>) {
    forall i, j :: 0 <= i < j < |s| ==> s[i] <= s[j]
  }

  /** Sortedness of the slice s[lo..hi]. */
  predicate SortedBetween(s: seq<int>, lo: int, hi: int)
    requires 0 <= lo <= hi <= |s|
  {
    forall i, j :: lo <= i < j < hi ==> s[i] <= s[j]
  }

  /** Every element before `mid` is at most every element from `mid` on. */
  predicate Partitioned(s: seq<int>, mid: int)
    requires 0 <= mid <= |s|
  {
    forall x, y :: 0 <= x < mid <= y < |s| ==> s[x] <= s[y]
  }

  /** Exchanging two positions of a sequence permutes it. */
  lemma SwapPermutes(before: seq<int>, after: seq<int>, x: int, y: int)
    requires 0 <= x < |before| && 0 <= y < |before|
    requires after == before[x := before[y]][y := before[x]]
    ensures multiset(after) == multiset(before)
  {
  }

  /** `s[at]` is a largest element of `s[..len]`. */
  predicate MaxAt(s: seq<int>, len: int, at: int)
    requires 0 <= at < len <= |s|
  {
    forall k :: 0 <= k < len ==> s[k] <= s[at]
  }

  // ---------------------------------------------------------------------
  // bubble_sort (llm_vscode_test.py:2-7)
  // ---------------------------------------------------------------------

  /**
    `len(arr)` full passes over the array.  After `i` passes the last `i`
    elements are sorted and no smaller than anything before them.
   */
  method BubbleSort(a: array<int>) returns (r: array<int>)
    modifies a
    ensures r == a
    ensures Sorted(a[..])
    ensures multiset(a[..]) == multiset(old(a[..]))
  {
    var n := a.Length;
    for i := 0 to n
      invariant SortedBetween(a[..], n - i, n)
      invariant Partitioned(a[..], n - i)
      invariant multiset(a[..]) == multiset(old(a[..]))
    {
      BubblePass(a, n - i);
    }
    r := a;
  }

  /** One step of the inner loop: the pair at `j`, `j + 1` is swapped only when out of order. */
  function CompareSwap(s: seq<int>, j: int): (t: seq<int>)
    requires 0 <= j < |s| - 1
    ensures |t| == |s| && multiset(t) == multiset(s)
    ensures t[j] <= t[j + 1]
    ensures s[j] <= s[j + 1] ==> t == s
    ensures s[j] > s[j + 1] ==> t[j] == s[j + 1] && t[j + 1] == s[j]
    ensures forall k :: 0 <= k < |s| && k != j && k != j + 1 ==> t[k] == s[k]
  {
    if s[j] > s[j + 1] then s[j := s[j + 1]][j + 1 := s[j]] else s
  }

  /** What holds after the pass has compared pairs up to `j`, when `s[m..]` was already in place. */
  predicate PassInvariant(s: seq<int>, m: int, j: int)
  {
    && 0 < m <= |s|
    && 0 <= j < |s|
    && MaxAt(s, j + 1, j)
    && (j >= m - 1 ==> MaxAt(s, m, m - 1))
    && SortedBetween(s, m, |s|)
    && Partitioned(s, m)
  }

  lemma CompareSwapStep(s: seq<int>, m: int, j: int)
    requires PassInvariant(s, m, j) && j < |s| - 1
    ensures PassInvariant(CompareSwap(s, j), m, j + 1)
    ensures multiset(CompareSwap(s, j)) == multiset(s)
  {
    var t := CompareSwap(s, j);
    if s[j] > s[j + 1] {
      assert j + 1 < m;
      SwapPermutes(s, t, j, j + 1);
    }
  }

  /**
    One pass of the inner loop: every adjacent pair is compared from the
    left.  When the part from `m` on is already sorted and no smaller than
    what precedes it, the pass carries the largest element of `arr[..m]` to
    `m - 1` and leaves the rest in place.
   */
  method BubblePass(a: array<int>, m: int)
    requires 0 < m <= a.Length
    requires SortedBetween(a[..], m, a.Length)
    requires Partitioned(a[..], m)
    modifies a
    ensures SortedBetween(a[..], m - 1, a.Length)
    ensures Partitioned(a[..], m - 1)
    ensures multiset(a[..]) == multiset(old(a[..]))
  {
    var n := a.Length;
    for j := 0 to n - 1
      invariant PassInvariant(a[..], m, j)
      invariant multiset(a[..]) == multiset(old(a[..]))
    {
      ghost var before := a[..];
      if a[j] > a[j + 1] {
        a[j], a[j + 1] := a[j + 1], a[j];
      }
      assert a[..] == CompareSwap(before, j);
      CompareSwapStep(before, m, j);
    }
  }

  // ---------------------------------------------------------------------
  // selection_sort (llm_vscode_test.py:10-17)
  // ---------------------------------------------------------------------

  /**
    For each position `i`, finds the index of the first smallest element of
    `arr[i..]` and swaps it into position `i`.
   */
  method SelectionSort(a: array<int>) returns (r: array<int>)
    modifies a
    ensures r == a
    ensures Sorted(a[..])
    ensures multiset(a[..]) == multiset(old(a[..]))
  {
    var n := a.Length;
    for i := 0 to n
      invariant SortedBetween(a[..], 0, i)
      invariant Partitioned(a[..], i)
      invariant multiset(a[..]) == multiset(old(a[..]))
    {
      var minIndex := i;
      for j := i + 1 to n
        invariant i <= minIndex < j
        invariant forall k :: i <= k < j ==> a[minIndex] <= a[k]
        invariant forall k :: i <= k < minIndex ==> a[minIndex] < a[k]
      {
        if a[j] < a[minIndex] {
          minIndex := j;
        }
      }
      ghost var before := a[..];
      a[i], a[minIndex] := a[minIndex], a[i];
      assert a[..] == before[i := before[minIndex]][minIndex := before[i]];
      SelectionStep(before, a[..], i, minIndex);
    }
    r := a;
  }

  /**
    Swapping a least element of the unsorted suffix `s[i..]` into position
    `i` extends the sorted, partitioned prefix by one and permutes `s`.
   */
  lemma SelectionStep(before: seq<int>, after: seq<int>, i: int, m: int)
    requires 0 <= i <= m < |before|
    requires SortedBetween(before, 0, i) && Partitioned(before, i)
    requires forall k :: i <= k < |before| ==> before[m] <= before[k]
    requires after == before[i := before[m]][m := before[i]]
    ensures SortedBetween(after, 0, i + 1) && Partitioned(after, i + 1)
    ensures multiset(after) == multiset(before)
  {
    SwapPermutes(before, after, i, m);
  }

  // ---------------------------------------------------------------------
  // insertion_sort (llm_vscode_test.py:20-26)
  // ---------------------------------------------------------------------

  /**
    For each `i` from 1, moves `arr[i]` left by adjacent swaps while it is
    strictly smaller than its left neighbour.
   */
  method InsertionSort(a: array<int>) returns (r: array<int>)
    modifies a
    ensures r == a
    ensures Sorted(a[..])
    ensures multiset(a[..]) == multiset(old(a[..]))
  {
    var n := a.Length;
    var i := 1;
    while i < n
      invariant 1 <= i && (n == 0 || i <= n)
      invariant SortedBetween(a[..], 0, if n == 0 then 0 else i)
      invariant multiset(a[..]) == multiset(old(a[..]))
    {
      var j := i;
      while j > 0 && a[j] < a[j - 1]
        invariant 0 <= j <= i
        invariant InsertInvariant(a[..], i, j)
        invariant multiset(a[..]) == multiset(old(a[..]))
      {
        ghost var before := a[..];
        a[j], a[j - 1] := a[j - 1], a[j];
        assert a[..] == before[j := before[j - 1]][j - 1 := before[j]];
        InsertStep(before, a[..], i, j);
        j := j - 1;
      }
      InsertDone(a[..], i, j);
      i := i + 1;
    }
    r := a;
  }

  /**
    While `arr[i]` travels left it sits at `j`: the other elements of
    `arr[0..i]` are in order, and everything after `j` up to `i` is no
    smaller than it.
   */
  predicate InsertInvariant(s: seq<int>, i: int, j: int)
    requires 0 <= j <= i < |s|
  {
    && (forall k, l :: 0 <= k < l <= i && k != j && l != j ==> s[k] <= s[l])
    && (forall l :: j < l <= i ==> s[j] <= s[l])
  }

  /** One swap of `arr[j]` with a strictly greater left neighbour keeps the invariant at `j - 1`. */
  lemma InsertStep(before: seq<int>, after: seq<int>, i: int, j: int)
    requires 0 < j <= i < |before|
    requires InsertInvariant(before, i, j) && before[j] < before[j - 1]
    requires after == before[j := before[j - 1]][j - 1 := before[j]]
    ensures InsertInvariant(after, i, j - 1)
    ensures multiset(after) == multiset(before)
  {
    SwapPermutes(before, after, j, j - 1);
  }

  /** When the travelling element meets a neighbour no greater than it, `arr[0..i]` is sorted. */
  lemma InsertDone(s: seq<int>, i: int, j: int)
    requires 0 <= j <= i < |s|
    requires InsertInvariant(s, i, j) && (j == 0 || s[j - 1] <= s[j])
    ensures SortedBetween(s, 0, i + 1)
  {
  }

  // ---------------------------------------------------------------------
  // merge_sort (llm_vscode_test.py:29-57)
  // ---------------------------------------------------------------------

  /**
    The merge of two sequences as the three loops of merge_sort perform it:
    the left element is taken only when it is strictly smaller, and once one
    side is exhausted the rest of the other follows.
   */
  function MergeSeq(left: seq<int>, right: seq<int>): (m: seq<int>)
    ensures |m| == |left| + |right|
    decreases |left| + |right|
  {
    if |left| == 0 then right
    else if |right| == 0 then left
    else if left[0] < right[0] then [left[0]] + MergeSeq(left[1..], right)
    else [right[0]] + MergeSeq(left, right[1..])
  }

  lemma {:induction false} MergeSeqPermutation(left: seq<int>, right: seq<int>)
    ensures multiset(MergeSeq(left, right)) == multiset(left) + multiset(right)
    decreases |left| + |right|
  {
    if |left| == 0 || |right| == 0 {
    } else if left[0] < right[0] {
      MergeSeqPermutation(left[1..], right);
      assert left == [left[0]] + left[1..];
    } else {
      MergeSeqPermutation(left, right[1..]);
      assert right == [right[0]] + right[1..];
    }
  }

  /** A sorted tail preceded by an element no larger than any of its elements is sorted. */
  lemma SortedCons(h: int, t: seq<int>)
    requires Sorted(t)
    requires forall x :: x in t ==> h <= x
    ensures Sorted([h] + t)
  {
    var s := [h] + t;
    forall i, j | 0 <= i < j < |s| ensures s[i] <= s[j] {
      if i == 0 {
        assert s[j] == t[j - 1];
        assert t[j - 1] in t;
      } else {
        assert s[i] == t[i - 1] && s[j] == t[j - 1];
      }
    }
  }

  lemma {:induction false} MergeSeqSorted(left: seq<int>, right: seq<int>)
    requires Sorted(left) && Sorted(right)
    ensures Sorted(MergeSeq(left, right))
    decreases |left| + |right|
  {
    if |left| == 0 || |right| == 0 {
    } else if left[0] < right[0] {
      MergeSeqSorted(left[1..], right);
      SortedHeadBounds(left);
      SortedHeadBounds(right);
      MergeSeqLowerBound(left[1..], right, left[0]);
      SortedCons(left[0], MergeSeq(left[1..], right));
    } else {
      MergeSeqSorted(left, right[1..]);
      SortedHeadBounds(left);
      SortedHeadBounds(right);
      MergeSeqLowerBound(left, right[1..], right[0]);
      SortedCons(right[0], MergeSeq(left, right[1..]));
    }
  }

  /** The head of a non-empty sorted sequence bounds it, and so its tail, from below. */
  lemma SortedHeadBounds(s: seq<int>)
    requires Sorted(s) && |s| > 0
    ensures forall x :: x in s ==> s[0] <= x
    ensures forall x :: x in s[1..] ==> s[0] <= x
  {
    forall x | x in s[1..] ensures s[0] <= x {
      var p :| 0 <= p < |s[1..]| && s[1..][p] == x;
      assert s[p + 1] == x;
    }
  }

  /** A lower bound of both inputs is a lower bound of their merge. */
  lemma MergeSeqLowerBound(left: seq<int>, right: seq<int>, h: int)
    requires forall x :: x in left ==> h <= x
    requires forall x :: x in right ==> h <= x
    ensures forall x :: x in MergeSeq(left, right) ==> h <= x
  {
    var m := MergeSeq(left, right);
    MergeSeqPermutation(left, right);
    forall x | x in m ensures h <= x {
      assert x in multiset(m);
      if x in multiset(left) {
        assert x in left;
      } else {
        assert x in right;
      }
    }
  }

  /**
    When what is still to be merged, `left[i..]` with `right[j..]`, is the
    part of `merged` from `k` on, and `left[i]` is strictly smaller than
    `right[j]` or `right` is exhausted, then `merged[k]` is `left[i]` and the
    rest of `merged` is what remains to be merged after it.
   */
  lemma MergeSeqTakesLeft(left: seq<int>, right: seq<int>, i: int, j: int, merged: seq<int>, k: int)
    requires 0 <= i < |left| && 0 <= j <= |right| && 0 <= k <= |merged|
    requires j == |right| || left[i] < right[j]
    requires MergeSeq(left[i..], right[j..]) == merged[k..]
    ensures k < |merged| && merged[k] == left[i]
    ensures MergeSeq(left[i + 1..], right[j..]) == merged[k + 1..]
  {
    assert left[i..][1..] == left[i + 1..];
    assert merged[k..][1..] == merged[k + 1..];
  }

  /** Otherwise `merged[k]` is `right[j]`. */
  lemma MergeSeqTakesRight(left: seq<int>, right: seq<int>, i: int, j: int, merged: seq<int>, k: int)
    requires 0 <= i <= |left| && 0 <= j < |right| && 0 <= k <= |merged|
    requires i == |left| || !(left[i] < right[j])
    requires MergeSeq(left[i..], right[j..]) == merged[k..]
    ensures k < |merged| && merged[k] == right[j]
    ensures MergeSeq(left[i..], right[j + 1..]) == merged[k + 1..]
  {
    assert right[j..][1..] == right[j + 1..];
    assert merged[k..][1..] == merged[k + 1..];
  }

  /**
    The merge phase of merge_sort.  Its first loop (`MergeHeads`) takes the
    smaller head of the two halves while both have elements left; the other
    two (`CopyRest`, twice) copy what remains of `left`, then of `right`.
    At the end `i`, `j` and `k` are the lengths of `left`, `right` and `arr`.
   */
  method Merge(a: array<int>, left: array<int>, right: array<int>)
    requires a.Length == left.Length + right.Length
    requires a != left && a != right
    modifies a
    ensures a[..] == MergeSeq(left[..], right[..])
  {
    ghost var l, r := left[..], right[..];
    ghost var merged := MergeSeq(l, r);
    var i, j, k := MergeHeads(a, left, right);
    MergeSeqRest(l, r, i, j, merged, k);
    ghost var i0, j0, k0 := i, j, k;
    i, k := CopyRest(a, left, i, k);
    assert k == i + j;
    ghost var k1 := k;
    j, k := CopyRest(a, right, j, k);
    assert k == i + j;
    assert i == left.Length && j == right.Length && k == a.Length;
    forall p | 0 <= p < a.Length ensures a[p] == merged[p] {
      if p < k0 {
      } else if p < k1 {
        assert a[p] == l[i0 + (p - k0)];
      } else {
        assert a[p] == r[j0 + (p - k1)];
      }
    }
    assert a[..] == merged;
  }

  /**
    The first loop of the merge phase: while both halves have elements
    left, `arr[k]` becomes `left[i]` when it is strictly smaller than
    `right[j]`, and `right[j]` otherwise.  It stops with one side exhausted,
    `arr[..k]` holding the start of the merge and the merge of the two
    remainders being the rest of it.
   */
  method MergeHeads(a: array<int>, left: array<int>, right: array<int>) returns (i: int, j: int, k: int)
    requires a.Length == left.Length + right.Length
    requires a != left && a != right
    modifies a
    ensures 0 <= i <= left.Length && 0 <= j <= right.Length && k == i + j
    ensures i == left.Length || j == right.Length
    ensures |MergeSeq(left[..], right[..])| == a.Length
    ensures forall p :: 0 <= p < k ==> a[p] == MergeSeq(left[..], right[..])[p]
    ensures MergeSeq(left[i..], right[j..]) == MergeSeq(left[..], right[..])[k..]
  {
    ghost var l, r := left[..], right[..];
    ghost var merged := MergeSeq(l, r);
    assert l[0..] == l && r[0..] == r && merged[0..] == merged;
    i, j, k := 0, 0, 0;
    while i < left.Length && j < right.Length
      invariant 0 <= i <= |l| && 0 <= j <= |r| && k == i + j
      invariant forall p :: 0 <= p < k ==> a[p] == merged[p]
      invariant MergeSeq(l[i..], r[j..]) == merged[k..]
    {
      if left[i] < right[j] {
        MergeSeqTakesLeft(l, r, i, j, merged, k);
        a[k] := left[i];
        i := i + 1;
      } else {
        MergeSeqTakesRight(l, r, i, j, merged, k);
        a[k] := right[j];
        j := j + 1;
      }
      k := k + 1;
    }
  }

  /**
    Once one side is exhausted, what remains of the merge is the rest of
    `left` followed by the rest of `right` (one of the two being empty).
   */
  lemma MergeSeqRest(left: seq<int>, right: seq<int>, i: int, j: int, merged: seq<int>, k: int)
    requires 0 <= i <= |left| && 0 <= j <= |right| && 0 <= k <= |merged|
    requires i == |left| || j == |right|
    requires MergeSeq(left[i..], right[j..]) == merged[k..]
    ensures |merged| == k + (|left| - i) + (|right| - j)
    ensures forall p :: k <= p < k + (|left| - i) ==> merged[p] == left[i + (p - k)]
    ensures forall p :: k + (|left| - i) <= p < |merged| ==> merged[p] == right[j + (p - k - (|left| - i))]
  {
    if i == |left| {
      assert left[i..] == [];
      assert merged[k..] == right[j..];
      forall p | k <= p < |merged| ensures merged[p] == right[j + (p - k)] {
        assert merged[k..][p - k] == merged[p];
      }
    } else {
      assert right[j..] == [];
      assert merged[k..] == left[i..];
      forall p | k <= p < |merged| ensures merged[p] == left[i + (p - k)] {
        assert merged[k..][p - k] == merged[p];
      }
    }
  }

  /**
    The second and third loops of the merge phase: `arr[k] = src[i]` while
    `src` has elements left, advancing `i` and `k` together.
   */
  method CopyRest(a: array<int>, src: array<int>, from: int, at: int) returns (i: int, k: int)
    requires a != src
    requires 0 <= from <= src.Length && 0 <= at && at + (src.Length - from) <= a.Length
    modifies a
    ensures i == src.Length && k == at + (src.Length - from)
    ensures forall p :: 0 <= p < at ==> a[p] == old(a[p])
    ensures forall p :: at <= p < k ==> a[p] == src[from + (p - at)]
    ensures forall p :: k <= p < a.Length ==> a[p] == old(a[p])
  {
    i, k := from, at;
    while i < src.Length
      invariant from <= i <= src.Length && k == at + (i - from)
      invariant forall p :: 0 <= p < at ==> a[p] == old(a[p])
      invariant forall p :: at <= p < k ==> a[p] == src[from + (p - at)]
      invariant forall p :: k <= p < a.Length ==> a[p] == old(a[p])
    {
      a[k] := src[i];
      i := i + 1;
      k := k + 1;
    }
  }

  /**
    Sorts copies of the two halves recursively, then merges them back into
    `arr`.  Lists of length at most one are left as they are.
   */
  method MergeSort(a: array<int>) returns (r: array<int>)
    modifies a
    ensures r == a
    ensures a.Length <= 1 ==> a[..] == old(a[..])
    ensures Sorted(a[..])
    ensures multiset(a[..]) == multiset(old(a[..]))
    decreases a.Length
  {
    if a.Length > 1 {
      var mid := a.Length / 2;
      var left := new int[mid](x requires 0 <= x < mid reads a => a[x]);
      var right := new int[a.Length - mid](x requires 0 <= x < a.Length - mid reads a => a[mid + x]);
      ghost var input, left0, right0 := a[..], left[..], right[..];
      assert input == left0 + right0;

      var _ := MergeSort(left);
      var _ := MergeSort(right);

      Merge(a, left, right);
      MergeSeqSorted(left[..], right[..]);
      MergeSeqPermutation(left[..], right[..]);
      assert multiset(input) == multiset(left0) + multiset(right0);
    }
    r := a;
  }

  // ---------------------------------------------------------------------
  // The four routines agree
  // ---------------------------------------------------------------------

  /** The first element of a sorted sequence is at most each of its elements. */
  lemma SortedHeadIsLeast(s: seq<int>, x: int)
    requires Sorted(s) && x in multiset(s)
    ensures s[0] <= x
  {
    var p :| 0 <= p < |s| && s[p] == x;
  }

  /** Removing one occurrence of the head of `s` leaves the multiset of its tail. */
  lemma MultisetOfTail(s: seq<int>)
    requires |s| > 0
    ensures multiset(s[1..]) == multiset(s) - multiset{s[0]}
  {
    assert s == [s[0]] + s[1..];
    assert multiset(s) == multiset{s[0]} + multiset(s[1..]);
  }

  lemma SortedTail(s: seq<int>)
    requires Sorted(s) && |s| > 0
    ensures Sorted(s[1..])
  {
  }

  /** A sorted arrangement of a multiset is unique. */
  lemma {:induction false} SortedPermutationsEqual(s: seq<int>, t: seq<int>)
    requires Sorted(s) && Sorted(t)
    requires multiset(s) == multiset(t)
    ensures s == t
    decreases |s|
  {
    assert |s| == |multiset(s)| == |multiset(t)| == |t|;
    if |s| > 0 {
      SortedHeadsAgree(s, t);
      SortedTail(s);
      SortedTail(t);
      SortedPermutationsEqual(s[1..], t[1..]);
      assert s == [s[0]] + s[1..] && t == [t[0]] + t[1..];
    }
  }

  /** Two non-empty sorted sequences with one multiset share their head and their tails' multiset. */
  lemma SortedHeadsAgree(s: seq<int>, t: seq<int>)
    requires Sorted(s) && Sorted(t) && |s| > 0 && |t| > 0
    requires multiset(s) == multiset(t)
    ensures s[0] == t[0]
    ensures multiset(s[1..]) == multiset(t[1..])
  {
    SortedHeadIsLeast(t, s[0]);
    SortedHeadIsLeast(s, t[0]);
    MultisetOfTail(s);
    MultisetOfTail(t);
  }

  /** A fresh array holding `s`. */
  method ArrayOf(s: seq<int>) returns (a: array<int>)
    ensures fresh(a) && a[..] == s
  {
    a := new int[|s|](i requires 0 <= i < |s| => s[i]);
  }

  /**
    Running each routine on its own copy of the same list gives one and the
    same sorted permutation of it.
   */
  method SortsAgree(s: seq<int>) returns (bubble: seq<int>, selection: seq<int>, insertion: seq<int>, merge: seq<int>)
    ensures Sorted(bubble) && multiset(bubble) == multiset(s)
    ensures selection == bubble && insertion == bubble && merge == bubble
  {
    var a := ArrayOf(s);
    var _ := BubbleSort(a);
    bubble := a[..];
    a := ArrayOf(s);
    var _ := SelectionSort(a);
    selection := a[..];
    a := ArrayOf(s);
    var _ := InsertionSort(a);
    insertion := a[..];
    a := ArrayOf(s);
    var _ := MergeSort(a);
    merge := a[..];
    SortedPermutationsEqual(selection, bubble);
    SortedPermutationsEqual(insertion, bubble);
    SortedPermutationsEqual(merge, bubble);
  }
}
