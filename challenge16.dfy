/**
 * Sorting with a bubble sort and with an iterative quicksort over an explicit
 * stack, two string builders, two Fibonacci sums and two case-insensitive
 * substring searches, each pair proved to compute the same thing.
 */
module Challenge16 {
  import opened Common

  predicate Sorted(s: seq<int>)
  {
    forall p, q :: 0 <= p < q < |s| ==> s[p] <= s[q]
  }

  /** The last `i` cells hold the i largest values, in order. */
  predicate SuffixDone(s: seq<int>, i: int)
  {
    (forall p, q :: 0 <= |s| - i <= p < q < |s| ==> s[p] <= s[q])
    && (forall p, q :: 0 <= p < |s| - i <= q < |s| ==> s[p] <= s[q])
  }

  lemma SwapPermutes(s: seq<int>, i: int, j: int)
    requires 0 <= i < |s| && 0 <= j < |s|
    ensures multiset(s[i := s[j]][j := s[i]]) == multiset(s)
  {
  }

  method Swap(a: array<int>, i: int, j: int)
    requires 0 <= i < a.Length && 0 <= j < a.Length
    modifies a
    ensures a[..] == old(a[..])[i := old(a[j])][j := old(a[i])]
    ensures multiset(a[..]) == multiset(old(a[..]))
  {
    SwapPermutes(a[..], i, j);
    a[i], a[j] := a[j], a[i];
  }

  /** s[j] is the largest of s[0..j]. */
  predicate MaxAt(s: seq<int>, j: int)
    requires 0 <= j < |s|
  {
    forall k :: 0 <= k <= j ==> s[k] <= s[j]
  }

  /** The inner loop's invariant before visiting j: the running maximum sits at j, or at the end of the prefix once j has passed it. */
  predicate PassInvariant(s: seq<int>, i: int, j: int)
    requires 0 <= i < |s| && 0 <= j
  {
    SuffixDone(s, i) && MaxAt(s, if j <= |s| - i - 1 then j else |s| - i - 1)
  }

  /** One compare-and-swap of the inner loop keeps its invariant, one cell further on. */
  lemma BubbleStep(s: seq<int>, i: int, j: int)
    requires 0 <= i < |s| && 0 <= j < |s| - 1 && PassInvariant(s, i, j)
    ensures s[j] > s[j + 1] ==> j < |s| - i - 1
    ensures PassInvariant(if s[j] > s[j + 1] then s[j := s[j + 1]][j + 1 := s[j]] else s, i, j + 1)
  {
  }

  /** After a full sweep the largest value of the prefix sits at its end. */
  lemma PassDone(s: seq<int>, i: int)
    requires 0 <= i < |s| && PassInvariant(s, i, |s| - 1)
    ensures SuffixDone(s, i + 1)
  {
  }

  /** One sweep of the inner loop: the largest value of the unsorted prefix bubbles to its end. */
  method BubblePass(a: array<int>, ghost i: int)
    requires 0 <= i < a.Length && SuffixDone(a[..], i)
    modifies a
    ensures SuffixDone(a[..], i + 1) && multiset(a[..]) == multiset(old(a[..]))
  {
    var n := a.Length;
    var j := 0;
    while j < n - 1
      invariant 0 <= j <= n - 1
      invariant multiset(a[..]) == multiset(old(a[..]))
      invariant PassInvariant(a[..], i, j)
    {
      CompareSwap(a, i, j);
      j := j + 1;
    }
    PassDone(a[..], i);
  }

  /** The body of the inner loop: swap a[j] and a[j+1] when they are out of order. */
  method CompareSwap(a: array<int>, ghost i: int, j: int)
    requires 0 <= i < a.Length && 0 <= j < a.Length - 1 && PassInvariant(a[..], i, j)
    modifies a
    ensures PassInvariant(a[..], i, j + 1) && multiset(a[..]) == multiset(old(a[..]))
  {
    BubbleStep(a[..], i, j);
    if a[j] > a[j + 1] {
      Swap(a, j, j + 1);
    }
  }

  method SlowSort(data: seq<int>) returns (result: seq<int>)
    ensures Sorted(result) && multiset(result) == multiset(data)
  {
    var a := new int[|data|](k requires 0 <= k < |data| => data[k]);
    assert a[..] == data;
    var i := 0;
    while i < a.Length
      invariant 0 <= i <= a.Length
      invariant multiset(a[..]) == multiset(data)
      invariant SuffixDone(a[..], i)
    {
      BubblePass(a, i);
      i := i + 1;
    }
    result := a[..];
  }

  /** Cells outside [i, j] agree. */
  predicate SameOutside(s: seq<int>, t: seq<int>, i: int, j: int)
  {
    |s| == |t| && forall k :: 0 <= k < |s| && !(i <= k <= j) ==> s[k] == t[k]
  }

  /** State of the partition loop: a[i] is the pivot, (i, x] holds smaller and (x, p) larger-or-equal cells. */
  predicate Partitioned(s: seq<int>, i: int, j: int, x: int, p: int)
  {
    0 <= i <= x < p <= j + 1 <= |s|
    && (forall k :: i < k <= x ==> s[k] < s[i])
    && (forall k :: x < k < p ==> s[k] >= s[i])
  }

  lemma PartitionScan(s: seq<int>, i: int, j: int, x: int, p: int)
    requires Partitioned(s, i, j, x, p) && p <= j
    ensures s[p] < s[i] ==> x + 1 <= p && Partitioned(s[p := s[x + 1]][x + 1 := s[p]], i, j, x + 1, p + 1)
    ensures s[p] >= s[i] ==> Partitioned(s, i, j, x, p + 1)
  {
  }

  lemma PartitionFinish(s: seq<int>, i: int, j: int, x: int)
    requires Partitioned(s, i, j, x, j + 1)
    ensures var t := s[i := s[x]][x := s[i]];
            (forall k :: i <= k < x ==> t[k] < t[x]) && (forall k :: x < k <= j ==> t[k] >= t[x])
  {
  }

  /** The scan of the partition loop: moves every cell below the pivot a[i] into (i, x]. */
  method PartitionScanLoop(a: array<int>, i: int, j: int) returns (x: int)
    requires 0 <= i <= j < a.Length
    modifies a
    ensures Partitioned(a[..], i, j, x, j + 1) && a[i] == old(a[i])
    ensures multiset(a[..]) == multiset(old(a[..])) && SameOutside(a[..], old(a[..]), i, j)
  {
    var pivot := a[i];
    x := i;
    var p := i + 1;
    while p <= j
      invariant Partitioned(a[..], i, j, x, p) && a[i] == pivot
      invariant multiset(a[..]) == multiset(old(a[..])) && SameOutside(a[..], old(a[..]), i, j)
    {
      ghost var before := a[..];
      x := ScanStep(a, i, j, x, p, pivot);
      SameOutsideTrans(a[..], before, old(a[..]), i, j);
      p := p + 1;
    }
  }

  /** The body of the partition loop: a cell below the pivot is swapped to just after (i, x]. */
  method ScanStep(a: array<int>, i: int, j: int, x: int, p: int, pivot: int) returns (x': int)
    requires Partitioned(a[..], i, j, x, p) && p <= j && a[i] == pivot
    modifies a
    ensures Partitioned(a[..], i, j, x', p + 1) && a[i] == pivot
    ensures multiset(a[..]) == multiset(old(a[..])) && SameOutside(a[..], old(a[..]), i, j)
  {
    PartitionScan(a[..], i, j, x, p);
    x' := x;
    if a[p] < pivot {
      x' := x + 1;
      Swap(a, p, x');
    }
  }

  lemma SameOutsideTrans(s: seq<int>, t: seq<int>, u: seq<int>, i: int, j: int)
    requires SameOutside(s, t, i, j) && SameOutside(t, u, i, j)
    ensures SameOutside(s, u, i, j)
  {
  }

  method Partition(a: array<int>, i: int, j: int) returns (x: int)
    requires 0 <= i <= j < a.Length
    modifies a
    ensures i <= x <= j && a[x] == old(a[i])
    ensures forall k :: i <= k < x ==> a[k] < a[x]
    ensures forall k :: x < k <= j ==> a[k] >= a[x]
    ensures multiset(a[..]) == multiset(old(a[..])) && SameOutside(a[..], old(a[..]), i, j)
  {
    x := PartitionScanLoop(a, i, j);
    PartitionFinish(a[..], i, j, x);
    Swap(a, i, x);
  }


  type Block = (int, int)

  /** Some pending block holds both positions. */
  predicate SameBlock(blocks: seq<Block>, p: int, q: int)
  {
    |blocks| > 0
    && (var b := blocks[|blocks| - 1];
        (b.0 <= p <= b.1 && b.0 <= q <= b.1) || SameBlock(blocks[..|blocks| - 1], p, q))
  }

  lemma {:induction false} SameBlockAt(blocks: seq<Block>, p: int, q: int, k: int)
    requires 0 <= k < |blocks| && blocks[k].0 <= p <= blocks[k].1 && blocks[k].0 <= q <= blocks[k].1
    ensures SameBlock(blocks, p, q)
  {
    if k < |blocks| - 1 {
      var init := blocks[..|blocks| - 1];
      assert init[k] == blocks[k];
      SameBlockAt(init, p, q, k);
    }
  }

  lemma {:induction false} NotSameBlock(blocks: seq<Block>, p: int, q: int)
    requires forall k :: 0 <= k < |blocks| ==> !(blocks[k].0 <= p <= blocks[k].1 && blocks[k].0 <= q <= blocks[k].1)
    ensures !SameBlock(blocks, p, q)
  {
    if |blocks| > 0 {
      var init := blocks[..|blocks| - 1];
      forall k | 0 <= k < |init| ensures !(init[k].0 <= p <= init[k].1 && init[k].0 <= q <= init[k].1) {
        assert init[k] == blocks[k];
      }
      NotSameBlock(init, p, q);
    }
  }

  /** Every block has at least two cells, lies in [lo, hi], and no two blocks overlap. */
  predicate Blocks(blocks: seq<Block>, lo: int, hi: int)
  {
    (forall k :: 0 <= k < |blocks| ==> lo <= blocks[k].0 < blocks[k].1 <= hi)
    && (forall k1, k2 :: 0 <= k1 < |blocks| && 0 <= k2 < |blocks| && k1 != k2 ==>
          blocks[k1].1 < blocks[k2].0 || blocks[k2].1 < blocks[k1].0)
  }

  /** Any two cells of [lo, hi] not sharing a pending block are in order. */
  predicate Ordered(s: seq<int>, lo: int, hi: int, blocks: seq<Block>)
    requires 0 <= lo && hi < |s|
  {
    forall p, q :: lo <= p < q <= hi && !SameBlock(blocks, p, q) ==> s[p] <= s[q]
  }

  /** Total number of cells in the pending blocks. */
  function Sum(blocks: seq<Block>): int
  {
    if |blocks| == 0 then 0 else Sum(blocks[..|blocks| - 1]) + blocks[|blocks| - 1].1 - blocks[|blocks| - 1].0 + 1
  }

  lemma {:induction false} SumBound(blocks: seq<Block>, lo: int, hi: int)
    requires Blocks(blocks, lo, hi)
    ensures 2 * |blocks| <= Sum(blocks)
  {
    if |blocks| > 0 {
      var init := blocks[..|blocks| - 1];
      assert Blocks(init, lo, hi) by {
        forall k | 0 <= k < |init| ensures lo <= init[k].0 < init[k].1 <= hi {
          assert init[k] == blocks[k];
        }
      }
      SumBound(init, lo, hi);
    }
  }

  /** The block the left part of a partition at x leaves to sort, if any. */
  function LeftPart(i: int, x: int): seq<Block> { if x - 1 > i then [(i, x - 1)] else [] }

  /** The block the right part leaves to sort, if any. */
  function RightPart(x: int, j: int): seq<Block> { if x + 1 < j then [(x + 1, j)] else [] }

  lemma SegmentPermutation(s: seq<int>, t: seq<int>, i: int, j: int)
    requires 0 <= i <= j < |s| && SameOutside(t, s, i, j) && multiset(t) == multiset(s)
    ensures multiset(t[i..j + 1]) == multiset(s[i..j + 1])
  {
    assert s == s[..i] + s[i..j + 1] + s[j + 1..];
    assert t == t[..i] + t[i..j + 1] + t[j + 1..];
    assert s[..i] == t[..i];
    assert s[j + 1..] == t[j + 1..];
    var outside := multiset(s[..i]) + multiset(s[j + 1..]);
    assert multiset(s) == multiset(s[i..j + 1]) + outside;
    assert multiset(t) == multiset(t[i..j + 1]) + outside;
    assert multiset(t[i..j + 1]) == multiset(t) - outside;
  }

  lemma ComesFrom(s: seq<int>, t: seq<int>, i: int, j: int, p: int) returns (p': int)
    requires 0 <= i <= p <= j < |s| == |t| && multiset(t[i..j + 1]) == multiset(s[i..j + 1])
    ensures i <= p' <= j && s[p'] == t[p]
  {
    assert t[p] == t[i..j + 1][p - i];
    assert t[p] in multiset(s[i..j + 1]);
    var m :| 0 <= m < |s[i..j + 1]| && s[i..j + 1][m] == t[p];
    p' := i + m;
  }

  lemma {:induction false} SumAppend(a: seq<Block>, b: seq<Block>)
    ensures Sum(a + b) == Sum(a) + Sum(b)
  {
    if |b| > 0 {
      assert (a + b)[..|a + b| - 1] == a + b[..|b| - 1];
      SumAppend(a, b[..|b| - 1]);
    } else {
      assert a + b == a;
    }
  }

  /** The blocks a partition of (i, j) at x leaves to sort. */
  function Split(i: int, j: int, x: int): seq<Block>
  {
    LeftPart(i, x) + RightPart(x, j)
  }

  lemma OneBlock(b: Block, lo: int, hi: int)
    requires lo <= b.0 < b.1 <= hi
    ensures Blocks([b], lo, hi) && Sum([b]) == b.1 - b.0 + 1
  {
    assert [b][..0] == [];
  }

  lemma TwoBlocks(b: Block, c: Block, lo: int, hi: int)
    requires lo <= b.0 < b.1 < c.0 < c.1 <= hi
    ensures Blocks([b, c], lo, hi) && Sum([b, c]) == b.1 - b.0 + 1 + c.1 - c.0 + 1
  {
    assert [b, c][..1] == [b];
    OneBlock(b, lo, hi);
  }

  lemma SplitBlocks(i: int, j: int, x: int)
    requires i <= x <= j
    ensures Blocks(Split(i, j, x), i, j) && Sum(Split(i, j, x)) < j - i + 1
  {
    if x - 1 > i && x + 1 < j {
      assert Split(i, j, x) == [(i, x - 1), (x + 1, j)];
      TwoBlocks((i, x - 1), (x + 1, j), i, j);
    } else if x - 1 > i {
      assert Split(i, j, x) == [(i, x - 1)];
      OneBlock((i, x - 1), i, j);
    } else if x + 1 < j {
      assert Split(i, j, x) == [(x + 1, j)];
      OneBlock((x + 1, j), i, j);
    } else {
      assert Split(i, j, x) == [];
    }
  }

  lemma BlocksAppend(rest: seq<Block>, extra: seq<Block>, lo: int, hi: int, i: int, j: int)
    requires Blocks(rest + [(i, j)], lo, hi) && Blocks(extra, i, j)
    ensures Blocks(rest + extra, lo, hi)
  {
    var before := rest + [(i, j)];
    assert before[|rest|] == (i, j);
    forall k | 0 <= k < |rest| ensures (rest[k].1 < i || j < rest[k].0) && lo <= rest[k].0 < rest[k].1 <= hi {
      assert before[k] == rest[k];
    }
    var after := rest + extra;
    forall k1, k2 | 0 <= k1 < |after| && 0 <= k2 < |after| && k1 != k2
      ensures after[k1].1 < after[k2].0 || after[k2].1 < after[k1].0
    {
      if k1 < |rest| && k2 < |rest| {
        assert before[k1] == rest[k1] && before[k2] == rest[k2];
      } else if k1 >= |rest| && k2 >= |rest| {
        assert after[k1] == extra[k1 - |rest|] && after[k2] == extra[k2 - |rest|];
      }
    }
  }

  lemma BlocksStep(rest: seq<Block>, lo: int, hi: int, i: int, j: int, x: int)
    requires i <= x <= j && Blocks(rest + [(i, j)], lo, hi)
    ensures Blocks(rest + Split(i, j, x), lo, hi)
    ensures Sum(rest + Split(i, j, x)) < Sum(rest + [(i, j)])
  {
    SplitBlocks(i, j, x);
    BlocksAppend(rest, Split(i, j, x), lo, hi, i, j);
    SumAppend(rest, Split(i, j, x));
    SumAppend(rest, [(i, j)]);
    assert [(i, j)][..0] == [];
  }

  /** No block of the list holds both positions. */
  lemma Separated(s: seq<int>, lo: int, hi: int, blocks: seq<Block>, p: int, q: int)
    requires 0 <= lo <= p < q <= hi < |s| && Ordered(s, lo, hi, blocks)
    requires forall k :: 0 <= k < |blocks| ==> !(blocks[k].0 <= p <= blocks[k].1 && blocks[k].0 <= q <= blocks[k].1)
    ensures s[p] <= s[q]
  {
    NotSameBlock(blocks, p, q);
  }

  lemma LeftSame(rest: seq<Block>, i: int, j: int, x: int, p: int, q: int)
    requires i <= p < x && i <= q < x && x - 1 > i
    ensures SameBlock(rest + Split(i, j, x), p, q)
  {
    assert (rest + Split(i, j, x))[|rest|] == (i, x - 1);
    SameBlockAt(rest + Split(i, j, x), p, q, |rest|);
  }

  lemma RightSame(rest: seq<Block>, i: int, j: int, x: int, p: int, q: int)
    requires x < p <= j && x < q <= j && x + 1 < j
    ensures SameBlock(rest + Split(i, j, x), p, q)
  {
    var after := rest + Split(i, j, x);
    assert after[|after| - 1] == (x + 1, j);
    SameBlockAt(after, p, q, |after| - 1);
  }

  /** Two cells of [lo, hi] after the partition step: in a pending block, or in order. */
  lemma PairStep(s: seq<int>, t: seq<int>, lo: int, hi: int, rest: seq<Block>, i: int, j: int, x: int, p: int, q: int)
    requires 0 <= lo <= i <= x <= j <= hi < |s| == |t|
    requires forall k :: 0 <= k < |rest| ==> rest[k].1 < i || j < rest[k].0
    requires Ordered(s, lo, hi, rest + [(i, j)])
    requires SameOutside(t, s, i, j) && multiset(t[i..j + 1]) == multiset(s[i..j + 1])
    requires forall k :: i <= k < x ==> t[k] < t[x]
    requires forall k :: x < k <= j ==> t[k] >= t[x]
    requires lo <= p < q <= hi
    ensures SameBlock(rest + Split(i, j, x), p, q) || t[p] <= t[q]
  {
    var before := rest + [(i, j)];
    var after := rest + Split(i, j, x);
    assert before[|rest|] == (i, j);
    if i <= p && q <= j {
      if p < x < q || p == x || q == x {
      } else if q < x {
        LeftSame(rest, i, j, x, p, q);
      } else {
        RightSame(rest, i, j, x, p, q);
      }
    } else if i <= p <= j {
      var p' := ComesFrom(s, t, i, j, p);
      forall k | 0 <= k < |before| ensures !(before[k].0 <= p' <= before[k].1 && before[k].0 <= q <= before[k].1) {
        if k < |rest| { assert before[k] == rest[k]; }
      }
      Separated(s, lo, hi, before, p', q);
    } else if i <= q <= j {
      var q' := ComesFrom(s, t, i, j, q);
      forall k | 0 <= k < |before| ensures !(before[k].0 <= p <= before[k].1 && before[k].0 <= q' <= before[k].1) {
        if k < |rest| { assert before[k] == rest[k]; }
      }
      Separated(s, lo, hi, before, p, q');
    } else if exists k :: 0 <= k < |rest| && rest[k].0 <= p <= rest[k].1 && rest[k].0 <= q <= rest[k].1 {
      var k :| 0 <= k < |rest| && rest[k].0 <= p <= rest[k].1 && rest[k].0 <= q <= rest[k].1;
      assert after[k] == rest[k];
      SameBlockAt(after, p, q, k);
    } else {
      forall k | 0 <= k < |before| ensures !(before[k].0 <= p <= before[k].1 && before[k].0 <= q <= before[k].1) {
        if k < |rest| { assert before[k] == rest[k]; }
      }
      Separated(s, lo, hi, before, p, q);
    }
  }

  lemma PartitionStep(s: seq<int>, t: seq<int>, lo: int, hi: int, rest: seq<Block>, i: int, j: int, x: int)
    requires 0 <= lo <= i <= x <= j <= hi < |s| == |t|
    requires Blocks(rest + [(i, j)], lo, hi) && Ordered(s, lo, hi, rest + [(i, j)])
    requires SameOutside(t, s, i, j) && multiset(t) == multiset(s)
    requires forall k :: i <= k < x ==> t[k] < t[x]
    requires forall k :: x < k <= j ==> t[k] >= t[x]
    ensures Ordered(t, lo, hi, rest + Split(i, j, x))
  {
    var before := rest + [(i, j)];
    assert before[|rest|] == (i, j);
    forall k | 0 <= k < |rest| ensures rest[k].1 < i || j < rest[k].0 {
      assert before[k] == rest[k];
    }
    SegmentPermutation(s, t, i, j);
    forall p, q | lo <= p < q <= hi && !SameBlock(rest + Split(i, j, x), p, q) ensures t[p] <= t[q] {
      PairStep(s, t, lo, hi, rest, i, j, x, p, q);
    }
  }

  /** The stack holds the bounds of every pending block, two cells per block. */
  predicate StackHolds(stack: seq<int>, pending: seq<Block>)
  {
    2 * |pending| <= |stack|
    && forall k :: 0 <= k < |pending| ==> stack[2 * k] == pending[k].0 && stack[2 * k + 1] == pending[k].1
  }

  lemma PopKeeps(stack: seq<int>, pending: seq<Block>)
    requires |pending| > 0 && StackHolds(stack, pending)
    ensures StackHolds(stack, pending[..|pending| - 1])
    ensures stack[2 * |pending| - 2] == pending[|pending| - 1].0 && stack[2 * |pending| - 1] == pending[|pending| - 1].1
  {
  }

  method PushBlock(stack: array<int>, top: int, lo: int, hi: int, ghost pending: seq<Block>) returns (top': int)
    requires top == 2 * |pending| - 1 && 2 * |pending| + 2 <= stack.Length && StackHolds(stack[..], pending)
    modifies stack
    ensures top' == top + 2 && StackHolds(stack[..], pending + [(lo, hi)])
  {
    top' := top + 1;
    stack[top'] := lo;
    top' := top' + 1;
    stack[top'] := hi;
    assert forall k :: 0 <= k < |pending| ==> (pending + [(lo, hi)])[k] == pending[k];
  }

  /** Pushing the parts of a partition one by one yields rest + Split(i, j, x). */
  lemma PushedIsSplit(rest: seq<Block>, i: int, j: int, x: int)
    ensures var m := if x - 1 > i then rest + [(i, x - 1)] else rest;
            rest + Split(i, j, x) == if x + 1 < j then m + [(x + 1, j)] else m
  {
  }

  /** Partitions the last pending block (i, j) and reports what remains to sort. */
  method SortBlock(a: array<int>, start: int, end: int, ghost orig: seq<int>, ghost rest: seq<Block>, i: int, j: int)
      returns (pivot: int)
    requires 0 <= start && end < a.Length
    requires Blocks(rest + [(i, j)], start, end) && Ordered(a[..], start, end, rest + [(i, j)])
    requires multiset(a[..]) == multiset(orig) && SameOutside(a[..], orig, start, end)
    modifies a
    ensures i <= pivot <= j
    ensures Blocks(rest + Split(i, j, pivot), start, end) && Ordered(a[..], start, end, rest + Split(i, j, pivot))
    ensures Sum(rest + Split(i, j, pivot)) < Sum(rest + [(i, j)]) && 2 * |rest + Split(i, j, pivot)| <= Sum(rest + Split(i, j, pivot))
    ensures multiset(a[..]) == multiset(orig) && SameOutside(a[..], orig, start, end)
  {
    assert (rest + [(i, j)])[|rest|] == (i, j);
    ghost var before := a[..];
    pivot := Partition(a, i, j);
    PartitionStep(before, a[..], start, end, rest, i, j, pivot);
    BlocksStep(rest, start, end, i, j, pivot);
    SumBound(rest + Split(i, j, pivot), start, end);
  }

  /** Pushes the parts of block (i, j) that a partition at x leaves unsorted, left part first. */
  method PushParts(stack: array<int>, top: int, i: int, j: int, x: int, ghost rest: seq<Block>) returns (top': int)
    requires top == 2 * |rest| - 1 && 2 * |rest + Split(i, j, x)| <= stack.Length && StackHolds(stack[..], rest)
    modifies stack
    ensures top' == 2 * |rest + Split(i, j, x)| - 1 && StackHolds(stack[..], rest + Split(i, j, x))
  {
    PushedIsSplit(rest, i, j, x);
    ghost var pushed := rest;
    top' := top;
    if x - 1 > i {
      top' := PushBlock(stack, top', i, x - 1, pushed);
      pushed := pushed + [(i, x - 1)];
    }
    if x + 1 < j {
      top' := PushBlock(stack, top', x + 1, j, pushed);
      pushed := pushed + [(x + 1, j)];
    }
  }

  /** The loop state of the sort: the stack lists the pending blocks, and everything outside them is in order. */
  predicate Sorting(s: seq<int>, orig: seq<int>, stack: seq<int>, top: int, pending: seq<Block>, start: int, end: int)
  {
    0 <= start && end < |s|
    && top == 2 * |pending| - 1 && StackHolds(stack, pending)
    && Blocks(pending, start, end) && Sum(pending) <= |stack|
    && Ordered(s, start, end, pending)
    && multiset(s) == multiset(orig) && SameOutside(s, orig, start, end)
  }

  /** One turn of the sort loop: pop a block, partition it, push what is left of it. */
  method SortTurn(a: array<int>, stack: array<int>, top: int, start: int, end: int, ghost orig: seq<int>, ghost pending: seq<Block>)
      returns (top': int, ghost pending': seq<Block>)
    requires a != stack && top >= 0 && Sorting(a[..], orig, stack[..], top, pending, start, end)
    modifies a, stack
    ensures Sorting(a[..], orig, stack[..], top', pending', start, end) && 0 <= Sum(pending') < Sum(pending)
  {
    PopKeeps(stack[..], pending);
    ghost var rest := pending[..|pending| - 1];
    top' := top;
    var j := stack[top'];
    top' := top' - 1;
    var i := stack[top'];
    top' := top' - 1;
    assert pending == rest + [(i, j)];
    var pivot := SortBlock(a, start, end, orig, rest, i, j);
    top' := PushParts(stack, top', i, j, pivot, rest);
    pending' := rest + Split(i, j, pivot);
  }

  lemma SortingStarts(s: seq<int>, stack: seq<int>, start: int, end: int)
    requires 0 <= start < end < |s| && |stack| == end - start + 1 && stack[0] == start && stack[1] == end
    ensures Sorting(s, s, stack, 1, [(start, end)], start, end)
  {
    assert [(start, end)][..0] == [];
  }

  lemma SortingEnds(s: seq<int>, orig: seq<int>, stack: seq<int>, top: int, pending: seq<Block>, start: int, end: int)
    requires Sorting(s, orig, stack, top, pending, start, end) && top < 0
    ensures forall p, q :: start <= p < q <= end ==> s[p] <= s[q]
    ensures multiset(s) == multiset(orig) && SameOutside(s, orig, start, end)
  {
  }

  method QuickSort(a: array<int>, start: int, end: int)
    requires start >= end || (0 <= start && end < a.Length)
    modifies a
    ensures forall p, q :: start <= p < q <= end ==> a[p] <= a[q]
    ensures multiset(a[..]) == multiset(old(a[..])) && SameOutside(a[..], old(a[..]), start, end)
  {
    if start >= end {
      return;
    }
    var stack := new int[end - start + 1];
    var top := -1;
    top := top + 1;
    stack[top] := start;
    top := top + 1;
    stack[top] := end;
    ghost var pending: seq<Block> := [(start, end)];
    SortingStarts(a[..], stack[..], start, end);
    while top >= 0
      invariant Sorting(a[..], old(a[..]), stack[..], top, pending, start, end)
      decreases Sum(pending)
    {
      top, pending := SortTurn(a, stack, top, start, end, old(a[..]), pending);
    }
    SortingEnds(a[..], old(a[..]), stack[..], top, pending, start, end);
  }

  /** Sorts a copy of the input with the explicit-stack quicksort. */
  method OptimizedSort(data: seq<int>) returns (result: seq<int>)
    ensures Sorted(result) && multiset(result) == multiset(data)
  {
    var a := new int[|data|](k requires 0 <= k < |data| => data[k]);
    assert a[..] == data;
    QuickSort(a, 0, |data| - 1);
    result := a[..];
  }

  /** Two sorted permutations of each other start with the same (least) element. */
  lemma SortedHeads(s: seq<int>, t: seq<int>)
    requires Sorted(s) && Sorted(t) && multiset(s) == multiset(t) && |s| > 0
    ensures |t| > 0 && s[0] == t[0]
  {
    assert s[0] in multiset(t);
    var p :| 0 <= p < |t| && t[p] == s[0];
    assert t[0] in multiset(s);
    var q :| 0 <= q < |s| && s[q] == t[0];
  }

  lemma Tails(s: seq<int>, t: seq<int>)
    requires |s| > 0 && |t| > 0 && s[0] == t[0] && multiset(s) == multiset(t)
    ensures multiset(s[1..]) == multiset(t[1..])
  {
    assert s == [s[0]] + s[1..];
    assert t == [t[0]] + t[1..];
    assert multiset(s[1..]) == multiset(s) - multiset{s[0]};
    assert multiset(t[1..]) == multiset(t) - multiset{t[0]};
  }

  /**
   * A sorted permutation is unique, so the bubble sort and the quicksort
   * return the same sequence for every input.
   */
  lemma {:induction false} SortedPermutationUnique(s: seq<int>, t: seq<int>)
    requires Sorted(s) && Sorted(t) && multiset(s) == multiset(t)
    ensures s == t
  {
    if |s| > 0 {
      SortedHeads(s, t);
      Tails(s, t);
      SortedPermutationUnique(s[1..], t[1..]);
    } else {
      assert |multiset(t)| == 0;
    }
  }

  // ---------------------------------------------------------------------------
  // String builders

  /** All parts joined with no separator. */
  function Concat(parts: seq<string>): string
  {
    if |parts| == 0 then "" else Concat(parts[..|parts| - 1]) + parts[|parts| - 1]
  }

  /** s written n times in a row; nothing at all when n <= 0. */
  function Repeat(s: string, n: int): string
  {
    if n <= 0 then "" else Repeat(s, n - 1) + s
  }

  lemma {:induction false} RepeatLength(s: string, n: int)
    ensures |Repeat(s, n)| == (if n <= 0 then 0 else n * |s|)
  {
    if n > 0 {
      RepeatLength(s, n - 1);
    }
  }

  lemma {:induction false} RepeatAdd(s: string, m: nat, n: nat)
    ensures Repeat(s, m + n) == Repeat(s, m) + Repeat(s, n)
  {
    if n > 0 {
      RepeatAdd(s, m, n - 1);
    }
  }

  lemma RepeatOnce(s: string)
    ensures Repeat(s, 1) == s
  {
    assert Repeat(s, 0) == "";
  }

  lemma RepeatSplit(s: string, n: int, c: nat)
    requires c < n
    ensures Repeat(s, n) == Repeat(s, c) + (s + Repeat(s, n - c - 1))
  {
    var m: nat := n - c;
    var r: nat := m - 1;
    RepeatAdd(s, c, m);
    RepeatAdd(s, 1, r);
    RepeatOnce(s);
    assert Repeat(s, m) == s + Repeat(s, r);
  }

  /** Character k of copy c of the repetition is character k of s. */
  lemma RepeatAt(s: string, n: int, c: nat, k: int)
    requires c < n && 0 <= k < |s|
    ensures c * |s| + k < |Repeat(s, n)| && Repeat(s, n)[c * |s| + k] == s[k]
  {
    RepeatSplit(s, n, c);
    RepeatLength(s, c);
    var before := Repeat(s, c);
    var rest := s + Repeat(s, n - c - 1);
    assert |before| == c * |s|;
    assert (before + rest)[|before| + k] == rest[k];
  }

  lemma {:induction false} ConcatLength(parts: seq<string>)
    ensures |Concat(parts)| == SumLengths(parts)
  {
    if |parts| > 0 {
      ConcatLength(parts[..|parts| - 1]);
    }
  }

  function SumLengths(parts: seq<string>): nat
  {
    if |parts| == 0 then 0 else SumLengths(parts[..|parts| - 1]) + |parts[|parts| - 1]|
  }

  /** Appends every part to the result, repeatCount times over. */
  method InefficientStringBuilder(parts: seq<string>, repeatCount: int) returns (result: string)
    ensures result == Repeat(Concat(parts), repeatCount)
  {
    result := "";
    var i := 0;
    while i < repeatCount
      invariant 0 <= i <= if repeatCount < 0 then 0 else repeatCount
      invariant result == Repeat(Concat(parts), i)
    {
      var k := 0;
      while k < |parts|
        invariant 0 <= k <= |parts|
        invariant result == Repeat(Concat(parts), i) + Concat(parts[..k])
      {
        assert parts[..k + 1][..k] == parts[..k];
        result := result + parts[k];
        k := k + 1;
      }
      assert parts[..|parts|] == parts;
      i := i + 1;
    }
  }

  /** Joins the parts once, then writes the joined string repeatCount times into a buffer. */
  method OptimizedStringBuilder(parts: seq<string>, repeatCount: int) returns (result: string)
    ensures result == Repeat(Concat(parts), repeatCount)
  {
    var buffer := "";
    var temp := Concat(parts);
    var i := 0;
    while i < repeatCount
      invariant 0 <= i <= if repeatCount < 0 then 0 else repeatCount
      invariant buffer == Repeat(temp, i)
    {
      buffer := buffer + temp;
      i := i + 1;
    }
    result := buffer;
  }

  // ---------------------------------------------------------------------------
  // Fibonacci sums

  /** The Fibonacci number at position n; positions n <= 1 give n itself. */
  function Fibonacci(n: int): (r: int)
    ensures n >= 0 ==> r >= 0
    ensures n >= 1 ==> r >= 1
    decreases if n < 0 then 0 else n
  {
    if n <= 1 then n else Fibonacci(n - 1) + Fibonacci(n - 2)
  }

  /** The iterative Fibonacci: two running values instead of recursion. */
  method MyFib(n: int) returns (result: int)
    ensures result == Fibonacci(n)
    ensures n <= 1 ==> result == n
  {
    if n <= 1 {
      return n;
    }
    var a := 1;
    var b := 0;
    result := 1;
    var i := 2;
    while i <= n
      invariant 2 <= i <= n + 1
      invariant a == Fibonacci(i - 1) && b == Fibonacci(i - 2) && result == a
    {
      result := a + b;
      b := a;
      a := result;
      i := i + 1;
    }
  }

  /** Fibonacci(1) + ... + Fibonacci(n); 0 when n <= 0. */
  function FibonacciSum(n: int): int
    decreases if n < 0 then 0 else n
  {
    if n <= 0 then 0 else FibonacciSum(n - 1) + Fibonacci(n)
  }

  /** The sum of the first n Fibonacci numbers is one less than the (n + 2)-th. */
  lemma {:induction false} FibonacciSumClosedForm(n: nat)
    ensures FibonacciSum(n) == Fibonacci(n + 2) - 1
  {
    if n > 0 {
      FibonacciSumClosedForm(n - 1);
    }
  }

  method ExpensiveCalculation(n: int) returns (sum: int)
    ensures sum == FibonacciSum(n)
    ensures n <= 0 ==> sum == 0
  {
    if n <= 0 {
      return 0;
    }
    sum := 0;
    var i := 1;
    while i <= n
      invariant 1 <= i <= n + 1 && sum == FibonacciSum(i - 1)
    {
      sum := sum + Fibonacci(i);
      i := i + 1;
    }
  }

  method OptimizedCalculation(n: int) returns (sum: int)
    ensures sum == FibonacciSum(n)
    ensures n <= 0 ==> sum == 0
  {
    if n <= 0 {
      return 0;
    }
    sum := 0;
    var i := 1;
    while i <= n
      invariant 1 <= i <= n + 1 && sum == FibonacciSum(i - 1)
    {
      var f := MyFib(i);
      sum := sum + f;
      i := i + 1;
    }
  }

  // ---------------------------------------------------------------------------
  // Case-insensitive substring search (ASCII strings)

  function LowerChar(c: char): char
  {
    if 'A' <= c <= 'Z' then (c as int + 32) as char else c
  }

  /** ASCII lower-casing, character by character. */
  function Lower(s: string): (r: string)
    ensures |r| == |s| && forall k :: 0 <= k < |s| ==> r[k] == LowerChar(s[k])
  {
    seq(|s|, k requires 0 <= k < |s| => LowerChar(s[k]))
  }

  /** Case-insensitive equality of two ASCII strings. */
  predicate EqualFold(s: string, t: string)
  {
    Lower(s) == Lower(t)
  }

  /** The needle occurs at position i of the text, ignoring case. */
  predicate MatchesAt(text: string, needle: string, i: int)
  {
    0 <= i && i + |needle| <= |text| && EqualFold(text[i..i + |needle|], needle)
  }

  /** Every position of [0, n) where the needle occurs, mapped to the text there in its original case. */
  function Occurrences(text: string, needle: string, n: int): map<int, string>
  {
    map i | 0 <= i < n && MatchesAt(text, needle, i) :: text[i..i + |needle|]
  }

  lemma SliceOfLower(s: string, i: int, j: int)
    requires 0 <= i <= j <= |s|
    ensures Lower(s)[i..j] == Lower(s[i..j])
  {
  }

  lemma LowerIdempotent(s: string)
    ensures Lower(Lower(s)) == Lower(s)
  {
  }

  /** What the search reports: exactly the case-insensitive matches, each with its own slice of the text. */
  lemma OccurrencesMeaning(text: string, needle: string, n: int, i: int)
    ensures i in Occurrences(text, needle, n) <==> 0 <= i < n && i + |needle| <= |text| && Lower(text[i..i + |needle|]) == Lower(needle)
    ensures i in Occurrences(text, needle, n) ==> Occurrences(text, needle, n)[i] == text[i..i + |needle|]
  {
  }

  /** With an empty needle every position of the text matches, with the empty string. */
  lemma EmptyNeedleMatchesEverywhere(text: string, i: int)
    ensures i in Occurrences(text, "", |text|) <==> 0 <= i < |text|
    ensures 0 <= i < |text| ==> Occurrences(text, "", |text|)[i] == ""
  {
    if 0 <= i < |text| {
      assert text[i..i] == "";
      assert MatchesAt(text, "", i);
    }
  }

  /** Scanning past the last position where the needle fits adds nothing. */
  lemma OccurrencesStop(text: string, needle: string, n: int)
    requires |needle| > 0 && n >= |text| - |needle| + 1
    ensures Occurrences(text, needle, n) == Occurrences(text, needle, |text| - |needle| + 1)
  {
  }

  lemma OccurrencesStep(text: string, needle: string, n: int)
    requires n >= 0
    ensures Occurrences(text, needle, n + 1)
            == if MatchesAt(text, needle, n) then Occurrences(text, needle, n)[n := text[n..n + |needle|]]
               else Occurrences(text, needle, n)
  {
  }

  /** The first search's probe: the lower-cased window equals the lower-cased needle. */
  lemma ProbeMeansMatch(text: string, needle: string, i: int)
    requires 0 <= i && i + |needle| <= |text|
    ensures Lower(text)[i..i + |needle|] == Lower(needle) <==> MatchesAt(text, needle, i)
  {
    SliceOfLower(text, i, i + |needle|);
  }

  /** The second search's probe: the lower-cased window folds to the lower-cased needle. */
  lemma FoldProbeMeansMatch(text: string, needle: string, i: int)
    requires 0 <= i && i + |needle| <= |text|
    ensures EqualFold(Lower(text)[i..i + |needle|], Lower(needle)) <==> MatchesAt(text, needle, i)
  {
    SliceOfLower(text, i, i + |needle|);
    LowerIdempotent(text[i..i + |needle|]);
    LowerIdempotent(needle);
  }

  method HighAllocationSearch(text: string, substr: string) returns (result: map<int, string>)
    requires IsAscii(text) && IsAscii(substr)
    ensures result == Occurrences(text, substr, |text|)
  {
    result := map[];
    var lowerText := Lower(text);
    var lowerSubstr := Lower(substr);
    var i := 0;
    while i < |lowerText|
      invariant 0 <= i <= |lowerText| && result == Occurrences(text, substr, i)
    {
      OccurrencesStep(text, substr, i);
      if i + |lowerSubstr| <= |lowerText| {
        var potentialMatch := lowerText[i..i + |lowerSubstr|];
        ProbeMeansMatch(text, substr, i);
        if potentialMatch == lowerSubstr {
          result := result[i := text[i..i + |substr|]];
        }
      }
      i := i + 1;
    }
  }

  method OptimizedSearch(text: string, substr: string) returns (result: map<int, string>)
    requires IsAscii(text) && IsAscii(substr)
    ensures substr == "" ==> result == map[]
    ensures substr != "" ==> result == Occurrences(text, substr, |text|)
  {
    result := map[];
    if |substr| == 0 {
      return;
    }
    var lowerText := Lower(text);
    var lowerSubstr := Lower(substr);
    var substrLen := |substr|;
    var limit := |text| - substrLen;
    var i := 0;
    while i <= limit
      invariant 0 <= i && (limit >= 0 ==> i <= limit + 1) && result == Occurrences(text, substr, i)
    {
      OccurrencesStep(text, substr, i);
      FoldProbeMeansMatch(text, substr, i);
      if EqualFold(lowerText[i..i + substrLen], lowerSubstr) {
        result := result[i := text[i..i + substrLen]];
      }
      i := i + 1;
    }
    OccurrencesStop(text, substr, i);
  }

  /**
   * On an empty needle the two searches disagree: the first reports a match
   * at every position of the text, the second reports none. For the text "a"
   * the first gives {0: ""} while the second gives the empty map.
   */
  lemma EmptyNeedleSearchesDisagree()
    ensures Occurrences("a", "", |"a"|) == map[0 := ""]
    ensures Occurrences("a", "", |"a"|) != map[]
  {
    EmptyNeedleMatchesEverywhere("a", 0);
    forall i | i in Occurrences("a", "", |"a"|)
      ensures i == 0
    {
      EmptyNeedleMatchesEverywhere("a", i);
    }
  }

  /**
   * The second search without its empty-needle shortcut, its loop also stopping
   * at the end of the text: the same result as the first search on every input.
   */
  method CorrectedOptimizedSearch(text: string, substr: string) returns (result: map<int, string>)
    requires IsAscii(text) && IsAscii(substr)
    ensures result == Occurrences(text, substr, |text|)
  {
    result := map[];
    var lowerText := Lower(text);
    var lowerSubstr := Lower(substr);
    var substrLen := |substr|;
    var limit := |text| - substrLen;
    var i := 0;
    while i <= limit && i < |text|
      invariant 0 <= i <= |text| && result == Occurrences(text, substr, i)
    {
      OccurrencesStep(text, substr, i);
      FoldProbeMeansMatch(text, substr, i);
      if EqualFold(lowerText[i..i + substrLen], lowerSubstr) {
        result := result[i := text[i..i + substrLen]];
      }
      i := i + 1;
    }
    if i < |text| {
      OccurrencesStop(text, substr, i);
      OccurrencesStop(text, substr, |text|);
    }
  }
}
