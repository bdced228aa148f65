/** Slice utilities: running maximum, de-duplication, reversal and an even filter. */
module Slices {
  import opened Common

  const MinInt: int := -0x8000_0000_0000_0000
  const MaxInt: int := 0x7fff_ffff_ffff_ffff

  /** Go's `int` on a 64-bit platform. */
  type Int64 = x: int | MinInt <= x <= MaxInt

  function Max(a: Int64, b: Int64): Int64
  {
    if a >= b then a else b
  }

  /** The largest element, found by folding from math.MinInt; 0 for an empty slice. */
  method FindMax(numbers: seq<Int64>) returns (m: Int64)
    ensures |numbers| == 0 ==> m == 0
    ensures |numbers| > 0 ==> m in numbers && forall k :: 0 <= k < |numbers| ==> numbers[k] <= m
  {
    if |numbers| == 0 {
      return 0;
    }
    m := MinInt;
    var k := 0;
    while k < |numbers|
      invariant 0 <= k <= |numbers|
      invariant k == 0 ==> m == MinInt
      invariant k > 0 ==> m in numbers[..k]
      invariant forall p :: 0 <= p < k ==> numbers[p] <= m
    {
      m := Max(m, numbers[k]);
      k := k + 1;
    }
    assert numbers[..k] == numbers;
  }

  // ---------------------------------------------------------------------------
  // RemoveDuplicates

  /** The first occurrence of every value, in the order the values first appear. */
  function FirstOccurrences(s: seq<int>): seq<int>
  {
    if |s| == 0 then []
    else
      var r := FirstOccurrences(s[..|s| - 1]);
      if s[|s| - 1] in r then r else r + [s[|s| - 1]]
  }

  /** Position of the first occurrence of x in s. */
  function IndexOf(s: seq<int>, x: int): (k: nat)
    requires x in s
    ensures k < |s| && s[k] == x && forall p :: 0 <= p < k ==> s[p] != x
  {
    if s[0] == x then 0 else 1 + IndexOf(s[1..], x)
  }

  lemma {:induction false} FirstOccurrencesMembers(s: seq<int>)
    ensures forall x :: x in FirstOccurrences(s) <==> x in s
  {
    if |s| > 0 {
      var init := s[..|s| - 1];
      FirstOccurrencesMembers(init);
      assert s == init + [s[|s| - 1]];
    }
  }

  lemma {:induction false} FirstOccurrencesNoDup(s: seq<int>)
    ensures NoDup(FirstOccurrences(s))
  {
    if |s| > 0 {
      FirstOccurrencesNoDup(s[..|s| - 1]);
    }
  }

  lemma IndexOfPrefix(s: seq<int>, x: int, n: int)
    requires 0 <= n <= |s| && x in s[..n]
    ensures x in s && IndexOf(s, x) == IndexOf(s[..n], x)
  {
    var k := IndexOf(s[..n], x);
    assert s[k] == x;
    var j := IndexOf(s, x);
    assert s[..n][j] == x || j >= n;
  }

  /** Values kept from s are listed in the order of their first occurrences in s. */
  predicate InFirstOrder(s: seq<int>, r: seq<int>)
  {
    forall p, q :: 0 <= p < q < |r| ==> PairInFirstOrder(s, r, p, q)
  }

  /** r[p] and r[q] both occur in s, r[p] first. */
  predicate PairInFirstOrder(s: seq<int>, r: seq<int>, p: int, q: int)
    requires 0 <= p < q < |r|
  {
    r[p] in s && r[q] in s && IndexOf(s, r[p]) < IndexOf(s, r[q])
  }

  lemma OrderStep(s: seq<int>, p: int, q: int)
    requires |s| > 0 && InFirstOrder(s[..|s| - 1], FirstOccurrences(s[..|s| - 1]))
    requires 0 <= p < q < |FirstOccurrences(s)|
    ensures PairInFirstOrder(s, FirstOccurrences(s), p, q)
  {
    var r := FirstOccurrences(s);
    var init := s[..|s| - 1];
    var last := s[|s| - 1];
    var ri := FirstOccurrences(init);
    FirstOccurrencesMembers(init);
    assert q < |ri| || (r == ri + [last] && last !in ri);
    assert r[p] == ri[p] && ri[p] in init;
    IndexOfPrefix(s, r[p], |s| - 1);
    assert IndexOf(s, r[p]) < |s| - 1;
    if q < |ri| {
      assert r[q] == ri[q] && ri[q] in init;
      assert PairInFirstOrder(init, ri, p, q);
      IndexOfPrefix(s, r[q], |s| - 1);
    } else {
      assert r[q] == last && last !in init;
      forall m | 0 <= m < |s| - 1 ensures s[m] != last {
        assert s[m] == init[m];
      }
      assert IndexOf(s, last) == |s| - 1;
    }
  }

  /** The result keeps the values in the order of their first occurrences in the input. */
  lemma {:induction false} FirstOccurrencesOrder(s: seq<int>)
    ensures InFirstOrder(s, FirstOccurrences(s))
  {
    if |s| > 0 {
      FirstOccurrencesOrder(s[..|s| - 1]);
      forall p, q | 0 <= p < q < |FirstOccurrences(s)| ensures PairInFirstOrder(s, FirstOccurrences(s), p, q) {
        OrderStep(s, p, q);
      }
    }
  }

  /** A slice with no repeats is its own de-duplication. */
  lemma {:induction false} FirstOccurrencesOfNoDup(s: seq<int>)
    requires NoDup(s)
    ensures FirstOccurrences(s) == s
  {
    if |s| > 0 {
      var init := s[..|s| - 1];
      FirstOccurrencesOfNoDup(init);
      assert s[|s| - 1] !in init;
      assert s == init + [s[|s| - 1]];
    }
  }

  lemma FirstOccurrencesIdempotent(s: seq<int>)
    ensures FirstOccurrences(FirstOccurrences(s)) == FirstOccurrences(s)
  {
    FirstOccurrencesNoDup(s);
    FirstOccurrencesOfNoDup(FirstOccurrences(s));
  }

  method RemoveDuplicates(numbers: seq<int>) returns (result: seq<int>)
    ensures result == FirstOccurrences(numbers)
  {
    if |numbers| == 0 {
      return numbers;
    }
    var marked: set<int> := {};
    result := [];
    var k := 0;
    while k < |numbers|
      invariant 0 <= k <= |numbers|
      invariant result == FirstOccurrences(numbers[..k])
      invariant forall x :: x in marked <==> x in result
    {
      assert numbers[..k + 1][..k] == numbers[..k];
      var x := numbers[k];
      if x !in marked {
        marked := marked + {x};
        result := result + [x];
      }
      k := k + 1;
    }
    assert numbers[..k] == numbers;
  }

  // ---------------------------------------------------------------------------
  // ReverseSlice

  function Reversed(s: seq<int>): (r: seq<int>)
    ensures |r| == |s| && forall k :: 0 <= k < |s| ==> r[k] == s[|s| - 1 - k]
  {
    if |s| == 0 then [] else [s[|s| - 1]] + Reversed(s[..|s| - 1])
  }

  lemma ReversedInvolution(s: seq<int>)
    ensures Reversed(Reversed(s)) == s
  {
  }

  /** Fills a new slice from both ends towards the middle. */
  method ReverseSlice(slice: seq<int>) returns (result: seq<int>)
    ensures result == Reversed(slice)
  {
    var n := |slice|;
    var i := 0;
    var j := n - 1;
    var a := new int[n];
    while i <= j
      invariant 0 <= i && j == n - 1 - i && i <= j + 2 && i <= n
      invariant forall k :: 0 <= k < i ==> a[k] == slice[n - 1 - k]
      invariant forall k :: j < k < n ==> a[k] == slice[n - 1 - k]
    {
      a[i], a[j] := slice[j], slice[i];
      i := i + 1;
      j := j - 1;
    }
    result := a[..];
  }

  // ---------------------------------------------------------------------------
  // FilterEven

  /** Go's `x%2 == 0`: the remainder truncates toward zero, but it is zero exactly when Dafny's is. */
  predicate IsEven(x: int)
  {
    x % 2 == 0
  }

  /** The even elements, in their original order. */
  function Evens(s: seq<int>): seq<int>
  {
    if |s| == 0 then []
    else if IsEven(s[|s| - 1]) then Evens(s[..|s| - 1]) + [s[|s| - 1]]
    else Evens(s[..|s| - 1])
  }

  lemma {:induction false} EvensMembers(s: seq<int>)
    ensures forall x :: x in Evens(s) <==> x in s && IsEven(x)
  {
    if |s| > 0 {
      EvensMembers(s[..|s| - 1]);
      assert s == s[..|s| - 1] + [s[|s| - 1]];
    }
  }

  /** Filtering commutes with concatenation, so relative order is kept. */
  lemma {:induction false} EvensAppend(s: seq<int>, t: seq<int>)
    ensures Evens(s + t) == Evens(s) + Evens(t)
  {
    if |t| == 0 {
      assert s + t == s;
    } else {
      assert (s + t)[..|s + t| - 1] == s + t[..|t| - 1];
      EvensAppend(s, t[..|t| - 1]);
    }
  }

  method FilterEven(numbers: seq<int>) returns (result: seq<int>)
    ensures result == Evens(numbers)
  {
    result := [];
    var k := 0;
    while k < |numbers|
      invariant 0 <= k <= |numbers| && result == Evens(numbers[..k])
    {
      assert numbers[..k + 1][..k] == numbers[..k];
      if numbers[k] % 2 == 0 {
        result := result + [numbers[k]];
      }
      k := k + 1;
    }
    assert numbers[..k] == numbers;
  }
}
