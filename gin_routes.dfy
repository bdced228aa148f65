/** The two pure helpers of the gin demo routes: a recursive binary search and an ASCII alphanumeric filter. */
module GinRoutes {
  import opened Common

  predicate Ascending(arr: seq<int>)
  {
    forall p, q :: 0 <= p < q < |arr| ==> arr[p] <= arr[q]
  }

  /**
   * Index of target in arr[left..right], or -1. The source indexes arr at
   * the midpoint, so a non-empty range must lie inside the slice (Go would
   * panic otherwise). The midpoint is never negative here, so Go's
   * truncating division agrees with Dafny's.
   */
  function BinarySearchRecursive(arr: seq<int>, target: int, left: int, right: int): (r: int)
    requires left > right || (0 <= left && right < |arr|)
    ensures left > right ==> r == -1
    ensures r == -1 || (left <= r <= right && arr[r] == target)
    ensures (forall k :: left <= k <= right ==> arr[k] != target) ==> r == -1
    decreases right - left + 1
  {
    if left > right then -1
    else
      var mid := (left + right) / 2;
      if arr[mid] == target then mid
      else if arr[mid] > target then BinarySearchRecursive(arr, target, left, mid - 1)
      else BinarySearchRecursive(arr, target, mid + 1, right)
  }

  /** On an ascending slice, a target present in the range is found. */
  lemma {:induction false} BinarySearchFinds(arr: seq<int>, target: int, left: int, right: int, k: int)
    requires Ascending(arr) && 0 <= left <= k <= right < |arr| && arr[k] == target
    ensures BinarySearchRecursive(arr, target, left, right) != -1
    decreases right - left
  {
    var mid := (left + right) / 2;
    if arr[mid] > target {
      BinarySearchFinds(arr, target, left, mid - 1, k);
    } else if arr[mid] < target {
      BinarySearchFinds(arr, target, mid + 1, right, k);
    }
  }

  /** On an ascending slice, the search answers membership of the range exactly. */
  lemma BinarySearchMembership(arr: seq<int>, target: int, left: int, right: int)
    requires Ascending(arr) && 0 <= left && right < |arr|
    ensures BinarySearchRecursive(arr, target, left, right) != -1 <==> exists k :: left <= k <= right && arr[k] == target
  {
    if exists k :: left <= k <= right && arr[k] == target {
      var k :| left <= k <= right && arr[k] == target;
      BinarySearchFinds(arr, target, left, right, k);
    }
  }

  /** The ASCII letters and digits, spelled out. */
  const Lowercase: string := "abcdefghijklmnopqrstuvwxyz"
  const Uppercase: string := "ABCDEFGHIJKLMNOPQRSTUVWXYZ"
  const Digits: string := "0123456789"
  const Alphanumerics: string := Lowercase + Uppercase + Digits

  /** The one-character string of b when b is an ASCII letter or digit, otherwise "". */
  function CheckAlphanumeric(b: byte): (r: string)
    ensures |r| <= 1 && (r != "" ==> r == [b as char])
  {
    if ('a' as int <= b - 0 <= 'z' as int) || ('A' as int <= b - 0 <= 'Z' as int) || ('0' as int <= b - 0 <= '9' as int)
    then [b as char]
    else ""
  }

  /** Each spelled-out run holds exactly its character range. */
  lemma RunMembers(run: string, lo: char, hi: char, c: char)
    requires |run| == hi as int - lo as int + 1
    requires forall k :: 0 <= k < |run| ==> run[k] as int == lo as int + k
    ensures c in run <==> lo <= c <= hi
  {
    if lo <= c <= hi {
      assert run[c as int - lo as int] == c;
    }
  }

  lemma AlphanumericsMembers(c: char)
    ensures c in Alphanumerics <==> ('a' <= c <= 'z') || ('A' <= c <= 'Z') || ('0' <= c <= '9')
  {
    RunMembers(Lowercase, 'a', 'z', c);
    RunMembers(Uppercase, 'A', 'Z', c);
    RunMembers(Digits, '0', '9', c);
  }

  /** A byte is kept exactly when its character is one of the 62 ASCII letters and digits. */
  lemma CheckAlphanumericKeeps(b: byte)
    ensures CheckAlphanumeric(b) != "" <==> (b as char) in Alphanumerics
  {
    AlphanumericsMembers(b as char);
  }
}
