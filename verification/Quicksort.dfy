/** The demo's in-place quicksort, with its index conversions. */
module Quicksort {

  import opened Common

  const HALF: int := 0x8000_0000_0000_0000

  /** An unsigned 64-bit subtraction, read back as signed. */
  function ToSigned(x: int): int {
    var u := x % WORD;
    if u < HALF then u else u - WORD
  }

  ghost predicate Sorted(s: seq<int>, lo: int, hi: int) {
    forall i, j :: 0 <= lo <= i <= j <= hi < |s| ==> s[i] <= s[j]
  }

  /** `t` is `s` with the elements from `lo` to `hi` rearranged. */
  ghost predicate Rearranged(s: seq<int>, t: seq<int>, lo: int, hi: int) {
    && |s| == |t| && multiset(s) == multiset(t)
    && forall i :: 0 <= i < |s| && !(lo <= i <= hi) ==> s[i] == t[i]
  }

  ghost predicate AtMost(s: seq<int>, lo: int, hi: int, b: int) {
    forall i :: 0 <= lo <= i <= hi < |s| ==> s[i] <= b
  }

  ghost predicate Above(s: seq<int>, lo: int, hi: int, b: int) {
    forall i :: 0 <= lo <= i <= hi < |s| ==> s[i] > b
  }

  method Swap(a: array<int>, i: nat, j: nat)
    requires i < a.Length && j < a.Length
    modifies a
    ensures a[..] == old(a[..])[i := old(a[j])][j := old(a[i])]
    ensures multiset(a[..]) == multiset(old(a[..]))
  {
    var tmp := a[i];
    a[i] := a[j];
    a[j] := tmp;
  }

  method Partition(a: array<int>, lo: nat, hi: nat) returns (k: nat)
    requires lo <= hi < a.Length
    modifies a
    ensures lo <= k <= hi
    ensures AtMost(a[..], lo, k, a[k]) && Above(a[..], k + 1, hi, a[k])
    ensures Rearranged(old(a[..]), a[..], lo, hi)
  {
    var pivot := a[hi];
    k := lo;
    var i := lo;
    while i < hi
      invariant lo <= k <= i <= hi && a[hi] == pivot
      invariant forall j :: lo <= j < k ==> a[j] <= pivot
      invariant forall j :: k <= j < i ==> a[j] > pivot
      invariant Rearranged(old(a[..]), a[..], lo, hi)
    {
      if a[i] <= pivot {
        Swap(a, i, k);
        k := k + 1;
      }
      i := i + 1;
    }
    Swap(a, k, hi);
  }

  lemma Split3(s: seq<int>, lo: nat, hi: nat)
    requires lo <= hi <= |s|
    ensures multiset(s) == multiset(s[..lo]) + multiset(s[lo..hi]) + multiset(s[hi..])
  {
    assert s == s[..lo] + s[lo..hi] + s[hi..];
  }

  lemma Cancelled(a: multiset<int>, m: multiset<int>, n: multiset<int>, c: multiset<int>, x: int)
    requires a + m + c == a + n + c
    ensures m[x] == n[x]
  {
    assert (a + m + c)[x] == a[x] + m[x] + c[x];
    assert (a + n + c)[x] == a[x] + n[x] + c[x];
  }

  /** Rearranging a stretch keeps the elements of that stretch. */
  lemma RearrangedStretch(s: seq<int>, t: seq<int>, lo: nat, hi: nat, x: int)
    requires Rearranged(s, t, lo, hi) && lo <= hi < |s|
    ensures multiset(s[lo..hi + 1])[x] == multiset(t[lo..hi + 1])[x]
  {
    Split3(s, lo, hi + 1);
    Split3(t, lo, hi + 1);
    assert s[..lo] == t[..lo] && s[hi + 1..] == t[hi + 1..];
    Cancelled(multiset(s[..lo]), multiset(s[lo..hi + 1]), multiset(t[lo..hi + 1]), multiset(s[hi + 1..]), x);
  }

  lemma RearrangedMember(s: seq<int>, t: seq<int>, lo: int, hi: int, i: int)
    requires Rearranged(s, t, lo, hi) && 0 <= lo <= i <= hi < |s|
    ensures exists j :: lo <= j <= hi && s[j] == t[i]
  {
    var a, b := s[lo..hi + 1], t[lo..hi + 1];
    RearrangedStretch(s, t, lo, hi, b[i - lo]);
    Carried(a, b, i - lo);
    var k :| 0 <= k < |a| && a[k] == b[i - lo];
    assert s[lo + k] == t[i];
  }

  lemma Carried(a: seq<int>, b: seq<int>, i: nat)
    requires i < |b| && multiset(a)[b[i]] == multiset(b)[b[i]]
    ensures exists k :: 0 <= k < |a| && a[k] == b[i]
  {
    assert b[i] in multiset(b);
    assert b[i] in multiset(a);
  }

  lemma RearrangedBounds(s: seq<int>, t: seq<int>, lo: int, hi: int, b: int)
    requires Rearranged(s, t, lo, hi) && 0 <= lo && hi < |s|
    ensures AtMost(s, lo, hi, b) ==> AtMost(t, lo, hi, b)
    ensures Above(s, lo, hi, b) ==> Above(t, lo, hi, b)
  {
    forall i | lo <= i <= hi ensures exists j :: lo <= j <= hi && s[j] == t[i] {
      RearrangedMember(s, t, lo, hi, i);
    }
  }

  lemma RearrangedTwice(s: seq<int>, t: seq<int>, u: seq<int>, lo: int, hi: int, a: int, b: int)
    requires Rearranged(s, t, lo, hi) && Rearranged(t, u, a, b) && lo <= a && b <= hi
    ensures Rearranged(s, u, lo, hi)
  {
  }

  /** Sorted below the pivot, the pivot in place, sorted above it. */
  lemma Joined(s: seq<int>, lo: nat, k: nat, hi: nat)
    requires lo <= k <= hi < |s|
    requires Sorted(s, lo, k - 1) && Sorted(s, k + 1, hi) && AtMost(s, lo, k - 1, s[k]) && Above(s, k + 1, hi, s[k])
    ensures Sorted(s, lo, hi)
  {
    forall i, j | lo <= i <= j <= hi ensures s[i] <= s[j] {
      assert i < k ==> s[i] <= s[k];
      assert j > k ==> s[j] > s[k];
    }
  }

  /** The recursive overload, on signed bounds. */
  method SortRange(a: array<int>, lo: int, hi: int)
    requires hi < a.Length <= HALF
    modifies a
    ensures Rearranged(old(a[..]), a[..], lo, hi) && Sorted(a[..], lo, hi)
    decreases hi - lo
  {
    if lo >= hi || lo < 0 {
      return;
    }
    var k: int;
    k := Partition(a, lo, hi);
    ghost var s, pivot := a[..], a[k];
    SortRange(a, lo, k - 1);
    ghost var t := a[..];
    RearrangedBounds(s, t, lo, k - 1, pivot);
    SortRange(a, k + 1, hi);
    ghost var u := a[..];
    RearrangedBounds(t, u, k + 1, hi, pivot);
    RearrangedTwice(old(a[..]), s, t, lo, hi, lo, k - 1);
    RearrangedTwice(old(a[..]), t, u, lo, hi, k + 1, hi);
    assert Sorted(u, lo, k - 1);
    Joined(u, lo, k, hi);
  }

  /** The overload on a length: for length zero the unsigned bound wraps around and comes back
      as minus one. */
  method Sort(a: array<int>)
    requires a.Length <= HALF
    modifies a
    ensures multiset(a[..]) == multiset(old(a[..]))
    ensures forall i, j :: 0 <= i <= j < a.Length ==> a[i] <= a[j]
  {
    SortRange(a, 0, ToSigned(a.Length - 1));
    assert ToSigned(a.Length - 1) == a.Length - 1;
  }
}
