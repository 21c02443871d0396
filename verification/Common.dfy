/** Small generic notions shared by every part of the model: options, duplicate-free
    sequences, and the counting facts that conservation arguments rest on. */
module Common {

  datatype Option<+T> = None | Some(value: T)

  /** One more than the greatest 64-bit word. */
  const WORD: nat := 0x1_0000_0000_0000_0000

  function Min(a: int, b: int): int {
    if a <= b then a else b
  }

  predicate Distinct<T(==)>(xs: seq<T>) {
    forall i, j :: 0 <= i < j < |xs| ==> xs[i] != xs[j]
  }

  /** The list `xs` after erasing the first occurrence of `x`, order kept. */
  function Without<T(==)>(xs: seq<T>, x: T): seq<T> {
    if xs == [] then []
    else if xs[0] == x then xs[1..]
    else [xs[0]] + Without(xs[1..], x)
  }

  lemma {:induction false} WithoutFacts<T>(xs: seq<T>, x: T)
    requires Distinct(xs) && x in xs
    ensures |Without(xs, x)| == |xs| - 1
    ensures Distinct(Without(xs, x))
    ensures forall y :: y in Without(xs, x) <==> y in xs && y != x
  {
    if xs[0] == x {
      assert forall y :: y in xs[1..] <==> y in xs && y != x by {
        forall y ensures y in xs[1..] <==> y in xs && y != x {
          if y in xs && y != x {
            var i :| 0 <= i < |xs| && xs[i] == y;
            assert xs[1..][i - 1] == y;
          }
        }
      }
    } else {
      assert x in xs[1..];
      WithoutFacts(xs[1..], x);
      assert xs == [xs[0]] + xs[1..];
      assert xs[0] !in Without(xs[1..], x);
    }
  }

  lemma DistinctAppend<T>(xs: seq<T>, x: T)
    requires Distinct(xs) && x !in xs
    ensures Distinct(xs + [x])
  {
  }

  /** Taking the first or the last element off a duplicate-free sequence. */
  lemma DistinctEnds<T>(xs: seq<T>)
    requires Distinct(xs) && xs != []
    ensures Distinct(xs[1..]) && Distinct(xs[..|xs| - 1])
    ensures forall y :: y in xs[1..] <==> y in xs && y != xs[0]
    ensures forall y :: y in xs[..|xs| - 1] <==> y in xs && y != xs[|xs| - 1]
  {
    assert xs == [xs[0]] + xs[1..];
    assert xs == xs[..|xs| - 1] + [xs[|xs| - 1]];
  }

  /** A duplicate-free sequence has as many elements as its set of elements. */
  lemma {:induction false} DistinctSize<T>(xs: seq<T>)
    requires Distinct(xs)
    ensures |set x | x in xs| == |xs|
  {
    if xs != [] {
      var n := |xs| - 1;
      DistinctSize(xs[..n]);
      assert (set x | x in xs) == (set x | x in xs[..n]) + {xs[n]};
      assert xs[n] !in xs[..n];
    } else {
      assert (set x | x in xs) == {};
    }
  }

  lemma {:induction false} SubsetSize<T>(a: set<T>, b: set<T>)
    requires a <= b
    ensures |a| <= |b|
  {
    if a != {} {
      var x :| x in a;
      SubsetSize(a - {x}, b - {x});
    }
  }

  lemma {:induction false} BoundedSize(s: set<nat>, n: nat)
    requires forall k :: k in s ==> k < n
    ensures |s| <= n
  {
    if n == 0 {
      assert s == {};
    } else {
      BoundedSize(s - {n - 1}, n - 1);
    }
  }

  /** `n` numbers below `n` are all of them. */
  lemma {:induction false} BoundedCover(s: set<nat>, n: nat)
    requires (forall k :: k in s ==> k < n) && |s| == n
    ensures forall k: nat :: k < n ==> k in s
  {
    if n > 0 {
      if n - 1 in s {
        BoundedCover(s - {n - 1}, n - 1);
      } else {
        BoundedSize(s, n - 1);
      }
    }
  }

  /** A duplicate-free list and a disjoint set that together count `n` numbers below `n`
      share those numbers out between them. */
  lemma SharedOut(xs: seq<nat>, b: set<nat>, n: nat)
    requires Distinct(xs) && |xs| + |b| == n
    requires (forall k :: k in xs ==> k < n && k !in b) && (forall k :: k in b ==> k < n)
    ensures forall k: nat :: k < n ==> (k in xs <==> k !in b)
  {
    var a := set k | k in xs;
    DistinctSize(xs);
    assert a !! b;
    BoundedCover(a + b, n);
    assert forall k: nat :: k < n ==> k in a + b;
  }

  /** Induction from zero up to `n`. */
  lemma {:induction false} CountUp(holds: nat -> bool, n: nat)
    requires holds(0) && forall k: nat :: 0 < k <= n && holds(k - 1) ==> holds(k)
    ensures holds(n)
  {
    if n > 0 {
      CountUp(holds, n - 1);
    }
  }

  /** Counting down to zero along `next`. */
  lemma {:induction false} CountDown<S(!new)>(ready: (S, nat) -> bool, next: S -> S, good: (S, nat) -> bool, s: S, n: nat)
    requires ready(s, n) && forall t :: ready(t, 0) ==> good(t, 0)
    requires forall t, k: nat :: k > 0 && ready(t, k) ==> ready(next(t), k - 1) && (good(next(t), k - 1) ==> good(t, k))
    ensures good(s, n)
    decreases n
  {
    if n > 0 {
      CountDown(ready, next, good, next(s), n - 1);
    }
  }
}
