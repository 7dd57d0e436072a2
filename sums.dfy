/**
  Finite sums of real-valued terms, accumulated in ascending index order as the
  source's `for` loops accumulate them (`total += term(k)` for k = 0, 1, ...).
 */
module Sums {

  /** f(0) + f(1) + ... + f(n-1), added left to right. */
  function Sum(n: nat, f: nat -> real): real
  {
    if n == 0 then 0.0 else Sum(n - 1, f) + f(n - 1)
  }

  /** Sums of pointwise-equal terms are equal. */
  lemma {:induction false} SumExt(n: nat, f: nat -> real, g: nat -> real)
    requires forall k :: 0 <= k < n ==> f(k) == g(k)
    ensures Sum(n, f) == Sum(n, g)
  {
    if n > 0 {
      SumExt(n - 1, f, g);
    }
  }

  /** The sum of pointwise sums is the sum of the two sums. */
  lemma {:induction false} SumAdd(n: nat, f: nat -> real, g: nat -> real, h: nat -> real)
    requires forall k :: 0 <= k < n ==> h(k) == f(k) + g(k)
    ensures Sum(n, h) == Sum(n, f) + Sum(n, g)
  {
    if n > 0 {
      SumAdd(n - 1, f, g, h);
    }
  }

  /** The terms c * f(k). */
  function Scaled(c: real, f: nat -> real): nat -> real
  {
    (k: nat) => c * f(k)
  }

  /** A constant factor can be taken out of a sum. */
  lemma {:induction false} SumScale(n: nat, f: nat -> real, c: real)
    ensures Sum(n, Scaled(c, f)) == c * Sum(n, f)
  {
    if n > 0 {
      SumScale(n - 1, f, c);
      assert Scaled(c, f)(n - 1) == c * f(n - 1);
    }
  }

  /** SumScale for a family g known to be Scaled(c, f) and a known sum s of f. */
  lemma SumOfScaled(n: nat, g: nat -> real, c: real, f: nat -> real, s: real)
    requires g == Scaled(c, f) && s == Sum(n, f)
    ensures Sum(n, g) == c * s == s * c
  {
    SumScale(n, f, c);
  }

  /** A sum whose terms are all zero is zero. */
  lemma {:induction false} SumZero(n: nat, f: nat -> real)
    requires forall k :: 0 <= k < n ==> f(k) == 0.0
    ensures Sum(n, f) == 0.0
  {
    if n > 0 {
      SumZero(n - 1, f);
    }
  }

  /** A sum with a single non-zero term, at index p, equals that term. */
  lemma {:induction false} SumSingle(n: nat, f: nat -> real, p: nat)
    requires p < n
    requires forall k :: 0 <= k < n && k != p ==> f(k) == 0.0
    ensures Sum(n, f) == f(p)
  {
    if n - 1 == p {
      SumZero(n - 1, f);
    } else {
      SumSingle(n - 1, f, p);
    }
  }

  /** Row sums of a two-index family of terms: i |-> f(i)(0) + ... + f(i)(m-1). */
  function RowSums(m: nat, f: nat -> nat -> real): nat -> real
  {
    (i: nat) => Sum(m, f(i))
  }

  /**
    A finite double sum may be added up in either order: g is f with its two
    indices exchanged.
   */
  lemma {:induction false} SumSwap(n: nat, m: nat, f: nat -> nat -> real, g: nat -> nat -> real)
    requires forall i: nat, j: nat :: i < n && j < m ==> g(j)(i) == f(i)(j)
    ensures Sum(n, RowSums(m, f)) == Sum(m, RowSums(n, g))
  {
    if n == 0 {
      forall j: nat | j < m
        ensures RowSums(0, g)(j) == 0.0
      {
        assert RowSums(0, g)(j) == Sum(0, g(j));
      }
      SumZero(m, RowSums(0, g));
    } else {
      SumSwap(n - 1, m, f, g);
      assert RowSums(m, f)(n - 1) == Sum(m, f(n - 1));
      forall j: nat | j < m
        ensures RowSums(n, g)(j) == RowSums(n - 1, g)(j) + f(n - 1)(j)
      {
        assert g(j)(n - 1) == f(n - 1)(j);
      }
      SumAdd(m, RowSums(n - 1, g), f(n - 1), RowSums(n, g));
    }
  }
}
