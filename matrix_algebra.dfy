/**
  Algebraic laws of the entrywise sum and the matrix product of module
  Matrices, stated on meaningful entries (SameAs).
 */
module MatrixAlgebra {
  import opened Sums
  import opened Matrices

  /** Addition of equally shaped matrices is commutative. */
  lemma AddCommutes(a: Matrix, b: Matrix)
    requires a.rows == b.rows && a.cols == b.cols
    ensures SameAs(Add(a, b), Add(b, a))
  {
  }

  /** Adding the zero matrix of the same shape changes no meaningful entry. */
  lemma AddZero(a: Matrix)
    requires a.Valid()
    ensures SameAs(Add(a, Zero(a.rows, a.cols)), a)
  {
    var z := Zero(a.rows, a.cols);
    forall i, j | 0 <= i < a.rows && 0 <= j < a.cols
      ensures Add(a, z).At(i, j) == a.At(i, j)
    {
      assert z.At(i, j) == 0.0;
    }
  }

  /** The identity of matching size is a right unit of the product. */
  lemma MulIdentityRight(a: Matrix)
    requires a.Valid()
    ensures SameAs(Mul(a, Identity(a.cols)), a)
  {
    var id := Identity(a.cols);
    forall i, j | 0 <= i < a.rows && 0 <= j < a.cols
      ensures Mul(a, id).At(i, j) == a.At(i, j)
    {
      var f := RowByCol(a, id, i, j);
      forall k | 0 <= k < a.cols && k != j
        ensures f(k) == 0.0
      {
        assert id.At(k, j) == 0.0;
      }
      SumSingle(a.cols, f, j);
      assert id.At(j, j) == 1.0;
    }
  }

  /** The identity of matching size is a left unit of the product. */
  lemma MulIdentityLeft(a: Matrix)
    requires a.Valid()
    ensures SameAs(Mul(Identity(a.rows), a), a)
  {
    var id := Identity(a.rows);
    forall i, j | 0 <= i < a.rows && 0 <= j < a.cols
      ensures Mul(id, a).At(i, j) == a.At(i, j)
    {
      var f := RowByCol(id, a, i, j);
      forall k | 0 <= k < a.rows && k != i
        ensures f(k) == 0.0
      {
        assert id.At(i, k) == 0.0;
      }
      SumSingle(a.rows, f, i);
      assert id.At(i, i) == 1.0;
    }
  }

  /** The product of valid matrices is a valid matrix of extents a.rows x b.cols. */
  lemma MulValid(a: Matrix, b: Matrix)
    requires a.Valid() && b.Valid()
    ensures Mul(a, b).Valid() && Mul(a, b).rows == a.rows && Mul(a, b).cols == b.cols
  {
  }

  /** Every stored entry of a product is the corresponding row-by-column sum. */
  lemma MulEntry(a: Matrix, b: Matrix, i: int, j: int)
    requires a.Valid() && 0 <= i < MAX_SIZE && 0 <= j < MAX_SIZE
    ensures Mul(a, b).At(i, j) == Dot(a, b, i, j, a.cols)
  {
  }

  // ------------------------------------------------ associativity of the product
  //
  // Proved first for families of entries (functions of row and column), where no
  // storage bounds are in the way, and then carried over to matrices.

  /** The terms A[i][k] * B[k][j] of entry (i, j) of a product of entry families. */
  function Terms(A: nat -> nat -> real, B: nat -> nat -> real, i: nat, j: nat): nat -> real
  {
    (k: nat) => A(i)(k) * B(k)(j)
  }

  /** Product of entry families, summing over the first m inner indices. */
  function Prod(A: nat -> nat -> real, B: nat -> nat -> real, m: nat): nat -> nat -> real
  {
    (i: nat) => (j: nat) => Sum(m, Terms(A, B, i, j))
  }

  /** The terms C[l][j] * (A[i][k] * B[k][l]) of ((A B) C)[i][j], indexed by l and then k. */
  function LeftTerms(A: nat -> nat -> real, B: nat -> nat -> real, C: nat -> nat -> real, i: nat, j: nat): nat -> nat -> real
  {
    (l: nat) => Scaled(C(l)(j), Terms(A, B, i, l))
  }

  /** The terms A[i][k] * (B[k][l] * C[l][j]) of (A (B C))[i][j], indexed by k and then l. */
  function RightTerms(A: nat -> nat -> real, B: nat -> nat -> real, C: nat -> nat -> real, i: nat, j: nat): nat -> nat -> real
  {
    (k: nat) => Scaled(A(i)(k), Terms(B, C, k, j))
  }

  lemma Rearrange(x: real, y: real, z: real)
    ensures z * (x * y) == x * (y * z)
  {
  }

  /** Both families hold the same term for each pair (k, l). */
  lemma TermsSwap(A: nat -> nat -> real, B: nat -> nat -> real, C: nat -> nat -> real, i: nat, j: nat)
    ensures forall l: nat, k: nat :: RightTerms(A, B, C, i, j)(k)(l) == LeftTerms(A, B, C, i, j)(l)(k)
  {
    forall l: nat, k: nat
      ensures RightTerms(A, B, C, i, j)(k)(l) == LeftTerms(A, B, C, i, j)(l)(k)
    {
      assert RightTerms(A, B, C, i, j)(k) == Scaled(A(i)(k), Terms(B, C, k, j));
      assert Terms(B, C, k, j)(l) == B(k)(l) * C(l)(j);
      assert LeftTerms(A, B, C, i, j)(l) == Scaled(C(l)(j), Terms(A, B, i, l));
      assert Terms(A, B, i, l)(k) == A(i)(k) * B(k)(l);
      Rearrange(A(i)(k), B(k)(l), C(l)(j));
    }
  }

  /** ((A B) C)[i][j] is the double sum of the terms taken row by row. */
  lemma LeftNested(A: nat -> nat -> real, B: nat -> nat -> real, C: nat -> nat -> real, m: nat, p: nat, i: nat, j: nat)
    ensures Prod(Prod(A, B, m), C, p)(i)(j) == Sum(p, RowSums(m, LeftTerms(A, B, C, i, j)))
  {
    var AB := Prod(A, B, m);
    forall l: nat | l < p
      ensures Terms(AB, C, i, j)(l) == RowSums(m, LeftTerms(A, B, C, i, j))(l)
    {
      assert Terms(AB, C, i, j)(l) == AB(i)(l) * C(l)(j);
      assert AB(i)(l) == Sum(m, Terms(A, B, i, l));
      assert RowSums(m, LeftTerms(A, B, C, i, j))(l) == Sum(m, LeftTerms(A, B, C, i, j)(l));
      SumOfScaled(m, LeftTerms(A, B, C, i, j)(l), C(l)(j), Terms(A, B, i, l), AB(i)(l));
    }
    SumExt(p, Terms(AB, C, i, j), RowSums(m, LeftTerms(A, B, C, i, j)));
  }

  /** (A (B C))[i][j] is the double sum of the terms taken column by column. */
  lemma RightNested(A: nat -> nat -> real, B: nat -> nat -> real, C: nat -> nat -> real, m: nat, p: nat, i: nat, j: nat)
    ensures Prod(A, Prod(B, C, p), m)(i)(j) == Sum(m, RowSums(p, RightTerms(A, B, C, i, j)))
  {
    var BC := Prod(B, C, p);
    forall k: nat | k < m
      ensures Terms(A, BC, i, j)(k) == RowSums(p, RightTerms(A, B, C, i, j))(k)
    {
      assert Terms(A, BC, i, j)(k) == A(i)(k) * BC(k)(j);
      assert BC(k)(j) == Sum(p, Terms(B, C, k, j));
      assert RowSums(p, RightTerms(A, B, C, i, j))(k) == Sum(p, RightTerms(A, B, C, i, j)(k));
      SumOfScaled(p, RightTerms(A, B, C, i, j)(k), A(i)(k), Terms(B, C, k, j), BC(k)(j));
    }
    SumExt(m, Terms(A, BC, i, j), RowSums(p, RightTerms(A, B, C, i, j)));
  }

  /** The product of entry families is associative, entry by entry. */
  lemma ProdAssociative(A: nat -> nat -> real, B: nat -> nat -> real, C: nat -> nat -> real, m: nat, p: nat, i: nat, j: nat)
    ensures Prod(Prod(A, B, m), C, p)(i)(j) == Prod(A, Prod(B, C, p), m)(i)(j)
  {
    LeftNested(A, B, C, m, p, i, j);
    RightNested(A, B, C, m, p, i, j);
    TermsSwap(A, B, C, i, j);
    SumSwap(p, m, LeftTerms(A, B, C, i, j), RightTerms(A, B, C, i, j));
  }

  /** A product reads only the first p entries of row i of its left factor. */
  lemma ProdLeftCongruence(A: nat -> nat -> real, A': nat -> nat -> real, C: nat -> nat -> real, p: nat, i: nat, j: nat)
    requires forall l: nat :: l < p ==> A(i)(l) == A'(i)(l)
    ensures Prod(A, C, p)(i)(j) == Prod(A', C, p)(i)(j)
  {
    forall l: nat | l < p
      ensures Terms(A, C, i, j)(l) == Terms(A', C, i, j)(l)
    {
      assert A(i)(l) == A'(i)(l);
    }
    SumExt(p, Terms(A, C, i, j), Terms(A', C, i, j));
  }

  /** A product reads only the first m entries of column j of its right factor. */
  lemma ProdRightCongruence(A: nat -> nat -> real, C: nat -> nat -> real, C': nat -> nat -> real, m: nat, i: nat, j: nat)
    requires forall k: nat :: k < m ==> C(k)(j) == C'(k)(j)
    ensures Prod(A, C, m)(i)(j) == Prod(A, C', m)(i)(j)
  {
    forall k: nat | k < m
      ensures Terms(A, C, i, j)(k) == Terms(A, C', i, j)(k)
    {
      assert C(k)(j) == C'(k)(j);
    }
    SumExt(m, Terms(A, C, i, j), Terms(A, C', i, j));
  }

  /** The entries of a matrix as a family indexed by row and then column. */
  function Entries(m: Matrix): nat -> nat -> real
  {
    (i: nat) => (j: nat) => m.At(i, j)
  }

  /** A stored entry of Mul(a, b) is the corresponding entry of the product of the entry families. */
  lemma MulAsProd(a: Matrix, b: Matrix, i: nat, j: nat)
    requires a.Valid() && i < MAX_SIZE && j < MAX_SIZE
    ensures Mul(a, b).At(i, j) == Prod(Entries(a), Entries(b), a.cols)(i)(j)
  {
    forall k: nat | k < a.cols
      ensures RowByCol(a, b, i, j)(k) == Terms(Entries(a), Entries(b), i, j)(k)
    {
      assert Entries(a)(i)(k) == a.At(i, k) && Entries(b)(k)(j) == b.At(k, j);
    }
    SumExt(a.cols, RowByCol(a, b, i, j), Terms(Entries(a), Entries(b), i, j));
    MulEntry(a, b, i, j);
  }

  /** Entry (i, j) of (a b) c equals entry (i, j) of a (b c). */
  lemma MulAssociativeEntry(a: Matrix, b: Matrix, c: Matrix, i: int, j: int)
    requires a.Valid() && b.Valid() && c.Valid()
    requires a.cols == b.rows && b.cols == c.rows
    requires 0 <= i < a.rows && 0 <= j < c.cols
    ensures Mul(a, b).Valid() && Mul(b, c).Valid()
    ensures Mul(Mul(a, b), c).At(i, j) == Mul(a, Mul(b, c)).At(i, j)
  {
    MulValid(a, b);
    MulValid(b, c);
    var ab, bc := Mul(a, b), Mul(b, c);
    var ea, eb, ec := Entries(a), Entries(b), Entries(c);
    forall l: nat | l < b.cols
      ensures Entries(ab)(i)(l) == Prod(ea, eb, a.cols)(i)(l)
    {
      MulAsProd(a, b, i, l);
    }
    forall k: nat | k < a.cols
      ensures Entries(bc)(k)(j) == Prod(eb, ec, b.cols)(k)(j)
    {
      MulAsProd(b, c, k, j);
    }
    calc {
      Mul(ab, c).At(i, j);
    == { MulAsProd(ab, c, i, j); }
      Prod(Entries(ab), ec, b.cols)(i)(j);
    == { ProdLeftCongruence(Entries(ab), Prod(ea, eb, a.cols), ec, b.cols, i, j); }
      Prod(Prod(ea, eb, a.cols), ec, b.cols)(i)(j);
    == { ProdAssociative(ea, eb, ec, a.cols, b.cols, i, j); }
      Prod(ea, Prod(eb, ec, b.cols), a.cols)(i)(j);
    == { ProdRightCongruence(ea, Entries(bc), Prod(eb, ec, b.cols), a.cols, i, j); }
      Prod(ea, Entries(bc), a.cols)(i)(j);
    == { MulAsProd(a, bc, i, j); }
      Mul(a, bc).At(i, j);
    }
  }

  /** The product is associative. */
  lemma MulAssociative(a: Matrix, b: Matrix, c: Matrix)
    requires a.Valid() && b.Valid() && c.Valid()
    requires a.cols == b.rows && b.cols == c.rows
    ensures Mul(a, b).Valid() && Mul(b, c).Valid()
    ensures SameAs(Mul(Mul(a, b), c), Mul(a, Mul(b, c)))
  {
    MulValid(a, b);
    MulValid(b, c);
    forall i, j | 0 <= i < a.rows && 0 <= j < c.cols
      ensures Mul(Mul(a, b), c).At(i, j) == Mul(a, Mul(b, c)).At(i, j)
    {
      MulAssociativeEntry(a, b, c, i, j);
    }
  }

  /** The product reads only the meaningful entries of its factors. */
  lemma MulSameAs(a: Matrix, a': Matrix, b: Matrix, b': Matrix)
    requires a.Valid() && a'.Valid() && b.Valid() && b'.Valid()
    requires SameAs(a, a') && SameAs(b, b') && a.cols == b.rows
    ensures SameAs(Mul(a, b), Mul(a', b'))
  {
    forall i, j | 0 <= i < a.rows && 0 <= j < b.cols
      ensures Mul(a, b).At(i, j) == Mul(a', b').At(i, j)
    {
      MulEntry(a, b, i, j);
      MulEntry(a', b', i, j);
      forall t: nat | t < a.cols
        ensures RowByCol(a, b, i, j)(t) == RowByCol(a', b', i, j)(t)
      {
      }
      SumExt(a.cols, RowByCol(a, b, i, j), RowByCol(a', b', i, j));
    }
  }

  /**
    Any results the multiplication operation may return for (a b) c and for
    a (b c), each agreeing with the product of its operands on the meaningful
    entries, agree with each other.
   */
  lemma NestedProductsAssociate(a: Matrix, b: Matrix, c: Matrix, ab: Matrix, bc: Matrix, left: Matrix, right: Matrix)
    requires a.Valid() && b.Valid() && c.Valid()
    requires a.cols == b.rows && b.cols == c.rows
    requires ab.Valid() && SameAs(ab, Mul(a, b)) && bc.Valid() && SameAs(bc, Mul(b, c))
    requires SameAs(left, Mul(ab, c)) && SameAs(right, Mul(a, bc))
    ensures SameAs(left, right)
  {
    MulAssociative(a, b, c);
    MulSameAs(ab, Mul(a, b), c, c);
    MulSameAs(a, a, bc, Mul(b, c));
    forall i, j | 0 <= i < left.rows && 0 <= j < left.cols
      ensures left.At(i, j) == right.At(i, j)
    {
      assert Mul(ab, c).At(i, j) == Mul(Mul(a, b), c).At(i, j);
      assert Mul(a, bc).At(i, j) == Mul(a, Mul(b, c)).At(i, j);
    }
  }
}
