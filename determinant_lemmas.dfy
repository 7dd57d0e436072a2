/**
  Properties of the cofactor-expansion determinant of module Matrices.
 */
module DeterminantLemmas {
  import opened Matrices

  /** For 2 x 2 the closed form ad - bc agrees with the expansion along row 0. */
  lemma ClosedFormAgreesWithExpansion(m: Matrix)
    requires m.Valid() && IsSquareMatrix(m) && m.rows == 2
    ensures Det(m) == Expansion(m, 2)
  {
    var s0, s1 := Submatrix(m, 0, 0), Submatrix(m, 0, 1);
    SubmatrixEntry(m, 0, 0, 0, 0);
    SubmatrixEntry(m, 0, 1, 0, 0);
    assert Expansion(m, 1) == Cofactor(m, 0);
    assert Expansion(m, 2) == Cofactor(m, 0) + Cofactor(m, 1);
  }

  /** Every square matrix of size at least 2 has its determinant given by the expansion. */
  lemma DetIsExpansion(m: Matrix)
    requires m.Valid() && IsSquareMatrix(m) && m.rows >= 2
    ensures Det(m) == Expansion(m, m.cols)
  {
    if m.rows == 2 {
      ClosedFormAgreesWithExpansion(m);
    }
  }

  /** Entries above the diagonal are zero. */
  predicate LowerTriangular(m: Matrix)
  {
    forall i, j :: 0 <= i < m.rows && i < j < m.cols ==> m.At(i, j) == 0.0
  }

  /** m[0][0] * m[1][1] * ... * m[n-1][n-1]. */
  function DiagonalProduct(m: Matrix, n: nat): real
  {
    if n == 0 then 1.0 else DiagonalProduct(m, n - 1) * m.At(n - 1, n - 1)
  }

  /** Expansion of a matrix whose row 0 is zero beyond column 0. */
  lemma {:induction false} ExpansionOfFirstTerm(m: Matrix, k: int)
    requires m.Valid() && IsSquareMatrix(m) && m.rows >= 2 && 1 <= k <= m.cols
    requires forall j :: 0 < j < m.cols ==> m.At(0, j) == 0.0
    ensures Expansion(m, k) == m.At(0, 0) * Det(Submatrix(m, 0, 0))
  {
    if k > 1 {
      ExpansionOfFirstTerm(m, k - 1);
    }
  }

  /** Dropping the first row and column of m shifts its diagonal product by one entry. */
  lemma {:induction false} DiagonalProductOfMinor(m: Matrix, n: nat)
    requires m.Valid() && 1 <= m.rows && 1 <= m.cols && n < m.rows && n < m.cols
    ensures m.At(0, 0) * DiagonalProduct(Submatrix(m, 0, 0), n) == DiagonalProduct(m, n + 1)
  {
    var s := Submatrix(m, 0, 0);
    if n > 0 {
      DiagonalProductOfMinor(m, n - 1);
      assert s.At(n - 1, n - 1) == m.At(n, n);
      calc {
        m.At(0, 0) * DiagonalProduct(s, n);
        m.At(0, 0) * (DiagonalProduct(s, n - 1) * s.At(n - 1, n - 1));
        (m.At(0, 0) * DiagonalProduct(s, n - 1)) * m.At(n, n);
        DiagonalProduct(m, n) * m.At(n, n);
      }
    }
  }

  /** The determinant of a lower-triangular matrix is the product of its diagonal. */
  lemma {:induction false} DetLowerTriangular(m: Matrix)
    requires m.Valid() && IsSquareMatrix(m) && m.rows >= 1 && LowerTriangular(m)
    ensures Det(m) == DiagonalProduct(m, m.rows)
    decreases m.rows
  {
    var n := m.rows;
    if n == 1 {
      assert DiagonalProduct(m, 1) == m.At(0, 0);
    } else if n == 2 {
      assert m.At(0, 1) == 0.0;
      assert DiagonalProduct(m, 1) == m.At(0, 0);
      assert DiagonalProduct(m, 2) == m.At(0, 0) * m.At(1, 1);
    } else {
      var s := Submatrix(m, 0, 0);
      forall i, j | 0 <= i < s.rows && i < j < s.cols
        ensures s.At(i, j) == 0.0
      {
        assert s.At(i, j) == m.At(i + 1, j + 1);
      }
      DetLowerTriangular(s);
      ExpansionOfFirstTerm(m, n);
      DiagonalProductOfMinor(m, n - 1);
    }
  }

  /** The identity matrix has determinant 1, for every size 1..MAX_SIZE. */
  lemma DetIdentity(n: int)
    requires 1 <= n <= MAX_SIZE
    ensures Det(Identity(n)) == 1.0
  {
    var id := Identity(n);
    DetLowerTriangular(id);
    DiagonalOfOnes(id, n);
  }

  lemma {:induction false} DiagonalOfOnes(m: Matrix, n: nat)
    requires forall i :: 0 <= i < n ==> m.At(i, i) == 1.0
    ensures DiagonalProduct(m, n) == 1.0
  {
    if n > 0 {
      DiagonalOfOnes(m, n - 1);
    }
  }
}
