/**
  The dense fixed-capacity matrix of the linear-algebra calculator and the
  mathematical meaning of its operations (addition, multiplication, submatrix
  extraction and the determinant by cofactor expansion along the first row).

  A matrix is a value: MAX_SIZE x MAX_SIZE storage plus its extents. Only the
  entries (i, j) with i < rows and j < cols are meaningful; the others are
  whatever the storage happened to hold and are never read by the operations.
 */
module Matrices {
  import opened Sums

  /** Capacity of a matrix in each dimension. */
  const MAX_SIZE: int := 10

  datatype Matrix = Matrix(data: seq<seq<real>>, rows: int, cols: int)
  {
    /** Storage has full capacity and the extents fit in it. */
    predicate Valid()
    {
      && 0 <= rows <= MAX_SIZE
      && 0 <= cols <= MAX_SIZE
      && IsStorage(data)
    }

    /** Entry (i, j) of the storage; 0 outside the storage. */
    function At(i: int, j: int): real
    {
      if 0 <= i < |data| && 0 <= j < |data[i]| then data[i][j] else 0.0
    }
  }

  /** The errors the calculator reports instead of computing a result. */
  datatype MatrixError =
    | DimensionMismatch(aRows: int, aCols: int, bRows: int, bCols: int)
    | InnerDimensionMismatch(aCols: int, bRows: int)
    | NotSquare(rows: int, cols: int)

  /** MAX_SIZE x MAX_SIZE storage. */
  predicate IsStorage(s: seq<seq<real>>)
  {
    |s| == MAX_SIZE && forall i :: 0 <= i < MAX_SIZE ==> |s[i]| == MAX_SIZE
  }

  /** Storage filled with zeros: the model's choice for entries C leaves indeterminate. */
  function ZeroStorage(): (s: seq<seq<real>>)
    ensures IsStorage(s)
    ensures forall i, j :: 0 <= i < MAX_SIZE && 0 <= j < MAX_SIZE ==> s[i][j] == 0.0
  {
    seq(MAX_SIZE, _ => seq(MAX_SIZE, _ => 0.0))
  }

  /** `data[i][j] = v` on a matrix's storage. */
  function Store(s: seq<seq<real>>, i: int, j: int, v: real): (t: seq<seq<real>>)
    requires IsStorage(s) && 0 <= i < MAX_SIZE && 0 <= j < MAX_SIZE
    ensures IsStorage(t)
    ensures t[i][j] == v
    ensures forall p, q :: 0 <= p < MAX_SIZE && 0 <= q < MAX_SIZE && (p != i || q != j) ==> t[p][q] == s[p][q]
  {
    s[i := s[i][j := v]]
  }

  /** Same extents and same meaningful entries; indeterminate entries may differ. */
  predicate SameAs(a: Matrix, b: Matrix)
  {
    && a.rows == b.rows
    && a.cols == b.cols
    && forall i, j :: 0 <= i < a.rows && 0 <= j < a.cols ==> a.At(i, j) == b.At(i, j)
  }

  /** Square-ness check of the determinant operation. */
  predicate IsSquareMatrix(m: Matrix)
  {
    m.rows == m.cols
  }

  // ---------------------------------------------------------------- submatrix

  /** Index in the source of index k of a submatrix that excluded index e. */
  function Keep(k: int, e: int): int
  {
    if k < e then k else k + 1
  }

  /** Index in the submatrix of a source index k != e, once index e is excluded. */
  function Skip(k: int, e: int): int
  {
    if k < e then k else k - 1
  }

  /**
    The matrix with row er and column ec deleted, the remaining rows and
    columns keeping their relative order.
   */
  function Submatrix(m: Matrix, er: int, ec: int): (s: Matrix)
    requires m.Valid()
    requires 0 <= er < m.rows && 0 <= ec < m.cols
    ensures s.Valid() && s.rows == m.rows - 1 && s.cols == m.cols - 1
  {
    Matrix(seq(MAX_SIZE, i => seq(MAX_SIZE, j =>
             if i < m.rows - 1 && j < m.cols - 1 then m.At(Keep(i, er), Keep(j, ec)) else 0.0)),
           m.rows - 1, m.cols - 1)
  }

  /**
    Nothing but the excluded row and column is lost: source entry (i, j) with
    i != er and j != ec is entry (Skip(i, er), Skip(j, ec)) of the submatrix.
   */
  lemma SubmatrixKeepsOtherEntries(m: Matrix, er: int, ec: int, i: int, j: int)
    requires m.Valid()
    requires 0 <= er < m.rows && 0 <= ec < m.cols
    requires 0 <= i < m.rows && i != er && 0 <= j < m.cols && j != ec
    ensures 0 <= Skip(i, er) < m.rows - 1 && 0 <= Skip(j, ec) < m.cols - 1
    ensures Submatrix(m, er, ec).At(Skip(i, er), Skip(j, ec)) == m.At(i, j)
  {
    assert Keep(Skip(i, er), er) == i && Keep(Skip(j, ec), ec) == j;
    SubmatrixEntry(m, er, ec, Skip(i, er), Skip(j, ec));
  }

  // -------------------------------------------------------------- determinant

  /** The alternating cofactor sign (-1)^col, by parity rather than by pow. */
  function Sign(col: int): real
  {
    if col % 2 == 0 then 1.0 else -1.0
  }

  /**
    Determinant of a square matrix: the entry itself for 1 x 1, ad - bc for
    2 x 2, and otherwise the cofactor expansion along row 0.
   */
  function Det(m: Matrix): real
    requires m.Valid() && IsSquareMatrix(m) && m.rows >= 1
    decreases m.rows, 1, 0
  {
    if m.rows == 1 then m.At(0, 0)
    else if m.rows == 2 then m.At(0, 0) * m.At(1, 1) - m.At(0, 1) * m.At(1, 0)
    else Expansion(m, m.cols)
  }

  /** The first k terms of the cofactor expansion along row 0, added in column order. */
  function Expansion(m: Matrix, k: int): real
    requires m.Valid() && IsSquareMatrix(m) && m.rows >= 2 && 0 <= k <= m.cols
    decreases m.rows, 0, k
  {
    if k == 0 then 0.0
    else Expansion(m, k - 1) + Cofactor(m, k - 1)
  }

  /** Term col of the expansion: (-1)^col * m[0][col] * det(minor(0, col)). */
  function Cofactor(m: Matrix, col: int): real
    requires m.Valid() && IsSquareMatrix(m) && m.rows >= 2 && 0 <= col < m.cols
    decreases m.rows, 0, 0
  {
    Sign(col) * m.At(0, col) * Det(Submatrix(m, 0, col))
  }

  /** Entry (i, j) of a submatrix is source entry (i, j) shifted past the excluded row and column. */
  lemma SubmatrixEntry(m: Matrix, er: int, ec: int, i: int, j: int)
    requires m.Valid()
    requires 0 <= er < m.rows && 0 <= ec < m.cols
    requires 0 <= i < m.rows - 1 && 0 <= j < m.cols - 1
    ensures Submatrix(m, er, ec).At(i, j) == m.At(Keep(i, er), Keep(j, ec))
  {
  }

  /** Submatrices of matrices that agree on their meaningful entries agree too. */
  lemma SubmatrixSameAs(a: Matrix, b: Matrix, er: int, ec: int)
    requires a.Valid() && b.Valid() && SameAs(a, b)
    requires 0 <= er < a.rows && 0 <= ec < a.cols
    ensures SameAs(Submatrix(a, er, ec), Submatrix(b, er, ec))
  {
    var sa, sb := Submatrix(a, er, ec), Submatrix(b, er, ec);
    forall i, j | 0 <= i < sa.rows && 0 <= j < sa.cols
      ensures sa.At(i, j) == sb.At(i, j)
    {
      SubmatrixEntry(a, er, ec, i, j);
      SubmatrixEntry(b, er, ec, i, j);
    }
  }

  /** The determinant reads only the meaningful entries. */
  lemma {:induction false} DetSameAs(a: Matrix, b: Matrix)
    requires a.Valid() && b.Valid() && IsSquareMatrix(a) && a.rows >= 1 && SameAs(a, b)
    ensures Det(a) == Det(b)
    decreases a.rows, 1, 0
  {
    if a.rows >= 3 {
      ExpansionSameAs(a, b, a.cols);
    }
  }

  lemma {:induction false} ExpansionSameAs(a: Matrix, b: Matrix, k: int)
    requires a.Valid() && b.Valid() && IsSquareMatrix(a) && a.rows >= 2 && SameAs(a, b)
    requires 0 <= k <= a.cols
    ensures Expansion(a, k) == Expansion(b, k)
    decreases a.rows, 0, k
  {
    if k > 0 {
      ExpansionSameAs(a, b, k - 1);
      CofactorSameAs(a, b, k - 1);
    }
  }

  lemma {:induction false} CofactorSameAs(a: Matrix, b: Matrix, col: int)
    requires a.Valid() && b.Valid() && IsSquareMatrix(a) && a.rows >= 2 && SameAs(a, b)
    requires 0 <= col < a.cols
    ensures Cofactor(a, col) == Cofactor(b, col)
    decreases a.rows, 0, 0
  {
    SubmatrixSameAs(a, b, 0, col);
    DetSameAs(Submatrix(a, 0, col), Submatrix(b, 0, col));
  }

  // ----------------------------------------------------- addition and product

  /** Entrywise sum, with a's extents. */
  function Add(a: Matrix, b: Matrix): Matrix
  {
    Matrix(seq(MAX_SIZE, i => seq(MAX_SIZE, j => a.At(i, j) + b.At(i, j))), a.rows, a.cols)
  }

  /** The terms a[i][t] * b[t][j] of entry (i, j) of a product. */
  function RowByCol(a: Matrix, b: Matrix, i: int, j: int): nat -> real
  {
    (t: nat) => a.At(i, t) * b.At(t, j)
  }

  /** Sum of a[i][t] * b[t][j] over t < k, ascending. */
  function Dot(a: Matrix, b: Matrix, i: int, j: int, k: nat): real
  {
    Sum(k, RowByCol(a, b, i, j))
  }

  /** Matrix product, with extents a.rows x b.cols, summing over a's columns. */
  function Mul(a: Matrix, b: Matrix): Matrix
    requires a.Valid()
  {
    Matrix(seq(MAX_SIZE, i => seq(MAX_SIZE, j => Dot(a, b, i, j, a.cols))), a.rows, b.cols)
  }

  /** The n x n identity matrix. */
  function Identity(n: int): Matrix
  {
    Matrix(seq(MAX_SIZE, i => seq(MAX_SIZE, j => if i == j then 1.0 else 0.0)), n, n)
  }

  /** The rows x cols zero matrix. */
  function Zero(rows: int, cols: int): Matrix
  {
    Matrix(ZeroStorage(), rows, cols)
  }
}
