/**
  The operations of the linear-algebra calculator as the source runs them:
  nested loops writing into a local result matrix, each guarded by the source's
  dimension check. Each method is proved against the specification functions of
  module Matrices.
 */
module MatrixOps {
  import opened Wrappers
  import opened Matrices

  /**
    Copies every entry outside row excludeRow and column excludeCol, advancing
    the output indices subI / subJ only for copied rows and columns.
   */
  method CreateSubmatrix(mat: Matrix, excludeRow: int, excludeCol: int) returns (submat: Matrix)
    requires mat.Valid()
    requires 0 <= excludeRow < mat.rows && 0 <= excludeCol < mat.cols
    ensures submat.Valid()
    ensures submat.rows == mat.rows - 1 && submat.cols == mat.cols - 1
    ensures forall i, j :: 0 <= i < submat.rows && 0 <= j < submat.cols ==>
              submat.data[i][j] == mat.data[Keep(i, excludeRow)][Keep(j, excludeCol)]
    ensures SameAs(submat, Submatrix(mat, excludeRow, excludeCol))
  {
    var data := ZeroStorage();
    var subI := 0;
    var i := 0;
    while i < mat.rows
      invariant 0 <= i <= mat.rows
      invariant subI == if i <= excludeRow then i else i - 1
      invariant IsStorage(data)
      invariant forall p, q :: 0 <= p < subI && 0 <= q < mat.cols - 1 ==>
                  data[p][q] == mat.data[Keep(p, excludeRow)][Keep(q, excludeCol)]
    {
      if i != excludeRow {
        var subJ := 0;
        var j := 0;
        while j < mat.cols
          invariant 0 <= j <= mat.cols
          invariant subJ == if j <= excludeCol then j else j - 1
          invariant IsStorage(data)
          invariant forall p, q :: 0 <= p < subI && 0 <= q < mat.cols - 1 ==>
                      data[p][q] == mat.data[Keep(p, excludeRow)][Keep(q, excludeCol)]
          invariant forall q :: 0 <= q < subJ ==> data[subI][q] == mat.data[i][Keep(q, excludeCol)]
        {
          if j != excludeCol {
            data := Store(data, subI, subJ, mat.data[i][j]);
            subJ := subJ + 1;
          }
          j := j + 1;
        }
        subI := subI + 1;
      }
      i := i + 1;
    }
    submat := Matrix(data, mat.rows - 1, mat.cols - 1);
  }

  /**
    Determinant by the source's recursion: closed forms for 1 x 1 and 2 x 2,
    otherwise a loop over row 0 adding (-1)^col * m[0][col] * det(minor).
   */
  method CalculateDeterminant(mat: Matrix) returns (det: real)
    requires mat.Valid() && IsSquareMatrix(mat) && mat.rows >= 1
    ensures det == Det(mat)
    decreases mat.rows
  {
    if mat.rows == 1 {
      return mat.data[0][0];
    }
    if mat.rows == 2 {
      return mat.data[0][0] * mat.data[1][1] - mat.data[0][1] * mat.data[1][0];
    }
    det := 0.0;
    var col := 0;
    while col < mat.cols
      invariant 0 <= col <= mat.cols
      invariant det == Expansion(mat, col)
    {
      var submat := CreateSubmatrix(mat, 0, col);
      var minor := CalculateDeterminant(submat);
      DetSameAs(submat, Submatrix(mat, 0, col));
      assert Cofactor(mat, col) == Sign(col) * mat.data[0][col] * minor;
      assert Expansion(mat, col + 1) == Expansion(mat, col) + Cofactor(mat, col);
      det := det + Sign(col) * mat.data[0][col] * minor;
      col := col + 1;
    }
  }

  /** The determinant operation: refuses a non-square matrix, reporting its extents. */
  method MatrixDeterminant(mat: Matrix) returns (r: Result<real, MatrixError>)
    requires mat.Valid() && mat.rows >= 1 && mat.cols >= 1
    ensures r.Failure? <==> !IsSquareMatrix(mat)
    ensures r.Failure? ==> r.error == NotSquare(mat.rows, mat.cols)
    ensures r.Success? ==> r.value == Det(mat)
  {
    if !IsSquareMatrix(mat) {
      return Failure(NotSquare(mat.rows, mat.cols));
    }
    var det := CalculateDeterminant(mat);
    return Success(det);
  }

  /** The addition operation: refuses unequal shapes, else adds entry by entry. */
  method MatrixAddition(a: Matrix, b: Matrix) returns (r: Result<Matrix, MatrixError>)
    requires a.Valid() && b.Valid()
    ensures r.Failure? <==> a.rows != b.rows || a.cols != b.cols
    ensures r.Failure? ==> r.error == DimensionMismatch(a.rows, a.cols, b.rows, b.cols)
    ensures r.Success? ==> r.value.Valid() && SameAs(r.value, Add(a, b))
  {
    if a.rows != b.rows || a.cols != b.cols {
      return Failure(DimensionMismatch(a.rows, a.cols, b.rows, b.cols));
    }
    var data := ZeroStorage();
    var i := 0;
    while i < a.rows
      invariant 0 <= i <= a.rows
      invariant IsStorage(data)
      invariant forall p, q :: 0 <= p < i && 0 <= q < a.cols ==> data[p][q] == a.data[p][q] + b.data[p][q]
    {
      var j := 0;
      while j < a.cols
        invariant 0 <= j <= a.cols
        invariant IsStorage(data)
        invariant forall p, q :: 0 <= p < i && 0 <= q < a.cols ==> data[p][q] == a.data[p][q] + b.data[p][q]
        invariant forall q :: 0 <= q < j ==> data[i][q] == a.data[i][q] + b.data[i][q]
      {
        data := Store(data, i, j, a.data[i][j] + b.data[i][j]);
        j := j + 1;
      }
      i := i + 1;
    }
    return Success(Matrix(data, a.rows, a.cols));
  }

  /**
    The multiplication operation: refuses a.cols != b.rows, else fills each
    entry with the sum over k, in ascending order, of a[i][k] * b[k][j].
   */
  method MatrixMultiplication(a: Matrix, b: Matrix) returns (r: Result<Matrix, MatrixError>)
    requires a.Valid() && b.Valid()
    ensures r.Failure? <==> a.cols != b.rows
    ensures r.Failure? ==> r.error == InnerDimensionMismatch(a.cols, b.rows)
    ensures r.Success? ==> r.value.Valid() && SameAs(r.value, Mul(a, b))
  {
    if a.cols != b.rows {
      return Failure(InnerDimensionMismatch(a.cols, b.rows));
    }
    var data := ZeroStorage();
    var i := 0;
    while i < a.rows
      invariant 0 <= i <= a.rows
      invariant IsStorage(data)
      invariant forall p, q :: 0 <= p < i && 0 <= q < b.cols ==> data[p][q] == Dot(a, b, p, q, a.cols)
    {
      var j := 0;
      while j < b.cols
        invariant 0 <= j <= b.cols
        invariant IsStorage(data)
        invariant forall p, q :: 0 <= p < i && 0 <= q < b.cols ==> data[p][q] == Dot(a, b, p, q, a.cols)
        invariant forall q :: 0 <= q < j ==> data[i][q] == Dot(a, b, i, q, a.cols)
      {
        data := Store(data, i, j, 0.0);
        var k := 0;
        while k < a.cols
          invariant 0 <= k <= a.cols
          invariant IsStorage(data)
          invariant forall p, q :: 0 <= p < i && 0 <= q < b.cols ==> data[p][q] == Dot(a, b, p, q, a.cols)
          invariant forall q :: 0 <= q < j ==> data[i][q] == Dot(a, b, i, q, a.cols)
          invariant data[i][j] == Dot(a, b, i, j, k)
        {
          data := Store(data, i, j, data[i][j] + a.data[i][k] * b.data[k][j]);
          k := k + 1;
        }
        j := j + 1;
      }
      i := i + 1;
    }
    return Success(Matrix(data, a.rows, b.cols));
  }
}
