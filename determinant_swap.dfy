/**
  Exchanging two rows of a square matrix negates the cofactor-expansion
  determinant of module Matrices.

  Rows below row 0 travel into every minor of the expansion, so exchanging two
  of them negates each cofactor (by induction on the size). Exchanging rows 0
  and 1 is handled by expanding twice: the determinant becomes a double sum
  over pairs of distinct columns (a for row 0, b for row 1), and the exchange
  turns the term of (a, b) into the negated term of (b, a). Any other exchange
  involving row 0 is three exchanges of those two kinds.
 */
module DeterminantSwap {
  import opened Sums
  import opened Matrices
  import opened DeterminantLemmas

  /** Row index p after rows i and j are exchanged. */
  function Exchange(p: int, i: int, j: int): int
  {
    if p == i then j else if p == j then i else p
  }

  /** m with rows i and j exchanged. */
  function SwapRows(m: Matrix, i: int, j: int): (s: Matrix)
    requires m.Valid() && 0 <= i < m.rows && 0 <= j < m.rows
    ensures s.Valid() && s.rows == m.rows && s.cols == m.cols
  {
    Matrix(seq(MAX_SIZE, p => seq(MAX_SIZE, q => m.At(Exchange(p, i, j), q))), m.rows, m.cols)
  }

  /** Row p of the exchanged matrix is row Exchange(p, i, j) of the original. */
  lemma SwapRowsEntry(m: Matrix, i: int, j: int, p: int, q: int)
    requires m.Valid() && 0 <= i < m.rows && 0 <= j < m.rows
    requires 0 <= p < MAX_SIZE && 0 <= q < MAX_SIZE
    ensures SwapRows(m, i, j).At(p, q) == m.At(Exchange(p, i, j), q)
  {
  }

  /** Exchanging the same two rows again gives back the matrix. */
  lemma SwapRowsTwice(m: Matrix, i: int, j: int)
    requires m.Valid() && 0 <= i < m.rows && 0 <= j < m.rows
    ensures SameAs(SwapRows(SwapRows(m, i, j), i, j), m)
  {
    var s := SwapRows(m, i, j);
    forall p, q | 0 <= p < m.rows && 0 <= q < m.cols
      ensures SwapRows(s, i, j).At(p, q) == m.At(p, q)
    {
      SwapRowsEntry(s, i, j, p, q);
      SwapRowsEntry(m, i, j, Exchange(p, i, j), q);
    }
  }

  // ------------------------------------------------ exchanges below row 0

  /** The minor of column c of the exchanged matrix is the minor with rows i-1 and j-1 exchanged. */
  lemma MinorOfSwapBelow(m: Matrix, i: int, j: int, c: int)
    requires m.Valid() && 1 <= i < m.rows && 1 <= j < m.rows && 0 <= c < m.cols
    ensures SameAs(Submatrix(SwapRows(m, i, j), 0, c), SwapRows(Submatrix(m, 0, c), i - 1, j - 1))
  {
    var s := SwapRows(m, i, j);
    var mc := Submatrix(m, 0, c);
    forall p, q | 0 <= p < m.rows - 1 && 0 <= q < m.cols - 1
      ensures Submatrix(s, 0, c).At(p, q) == SwapRows(mc, i - 1, j - 1).At(p, q)
    {
      SubmatrixEntry(s, 0, c, p, q);
      SwapRowsEntry(m, i, j, p + 1, Keep(q, c));
      SwapRowsEntry(mc, i - 1, j - 1, p, q);
      SubmatrixEntry(m, 0, c, Exchange(p, i - 1, j - 1), q);
    }
  }

  /** A cofactor with its row-0 entry read from the storage. */
  lemma CofactorValue(m: Matrix, c: int)
    requires m.Valid() && IsSquareMatrix(m) && m.rows >= 2 && 0 <= c < m.cols
    ensures Cofactor(m, c) == Sign(c) * m.data[0][c] * Det(Submatrix(m, 0, c))
  {
  }

  lemma SameProduct(u: real, v: real, w: real, u': real, v': real, w': real)
    requires u == u' && v == v' && w == w'
    ensures u * v * w == u' * v' * w'
  {
  }

  lemma NegatedFactor(u: real, v: real, w: real)
    ensures u * v * (-w) == -(u * v * w)
  {
  }

  /** Exchanging two rows below row 0 negates the minor of every column of row 0. */
  lemma {:induction false} MinorDetSwapBelow(m: Matrix, i: int, j: int, c: int)
    requires m.Valid() && IsSquareMatrix(m) && m.rows >= 3
    requires 1 <= i < j < m.rows && 0 <= c < m.cols
    ensures Det(Submatrix(SwapRows(m, i, j), 0, c)) == -Det(Submatrix(m, 0, c))
    decreases m.rows, 0, 0
  {
    var mc := Submatrix(m, 0, c);
    MinorOfSwapBelow(m, i, j, c);
    DetSwapRows(mc, i - 1, j - 1);
    DetSameAs(Submatrix(SwapRows(m, i, j), 0, c), SwapRows(mc, i - 1, j - 1));
  }

  /** Exchanging two rows below row 0 negates every cofactor of row 0. */
  lemma {:induction false} CofactorSwapBelow(m: Matrix, i: int, j: int, c: int)
    requires m.Valid() && IsSquareMatrix(m) && m.rows >= 3
    requires 1 <= i < j < m.rows && 0 <= c < m.cols
    ensures Cofactor(SwapRows(m, i, j), c) == -Cofactor(m, c)
    decreases m.rows, 1, 0
  {
    var s := SwapRows(m, i, j);
    var minor := Det(Submatrix(m, 0, c));
    MinorDetSwapBelow(m, i, j, c);
    SwapRowsEntry(m, i, j, 0, c);
    assert s.data[0][c] == m.data[0][c];
    CofactorValue(s, c);
    CofactorValue(m, c);
    SameProduct(Sign(c), s.data[0][c], Det(Submatrix(s, 0, c)), Sign(c), m.data[0][c], -minor);
    NegatedFactor(Sign(c), m.data[0][c], minor);
  }

  /** Exchanging two rows below row 0 negates every partial expansion along row 0. */
  lemma {:induction false} ExpansionSwapBelow(m: Matrix, i: int, j: int, k: int)
    requires m.Valid() && IsSquareMatrix(m) && m.rows >= 3
    requires 1 <= i < j < m.rows && 0 <= k <= m.cols
    ensures Expansion(SwapRows(m, i, j), k) == -Expansion(m, k)
    decreases m.rows, 2, k
  {
    if k > 0 {
      ExpansionSwapBelow(m, i, j, k - 1);
      CofactorSwapBelow(m, i, j, k - 1);
    }
  }

  // ------------------------------------------- double sums over column pairs

  /** h with its term at index a set to zero. */
  function Without(h: nat -> real, a: nat): nat -> real
  {
    (b: nat) => if b == a then 0.0 else h(b)
  }

  /** The terms of h at the indices other than a, renumbered from 0 upwards. */
  function Kept(h: nat -> real, a: nat): nat -> real
  {
    (d: nat) => h(Keep(d, a))
  }

  /** Summing n - 1 renumbered terms is summing n terms with the one at a left out. */
  lemma {:induction false} SumKept(n: nat, h: nat -> real, a: nat)
    requires a < n
    ensures Sum(n - 1, Kept(h, a)) == Sum(n, Without(h, a))
  {
    if a == n - 1 {
      forall d: nat | d < n - 1
        ensures Kept(h, a)(d) == Without(h, a)(d)
      {
        assert Keep(d, a) == d;
      }
      SumExt(n - 1, Kept(h, a), Without(h, a));
      assert Without(h, a)(n - 1) == 0.0;
    } else {
      SumKept(n - 1, h, a);
      assert Keep(n - 2, a) == n - 1;
      assert Kept(h, a)(n - 2) == h(n - 1);
      assert Without(h, a)(n - 1) == h(n - 1);
    }
  }

  /**
    Term of column b in the expansion of minor a along its first row: row 1
    entries y, minors of the column pair D(a)(b), sign by b's column in the minor.
   */
  function InnerTerms(y: nat -> real, D: nat -> nat -> real, a: nat): nat -> real
  {
    (b: nat) => Sign(Skip(b, a)) * y(b) * D(a)(b)
  }

  lemma KeptInnerValue(y: nat -> real, D: nat -> nat -> real, a: nat, d: nat)
    ensures Kept(InnerTerms(y, D, a), a)(d) == Sign(Skip(Keep(d, a), a)) * y(Keep(d, a)) * D(a)(Keep(d, a))
  {
  }

  /** The terms of an expansion along a row: entry a (of x), signed, times minor a (of M). */
  function SignedTerms(x: nat -> real, M: nat -> real): nat -> real
  {
    (a: nat) => Sign(a) * x(a) * M(a)
  }

  /** Expansions that agree on every minor agree. */
  lemma SignedTermsCongruence(n: nat, x: nat -> real, M: nat -> real, M': nat -> real)
    requires forall a: nat :: a < n ==> M(a) == M'(a)
    ensures Sum(n, SignedTerms(x, M)) == Sum(n, SignedTerms(x, M'))
  {
    forall a: nat | a < n
      ensures SignedTerms(x, M)(a) == SignedTerms(x, M')(a)
    {
      SameProduct(Sign(a), x(a), M(a), Sign(a), x(a), M'(a));
    }
    SumExt(n, SignedTerms(x, M), SignedTerms(x, M'));
  }

  /** Minor a (for row 0 at column a) expanded along its own first row; n columns. */
  function InnerSums(y: nat -> real, D: nat -> nat -> real, n: nat): nat -> real
    requires n >= 1
  {
    (a: nat) => Sum(n - 1, Kept(InnerTerms(y, D, a), a))
  }

  /** The expansion along row 0 (entries x) whose minors are expanded in turn; n columns. */
  function OuterTerms(x: nat -> real, y: nat -> real, D: nat -> nat -> real, n: nat): nat -> real
    requires n >= 1
  {
    SignedTerms(x, InnerSums(y, D, n))
  }

  /** The terms of the twice-expanded determinant, by column a of row 0 and column b of row 1. */
  function PairTerms(x: nat -> real, y: nat -> real, D: nat -> nat -> real): nat -> nat -> real
  {
    (a: nat) => (b: nat) => if b == a then 0.0 else Sign(a) * x(a) * InnerTerms(y, D, a)(b)
  }

  /** Row a of the pair terms is row a's expansion term, scaled, with the shared column left out. */
  lemma PairRowPoint(x: nat -> real, y: nat -> real, D: nat -> nat -> real, a: nat, b: nat)
    ensures PairTerms(x, y, D)(a)(b) == Scaled(Sign(a) * x(a), Without(InnerTerms(y, D, a), a))(b)
  {
  }

  /** Each row of pair terms sums to the matching term of the twice-expanded determinant. */
  lemma PairRowSum(x: nat -> real, y: nat -> real, D: nat -> nat -> real, n: nat, a: nat)
    requires a < n
    ensures RowSums(n, PairTerms(x, y, D))(a) == OuterTerms(x, y, D, n)(a)
  {
    var h := InnerTerms(y, D, a);
    var c := Sign(a) * x(a);
    var row := PairTerms(x, y, D)(a);
    SumKept(n, h, a);
    SumScale(n, Without(h, a), c);
    forall b: nat | b < n
      ensures row(b) == Scaled(c, Without(h, a))(b)
    {
      PairRowPoint(x, y, D, a, b);
    }
    SumExt(n, row, Scaled(c, Without(h, a)));
  }

  /** The twice-expanded determinant is the double sum of the pair terms. */
  lemma DoubleSumForm(x: nat -> real, y: nat -> real, D: nat -> nat -> real, n: nat)
    requires n >= 1
    ensures Sum(n, OuterTerms(x, y, D, n)) == Sum(n, RowSums(n, PairTerms(x, y, D)))
  {
    forall a: nat | a < n
      ensures OuterTerms(x, y, D, n)(a) == RowSums(n, PairTerms(x, y, D))(a)
    {
      PairRowSum(x, y, D, n, a);
    }
    SumExt(n, OuterTerms(x, y, D, n), RowSums(n, PairTerms(x, y, D)));
  }

  /** The two signs of a column pair, taken in either order, are opposite. */
  lemma SignExchange(a: nat, b: nat)
    requires a != b
    ensures Sign(b) * Sign(Skip(a, b)) == -(Sign(a) * Sign(Skip(b, a)))
  {
  }

  lemma SignedProduct(s: real, t: real, u: real, v: real, x: real, y: real, z: real, x': real, y': real, z': real)
    requires s * t == -(u * v) && x' == x && y' == y && z' == z
    ensures s * y' * (t * x' * z') == -(u * x * (v * y * z))
  {
    calc {
      s * y * (t * x * z);
      (s * t) * (x * y * z);
      -(u * v) * (x * y * z);
      -(u * x * (v * y * z));
    }
  }

  /** The term of pair (a, b): 0 when the two rows would share a column. */
  lemma PairTermValue(x: nat -> real, y: nat -> real, D: nat -> nat -> real, a: nat, b: nat)
    ensures a == b ==> PairTerms(x, y, D)(a)(b) == 0.0
    ensures a != b ==> PairTerms(x, y, D)(a)(b) == Sign(a) * x(a) * (Sign(Skip(b, a)) * y(b) * D(a)(b))
  {
    if a != b {
      assert InnerTerms(y, D, a)(b) == Sign(Skip(b, a)) * y(b) * D(a)(b);
    }
  }

  /** With rows 0 and 1 exchanged, the term of pair (b, a) is the negated term of pair (a, b). */
  lemma PairTermsExchanged(x: nat -> real, y: nat -> real, D: nat -> nat -> real,
                           x': nat -> real, y': nat -> real, D': nat -> nat -> real, a: nat, b: nat)
    requires x'(b) == y(b) && y'(a) == x(a)
    requires a != b ==> D'(b)(a) == D(a)(b)
    ensures PairTerms(x', y', D')(b)(a) == -PairTerms(x, y, D)(a)(b)
  {
    PairTermValue(x, y, D, a, b);
    PairTermValue(x', y', D', b, a);
    if a != b {
      SignExchange(a, b);
      SignedProduct(Sign(b), Sign(Skip(a, b)), Sign(a), Sign(Skip(b, a)), x(a), y(b), D(a)(b), y'(a), x'(b), D'(b)(a));
    }
  }

  /**
    Exchanging the first two rows (x, y become y, x and every pair minor is
    read with its columns in the other order) negates the twice-expanded sum.
   */
  lemma ExchangedDoubleSum(x: nat -> real, y: nat -> real, D: nat -> nat -> real,
                           x': nat -> real, y': nat -> real, D': nat -> nat -> real, n: nat)
    requires n >= 1
    requires forall c: nat :: c < n ==> x'(c) == y(c)
    requires forall c: nat :: c < n ==> y'(c) == x(c)
    requires forall a: nat, b: nat :: a < n && b < n && a != b ==> D'(b)(a) == D(a)(b)
    ensures Sum(n, OuterTerms(x', y', D', n)) == -Sum(n, OuterTerms(x, y, D, n))
  {
    var P, P' := PairTerms(x, y, D), PairTerms(x', y', D');
    DoubleSumForm(x, y, D, n);
    DoubleSumForm(x', y', D', n);
    var G := (a: nat) => Scaled(-1.0, P(a));
    forall i: nat, j: nat | i < n && j < n
      ensures G(j)(i) == P'(i)(j)
    {
      PairTermsExchanged(x, y, D, x', y', D', j, i);
      assert G(j)(i) == -1.0 * P(j)(i);
    }
    SumSwap(n, n, P', G);
    forall a: nat | a < n
      ensures RowSums(n, G)(a) == Scaled(-1.0, RowSums(n, P))(a)
    {
      SumScale(n, P(a), -1.0);
      assert RowSums(n, G)(a) == Sum(n, Scaled(-1.0, P(a)));
    }
    SumExt(n, RowSums(n, G), Scaled(-1.0, RowSums(n, P)));
    SumScale(n, RowSums(n, P), -1.0);
  }

  // ----------------------------------------- the matrix as a double sum

  /** Row r of m as a family of entries. */
  function RowOf(m: Matrix, r: int): nat -> real
  {
    (c: nat) => m.At(r, c)
  }

  /** Determinant of m without rows 0 and 1 and columns a and b; 0 unless a and b are distinct columns. */
  function PairMinors(m: Matrix): nat -> nat -> real
    requires m.Valid() && IsSquareMatrix(m) && m.rows >= 3
  {
    (a: nat) => (b: nat) =>
      if a < m.cols && b < m.cols && a != b then Det(Submatrix(Submatrix(m, 0, a), 0, Skip(b, a))) else 0.0
  }

  /** Term d of the expansion of minor a along its first row is a renumbered term of row 1 of m. */
  lemma MinorSignedTerm(m: Matrix, a: nat, d: nat)
    requires m.Valid() && IsSquareMatrix(m) && m.rows >= 3
    requires a < m.cols && d < m.cols - 1
    ensures SignedTerms(RowOf(Submatrix(m, 0, a), 0), Minors(Submatrix(m, 0, a)))(d)
         == Kept(InnerTerms(RowOf(m, 1), PairMinors(m), a), a)(d)
  {
    var ma := Submatrix(m, 0, a);
    var b := Keep(d, a);
    SubmatrixEntry(m, 0, a, 0, d);
    assert Skip(b, a) == d;
    assert RowOf(ma, 0)(d) == RowOf(m, 1)(b);
    assert Minors(ma)(d) == PairMinors(m)(a)(b);
    KeptInnerValue(RowOf(m, 1), PairMinors(m), a, d);
    SameProduct(Sign(d), RowOf(ma, 0)(d), Minors(ma)(d), Sign(Skip(b, a)), RowOf(m, 1)(b), PairMinors(m)(a)(b));
  }

  /** The minor of column a expanded along its first row, as renumbered terms of row 1 of m. */
  lemma MinorDet(m: Matrix, a: nat)
    requires m.Valid() && IsSquareMatrix(m) && m.rows >= 3 && a < m.cols
    ensures Det(Submatrix(m, 0, a)) == Sum(m.rows - 1, Kept(InnerTerms(RowOf(m, 1), PairMinors(m), a), a))
  {
    var ma := Submatrix(m, 0, a);
    var terms := SignedTerms(RowOf(ma, 0), Minors(ma));
    DetIsExpansion(ma);
    ExpansionAsSignedTerms(ma, ma.cols);
    forall d: nat | d < ma.cols
      ensures terms(d) == Kept(InnerTerms(RowOf(m, 1), PairMinors(m), a), a)(d)
    {
      MinorSignedTerm(m, a, d);
    }
    SumExt(ma.cols, terms, Kept(InnerTerms(RowOf(m, 1), PairMinors(m), a), a));
  }

  /** The minors of the columns of row 0; 0 past the last column. */
  function Minors(m: Matrix): nat -> real
    requires m.Valid() && IsSquareMatrix(m) && m.rows >= 2
  {
    (a: nat) => if a < m.cols then Det(Submatrix(m, 0, a)) else 0.0
  }

  /** Each cofactor of row 0 is a signed term of row 0 and its minor. */
  lemma CofactorAsSignedTerm(m: Matrix, a: nat)
    requires m.Valid() && IsSquareMatrix(m) && m.rows >= 2 && a < m.cols
    ensures Cofactor(m, a) == SignedTerms(RowOf(m, 0), Minors(m))(a)
  {
    CofactorValue(m, a);
    assert RowOf(m, 0)(a) == m.data[0][a];
    assert Minors(m)(a) == Det(Submatrix(m, 0, a));
    SameProduct(Sign(a), m.data[0][a], Det(Submatrix(m, 0, a)), Sign(a), RowOf(m, 0)(a), Minors(m)(a));
  }

  /** Every partial expansion along row 0 sums the signed terms of row 0 and its minors. */
  lemma {:induction false} ExpansionAsSignedTerms(m: Matrix, k: int)
    requires m.Valid() && IsSquareMatrix(m) && m.rows >= 2 && 0 <= k <= m.cols
    ensures Expansion(m, k) == Sum(k, SignedTerms(RowOf(m, 0), Minors(m)))
  {
    if k > 0 {
      ExpansionAsSignedTerms(m, k - 1);
      CofactorAsSignedTerm(m, k - 1);
    }
  }

  /** The double sum over pairs of columns for rows 0 and 1 of m. */
  function TwiceExpanded(m: Matrix): real
    requires m.Valid() && IsSquareMatrix(m) && m.rows >= 3
  {
    Sum(m.rows, OuterTerms(RowOf(m, 0), RowOf(m, 1), PairMinors(m), m.rows))
  }

  /** The determinant as a double sum: along row 0, each minor expanded along its first row. */
  lemma DetTwiceExpanded(m: Matrix)
    requires m.Valid() && IsSquareMatrix(m) && m.rows >= 3
    ensures Det(m) == TwiceExpanded(m)
  {
    var inner := InnerSums(RowOf(m, 1), PairMinors(m), m.rows);
    ExpansionAsSignedTerms(m, m.cols);
    forall a: nat | a < m.rows
      ensures Minors(m)(a) == inner(a)
    {
      MinorDet(m, a);
    }
    SignedTermsCongruence(m.rows, RowOf(m, 0), Minors(m), inner);
  }

  /** The column bookkeeping of two deletions: deleting columns a and b in either order leaves the same columns. */
  lemma KeepTwice(q: int, a: int, b: int)
    requires 0 <= q && 0 <= a && 0 <= b && a != b
    ensures Keep(Keep(q, Skip(a, b)), b) == Keep(Keep(q, Skip(b, a)), a)
  {
  }

  /** Entry (p, q) of the minor of pair (b, a) after the exchange is that of pair (a, b) before. */
  lemma PairMinorEntry(m: Matrix, a: nat, b: nat, p: int, q: int)
    requires m.Valid() && IsSquareMatrix(m) && m.rows >= 3
    requires a < m.cols && b < m.cols && a != b
    requires 0 <= p < m.rows - 2 && 0 <= q < m.cols - 2
    ensures Submatrix(Submatrix(SwapRows(m, 0, 1), 0, b), 0, Skip(a, b)).At(p, q)
         == Submatrix(Submatrix(m, 0, a), 0, Skip(b, a)).At(p, q)
  {
    var s := SwapRows(m, 0, 1);
    SubmatrixEntry(Submatrix(s, 0, b), 0, Skip(a, b), p, q);
    SubmatrixEntry(s, 0, b, p + 1, Keep(q, Skip(a, b)));
    SwapRowsEntry(m, 0, 1, p + 2, Keep(Keep(q, Skip(a, b)), b));
    SubmatrixEntry(Submatrix(m, 0, a), 0, Skip(b, a), p, q);
    SubmatrixEntry(m, 0, a, p + 1, Keep(q, Skip(b, a)));
    KeepTwice(q, a, b);
  }

  /** After exchanging rows 0 and 1, the minor of pair (b, a) is the minor of pair (a, b). */
  lemma PairMinorsExchanged(m: Matrix, a: nat, b: nat)
    requires m.Valid() && IsSquareMatrix(m) && m.rows >= 3
    requires a < m.cols && b < m.cols && a != b
    ensures PairMinors(SwapRows(m, 0, 1))(b)(a) == PairMinors(m)(a)(b)
  {
    var left := Submatrix(Submatrix(SwapRows(m, 0, 1), 0, b), 0, Skip(a, b));
    var right := Submatrix(Submatrix(m, 0, a), 0, Skip(b, a));
    forall p, q | 0 <= p < left.rows && 0 <= q < left.cols
      ensures left.At(p, q) == right.At(p, q)
    {
      PairMinorEntry(m, a, b, p, q);
    }
    DetSameAs(left, right);
  }

  /** After exchanging rows 0 and 1, row 0 is the old row 1. */
  lemma RowZeroExchanged(m: Matrix)
    requires m.Valid() && m.rows >= 2
    ensures forall c: nat :: c < m.rows ==> RowOf(SwapRows(m, 0, 1), 0)(c) == RowOf(m, 1)(c)
  {
    forall c: nat | c < m.rows
      ensures RowOf(SwapRows(m, 0, 1), 0)(c) == RowOf(m, 1)(c)
    {
      SwapRowsEntry(m, 0, 1, 0, c);
    }
  }

  /** After exchanging rows 0 and 1, row 1 is the old row 0. */
  lemma RowOneExchanged(m: Matrix)
    requires m.Valid() && m.rows >= 2
    ensures forall c: nat :: c < m.rows ==> RowOf(SwapRows(m, 0, 1), 1)(c) == RowOf(m, 0)(c)
  {
    forall c: nat | c < m.rows
      ensures RowOf(SwapRows(m, 0, 1), 1)(c) == RowOf(m, 0)(c)
    {
      SwapRowsEntry(m, 0, 1, 1, c);
    }
  }

  /** After exchanging rows 0 and 1, every pair minor is read with its columns in the other order. */
  lemma AllPairMinorsExchanged(m: Matrix)
    requires m.Valid() && IsSquareMatrix(m) && m.rows >= 3
    ensures forall a: nat, b: nat :: a < m.rows && b < m.rows && a != b ==>
              PairMinors(SwapRows(m, 0, 1))(b)(a) == PairMinors(m)(a)(b)
  {
    forall a: nat, b: nat | a < m.rows && b < m.rows && a != b
      ensures PairMinors(SwapRows(m, 0, 1))(b)(a) == PairMinors(m)(a)(b)
    {
      PairMinorsExchanged(m, a, b);
    }
  }

  /** Exchanging rows 0 and 1 negates the double sum. */
  lemma TwiceExpandedExchanged(m: Matrix)
    requires m.Valid() && IsSquareMatrix(m) && m.rows >= 3
    ensures TwiceExpanded(SwapRows(m, 0, 1)) == -TwiceExpanded(m)
  {
    var s := SwapRows(m, 0, 1);
    RowZeroExchanged(m);
    RowOneExchanged(m);
    AllPairMinorsExchanged(m);
    ExchangedDoubleSum(RowOf(m, 0), RowOf(m, 1), PairMinors(m), RowOf(s, 0), RowOf(s, 1), PairMinors(s), m.rows);
  }

  /** Exchanging rows 0 and 1 of a matrix of size at least 3 negates its determinant. */
  lemma DetSwapFirstTwo(m: Matrix)
    requires m.Valid() && IsSquareMatrix(m) && m.rows >= 3
    ensures Det(SwapRows(m, 0, 1)) == -Det(m)
  {
    DetTwiceExpanded(m);
    DetTwiceExpanded(SwapRows(m, 0, 1));
    TwiceExpandedExchanged(m);
  }

  // ------------------------------------------------------------ the theorem

  /** Exchanging rows 1 and j, then 0 and 1, then 1 and j again, exchanges rows 0 and j. */
  lemma ThreeExchanges(m: Matrix, j: int)
    requires m.Valid() && 2 <= j < m.rows
    ensures SameAs(SwapRows(SwapRows(SwapRows(m, 1, j), 0, 1), 1, j), SwapRows(m, 0, j))
  {
    var m1 := SwapRows(m, 1, j);
    var m2 := SwapRows(m1, 0, 1);
    forall p, q | 0 <= p < m.rows && 0 <= q < m.cols
      ensures SwapRows(m2, 1, j).At(p, q) == SwapRows(m, 0, j).At(p, q)
    {
      var p1 := Exchange(p, 1, j);
      var p2 := Exchange(p1, 0, 1);
      SwapRowsEntry(m2, 1, j, p, q);
      SwapRowsEntry(m1, 0, 1, p1, q);
      SwapRowsEntry(m, 1, j, p2, q);
      SwapRowsEntry(m, 0, j, p, q);
    }
  }

  /** Exchanging two different rows of a square matrix negates its determinant. */
  lemma {:induction false} DetSwapRows(m: Matrix, i: int, j: int)
    requires m.Valid() && IsSquareMatrix(m) && 0 <= i < j < m.rows
    ensures Det(SwapRows(m, i, j)) == -Det(m)
    decreases m.rows, 3, 0
  {
    var s := SwapRows(m, i, j);
    if m.rows == 2 {
      SwapRowsEntry(m, 0, 1, 0, 0);
      SwapRowsEntry(m, 0, 1, 0, 1);
      SwapRowsEntry(m, 0, 1, 1, 0);
      SwapRowsEntry(m, 0, 1, 1, 1);
    } else if i >= 1 {
      ExpansionSwapBelow(m, i, j, m.cols);
    } else if j == 1 {
      DetSwapFirstTwo(m);
    } else {
      var m1 := SwapRows(m, 1, j);
      var m2 := SwapRows(m1, 0, 1);
      var m3 := SwapRows(m2, 1, j);
      ExpansionSwapBelow(m, 1, j, m.cols);
      DetSwapFirstTwo(m1);
      ExpansionSwapBelow(m2, 1, j, m.cols);
      ThreeExchanges(m, j);
      DetSameAs(m3, s);
    }
  }
}
