/**
 * Matrix4x4<T> (include/math/Matrix4x4.inl): a row-major 4x4 matrix stored
 * as `data[row][col]`. The value of a matrix is a `Matrix`, four rows of four
 * reals; the algebra (product, transpose, determinant, matrix times point,
 * the factories and the result of inverse()) is stated on these values. The
 * C++ object, whose cells the constructors, operator(), setIdentity and the
 * loops of operator*, transposed and inverse write one at a time, is the class
 * `Matrix4x4` over a 4x4 array.
 */
module Matrices {
  import opened Scalars
  import opened Vectors3

  predicate IsMatrix(m: seq<seq<real>>) {
    |m| == 4 && forall i :: 0 <= i < 4 ==> |m[i]| == 4
  }

  /** Four rows of four entries; m[row][col]. */
  type Matrix = m: seq<seq<real>> | IsMatrix(m)
    witness [[0.0, 0.0, 0.0, 0.0], [0.0, 0.0, 0.0, 0.0], [0.0, 0.0, 0.0, 0.0], [0.0, 0.0, 0.0, 0.0]]

  /** Two matrices with the same sixteen entries are the same matrix. */
  lemma SameEntries(a: Matrix, b: Matrix)
    requires forall i, j :: 0 <= i < 4 && 0 <= j < 4 ==> a[i][j] == b[i][j]
    ensures a == b
  {
    assert forall i :: 0 <= i < 4 ==> a[i] == b[i];
  }

  /** The same, entry by entry with every index written out. */
  lemma SameEntriesExplicit(a: Matrix, b: Matrix)
    requires a[0][0] == b[0][0] && a[0][1] == b[0][1] && a[0][2] == b[0][2] && a[0][3] == b[0][3]
    requires a[1][0] == b[1][0] && a[1][1] == b[1][1] && a[1][2] == b[1][2] && a[1][3] == b[1][3]
    requires a[2][0] == b[2][0] && a[2][1] == b[2][1] && a[2][2] == b[2][2] && a[2][3] == b[2][3]
    requires a[3][0] == b[3][0] && a[3][1] == b[3][1] && a[3][2] == b[3][2] && a[3][3] == b[3][3]
    ensures a == b
  {
    forall i, j | 0 <= i < 4 && 0 <= j < 4
      ensures a[i][j] == b[i][j]
    {
      assert i == 0 || i == 1 || i == 2 || i == 3;
      assert j == 0 || j == 1 || j == 2 || j == 3;
    }
    SameEntries(a, b);
  }

  /** The default constructor, setIdentity() and identity(): ones on the diagonal. */
  function Identity(): Matrix {
    [[1.0, 0.0, 0.0, 0.0], [0.0, 1.0, 0.0, 0.0], [0.0, 0.0, 1.0, 0.0], [0.0, 0.0, 0.0, 1.0]]
  }

  /** The sixteen-value constructor reads `values` row by row. */
  function RowMajor(values: seq<real>): Matrix
    requires |values| == 16
  {
    seq(4, i requires 0 <= i < 4 => seq(4, j requires 0 <= j < 4 => values[4 * i + j]))
  }

  /** Cell i of `values` lands in row i / 4, column i % 4. */
  lemma RowMajorIndexing(values: seq<real>)
    requires |values| == 16
    ensures forall i :: 0 <= i < 16 ==> RowMajor(values)[i / 4][i % 4] == values[i]
  {
    forall i | 0 <= i < 16
      ensures RowMajor(values)[i / 4][i % 4] == values[i]
    {
      assert 4 * (i / 4) + i % 4 == i;
    }
  }

  /**
   * The running sum `result(i, j) += a(i, k) * b(k, j)` of operator* after
   * the first k terms.
   */
  function RowCol(a: Matrix, b: Matrix, i: int, j: int, k: int): real
    requires 0 <= i < 4 && 0 <= j < 4 && 0 <= k <= 4
  {
    if k == 0 then 0.0 else RowCol(a, b, i, j, k - 1) + a[i][k - 1] * b[k - 1][j]
  }

  /** operator*(const Matrix4x4&): entry (i, j) is row i of a times column j of b. */
  function Product(a: Matrix, b: Matrix): Matrix {
    seq(4, i requires 0 <= i < 4 => seq(4, j requires 0 <= j < 4 => RowCol(a, b, i, j, 4)))
  }

  /** transposed(): rows become columns. */
  function Transpose(m: Matrix): Matrix {
    seq(4, i requires 0 <= i < 4 => seq(4, j requires 0 <= j < 4 => m[j][i]))
  }

  /** The identity is a neutral element on both sides of the product. */
  lemma ProductIdentity(m: Matrix)
    ensures Product(Identity(), m) == m
    ensures Product(m, Identity()) == m
  {
    var id := Identity();
    forall i, j | 0 <= i < 4 && 0 <= j < 4
      ensures Product(id, m)[i][j] == m[i][j] && Product(m, id)[i][j] == m[i][j]
    {
      ProductEntry(id, m, i, j);
      ProductEntry(m, id, i, j);
      assert i == 0 || i == 1 || i == 2 || i == 3;
      assert j == 0 || j == 1 || j == 2 || j == 3;
    }
    SameEntries(Product(id, m), m);
    SameEntries(Product(m, id), m);
  }

  /** One entry of a triple product, its 64 terms regrouped. */
  lemma TripleSum(a0: real, a1: real, a2: real, a3: real,
                  b00: real, b01: real, b02: real, b03: real,
                  b10: real, b11: real, b12: real, b13: real,
                  b20: real, b21: real, b22: real, b23: real,
                  b30: real, b31: real, b32: real, b33: real,
                  c0: real, c1: real, c2: real, c3: real)
    ensures (a0 * b00 + a1 * b10 + a2 * b20 + a3 * b30) * c0 + (a0 * b01 + a1 * b11 + a2 * b21 + a3 * b31) * c1
          + (a0 * b02 + a1 * b12 + a2 * b22 + a3 * b32) * c2 + (a0 * b03 + a1 * b13 + a2 * b23 + a3 * b33) * c3
         == a0 * (b00 * c0 + b01 * c1 + b02 * c2 + b03 * c3) + a1 * (b10 * c0 + b11 * c1 + b12 * c2 + b13 * c3)
          + a2 * (b20 * c0 + b21 * c1 + b22 * c2 + b23 * c3) + a3 * (b30 * c0 + b31 * c1 + b32 * c2 + b33 * c3)
  {
  }

  /** Substituting the entries of a row of a*b into that row times a column of c. */
  lemma RowOfProduct(a0: real, a1: real, a2: real, a3: real,
                  b00: real, b01: real, b02: real, b03: real,
                  b10: real, b11: real, b12: real, b13: real,
                  b20: real, b21: real, b22: real, b23: real,
                  b30: real, b31: real, b32: real, b33: real,
                  c0: real, c1: real, c2: real, c3: real,
                  p0: real, p1: real, p2: real, p3: real)
    requires p0 == a0 * b00 + a1 * b10 + a2 * b20 + a3 * b30
    requires p1 == a0 * b01 + a1 * b11 + a2 * b21 + a3 * b31
    requires p2 == a0 * b02 + a1 * b12 + a2 * b22 + a3 * b32
    requires p3 == a0 * b03 + a1 * b13 + a2 * b23 + a3 * b33
    ensures p0 * c0 + p1 * c1 + p2 * c2 + p3 * c3
         == (a0 * b00 + a1 * b10 + a2 * b20 + a3 * b30) * c0 + (a0 * b01 + a1 * b11 + a2 * b21 + a3 * b31) * c1
          + (a0 * b02 + a1 * b12 + a2 * b22 + a3 * b32) * c2 + (a0 * b03 + a1 * b13 + a2 * b23 + a3 * b33) * c3
  {
  }

  /** Substituting the entries of a column of b*c into a row of a times that column. */
  lemma ColumnOfProduct(a0: real, a1: real, a2: real, a3: real,
                  b00: real, b01: real, b02: real, b03: real,
                  b10: real, b11: real, b12: real, b13: real,
                  b20: real, b21: real, b22: real, b23: real,
                  b30: real, b31: real, b32: real, b33: real,
                  c0: real, c1: real, c2: real, c3: real,
                  q0: real, q1: real, q2: real, q3: real)
    requires q0 == b00 * c0 + b01 * c1 + b02 * c2 + b03 * c3
    requires q1 == b10 * c0 + b11 * c1 + b12 * c2 + b13 * c3
    requires q2 == b20 * c0 + b21 * c1 + b22 * c2 + b23 * c3
    requires q3 == b30 * c0 + b31 * c1 + b32 * c2 + b33 * c3
    ensures a0 * q0 + a1 * q1 + a2 * q2 + a3 * q3
         == a0 * (b00 * c0 + b01 * c1 + b02 * c2 + b03 * c3) + a1 * (b10 * c0 + b11 * c1 + b12 * c2 + b13 * c3)
          + a2 * (b20 * c0 + b21 * c1 + b22 * c2 + b23 * c3) + a3 * (b30 * c0 + b31 * c1 + b32 * c2 + b33 * c3)
  {
  }

  /** An entry of a product, written out. */
  lemma {:induction false} ProductEntry(a: Matrix, b: Matrix, i: int, j: int)
    requires 0 <= i < 4 && 0 <= j < 4
    ensures Product(a, b)[i][j] == a[i][0] * b[0][j] + a[i][1] * b[1][j] + a[i][2] * b[2][j] + a[i][3] * b[3][j]
  {
    assert RowCol(a, b, i, j, 1) == a[i][0] * b[0][j];
    assert RowCol(a, b, i, j, 2) == RowCol(a, b, i, j, 1) + a[i][1] * b[1][j];
    assert RowCol(a, b, i, j, 3) == RowCol(a, b, i, j, 2) + a[i][2] * b[2][j];
  }

  /** Row i of a*b times column j of c, with the entries of a*b written out. */
  lemma RowSubst(a: Matrix, b: Matrix, c: Matrix, i: int, j: int)
    requires 0 <= i < 4 && 0 <= j < 4
    ensures var ab := Product(a, b);
      ab[i][0] * c[0][j] + ab[i][1] * c[1][j] + ab[i][2] * c[2][j] + ab[i][3] * c[3][j]
      == (a[i][0] * b[0][0] + a[i][1] * b[1][0] + a[i][2] * b[2][0] + a[i][3] * b[3][0]) * c[0][j]
       + (a[i][0] * b[0][1] + a[i][1] * b[1][1] + a[i][2] * b[2][1] + a[i][3] * b[3][1]) * c[1][j]
       + (a[i][0] * b[0][2] + a[i][1] * b[1][2] + a[i][2] * b[2][2] + a[i][3] * b[3][2]) * c[2][j]
       + (a[i][0] * b[0][3] + a[i][1] * b[1][3] + a[i][2] * b[2][3] + a[i][3] * b[3][3]) * c[3][j]
  {
    var ab := Product(a, b);
    ProductEntry(a, b, i, 0);
    ProductEntry(a, b, i, 1);
    ProductEntry(a, b, i, 2);
    ProductEntry(a, b, i, 3);
    RowOfProduct(a[i][0], a[i][1], a[i][2], a[i][3],
                 b[0][0], b[0][1], b[0][2], b[0][3], b[1][0], b[1][1], b[1][2], b[1][3],
                 b[2][0], b[2][1], b[2][2], b[2][3], b[3][0], b[3][1], b[3][2], b[3][3],
                 c[0][j], c[1][j], c[2][j], c[3][j], ab[i][0], ab[i][1], ab[i][2], ab[i][3]);
  }

  /** Row i of a times column j of b*c, with the entries of b*c written out. */
  lemma ColumnSubst(a: Matrix, b: Matrix, c: Matrix, i: int, j: int)
    requires 0 <= i < 4 && 0 <= j < 4
    ensures var bc := Product(b, c);
      a[i][0] * bc[0][j] + a[i][1] * bc[1][j] + a[i][2] * bc[2][j] + a[i][3] * bc[3][j]
      == a[i][0] * (b[0][0] * c[0][j] + b[0][1] * c[1][j] + b[0][2] * c[2][j] + b[0][3] * c[3][j])
       + a[i][1] * (b[1][0] * c[0][j] + b[1][1] * c[1][j] + b[1][2] * c[2][j] + b[1][3] * c[3][j])
       + a[i][2] * (b[2][0] * c[0][j] + b[2][1] * c[1][j] + b[2][2] * c[2][j] + b[2][3] * c[3][j])
       + a[i][3] * (b[3][0] * c[0][j] + b[3][1] * c[1][j] + b[3][2] * c[2][j] + b[3][3] * c[3][j])
  {
    var bc := Product(b, c);
    ProductEntry(b, c, 0, j);
    ProductEntry(b, c, 1, j);
    ProductEntry(b, c, 2, j);
    ProductEntry(b, c, 3, j);
    ColumnOfProduct(a[i][0], a[i][1], a[i][2], a[i][3],
                 b[0][0], b[0][1], b[0][2], b[0][3], b[1][0], b[1][1], b[1][2], b[1][3],
                 b[2][0], b[2][1], b[2][2], b[2][3], b[3][0], b[3][1], b[3][2], b[3][3],
                 c[0][j], c[1][j], c[2][j], c[3][j], bc[0][j], bc[1][j], bc[2][j], bc[3][j]);
  }

  /** Row i of a*b times column j of c equals row i of a times column j of b*c. */
  lemma RegroupEntry(a: Matrix, b: Matrix, c: Matrix, i: int, j: int)
    requires 0 <= i < 4 && 0 <= j < 4
    ensures var ab, bc := Product(a, b), Product(b, c);
      ab[i][0] * c[0][j] + ab[i][1] * c[1][j] + ab[i][2] * c[2][j] + ab[i][3] * c[3][j]
      == a[i][0] * bc[0][j] + a[i][1] * bc[1][j] + a[i][2] * bc[2][j] + a[i][3] * bc[3][j]
  {
    TripleSum(a[i][0], a[i][1], a[i][2], a[i][3],
              b[0][0], b[0][1], b[0][2], b[0][3], b[1][0], b[1][1], b[1][2], b[1][3],
              b[2][0], b[2][1], b[2][2], b[2][3], b[3][0], b[3][1], b[3][2], b[3][3],
              c[0][j], c[1][j], c[2][j], c[3][j]);
    RowSubst(a, b, c, i, j);
    ColumnSubst(a, b, c, i, j);
  }

  lemma AssociativeAt(a: Matrix, b: Matrix, c: Matrix, i: int, j: int)
    requires 0 <= i < 4 && 0 <= j < 4
    ensures Product(Product(a, b), c)[i][j] == Product(a, Product(b, c))[i][j]
  {
    RegroupEntry(a, b, c, i, j);
    ProductEntry(Product(a, b), c, i, j);
    ProductEntry(a, Product(b, c), i, j);
  }

  /** operator* is associative. */
  lemma ProductAssociative(a: Matrix, b: Matrix, c: Matrix)
    ensures Product(Product(a, b), c) == Product(a, Product(b, c))
  {
    forall i, j | 0 <= i < 4 && 0 <= j < 4
      ensures Product(Product(a, b), c)[i][j] == Product(a, Product(b, c))[i][j]
    {
      AssociativeAt(a, b, c, i, j);
    }
    SameEntries(Product(Product(a, b), c), Product(a, Product(b, c)));
  }

  /** transposed() undoes itself. */
  lemma TransposeInvolution(m: Matrix)
    ensures Transpose(Transpose(m)) == m
  {
    SameEntries(Transpose(Transpose(m)), m);
  }

  lemma TransposeProductAt(a: Matrix, b: Matrix, i: int, j: int)
    requires 0 <= i < 4 && 0 <= j < 4
    ensures Transpose(Product(a, b))[i][j] == Product(Transpose(b), Transpose(a))[i][j]
  {
    ProductEntry(a, b, j, i);
    ProductEntry(Transpose(b), Transpose(a), i, j);
  }

  /** The transpose of a product is the product of the transposes in reverse order. */
  lemma TransposeProduct(a: Matrix, b: Matrix)
    ensures Transpose(Product(a, b)) == Product(Transpose(b), Transpose(a))
  {
    var l, r := Transpose(Product(a, b)), Product(Transpose(b), Transpose(a));
    forall i, j | 0 <= i < 4 && 0 <= j < 4
      ensures l[i][j] == r[i][j]
    {
      TransposeProductAt(a, b, i, j);
    }
    SameEntries(l, r);
  }

  /** determinant(): cofactor expansion along the first row, term by term as written. */
  function Det(m: Matrix): real {
    m[0][0] * (m[1][1] * m[2][2] * m[3][3] + m[1][2] * m[2][3] * m[3][1] + m[1][3] * m[2][1] * m[3][2]
      - m[1][3] * m[2][2] * m[3][1] - m[1][1] * m[2][3] * m[3][2] - m[1][2] * m[2][1] * m[3][3])
    - m[0][1] * (m[1][0] * m[2][2] * m[3][3] + m[1][2] * m[2][3] * m[3][0] + m[1][3] * m[2][0] * m[3][2]
      - m[1][3] * m[2][2] * m[3][0] - m[1][0] * m[2][3] * m[3][2] - m[1][2] * m[2][0] * m[3][3])
    + m[0][2] * (m[1][0] * m[2][1] * m[3][3] + m[1][1] * m[2][3] * m[3][0] + m[1][3] * m[2][0] * m[3][1]
      - m[1][3] * m[2][1] * m[3][0] - m[1][0] * m[2][3] * m[3][1] - m[1][1] * m[2][0] * m[3][3])
    - m[0][3] * (m[1][0] * m[2][1] * m[3][2] + m[1][1] * m[2][2] * m[3][0] + m[1][2] * m[2][0] * m[3][1]
      - m[1][2] * m[2][1] * m[3][0] - m[1][0] * m[2][2] * m[3][1] - m[1][1] * m[2][0] * m[3][2])
  }

  /** Row r of the matrix applied to the point (v, 1): one of the four sums operator*(const Vector3&) forms. */
  function RowApply(m: Matrix, r: int, v: Vector3): real
    requires 0 <= r < 4
  {
    v.x * m[r][0] + v.y * m[r][1] + v.z * m[r][2] + m[r][3]
  }

  /** The homogeneous coordinate w that operator*(const Vector3&) computes. */
  function W(m: Matrix, v: Vector3): real {
    RowApply(m, 3, v)
  }

  /** The first three rows applied to (v, 1), before any division. */
  function Affine(m: Matrix, v: Vector3): Vector3 {
    Vector3(RowApply(m, 0, v), RowApply(m, 1, v), RowApply(m, 2, v))
  }

  /**
   * operator*(const Vector3&): the point (v, 1) times the matrix rows gives
   * x, y, z (Affine) and w (W); x, y and z are divided by w only when
   * |w| > epsilon.
   */
  function Apply(m: Matrix, v: Vector3): Vector3 {
    var p, w := Affine(m, v), W(m, v);
    if Abs(w) > Epsilon then Vector3(p.x / w, p.y / w, p.z / w) else p
  }

  /** The w-divide: when |w| > epsilon the result times w is the undivided point. */
  lemma ApplyDividesByW(m: Matrix, v: Vector3)
    requires Abs(W(m, v)) > Epsilon
    ensures Apply(m, v).Scale(W(m, v)) == Affine(m, v)
  {
    DivideThenScale(Affine(m, v), W(m, v));
  }

  /** When |w| <= epsilon the point is returned undivided. */
  lemma ApplyKeepsSmallW(m: Matrix, v: Vector3)
    requires Abs(W(m, v)) <= Epsilon
    ensures Apply(m, v) == Affine(m, v)
  {
  }

  /** Dividing every component by w and scaling by w again gives the point back. */
  lemma DivideThenScale(p: Vector3, w: real)
    requires w != 0.0
    ensures Vector3(p.x / w, p.y / w, p.z / w).Scale(w) == p
  {
  }

  /** A matrix whose last row is (0, 0, 0, 1) maps points without any division. */
  lemma AffineApply(m: Matrix, v: Vector3)
    requires m[3] == [0.0, 0.0, 0.0, 1.0]
    ensures Apply(m, v) == Affine(m, v)
  {
    assert W(m, v) == 1.0;
  }

  /**
   * Applying a product a * b whose right factor b has last row (0, 0, 0, 1)
   * is applying b and then a.
   */
  lemma ApplyProduct(a: Matrix, b: Matrix, v: Vector3)
    requires b[3] == [0.0, 0.0, 0.0, 1.0]
    ensures Apply(Product(a, b), v) == Apply(a, Apply(b, v))
  {
    AffineApply(b, v);
    RowApplyProduct(a, b, 0, v);
    RowApplyProduct(a, b, 1, v);
    RowApplyProduct(a, b, 2, v);
    RowApplyProduct(a, b, 3, v);
  }

  /** Row r of a * b applied to (v, 1) is row r of a applied to b's image of v. */
  lemma RowApplyProduct(a: Matrix, b: Matrix, r: int, v: Vector3)
    requires 0 <= r < 4 && b[3] == [0.0, 0.0, 0.0, 1.0]
    ensures RowApply(Product(a, b), r, v) == RowApply(a, r, Affine(b, v))
  {
    RowApplyOfProduct(a, b, r, v);
    RowApplyOfAffine(a, b, r, v);
    RowThroughProduct(a[r][0], a[r][1], a[r][2], a[r][3],
                      b[0][0], b[0][1], b[0][2], b[0][3],
                      b[1][0], b[1][1], b[1][2], b[1][3],
                      b[2][0], b[2][1], b[2][2], b[2][3],
                      v.x, v.y, v.z);
  }

  /** Row r of a * b applied to (v, 1), with the entries of a * b written out. */
  lemma RowApplyOfProduct(a: Matrix, b: Matrix, r: int, v: Vector3)
    requires 0 <= r < 4 && b[3] == [0.0, 0.0, 0.0, 1.0]
    ensures RowApply(Product(a, b), r, v)
      == v.x * (a[r][0] * b[0][0] + a[r][1] * b[1][0] + a[r][2] * b[2][0])
       + v.y * (a[r][0] * b[0][1] + a[r][1] * b[1][1] + a[r][2] * b[2][1])
       + v.z * (a[r][0] * b[0][2] + a[r][1] * b[1][2] + a[r][2] * b[2][2])
       + (a[r][0] * b[0][3] + a[r][1] * b[1][3] + a[r][2] * b[2][3] + a[r][3])
  {
    ProductEntry(a, b, r, 0);
    ProductEntry(a, b, r, 1);
    ProductEntry(a, b, r, 2);
    ProductEntry(a, b, r, 3);
  }

  /** Row r of a applied to b's image of (v, 1), with that image written out. */
  lemma RowApplyOfAffine(a: Matrix, b: Matrix, r: int, v: Vector3)
    requires 0 <= r < 4
    ensures RowApply(a, r, Affine(b, v))
      == (v.x * b[0][0] + v.y * b[0][1] + v.z * b[0][2] + b[0][3]) * a[r][0]
       + (v.x * b[1][0] + v.y * b[1][1] + v.z * b[1][2] + b[1][3]) * a[r][1]
       + (v.x * b[2][0] + v.y * b[2][1] + v.z * b[2][2] + b[2][3]) * a[r][2]
       + a[r][3]
  {
  }

  /** RowApplyProduct on the entries, with the last row of b fixed to (0, 0, 0, 1). */
  lemma RowThroughProduct(a0: real, a1: real, a2: real, a3: real,
                          b00: real, b01: real, b02: real, b03: real,
                          b10: real, b11: real, b12: real, b13: real,
                          b20: real, b21: real, b22: real, b23: real,
                          x: real, y: real, z: real)
    ensures x * (a0 * b00 + a1 * b10 + a2 * b20) + y * (a0 * b01 + a1 * b11 + a2 * b21)
          + z * (a0 * b02 + a1 * b12 + a2 * b22) + (a0 * b03 + a1 * b13 + a2 * b23 + a3)
         == (x * b00 + y * b01 + z * b02 + b03) * a0 + (x * b10 + y * b11 + z * b12 + b13) * a1
          + (x * b20 + y * b21 + z * b22 + b23) * a2 + a3
  {
  }

  /** translation(t): the identity with t in the last column. */
  function Translation(t: Vector3): Matrix {
    [[1.0, 0.0, 0.0, t.x], [0.0, 1.0, 0.0, t.y], [0.0, 0.0, 1.0, t.z], [0.0, 0.0, 0.0, 1.0]]
  }

  /** scaling(s): s on the first three diagonal entries. */
  function Scaling(s: Vector3): Matrix {
    [[s.x, 0.0, 0.0, 0.0], [0.0, s.y, 0.0, 0.0], [0.0, 0.0, s.z, 0.0], [0.0, 0.0, 0.0, 1.0]]
  }

  /**
   * orthographic(l, r, b, t, n, f): the glOrtho matrix, written into the
   * identity. The extents must not be empty (the division by zero is not
   * modelled).
   */
  function Orthographic(left: real, right: real, bottom: real, top: real, near: real, far: real): Matrix
    requires right != left && top != bottom && far != near
  {
    [[2.0 / (right - left), 0.0, 0.0, -(right + left) / (right - left)],
     [0.0, 2.0 / (top - bottom), 0.0, -(top + bottom) / (top - bottom)],
     [0.0, 0.0, -2.0 / (far - near), -(far + near) / (far - near)],
     [0.0, 0.0, 0.0, 1.0]]
  }

  /** translation by zero and scaling by one are the identity matrix. */
  lemma NeutralFactories()
    ensures Translation(Zero()) == Identity()
    ensures Scaling(One()) == Identity()
  {
  }

  /** translation(t) * v = v + t. */
  lemma TranslationMovesPoints(t: Vector3, v: Vector3)
    ensures Apply(Translation(t), v) == v.Add(t)
  {
    AffineApply(Translation(t), v);
  }

  /** scaling(s) * v is the componentwise product. */
  lemma ScalingScalesPoints(s: Vector3, v: Vector3)
    ensures Apply(Scaling(s), v) == v.Mul(s)
  {
    AffineApply(Scaling(s), v);
  }

  /** Two translations compose into the translation by the sum. */
  lemma TranslationsCompose(a: Vector3, b: Vector3)
    ensures Product(Translation(a), Translation(b)) == Translation(a.Add(b))
  {
    var p := Product(Translation(a), Translation(b));
    forall i, j | 0 <= i < 4 && 0 <= j < 4
      ensures p[i][j] == Translation(a.Add(b))[i][j]
    {
      ProductEntry(Translation(a), Translation(b), i, j);
    }
    SameEntries(p, Translation(a.Add(b)));
  }

  /** orthographic maps the near bottom-left corner to (-1, -1, -1) and the far top-right corner to (1, 1, 1). */
  lemma OrthographicCorners(left: real, right: real, bottom: real, top: real, near: real, far: real)
    requires right != left && top != bottom && far != near
    ensures Apply(Orthographic(left, right, bottom, top, near, far), Vector3(left, bottom, -near)) == Vector3(-1.0, -1.0, -1.0)
    ensures Apply(Orthographic(left, right, bottom, top, near, far), Vector3(right, top, -far)) == Vector3(1.0, 1.0, 1.0)
  {
    var o := Orthographic(left, right, bottom, top, near, far);
    AffineApply(o, Vector3(left, bottom, -near));
    AffineApply(o, Vector3(right, top, -far));
  }

  /** The determinant of the identity is 1. */
  lemma DetIdentity()
    ensures Det(Identity()) == 1.0
  {
  }

  /** A translation has determinant 1. */
  lemma DetTranslation(t: Vector3)
    ensures Det(Translation(t)) == 1.0
  {
  }

  /** A scaling has determinant sx * sy * sz. */
  lemma DetScaling(s: Vector3)
    ensures Det(Scaling(s)) == s.x * s.y * s.z
  {
  }

  /** inv(0, 0): the value inverse() writes into row 0 of column 0. */
  function Inv00(m: Matrix): real {
    m[1][1] * m[2][2] * m[3][3] - m[1][1] * m[2][3] * m[3][2] - m[2][1] * m[1][2] * m[3][3]
    + m[2][1] * m[1][3] * m[3][2] + m[3][1] * m[1][2] * m[2][3] - m[3][1] * m[1][3] * m[2][2]
  }

  /** inv(1, 0) */
  function Inv10(m: Matrix): real {
    -m[1][0] * m[2][2] * m[3][3] + m[1][0] * m[2][3] * m[3][2] + m[2][0] * m[1][2] * m[3][3]
    - m[2][0] * m[1][3] * m[3][2] - m[3][0] * m[1][2] * m[2][3] + m[3][0] * m[1][3] * m[2][2]
  }

  /** inv(2, 0) */
  function Inv20(m: Matrix): real {
    m[1][0] * m[2][1] * m[3][3] - m[1][0] * m[2][3] * m[3][1] - m[2][0] * m[1][1] * m[3][3]
    + m[2][0] * m[1][3] * m[3][1] + m[3][0] * m[1][1] * m[2][3] - m[3][0] * m[1][3] * m[2][1]
  }

  /** inv(3, 0) */
  function Inv30(m: Matrix): real {
    -m[1][0] * m[2][1] * m[3][2] + m[1][0] * m[2][2] * m[3][1] + m[2][0] * m[1][1] * m[3][2]
    - m[2][0] * m[1][2] * m[3][1] - m[3][0] * m[1][1] * m[2][2] + m[3][0] * m[1][2] * m[2][1]
  }

  /** The determinant inverse() computes from the first row and the column it filled. */
  function InlineDet(m: Matrix): real {
    m[0][0] * Inv00(m) + m[0][1] * Inv10(m) + m[0][2] * Inv20(m) + m[0][3] * Inv30(m)
  }

  /** The 24 terms of the inline determinant are those of determinant(). */
  lemma InlineDetExpansion(m00: real, m01: real, m02: real, m03: real,
                           m10: real, m11: real, m12: real, m13: real,
                           m20: real, m21: real, m22: real, m23: real,
                           m30: real, m31: real, m32: real, m33: real,
                           c0: real, c1: real, c2: real, c3: real)
    requires c0 == m11 * m22 * m33 - m11 * m23 * m32 - m21 * m12 * m33 + m21 * m13 * m32 + m31 * m12 * m23 - m31 * m13 * m22
    requires c1 == -m10 * m22 * m33 + m10 * m23 * m32 + m20 * m12 * m33 - m20 * m13 * m32 - m30 * m12 * m23 + m30 * m13 * m22
    requires c2 == m10 * m21 * m33 - m10 * m23 * m31 - m20 * m11 * m33 + m20 * m13 * m31 + m30 * m11 * m23 - m30 * m13 * m21
    requires c3 == -m10 * m21 * m32 + m10 * m22 * m31 + m20 * m11 * m32 - m20 * m12 * m31 - m30 * m11 * m22 + m30 * m12 * m21
    ensures m00 * c0 + m01 * c1 + m02 * c2 + m03 * c3 ==
      m00 * (m11 * m22 * m33 + m12 * m23 * m31 + m13 * m21 * m32 - m13 * m22 * m31 - m11 * m23 * m32 - m12 * m21 * m33)
      - m01 * (m10 * m22 * m33 + m12 * m23 * m30 + m13 * m20 * m32 - m13 * m22 * m30 - m10 * m23 * m32 - m12 * m20 * m33)
      + m02 * (m10 * m21 * m33 + m11 * m23 * m30 + m13 * m20 * m31 - m13 * m21 * m30 - m10 * m23 * m31 - m11 * m20 * m33)
      - m03 * (m10 * m21 * m32 + m11 * m22 * m30 + m12 * m20 * m31 - m12 * m21 * m30 - m10 * m22 * m31 - m11 * m20 * m32)
  {
  }

  /** The determinant inverse() tests equals determinant(). */
  lemma InlineDetIsDet(m: Matrix)
    ensures InlineDet(m) == Det(m)
  {
    InlineDetExpansion(m[0][0], m[0][1], m[0][2], m[0][3], m[1][0], m[1][1], m[1][2], m[1][3],
                       m[2][0], m[2][1], m[2][2], m[2][3], m[3][0], m[3][1], m[3][2], m[3][3],
                       Inv00(m), Inv10(m), Inv20(m), Inv30(m));
  }

  /**
   * What inverse() holds before the scaling loop: a default (identity)
   * matrix whose column 0 has been overwritten; columns 1 to 3 are never
   * written.
   */
  function InverseFill(m: Matrix): Matrix {
    [[Inv00(m), 0.0, 0.0, 0.0], [Inv10(m), 1.0, 0.0, 0.0], [Inv20(m), 0.0, 1.0, 0.0], [Inv30(m), 0.0, 0.0, 1.0]]
  }

  /** Every entry multiplied by s, as the loop `inv(i, j) *= det` does. */
  function Scaled(m: Matrix, s: real): (r: Matrix)
    ensures forall i, j :: 0 <= i < 4 && 0 <= j < 4 ==> r[i][j] == m[i][j] * s
  {
    seq(4, i requires 0 <= i < 4 => seq(4, j requires 0 <= j < 4 => m[i][j] * s))
  }

  /**
   * Scaling is a monoid action: by 1 it changes nothing, two scalings are one
   * by the product, and a scaling by a non-zero s is undone by one by 1/s.
   */
  lemma ScaledComposes(m: Matrix, s: real, t: real)
    ensures Scaled(m, 1.0) == m
    ensures Scaled(Scaled(m, s), t) == Scaled(m, s * t)
    ensures s != 0.0 ==> Scaled(Scaled(m, s), 1.0 / s) == m
  {
    SameEntries(Scaled(m, 1.0), m);
    var a, b := Scaled(Scaled(m, s), t), Scaled(m, s * t);
    forall i, j | 0 <= i < 4 && 0 <= j < 4
      ensures a[i][j] == b[i][j]
    {
      assert a[i][j] == m[i][j] * s * t;
    }
    SameEntries(a, b);
    if s != 0.0 {
      var c := Scaled(Scaled(m, s), 1.0 / s);
      forall i, j | 0 <= i < 4 && 0 <= j < 4
        ensures c[i][j] == m[i][j]
      {
        assert c[i][j] == m[i][j] * s * (1.0 / s);
        assert s * (1.0 / s) == 1.0;
      }
      SameEntries(c, m);
    }
  }

  /**
   * inverse() as written: runtime_error exactly when |determinant()| < epsilon
   * (the inline determinant is determinant()); otherwise the filled matrix
   * scaled by 1 / determinant().
   */
  function InverseAsWritten(m: Matrix): (r: Result<Matrix>)
    ensures r.Err? <==> Abs(Det(m)) < Epsilon
    ensures r.Err? ==> r.error == RuntimeError
    ensures r.Ok? ==> r.value == Scaled(InverseFill(m), 1.0 / Det(m))
  {
    InlineDetIsDet(m);
    var det := InlineDet(m);
    if Abs(det) < Epsilon then Err(RuntimeError) else Ok(Scaled(InverseFill(m), 1.0 / det))
  }

  /**
   * The fill pattern of inverse(): columns 1 to 3 are never written before the
   * scaling loop, so they are the identity's scaled by 1 / determinant().
   */
  lemma InverseFillPattern(m: Matrix)
    requires InverseAsWritten(m).Ok?
    ensures var r := InverseAsWritten(m).value;
      forall i, j :: 0 <= i < 4 && 1 <= j < 4 ==> r[i][j] == if i == j then 1.0 / Det(m) else 0.0
  {
  }


  /** The 3x3 determinant of rows b, c, d restricted to columns p, q, s. */
  function Minor(b: seq<real>, c: seq<real>, d: seq<real>, p: int, q: int, s: int): real
    requires |b| == 4 && |c| == 4 && |d| == 4
    requires 0 <= p < 4 && 0 <= q < 4 && 0 <= s < 4
  {
    b[p] * (c[q] * d[s] - c[s] * d[q]) - b[q] * (c[p] * d[s] - c[s] * d[p]) + b[s] * (c[p] * d[q] - c[q] * d[p])
  }

  /** The cofactor of column k in a 4x4 determinant whose last three rows are b, c, d. */
  function Cofactor(b: seq<real>, c: seq<real>, d: seq<real>, k: int): real
    requires |b| == 4 && |c| == 4 && |d| == 4 && 0 <= k < 4
  {
    if k == 0 then Minor(b, c, d, 1, 2, 3)
    else if k == 1 then -Minor(b, c, d, 0, 2, 3)
    else if k == 2 then Minor(b, c, d, 0, 1, 3)
    else -Minor(b, c, d, 0, 1, 2)
  }

  /** The determinant of the rows a, b, c, d, expanded along a. */
  function Expand(a: seq<real>, b: seq<real>, c: seq<real>, d: seq<real>): real
    requires |a| == 4 && |b| == 4 && |c| == 4 && |d| == 4
  {
    a[0] * Cofactor(b, c, d, 0) + a[1] * Cofactor(b, c, d, 1) + a[2] * Cofactor(b, c, d, 2) + a[3] * Cofactor(b, c, d, 3)
  }

  /** Expanding m's own rows in order gives determinant(). */
  lemma ExpandIsDet(m: Matrix)
    ensures Expand(m[0], m[1], m[2], m[3]) == Det(m)
  {
  }

  /** A determinant with a repeated row vanishes. */
  lemma ExpandRepeated(b: seq<real>, c: seq<real>, d: seq<real>)
    requires |b| == 4 && |c| == 4 && |d| == 4
    ensures Expand(b, b, c, d) == 0.0
    ensures Expand(c, b, c, d) == 0.0
    ensures Expand(d, b, c, d) == 0.0
  {
  }

  /**
   * The expansion as a form in the first two rows, with the 2x2 minors of the
   * last two rows as coefficients, is antisymmetric.
   */
  lemma TwoRowForm(a0: real, a1: real, a2: real, a3: real, b0: real, b1: real, b2: real, b3: real,
                   p01: real, p02: real, p03: real, p12: real, p13: real, p23: real)
    ensures a0 * (b1 * p23 - b2 * p13 + b3 * p12) + a1 * -(b0 * p23 - b2 * p03 + b3 * p02)
          + a2 * (b0 * p13 - b1 * p03 + b3 * p01) + a3 * -(b0 * p12 - b1 * p02 + b2 * p01)
         == -(b0 * (a1 * p23 - a2 * p13 + a3 * p12) + b1 * -(a0 * p23 - a2 * p03 + a3 * p02)
          + b2 * (a0 * p13 - a1 * p03 + a3 * p01) + b3 * -(a0 * p12 - a1 * p02 + a2 * p01))
  {
  }

  /** The 2x2 minor of rows c, d on columns p, q. */
  function Pair(c: seq<real>, d: seq<real>, p: int, q: int): real
    requires |c| == 4 && |d| == 4 && 0 <= p < 4 && 0 <= q < 4
  {
    c[p] * d[q] - c[q] * d[p]
  }

  /** The expansion written as a form in the first two rows over the 2x2 minors of the last two. */
  lemma ExpandByPairs(a: seq<real>, b: seq<real>, c: seq<real>, d: seq<real>)
    requires |a| == 4 && |b| == 4 && |c| == 4 && |d| == 4
    ensures var p01, p02, p03 := Pair(c, d, 0, 1), Pair(c, d, 0, 2), Pair(c, d, 0, 3);
      var p12, p13, p23 := Pair(c, d, 1, 2), Pair(c, d, 1, 3), Pair(c, d, 2, 3);
      Expand(a, b, c, d) == a[0] * (b[1] * p23 - b[2] * p13 + b[3] * p12) + a[1] * -(b[0] * p23 - b[2] * p03 + b[3] * p02)
        + a[2] * (b[0] * p13 - b[1] * p03 + b[3] * p01) + a[3] * -(b[0] * p12 - b[1] * p02 + b[2] * p01)
  {
  }

  /** Exchanging the first two rows changes the sign. */
  lemma ExpandSwapFirst(a: seq<real>, b: seq<real>, c: seq<real>, d: seq<real>)
    requires |a| == 4 && |b| == 4 && |c| == 4 && |d| == 4
    ensures Expand(b, a, c, d) == -Expand(a, b, c, d)
  {
    ExpandByPairs(a, b, c, d);
    ExpandByPairs(b, a, c, d);
    TwoRowForm(a[0], a[1], a[2], a[3], b[0], b[1], b[2], b[3],
               Pair(c, d, 0, 1), Pair(c, d, 0, 2), Pair(c, d, 0, 3), Pair(c, d, 1, 2), Pair(c, d, 1, 3), Pair(c, d, 2, 3));
  }

  /** Among the last three rows, an exchange changes the sign and a rotation does not. */
  lemma ExpandPermuteLast(a: seq<real>, b: seq<real>, c: seq<real>, d: seq<real>)
    requires |a| == 4 && |b| == 4 && |c| == 4 && |d| == 4
    ensures Expand(a, c, b, d) == -Expand(a, b, c, d)
    ensures Expand(a, d, b, c) == Expand(a, b, c, d)
  {
  }

  /** Moving row a past one, two or three rows changes the sign accordingly. */
  lemma ExpandMoved(a: seq<real>, b: seq<real>, c: seq<real>, d: seq<real>)
    requires |a| == 4 && |b| == 4 && |c| == 4 && |d| == 4
    ensures Expand(b, a, c, d) == -Expand(a, b, c, d)
    ensures Expand(c, a, b, d) == Expand(a, b, c, d)
    ensures Expand(d, a, b, c) == -Expand(a, b, c, d)
  {
    ExpandSwapFirst(a, b, c, d);
    ExpandSwapFirst(a, c, b, d);
    ExpandPermuteLast(a, b, c, d);
    ExpandSwapFirst(a, d, b, c);
  }

  /**
   * The adjugate: entry (k, j) is the cofactor of entry (j, k) of m, that is
   * the signed expansion of the rows other than j, column k left out.
   */
  function Adjugate(m: Matrix): Matrix {
    seq(4, k requires 0 <= k < 4 => seq(4, j requires 0 <= j < 4 =>
      if j == 0 then Cofactor(m[1], m[2], m[3], k)
      else if j == 1 then -Cofactor(m[0], m[2], m[3], k)
      else if j == 2 then Cofactor(m[0], m[1], m[3], k)
      else -Cofactor(m[0], m[1], m[2], k)))
  }

  /** Row i of m times column j of the adjugate is a determinant with row j replaced by row i. */
  lemma {:induction false} AdjugateColumn(m: Matrix, i: int, j: int)
    requires 0 <= i < 4 && 0 <= j < 4
    ensures Product(m, Adjugate(m))[i][j] ==
      if j == 0 then Expand(m[i], m[1], m[2], m[3])
      else if j == 1 then -Expand(m[i], m[0], m[2], m[3])
      else if j == 2 then Expand(m[i], m[0], m[1], m[3])
      else -Expand(m[i], m[0], m[1], m[2])
  {
    ProductEntry(m, Adjugate(m), i, j);
  }

  /** m times its adjugate is determinant() times the identity. */
  lemma ProductAdjugate(m: Matrix)
    ensures Product(m, Adjugate(m)) == Scaled(Identity(), Det(m))
  {
    var p, q := Product(m, Adjugate(m)), Scaled(Identity(), Det(m));
    ExpandIsDet(m);
    ExpandMoved(m[0], m[1], m[2], m[3]);
    ExpandRepeated(m[1], m[2], m[3]);
    ExpandRepeated(m[0], m[2], m[3]);
    ExpandRepeated(m[0], m[1], m[3]);
    ExpandRepeated(m[0], m[1], m[2]);
    forall i, j | 0 <= i < 4 && 0 <= j < 4
      ensures p[i][j] == q[i][j]
    {
      AdjugateColumn(m, i, j);
      assert i == 0 || i == 1 || i == 2 || i == 3;
      assert j == 0 || j == 1 || j == 2 || j == 3;
    }
    SameEntries(p, q);
  }

  /** determinant() does not change under transposition. */
  lemma DetTranspose(m: Matrix)
    ensures Det(Transpose(m)) == Det(m)
  {
  }

  /** A 3x3 determinant does not change under transposition. */
  lemma Minor3Transpose(x11: real, x12: real, x13: real, x21: real, x22: real, x23: real,
                        x31: real, x32: real, x33: real)
    ensures x11 * (x22 * x33 - x32 * x23) - x21 * (x12 * x33 - x32 * x13) + x31 * (x12 * x23 - x22 * x13)
         == x11 * (x22 * x33 - x23 * x32) - x12 * (x21 * x33 - x23 * x31) + x13 * (x21 * x32 - x22 * x31)
  {
  }

  /** The minor of the transpose on rows r and columns c is the minor of m on rows c and columns r. */
  lemma MinorTranspose(m: Matrix, r1: int, r2: int, r3: int, c1: int, c2: int, c3: int)
    requires 0 <= r1 < 4 && 0 <= r2 < 4 && 0 <= r3 < 4 && 0 <= c1 < 4 && 0 <= c2 < 4 && 0 <= c3 < 4
    ensures var t := Transpose(m);
      Minor(t[r1], t[r2], t[r3], c1, c2, c3) == Minor(m[c1], m[c2], m[c3], r1, r2, r3)
  {
    Minor3Transpose(m[c1][r1], m[c1][r2], m[c1][r3], m[c2][r1], m[c2][r2], m[c2][r3],
                    m[c3][r1], m[c3][r2], m[c3][r3]);
  }

  /** The three indices other than j, in order. */
  function Others(j: int): (r: (int, int, int))
    requires 0 <= j < 4
    ensures 0 <= r.0 < r.1 < r.2 < 4 && j != r.0 && j != r.1 && j != r.2
  {
    if j == 0 then (1, 2, 3) else if j == 1 then (0, 2, 3) else if j == 2 then (0, 1, 3) else (0, 1, 2)
  }

  /** One entry of the adjugate: the sign (-1)^(k+j) times the minor without row j and column k. */
  lemma AdjugateAt(m: Matrix, k: int, j: int)
    requires 0 <= k < 4 && 0 <= j < 4
    ensures var r, c := Others(j), Others(k);
      Adjugate(m)[k][j] == if (k + j) % 2 == 0 then Minor(m[r.0], m[r.1], m[r.2], c.0, c.1, c.2)
                           else -Minor(m[r.0], m[r.1], m[r.2], c.0, c.1, c.2)
  {
    var r := Others(j);
    assert Adjugate(m)[k][j] == if j % 2 == 0 then Cofactor(m[r.0], m[r.1], m[r.2], k)
                                else -Cofactor(m[r.0], m[r.1], m[r.2], k);
    assert k == 0 || k == 1 || k == 2 || k == 3;
  }

  /** The adjugate of the transpose is the transpose of the adjugate. */
  lemma AdjugateTranspose(m: Matrix)
    ensures Adjugate(Transpose(m)) == Transpose(Adjugate(m))
  {
    var t := Transpose(m);
    var l, r := Adjugate(t), Transpose(Adjugate(m));
    forall i, j | 0 <= i < 4 && 0 <= j < 4
      ensures l[i][j] == r[i][j]
    {
      var rs, cs := Others(j), Others(i);
      AdjugateAt(t, i, j);
      AdjugateAt(m, j, i);
      MinorTranspose(m, rs.0, rs.1, rs.2, cs.0, cs.1, cs.2);
    }
    SameEntries(l, r);
  }

  /** Scaling the right factor scales the product. */
  lemma ProductScaled(a: Matrix, b: Matrix, s: real)
    ensures Product(a, Scaled(b, s)) == Scaled(Product(a, b), s)
  {
    var l, r := Product(a, Scaled(b, s)), Scaled(Product(a, b), s);
    forall i, j | 0 <= i < 4 && 0 <= j < 4
      ensures l[i][j] == r[i][j]
    {
      ProductEntry(a, Scaled(b, s), i, j);
      ProductEntry(a, b, i, j);
    }
    SameEntries(l, r);
  }

  /** A multiple of the identity is its own transpose. */
  lemma ScaledIdentitySymmetric(d: real)
    ensures Transpose(Scaled(Identity(), d)) == Scaled(Identity(), d)
  {
    var l, r := Transpose(Scaled(Identity(), d)), Scaled(Identity(), d);
    forall i, j | 0 <= i < 4 && 0 <= j < 4
      ensures l[i][j] == r[i][j]
    {
      assert i == 0 || i == 1 || i == 2 || i == 3;
      assert j == 0 || j == 1 || j == 2 || j == 3;
    }
    SameEntries(l, r);
  }

  /** The adjugate times m is also determinant() times the identity. */
  lemma AdjugateProduct(m: Matrix)
    ensures Product(Adjugate(m), m) == Scaled(Identity(), Det(m))
  {
    var t, p := Transpose(m), Product(Adjugate(m), m);
    ProductAdjugate(t);
    DetTranspose(m);
    AdjugateTranspose(m);
    TransposeProduct(Adjugate(m), m);
    TransposeInvolution(p);
    ScaledIdentitySymmetric(Det(m));
  }

  /** Scaling the left factor scales the product. */
  lemma ProductScaledLeft(a: Matrix, b: Matrix, s: real)
    ensures Product(Scaled(a, s), b) == Scaled(Product(a, b), s)
  {
    var l, r := Product(Scaled(a, s), b), Scaled(Product(a, b), s);
    forall i, j | 0 <= i < 4 && 0 <= j < 4
      ensures l[i][j] == r[i][j]
    {
      ProductEntry(Scaled(a, s), b, i, j);
      ProductEntry(a, b, i, j);
    }
    SameEntries(l, r);
  }

  /**
   * inverse() as its documentation promises it: runtime_error under the same
   * guard, otherwise the adjugate divided by determinant(), a two-sided
   * inverse of m.
   */
  function InverseByAdjugate(m: Matrix): (r: Result<Matrix>)
    ensures r.Err? <==> Abs(Det(m)) < Epsilon
    ensures r.Err? ==> r.error == RuntimeError
    ensures r.Ok? ==> Product(m, r.value) == Identity() && Product(r.value, m) == Identity()
  {
    var det := Det(m);
    if Abs(det) < Epsilon then Err(RuntimeError)
    else
      var r := Scaled(Adjugate(m), 1.0 / det);
      ProductAdjugate(m);
      AdjugateProduct(m);
      ProductScaled(m, Adjugate(m), 1.0 / det);
      ProductScaledLeft(Adjugate(m), m, 1.0 / det);
      ScaledComposes(Identity(), det, 1.0 / det);
      Ok(r)
  }

  /** The six products of a 3x3 determinant, in the order inverse() writes them. */
  lemma CofactorTerms(bp: real, bq: real, bs: real, cp: real, cq: real, cs: real, dp: real, dq: real, ds: real)
    ensures bp * cq * ds - bp * cs * dq - cp * bq * ds + cp * bs * dq + dp * bq * cs - dp * bs * cq
         == bp * (cq * ds - cs * dq) - bq * (cp * ds - cs * dp) + bs * (cp * dq - cq * dp)
    ensures -bp * cq * ds + bp * cs * dq + cp * bq * ds - cp * bs * dq - dp * bq * cs + dp * bs * cq
         == -(bp * (cq * ds - cs * dq) - bq * (cp * ds - cs * dp) + bs * (cp * dq - cq * dp))
  {
  }

  /** The cofactors inverse() writes into column 0 are the adjugate's column 0. */
  lemma FillIsAdjugateColumn(m: Matrix)
    ensures Inv00(m) == Adjugate(m)[0][0] && Inv10(m) == Adjugate(m)[1][0]
    ensures Inv20(m) == Adjugate(m)[2][0] && Inv30(m) == Adjugate(m)[3][0]
  {
    var b, c, d := m[1], m[2], m[3];
    CofactorTerms(b[1], b[2], b[3], c[1], c[2], c[3], d[1], d[2], d[3]);
    CofactorTerms(b[0], b[2], b[3], c[0], c[2], c[3], d[0], d[2], d[3]);
    CofactorTerms(b[0], b[1], b[3], c[0], c[1], c[3], d[0], d[1], d[3]);
    CofactorTerms(b[0], b[1], b[2], c[0], c[1], c[2], d[0], d[1], d[2]);
    forall k | 0 <= k < 4
      ensures Adjugate(m)[k][0] == Cofactor(b, c, d, k)
    {
    }
    assert Cofactor(b, c, d, 0) == Minor(b, c, d, 1, 2, 3);
    assert Cofactor(b, c, d, 1) == -Minor(b, c, d, 0, 2, 3);
    assert Cofactor(b, c, d, 2) == Minor(b, c, d, 0, 1, 3);
    assert Cofactor(b, c, d, 3) == -Minor(b, c, d, 0, 1, 2);
  }

  /** Column j of a product depends only on column j of the right factor. */
  lemma SameColumnSameProduct(m: Matrix, r: Matrix, t: Matrix, j: int)
    requires 0 <= j < 4
    requires forall k :: 0 <= k < 4 ==> r[k][j] == t[k][j]
    ensures forall i :: 0 <= i < 4 ==> Product(m, r)[i][j] == Product(m, t)[i][j]
  {
    forall i | 0 <= i < 4
      ensures Product(m, r)[i][j] == Product(m, t)[i][j]
    {
      ProductEntry(m, r, i, j);
      ProductEntry(m, t, i, j);
    }
  }

  /** Column 0 of inverse() as written equals column 0 of the adjugate inverse. */
  lemma ColumnZeroAgrees(m: Matrix)
    requires Abs(Det(m)) >= Epsilon
    ensures var r, t := InverseAsWritten(m).value, InverseByAdjugate(m).value;
      forall k :: 0 <= k < 4 ==> r[k][0] == t[k][0]
  {
    var d := Det(m);
    var r, t := InverseAsWritten(m).value, InverseByAdjugate(m).value;
    assert r == Scaled(InverseFill(m), 1.0 / d);
    assert t == Scaled(Adjugate(m), 1.0 / d);
    FillIsAdjugateColumn(m);
    forall k | 0 <= k < 4
      ensures r[k][0] == t[k][0]
    {
      assert InverseFill(m)[k][0] == Adjugate(m)[k][0];
    }
  }

  /**
   * The one column inverse() does compute is right: column 0 of the result
   * is the true inverse's, so m maps it to the first unit column.
   */
  lemma InverseAsWrittenColumnZero(m: Matrix)
    requires Abs(Det(m)) >= Epsilon
    ensures var r, t := InverseAsWritten(m).value, InverseByAdjugate(m).value;
      forall i :: 0 <= i < 4 ==> r[i][0] == t[i][0] && Product(m, r)[i][0] == if i == 0 then 1.0 else 0.0
  {
    var r, t := InverseAsWritten(m).value, InverseByAdjugate(m).value;
    ColumnZeroAgrees(m);
    SameColumnSameProduct(m, r, t, 0);
    assert Product(m, t) == Identity();
  }

  /** The diagonal matrix 2I. */
  function TwiceIdentity(): Matrix {
    [[2.0, 0.0, 0.0, 0.0], [0.0, 2.0, 0.0, 0.0], [0.0, 0.0, 2.0, 0.0], [0.0, 0.0, 0.0, 2.0]]
  }

  /**
   * inverse() as written is not the inverse: for 2I, whose inverse is I / 2,
   * it returns diag(1/2, 1/16, 1/16, 1/16), and 2I times that has 1/8 at (1, 1).
   */
  lemma InverseAsWrittenNotInverse()
    ensures InverseAsWritten(TwiceIdentity()).Ok?
    ensures InverseAsWritten(TwiceIdentity()).value ==
      [[0.5, 0.0, 0.0, 0.0], [0.0, 0.0625, 0.0, 0.0], [0.0, 0.0, 0.0625, 0.0], [0.0, 0.0, 0.0, 0.0625]]
    ensures Product(TwiceIdentity(), InverseAsWritten(TwiceIdentity()).value)[1][1] == 0.125
  {
    var m := TwiceIdentity();
    assert Inv00(m) == 8.0 && Inv10(m) == 0.0 && Inv20(m) == 0.0 && Inv30(m) == 0.0;
    InlineDetIsDet(m);
    assert Det(m) == 16.0;
    var r := InverseAsWritten(m).value;
    SameEntriesExplicit(r, [[0.5, 0.0, 0.0, 0.0], [0.0, 0.0625, 0.0, 0.0], [0.0, 0.0, 0.0625, 0.0], [0.0, 0.0, 0.0, 0.0625]]);
    ProductEntry(m, r, 1, 1);
  }

  /**
   * A Matrix4x4 object: the sixteen cells `data[row][col]`, which the
   * constructors, operator(), setIdentity and the loops write one at a time.
   */
  class Matrix4x4 {
    const data: array2<real>

    predicate Valid() {
      data.Length0 == 4 && data.Length1 == 4
    }

    /** The matrix the cells currently hold. */
    function Value(): (m: Matrix)
      requires Valid()
      reads data
      ensures forall i, j :: 0 <= i < 4 && 0 <= j < 4 ==> m[i][j] == data[i, j]
    {
      [[data[0, 0], data[0, 1], data[0, 2], data[0, 3]],
       [data[1, 0], data[1, 1], data[1, 2], data[1, 3]],
       [data[2, 0], data[2, 1], data[2, 2], data[2, 3]],
       [data[3, 0], data[3, 1], data[3, 2], data[3, 3]]]
    }

    /** Matrix4x4(): the identity, not zeroes. */
    constructor ()
      ensures Valid() && fresh(data)
      ensures Value() == Identity()
      ensures forall r, c :: 0 <= r < 4 && 0 <= c < 4 ==> data[r, c] == if r == c then 1.0 else 0.0
    {
      data := new real[4, 4]((i, j) => if i == j then 1.0 else 0.0);
      new;
      CellsMatchExplicit(this, Identity());
    }

    /** Matrix4x4(values): the loop stores values[i] in data[i / 4][i % 4]. */
    constructor FromValues(values: seq<real>)
      requires |values| == 16
      ensures Valid() && fresh(data)
      ensures Value() == RowMajor(values)
    {
      data := new real[4, 4];
      new;
      for i := 0 to 16
        invariant forall r, c :: 0 <= r < 4 && 0 <= c < 4 && 4 * r + c < i ==> data[r, c] == values[4 * r + c]
      {
        assert 4 * (i / 4) + i % 4 == i;
        data[i / 4, i % 4] := values[i];
      }
      CellsMatch(this, RowMajor(values));
    }

    /** operator() const: the cell in row `row`, column `col`; there is no bounds check. */
    function At(row: int, col: int): (v: real)
      requires Valid() && 0 <= row < 4 && 0 <= col < 4
      reads data
      ensures v == Value()[row][col]
    {
      data[row, col]
    }

    /** Writing through operator(): exactly one cell changes. */
    method Set(row: int, col: int, value: real)
      requires Valid() && 0 <= row < 4 && 0 <= col < 4
      modifies data
      ensures Value() == old(Value())[row := old(Value())[row][col := value]]
      ensures forall r, c :: 0 <= r < 4 && 0 <= c < 4 ==> data[r, c] == if r == row && c == col then value else old(data[r, c])
    {
      data[row, col] := value;
      CellsMatch(this, old(Value())[row := old(Value())[row][col := value]]);
    }

    /** setIdentity() */
    method SetIdentity()
      requires Valid()
      modifies data
      ensures Value() == Identity()
      ensures forall r, c :: 0 <= r < 4 && 0 <= c < 4 ==> data[r, c] == if r == c then 1.0 else 0.0
    {
      forall i, j | 0 <= i < 4 && 0 <= j < 4 {
        data[i, j] := if i == j then 1.0 else 0.0;
      }
      CellsMatchExplicit(this, Identity());
    }

    /**
     * operator*(const Matrix4x4&): result(i, j) starts at 0 and accumulates
     * this(i, k) * other(k, j) for k = 0..3.
     */
    method Multiply(other: Matrix4x4) returns (result: Matrix4x4)
      requires Valid() && other.Valid()
      ensures result.Valid() && fresh(result.data)
      ensures result.Value() == Product(Value(), other.Value())
    {
      result := new Matrix4x4();
      for i := 0 to 4
        invariant fresh(result.data) && result.Valid()
        invariant forall r, c :: 0 <= r < i && 0 <= c < 4 ==> result.data[r, c] == RowCol(Value(), other.Value(), r, c, 4)
      {
        for j := 0 to 4
          invariant forall r, c :: 0 <= r < 4 && 0 <= c < 4 && (r < i || (r == i && c < j)) ==>
            result.data[r, c] == RowCol(Value(), other.Value(), r, c, 4)
        {
          AccumulateCell(other, result, i, j);
        }
      }
      CellsMatch(result, Product(Value(), other.Value()));
    }

    /**
     * The innermost loop of operator*(const Matrix4x4&): result(i, j) is reset
     * to 0 and accumulates this(i, k) * other(k, j) for k = 0 .. 3.
     */
    method AccumulateCell(other: Matrix4x4, result: Matrix4x4, i: int, j: int)
      requires Valid() && other.Valid() && result.Valid()
      requires result.data != data && result.data != other.data
      requires 0 <= i < 4 && 0 <= j < 4
      modifies result.data
      ensures result.data[i, j] == RowCol(Value(), other.Value(), i, j, 4)
      ensures forall r, c :: 0 <= r < 4 && 0 <= c < 4 && (r != i || c != j) ==> result.data[r, c] == old(result.data[r, c])
    {
      result.data[i, j] := 0.0;
      for k := 0 to 4
        invariant result.data[i, j] == RowCol(Value(), other.Value(), i, j, k)
        invariant forall r, c :: 0 <= r < 4 && 0 <= c < 4 && (r != i || c != j) ==> result.data[r, c] == old(result.data[r, c])
      {
        result.data[i, j] := result.data[i, j] + data[i, k] * other.data[k, j];
      }
    }

    /** transposed(): result(i, j) = this(j, i), cell by cell. */
    method Transposed() returns (result: Matrix4x4)
      requires Valid()
      ensures result.Valid() && fresh(result.data)
      ensures result.Value() == Transpose(Value())
    {
      result := new Matrix4x4();
      for i := 0 to 4
        invariant forall r, c :: 0 <= r < i && 0 <= c < 4 ==> result.data[r, c] == data[c, r]
      {
        for j := 0 to 4
          invariant forall r, c :: 0 <= r < 4 && 0 <= c < 4 && (r < i || (r == i && c < j)) ==>
            result.data[r, c] == data[c, r]
        {
          result.data[i, j] := data[j, i];
        }
      }
      CellsMatch(result, Transpose(Value()));
    }

    /** identity(): a default-constructed matrix. */
    static method MakeIdentity() returns (result: Matrix4x4)
      ensures result.Valid() && fresh(result.data)
      ensures result.Value() == Identity()
    {
      result := new Matrix4x4();
    }

    /** translation(t): setIdentity, then t in the last column. */
    static method MakeTranslation(t: Vector3) returns (result: Matrix4x4)
      ensures result.Valid() && fresh(result.data)
      ensures result.Value() == Translation(t)
    {
      result := new Matrix4x4();
      result.SetIdentity();
      result.Set(0, 3, t.x);
      result.Set(1, 3, t.y);
      result.Set(2, 3, t.z);
      CellsMatchExplicit(result, Translation(t));
    }

    /** scaling(s): setIdentity, then s on the diagonal. */
    static method MakeScaling(s: Vector3) returns (result: Matrix4x4)
      ensures result.Valid() && fresh(result.data)
      ensures result.Value() == Scaling(s)
    {
      result := new Matrix4x4();
      result.SetIdentity();
      result.Set(0, 0, s.x);
      result.Set(1, 1, s.y);
      result.Set(2, 2, s.z);
      CellsMatchExplicit(result, Scaling(s));
    }

    /** orthographic(l, r, b, t, n, f): seven cells of a default (identity) matrix. */
    static method MakeOrthographic(left: real, right: real, bottom: real, top: real, nearVal: real, farVal: real)
      returns (result: Matrix4x4)
      requires right != left && top != bottom && farVal != nearVal
      ensures result.Valid() && fresh(result.data)
      ensures result.Value() == Orthographic(left, right, bottom, top, nearVal, farVal)
    {
      result := new Matrix4x4();
      result.Set(0, 0, 2.0 / (right - left));
      result.Set(1, 1, 2.0 / (top - bottom));
      result.Set(2, 2, -2.0 / (farVal - nearVal));
      result.Set(0, 3, -(right + left) / (right - left));
      result.Set(1, 3, -(top + bottom) / (top - bottom));
      result.Set(2, 3, -(farVal + nearVal) / (farVal - nearVal));
      result.Set(3, 3, 1.0);
      CellsMatchExplicit(result, Orthographic(left, right, bottom, top, nearVal, farVal));
    }

    /** The loop at the end of inverse(): `inv(i, j) *= det` for every cell. */
    method ScaleAll(s: real)
      requires Valid()
      modifies data
      ensures Value() == Scaled(old(Value()), s)
    {
      ghost var m := Value();
      ScaleCells(s);
      CellsScaled(this, m, s);
    }

    /** The double loop that ends inverse(): every cell multiplied by s, row by row. */
    method ScaleCells(s: real)
      requires Valid()
      modifies data
      ensures forall r, c :: 0 <= r < 4 && 0 <= c < 4 ==> data[r, c] == old(data[r, c]) * s
    {
      for i := 0 to 4
        invariant forall r, c :: 0 <= r < i && 0 <= c < 4 ==> data[r, c] == old(data[r, c]) * s
        invariant forall r, c :: i <= r < 4 && 0 <= c < 4 ==> data[r, c] == old(data[r, c])
      {
        for j := 0 to 4
          invariant forall r, c :: 0 <= r < i && 0 <= c < 4 ==> data[r, c] == old(data[r, c]) * s
          invariant forall c :: 0 <= c < j ==> data[i, c] == old(data[i, c]) * s
          invariant forall c :: j <= c < 4 ==> data[i, c] == old(data[i, c])
          invariant forall r, c :: i < r < 4 && 0 <= c < 4 ==> data[r, c] == old(data[r, c])
        {
          data[i, j] := data[i, j] * s;
        }
      }
    }

    /**
     * inverse(): column 0 of a default matrix receives the cofactors, the
     * determinant is formed from them and the first row, runtime_error is
     * thrown when it is below epsilon, and otherwise every cell is multiplied
     * by 1 / det. The result is InverseAsWritten.
     */
    method Inverse() returns (r: Result<Matrix4x4>)
      requires Valid()
      ensures r.Err? <==> Abs(Det(Value())) < Epsilon
      ensures r.Err? ==> r.error == RuntimeError
      ensures r.Ok? ==> r.value.Valid() && fresh(r.value.data) && r.value.Value() == InverseAsWritten(Value()).value
    {
      var m := Value();
      var inv := new Matrix4x4();
      var c0, c1, c2, c3 := Inv00(m), Inv10(m), Inv20(m), Inv30(m);
      inv.Set(0, 0, c0);
      inv.Set(1, 0, c1);
      inv.Set(2, 0, c2);
      inv.Set(3, 0, c3);
      CellsMatchExplicit(inv, InverseFill(m));
      var det := InlineDet(m);
      InlineDetIsDet(m);
      if Abs(det) < Epsilon {
        return Err(RuntimeError);
      }
      det := 1.0 / det;
      inv.ScaleAll(det);
      return Ok(inv);
    }
  }

  /** Cells equal to the entries of m: the object holds m. */
  lemma CellsMatch(x: Matrix4x4, m: Matrix)
    requires x.Valid()
    requires forall r, c :: 0 <= r < 4 && 0 <= c < 4 ==> x.data[r, c] == m[r][c]
    ensures x.Value() == m
  {
    SameEntriesExplicit(x.Value(), m);
  }

  /** The same, cell by cell with every index written out. */
  lemma CellsMatchExplicit(x: Matrix4x4, m: Matrix)
    requires x.Valid()
    requires x.data[0, 0] == m[0][0] && x.data[0, 1] == m[0][1] && x.data[0, 2] == m[0][2] && x.data[0, 3] == m[0][3]
    requires x.data[1, 0] == m[1][0] && x.data[1, 1] == m[1][1] && x.data[1, 2] == m[1][2] && x.data[1, 3] == m[1][3]
    requires x.data[2, 0] == m[2][0] && x.data[2, 1] == m[2][1] && x.data[2, 2] == m[2][2] && x.data[2, 3] == m[2][3]
    requires x.data[3, 0] == m[3][0] && x.data[3, 1] == m[3][1] && x.data[3, 2] == m[3][2] && x.data[3, 3] == m[3][3]
    ensures x.Value() == m
  {
    SameEntriesExplicit(x.Value(), m);
  }

  /** Every cell the entry of m multiplied by s: the object holds m Scaled by s. */
  lemma CellsScaled(x: Matrix4x4, m: Matrix, s: real)
    requires x.Valid()
    requires x.data[0, 0] == m[0][0] * s && x.data[0, 1] == m[0][1] * s && x.data[0, 2] == m[0][2] * s && x.data[0, 3] == m[0][3] * s
    requires x.data[1, 0] == m[1][0] * s && x.data[1, 1] == m[1][1] * s && x.data[1, 2] == m[1][2] * s && x.data[1, 3] == m[1][3] * s
    requires x.data[2, 0] == m[2][0] * s && x.data[2, 1] == m[2][1] * s && x.data[2, 2] == m[2][2] * s && x.data[2, 3] == m[2][3] * s
    requires x.data[3, 0] == m[3][0] * s && x.data[3, 1] == m[3][1] * s && x.data[3, 2] == m[3][2] * s && x.data[3, 3] == m[3][3] * s
    ensures x.Value() == Scaled(m, s)
  {
    SameEntriesExplicit(x.Value(), Scaled(m, s));
  }
}
