/**
 * Quaternion<T> (include/math/Quaternion.inl): w + xi + yj + zk. Every
 * operation returns a new quaternion built from the components, so the type
 * is a datatype and the operations are functions. The rotation matrix is
 * written into a default Matrix4x4 cell by cell, which is the method
 * `ToRotationMatrix`; the matrix it produces is `RotationMatrix`.
 *
 * Each component of the Hamilton product is its own function, so a law
 * about one component of a product only unfolds that component; the laws
 * over whole quaternions are assembled component by component.
 */
module Quaternions {
  import opened Scalars
  import opened Vectors3
  import Matrices

  datatype Quaternion = Quaternion(w: real, x: real, y: real, z: real) {

    /**
     * operator*(const Quaternion&): the Hamilton product, one component
     * function per line of the constructor call that builds it.
     */
    function Mul(q: Quaternion): Quaternion {
      Quaternion(ProductW(q), ProductX(q), ProductY(q), ProductZ(q))
    }

    /** Component w of the Hamilton product this * q. */
    function ProductW(q: Quaternion): real { w * q.w - x * q.x - y * q.y - z * q.z }

    /** Component x of the Hamilton product this * q. */
    function ProductX(q: Quaternion): real { w * q.x + x * q.w + y * q.z - z * q.y }

    /** Component y of the Hamilton product this * q. */
    function ProductY(q: Quaternion): real { w * q.y - x * q.z + y * q.w + z * q.x }

    /** Component z of the Hamilton product this * q. */
    function ProductZ(q: Quaternion): real { w * q.z + x * q.y - y * q.x + z * q.w }

    /** conjugate(): the vector part negated. */
    function Conjugate(): Quaternion {
      Quaternion(w, -x, -y, -z)
    }

    /** w² + x² + y² + z², the square of magnitude(). */
    function NormSquared(): real {
      w * w + x * x + y * y + z * z
    }

    /** Every component multiplied by s. */
    function Scale(s: real): Quaternion {
      Quaternion(w * s, x * s, y * s, z * s)
    }

    /** The vector part (x, y, z). */
    function VectorPart(): Vector3 {
      Vector3(x, y, z)
    }

    /**
     * operator*(const Vector3&): v is embedded as the pure quaternion (0, v),
     * conjugated as this * p * conjugate(), and the vector part is returned.
     */
    function Rotate(v: Vector3): Vector3 {
      Mul(Pure(v)).Mul(Conjugate()).VectorPart()
    }

    /**
     * normalized(): runtime_error when magnitude() is below epsilon, otherwise
     * every component divided by the magnitude. The square root is not
     * modelled: `mag` is magnitude(), non-negative with mag² = NormSquared().
     * The result is a unit quaternion that scaled back by mag is this one.
     */
    function Normalized(mag: real): (r: Result<Quaternion>)
      requires mag >= 0.0 && mag * mag == NormSquared()
      ensures r.Err? <==> NormSquared() < Epsilon * Epsilon
      ensures r.Err? ==> r.error == RuntimeError
      ensures r.Ok? ==> r.value.NormSquared() == 1.0 && r.value.Scale(mag) == this
    {
      SquareBelow(mag, Epsilon);
      if mag < Epsilon then Err(RuntimeError)
      else
        var u := Quaternion(w / mag, x / mag, y / mag, z / mag);
        DivideByMagnitude(this, mag);
        Ok(u)
    }

    /**
     * inverse(): runtime_error when w² + x² + y² + z² is below epsilon (the
     * square itself, not the magnitude, is compared); otherwise the conjugate
     * times 1 / (w² + x² + y² + z²), which is a two-sided inverse.
     */
    function Inverse(): (r: Result<Quaternion>)
      ensures r.Err? <==> NormSquared() < Epsilon
      ensures r.Err? ==> r.error == RuntimeError
      ensures r.Ok? ==> Mul(r.value) == Identity() && r.value.Mul(this) == Identity()
    {
      var magSquared := NormSquared();
      if magSquared < Epsilon then Err(RuntimeError)
      else
        var invMagSquared := 1.0 / magSquared;
        InverseIsTwoSided(this, invMagSquared);
        Ok(Quaternion(w * invMagSquared, -x * invMagSquared, -y * invMagSquared, -z * invMagSquared))
    }

    /** The matrix toRotationMatrix() produces. */
    function RotationMatrix(): Matrices.Matrix {
      RotationEntries(w, x, y, z)
    }
  }

  /** The default constructor Quaternion(): w = 1, x = y = z = 0. */
  function Identity(): Quaternion {
    Quaternion(1.0, 0.0, 0.0, 0.0)
  }

  /** The pure quaternion (0, v) that operator*(const Vector3&) builds. */
  function Pure(v: Vector3): (p: Quaternion)
    ensures p.w == 0.0 && p.VectorPart() == v
  {
    Quaternion(0.0, v.x, v.y, v.z)
  }

  /**
   * toRotationMatrix() for the components w, x, y, z: the 3x3 rotation block
   * built from the pairwise products, and row 3 and column 3 of the identity
   * matrix the function starts from.
   */
  function RotationEntries(w: real, x: real, y: real, z: real): (m: Matrices.Matrix)
    ensures m[3] == [0.0, 0.0, 0.0, 1.0]
    ensures m[0][3] == 0.0 && m[1][3] == 0.0 && m[2][3] == 0.0
  {
    [[1.0 - 2.0 * (y * y + z * z), 2.0 * (x * y - w * z), 2.0 * (x * z + w * y), 0.0],
     [2.0 * (x * y + w * z), 1.0 - 2.0 * (x * x + z * z), 2.0 * (y * z - w * x), 0.0],
     [2.0 * (x * z - w * y), 2.0 * (y * z + w * x), 1.0 - 2.0 * (x * x + y * y), 0.0],
     [0.0, 0.0, 0.0, 1.0]]
  }

  /** Dividing by the positive magnitude gives a unit quaternion that scales back. */
  lemma DivideByMagnitude(q: Quaternion, mag: real)
    requires mag > 0.0 && mag * mag == q.NormSquared()
    ensures var u := Quaternion(q.w / mag, q.x / mag, q.y / mag, q.z / mag);
      u.NormSquared() == 1.0 && u.Scale(mag) == q
  {
    var u := Quaternion(q.w / mag, q.x / mag, q.y / mag, q.z / mag);
    assert u.w * mag == q.w && u.x * mag == q.x && u.y * mag == q.y && u.z * mag == q.z;
    calc {
      u.NormSquared() * (mag * mag);
      (u.w * mag) * (u.w * mag) + (u.x * mag) * (u.x * mag) + (u.y * mag) * (u.y * mag) + (u.z * mag) * (u.z * mag);
      q.NormSquared();
      mag * mag;
    }
  }

  /**
   * The components of q r and r q for r = conjugate(q) * k, where k is the
   * reciprocal of w² + x² + y² + z².
   */
  lemma InverseComponents(w: real, x: real, y: real, z: real, k: real)
    requires (w * w + x * x + y * y + z * z) * k == 1.0
    ensures w * (w * k) - x * (-x * k) - y * (-y * k) - z * (-z * k) == 1.0
    ensures w * (-x * k) + x * (w * k) + y * (-z * k) - z * (-y * k) == 0.0
    ensures w * (-y * k) - x * (-z * k) + y * (w * k) + z * (-x * k) == 0.0
    ensures w * (-z * k) + x * (-y * k) - y * (-x * k) + z * (w * k) == 0.0
    ensures (w * k) * w - (-x * k) * x - (-y * k) * y - (-z * k) * z == 1.0
    ensures (w * k) * x + (-x * k) * w + (-y * k) * z - (-z * k) * y == 0.0
    ensures (w * k) * y - (-x * k) * z + (-y * k) * w + (-z * k) * x == 0.0
    ensures (w * k) * z + (-x * k) * y - (-y * k) * x + (-z * k) * w == 0.0
  {
  }

  /** The conjugate scaled by 1 / (w² + x² + y² + z²) is a left and right inverse. */
  lemma InverseIsTwoSided(q: Quaternion, k: real)
    requires q.NormSquared() != 0.0 && k == 1.0 / q.NormSquared()
    ensures var r := Quaternion(q.w * k, -q.x * k, -q.y * k, -q.z * k);
      q.Mul(r) == Identity() && r.Mul(q) == Identity()
  {
    assert q.NormSquared() * k == 1.0;
    InverseComponents(q.w, q.x, q.y, q.z, k);
  }

  /** The default quaternion is a two-sided identity for the Hamilton product. */
  lemma IdentityNeutral(q: Quaternion)
    ensures Identity().Mul(q) == q && q.Mul(Identity()) == q
  {
  }

  /** Component w of (p q) r equals component w of p (q r). */
  lemma AssociativeW(p: Quaternion, q: Quaternion, r: Quaternion)
    ensures p.Mul(q).Mul(r).w == p.Mul(q.Mul(r)).w
  {
  }

  /** Component x of (p q) r equals component x of p (q r). */
  lemma AssociativeX(p: Quaternion, q: Quaternion, r: Quaternion)
    ensures p.Mul(q).Mul(r).x == p.Mul(q.Mul(r)).x
  {
  }

  /** Component y of (p q) r equals component y of p (q r). */
  lemma AssociativeY(p: Quaternion, q: Quaternion, r: Quaternion)
    ensures p.Mul(q).Mul(r).y == p.Mul(q.Mul(r)).y
  {
  }

  /** Component z of (p q) r equals component z of p (q r). */
  lemma AssociativeZ(p: Quaternion, q: Quaternion, r: Quaternion)
    ensures p.Mul(q).Mul(r).z == p.Mul(q.Mul(r)).z
  {
  }

  /** The Hamilton product is associative. */
  lemma {:induction false} MulAssociative(p: Quaternion, q: Quaternion, r: Quaternion)
    ensures p.Mul(q).Mul(r) == p.Mul(q.Mul(r))
  {
    AssociativeW(p, q, r);
    AssociativeX(p, q, r);
    AssociativeY(p, q, r);
    AssociativeZ(p, q, r);
  }

  /** The Hamilton product is not commutative: for i = (0, 1, 0, 0) and j = (0, 0, 1, 0), i j = k but j i = -k. */
  lemma MulNotCommutative(i: Quaternion, j: Quaternion)
    requires i == Quaternion(0.0, 1.0, 0.0, 0.0) && j == Quaternion(0.0, 0.0, 1.0, 0.0)
    ensures i.Mul(j) == Quaternion(0.0, 0.0, 0.0, 1.0) && j.Mul(i) == Quaternion(0.0, 0.0, 0.0, -1.0)
    ensures i.Mul(j) != j.Mul(i)
  {
  }

  /** conjugate() undoes itself. */
  lemma ConjugateInvolution(q: Quaternion)
    ensures q.Conjugate().Conjugate() == q
  {
  }

  /** The conjugate of a product is the product of the conjugates in reverse order. */
  lemma ConjugateOfProduct(p: Quaternion, q: Quaternion)
    ensures p.Mul(q).Conjugate() == q.Conjugate().Mul(p.Conjugate())
  {
  }

  /** q conj(q) and conj(q) q are the real quaternion (w² + x² + y² + z², 0, 0, 0). */
  lemma MulConjugate(q: Quaternion)
    ensures q.Mul(q.Conjugate()) == Quaternion(q.NormSquared(), 0.0, 0.0, 0.0)
    ensures q.Conjugate().Mul(q) == Quaternion(q.NormSquared(), 0.0, 0.0, 0.0)
  {
  }

  /** For a unit quaternion inverse() is conjugate(). */
  lemma InverseOfUnit(q: Quaternion)
    requires q.NormSquared() == 1.0
    ensures q.Inverse() == Ok(q.Conjugate())
  {
  }

  /** The default quaternion is its own conjugate. */
  lemma ConjugateOfIdentity()
    ensures Identity().Conjugate() == Identity()
  {
  }

  /** The default quaternion leaves every vector unchanged. */
  lemma {:induction false} RotateByIdentity(v: Vector3)
    ensures Identity().Rotate(v) == v
  {
    IdentityNeutral(Pure(v));
    ConjugateOfIdentity();
  }

  /** The sandwich q (0, v) conj(q) is again a pure quaternion, for every q. */
  lemma SandwichIsPure(q: Quaternion, v: Vector3)
    ensures q.Mul(Pure(v)).Mul(q.Conjugate()) == Pure(q.Rotate(v))
  {
    var s := q.Mul(Pure(v)).Mul(q.Conjugate());
    assert s.w == 0.0;
  }

  /** Rotating by p q is rotating by q, then by p. */
  lemma {:induction false} RotateCompose(p: Quaternion, q: Quaternion, v: Vector3)
    ensures p.Mul(q).Rotate(v) == p.Rotate(q.Rotate(v))
  {
    var pv := Pure(v);
    calc {
      p.Mul(q).Mul(pv).Mul(p.Mul(q).Conjugate());
      { ConjugateOfProduct(p, q); }
      p.Mul(q).Mul(pv).Mul(q.Conjugate().Mul(p.Conjugate()));
      { MulAssociative(p, q, pv); }
      p.Mul(q.Mul(pv)).Mul(q.Conjugate().Mul(p.Conjugate()));
      { MulAssociative(p.Mul(q.Mul(pv)), q.Conjugate(), p.Conjugate()); }
      p.Mul(q.Mul(pv)).Mul(q.Conjugate()).Mul(p.Conjugate());
      { MulAssociative(p, q.Mul(pv), q.Conjugate()); }
      p.Mul(q.Mul(pv).Mul(q.Conjugate())).Mul(p.Conjugate());
      { SandwichIsPure(q, v); }
      p.Mul(Pure(q.Rotate(v))).Mul(p.Conjugate());
    }
  }

  /** The default quaternion's rotation matrix is the identity matrix. */
  lemma RotationMatrixOfIdentity()
    ensures Identity().RotationMatrix() == Matrices.Identity()
  {
  }

  /** For a unit q, component x of q * v in closed form: row 0 of the rotation block applied to v. */
  lemma RotatedX(q: Quaternion, v: Vector3)
    requires q.NormSquared() == 1.0
    ensures q.Rotate(v).x == v.x * (1.0 - 2.0 * (q.y * q.y + q.z * q.z)) + v.y * (2.0 * (q.x * q.y - q.w * q.z)) + v.z * (2.0 * (q.x * q.z + q.w * q.y))
  {
    assert v.x * q.NormSquared() == v.x;
  }

  /** For a unit q, component y of q * v in closed form: row 1 of the rotation block applied to v. */
  lemma RotatedY(q: Quaternion, v: Vector3)
    requires q.NormSquared() == 1.0
    ensures q.Rotate(v).y == v.x * (2.0 * (q.x * q.y + q.w * q.z)) + v.y * (1.0 - 2.0 * (q.x * q.x + q.z * q.z)) + v.z * (2.0 * (q.y * q.z - q.w * q.x))
  {
    assert v.y * q.NormSquared() == v.y;
  }

  /** For a unit q, component z of q * v in closed form: row 2 of the rotation block applied to v. */
  lemma RotatedZ(q: Quaternion, v: Vector3)
    requires q.NormSquared() == 1.0
    ensures q.Rotate(v).z == v.x * (2.0 * (q.x * q.z - q.w * q.y)) + v.y * (2.0 * (q.y * q.z + q.w * q.x)) + v.z * (1.0 - 2.0 * (q.x * q.x + q.y * q.y))
  {
    assert v.z * q.NormSquared() == v.z;
  }

  /** Row 0 of toRotationMatrix() applied to the point (v, 1). */
  lemma RotationRow0(q: Quaternion, v: Vector3)
    ensures Matrices.RowApply(q.RotationMatrix(), 0, v) ==
      v.x * (1.0 - 2.0 * (q.y * q.y + q.z * q.z)) + v.y * (2.0 * (q.x * q.y - q.w * q.z)) + v.z * (2.0 * (q.x * q.z + q.w * q.y))
  {
  }

  /** Row 1 of toRotationMatrix() applied to the point (v, 1). */
  lemma RotationRow1(q: Quaternion, v: Vector3)
    ensures Matrices.RowApply(q.RotationMatrix(), 1, v) ==
      v.x * (2.0 * (q.x * q.y + q.w * q.z)) + v.y * (1.0 - 2.0 * (q.x * q.x + q.z * q.z)) + v.z * (2.0 * (q.y * q.z - q.w * q.x))
  {
  }

  /** Row 2 of toRotationMatrix() applied to the point (v, 1). */
  lemma RotationRow2(q: Quaternion, v: Vector3)
    ensures Matrices.RowApply(q.RotationMatrix(), 2, v) ==
      v.x * (2.0 * (q.x * q.z - q.w * q.y)) + v.y * (2.0 * (q.y * q.z + q.w * q.x)) + v.z * (1.0 - 2.0 * (q.x * q.x + q.y * q.y))
  {
  }

  /** Row 3 of toRotationMatrix() applied to (v, 1) is 1: a rotation never rescales by w. */
  lemma RotationRowW(q: Quaternion, v: Vector3)
    ensures Matrices.W(q.RotationMatrix(), v) == 1.0
  {
  }

  /**
   * For a unit quaternion, applying toRotationMatrix() to a point (w = 1, so
   * no division takes effect) rotates it exactly as operator*(const Vector3&).
   */
  lemma {:induction false} RotationMatrixRotates(q: Quaternion, v: Vector3)
    requires q.NormSquared() == 1.0
    ensures Matrices.Apply(q.RotationMatrix(), v) == q.Rotate(v)
  {
    RotatedX(q, v);
    RotatedY(q, v);
    RotatedZ(q, v);
    RotationRow0(q, v);
    RotationRow1(q, v);
    RotationRow2(q, v);
    RotationRowW(q, v);
    Matrices.ApplyDividesByW(q.RotationMatrix(), v);
  }

  /** toRotationMatrix(): the matrix object built from the quaternion's components. */
  method ToRotationMatrix(q: Quaternion) returns (m: Matrices.Matrix4x4)
    ensures m.Valid() && fresh(m.data)
    ensures m.Value() == q.RotationMatrix()
  {
    m := RotationMatrixOf(q.w, q.x, q.y, q.z);
  }

  /**
   * The body of toRotationMatrix(): the nine pairwise products, then a
   * default (identity) Matrix4x4 whose nine rotation cells and cell (3, 3)
   * are assigned one by one through operator().
   */
  method RotationMatrixOf(w: real, x: real, y: real, z: real) returns (m: Matrices.Matrix4x4)
    ensures m.Valid() && fresh(m.data)
    ensures m.Value() == RotationEntries(w, x, y, z)
  {
    var xx, yy, zz := x * x, y * y, z * z;
    var xy, xz, yz := x * y, x * z, y * z;
    var wx, wy, wz := w * x, w * y, w * z;
    m := new Matrices.Matrix4x4();
    m.Set(0, 0, 1.0 - 2.0 * (yy + zz));
    m.Set(0, 1, 2.0 * (xy - wz));
    m.Set(0, 2, 2.0 * (xz + wy));
    m.Set(1, 0, 2.0 * (xy + wz));
    m.Set(1, 1, 1.0 - 2.0 * (xx + zz));
    m.Set(1, 2, 2.0 * (yz - wx));
    m.Set(2, 0, 2.0 * (xz - wy));
    m.Set(2, 1, 2.0 * (yz + wx));
    m.Set(2, 2, 1.0 - 2.0 * (xx + yy));
    m.Set(3, 3, 1.0);
    Matrices.CellsMatchExplicit(m, RotationEntries(w, x, y, z));
  }
}
