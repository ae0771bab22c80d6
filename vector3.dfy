/**
 * Vector3<T> (include/math/Vector3.inl): a 3-D vector. As for Vector2, the
 * operators that build a new vector are functions on the value type `Vector3`,
 * and the compound assignments and `normalize` are methods of `MutableVector3`.
 */
module Vectors3 {
  import opened Scalars

  datatype Vector3 = Vector3(x: real, y: real, z: real) {

    /** operator[]: 0, 1, 2 are x, y, z; anything else throws out_of_range. */
    function At(i: int): (r: Result<real>)
      ensures r.Ok? <==> 0 <= i <= 2
      ensures r.Err? ==> r.error == OutOfRange
      ensures i == 0 ==> r == Ok(x)
      ensures i == 1 ==> r == Ok(y)
      ensures i == 2 ==> r == Ok(z)
    {
      if i < 0 || i > 2 then Err(OutOfRange)
      else if i == 0 then Ok(x)
      else if i == 1 then Ok(y)
      else Ok(z)
    }

    /** operator+ */
    function Add(v: Vector3): Vector3 {
      Vector3(x + v.x, y + v.y, z + v.z)
    }

    /** operator- */
    function Sub(v: Vector3): Vector3 {
      Vector3(x - v.x, y - v.y, z - v.z)
    }

    /** operator*(T s) */
    function Scale(s: real): Vector3 {
      Vector3(x * s, y * s, z * s)
    }

    /**
     * operator/(T s): invalid_argument when |s| < epsilon, otherwise the
     * quotient, which scaled back by s is this vector.
     */
    function Div(s: real): (r: Result<Vector3>)
      ensures r.Err? <==> Abs(s) < Epsilon
      ensures r.Err? ==> r.error == InvalidArgument
      ensures r.Ok? ==> r.value.Scale(s) == this
    {
      if Abs(s) < Epsilon then Err(InvalidArgument)
      else Ok(Vector3(x / s, y / s, z / s))
    }

    /** operator*(const Vector3&): componentwise product. */
    function Mul(v: Vector3): Vector3 {
      Vector3(x * v.x, y * v.y, z * v.z)
    }

    function Dot(v: Vector3): real {
      x * v.x + y * v.y + z * v.z
    }

    function Cross(v: Vector3): Vector3 {
      Vector3(y * v.z - z * v.y, z * v.x - x * v.z, x * v.y - y * v.x)
    }

    function LengthSquared(): real {
      x * x + y * y + z * z
    }

    /**
     * normalized(): domain_error when the length is below epsilon, otherwise
     * this vector divided by its length `len` (the square root is a parameter).
     */
    function Normalized(len: real): (r: Result<Vector3>)
      requires len >= 0.0 && len * len == LengthSquared()
      ensures r.Err? <==> LengthSquared() < Epsilon * Epsilon
      ensures r.Err? ==> r.error == DomainError
      ensures r.Ok? ==> r.value.LengthSquared() == 1.0 && r.value.Scale(len) == this
    {
      SquareBelow(len, Epsilon);
      if len < Epsilon then Err(DomainError)
      else
        var q := Div(len);
        UnitAfterDivision(this, len);
        q
    }

    /** operator==: every component within epsilon. */
    predicate ApproxEquals(v: Vector3) {
      Abs(x - v.x) < Epsilon && Abs(y - v.y) < Epsilon && Abs(z - v.z) < Epsilon
    }

    /** operator!=: the negation of operator==, so some component differs by epsilon or more. */
    predicate NotEquals(v: Vector3)
      ensures NotEquals(v) <==> exists i :: 0 <= i <= 2 && Abs(At(i).value - v.At(i).value) >= Epsilon
    {
      assert At(0).value - v.At(0).value == x - v.x;
      assert At(1).value - v.At(1).value == y - v.y;
      assert At(2).value - v.At(2).value == z - v.z;
      !ApproxEquals(v)
    }

    /**
     * projectOnto(v): invalid_argument when v.lengthSquared() < epsilon (the
     * guard compares the squared length with epsilon itself, not epsilon^2).
     * Otherwise a multiple of v whose difference from this vector is
     * orthogonal to v, and which is parallel to v (zero cross product).
     */
    function ProjectOnto(v: Vector3): (r: Result<Vector3>)
      ensures r.Err? <==> v.LengthSquared() < Epsilon
      ensures r.Err? ==> r.error == InvalidArgument
      ensures r.Ok? ==> Sub(r.value).Dot(v) == 0.0
      ensures r.Ok? ==> r.value.Cross(v) == Vector3(0.0, 0.0, 0.0)
    {
      var lenSquared := v.LengthSquared();
      if lenSquared < Epsilon then Err(InvalidArgument)
      else
        var k := Dot(v) / lenSquared;
        ProjectionResidualOrthogonal(this, v, k);
        ScaledCrossZero(v, k);
        Ok(v.Scale(k))
    }

    /** reflect(normal) = this - normal * (2 * dot(normal)). */
    function Reflect(n: Vector3): Vector3 {
      Sub(n.Scale(2.0 * Dot(n)))
    }
  }

  /** Dividing by the vector's own positive length yields a unit vector. */
  lemma UnitAfterDivision(v: Vector3, len: real)
    requires len > 0.0 && len * len == v.LengthSquared()
    ensures v.Div(len).Ok? ==> v.Div(len).value.LengthSquared() == 1.0
  {
    var u := Vector3(v.x / len, v.y / len, v.z / len);
    calc {
      u.LengthSquared() * (len * len);
      (v.x / len) * (v.x / len) * (len * len) + (v.y / len) * (v.y / len) * (len * len)
        + (v.z / len) * (v.z / len) * (len * len);
      { assert (v.x / len) * len == v.x; assert (v.y / len) * len == v.y; assert (v.z / len) * len == v.z; }
      v.x * v.x + v.y * v.y + v.z * v.z;
      len * len;
    }
  }

  /** With k = (a.v) / (v.v), the residual a - k v is orthogonal to v. */
  lemma ProjectionResidualOrthogonal(a: Vector3, v: Vector3, k: real)
    requires v.LengthSquared() != 0.0 && k == a.Dot(v) / v.LengthSquared()
    ensures a.Sub(v.Scale(k)).Dot(v) == 0.0
  {
    calc {
      a.Sub(v.Scale(k)).Dot(v);
      (a.x - v.x * k) * v.x + (a.y - v.y * k) * v.y + (a.z - v.z * k) * v.z;
      a.Dot(v) - k * v.LengthSquared();
      { assert k * v.LengthSquared() == a.Dot(v); }
      0.0;
    }
  }

  /** A multiple of v is parallel to v. */
  lemma ScaledCrossZero(v: Vector3, k: real)
    ensures v.Scale(k).Cross(v) == Vector3(0.0, 0.0, 0.0)
  {
    var w := v.Scale(k);
    assert w.y * v.z - w.z * v.y == k * (v.y * v.z - v.z * v.y);
    assert w.z * v.x - w.x * v.z == k * (v.z * v.x - v.x * v.z);
    assert w.x * v.y - w.y * v.x == k * (v.x * v.y - v.y * v.x);
  }

  /** free operator*(T s, const Vector3&): the scalar on the left. */
  function ScaleLeft(s: real, v: Vector3): (r: Vector3)
    ensures r == Vector3(s * v.x, s * v.y, s * v.z)
  {
    v.Scale(s)
  }

  /** lerp(a, b, t) = a + (b - a) * t, t unclamped. */
  function Lerp(a: Vector3, b: Vector3, t: real): Vector3 {
    a.Add(b.Sub(a).Scale(t))
  }

  function Zero(): Vector3 { Vector3(0.0, 0.0, 0.0) }
  function One(): Vector3 { Vector3(1.0, 1.0, 1.0) }
  function Up(): Vector3 { Vector3(0.0, 1.0, 0.0) }
  function Down(): Vector3 { Vector3(0.0, -1.0, 0.0) }
  function Left(): Vector3 { Vector3(-1.0, 0.0, 0.0) }
  function Right(): Vector3 { Vector3(1.0, 0.0, 0.0) }
  function Forward(): Vector3 { Vector3(0.0, 0.0, 1.0) }
  function Backward(): Vector3 { Vector3(0.0, 0.0, -1.0) }

  /** up = -down, right = -left, forward = -backward. */
  lemma NamedConstantsOpposite()
    ensures [Up(), Right(), Forward()] == [Down().Scale(-1.0), Left().Scale(-1.0), Backward().Scale(-1.0)]
  {
  }

  /** right, up and forward are unit vectors, pairwise orthogonal. */
  lemma NamedConstantsOrthonormal()
    ensures [Right().LengthSquared(), Up().LengthSquared(), Forward().LengthSquared()] == [1.0, 1.0, 1.0]
    ensures [Right().Dot(Up()), Up().Dot(Forward()), Forward().Dot(Right())] == [0.0, 0.0, 0.0]
  {
  }

  /** The basis is right-handed: right x up = forward. */
  lemma NamedConstantsRightHanded()
    ensures Right().Cross(Up()) == Forward()
  {
  }

  /**
   * s * v is a scalar action on vectors: it distributes over operator+ on
   * either side, scaling by 1 changes nothing, and two scalings compose.
   */
  lemma ScaleLeftLaws(s: real, t: real, a: Vector3, b: Vector3)
    ensures ScaleLeft(s, a.Add(b)) == ScaleLeft(s, a).Add(ScaleLeft(s, b))
    ensures ScaleLeft(s + t, a) == ScaleLeft(s, a).Add(ScaleLeft(t, a))
    ensures ScaleLeft(1.0, a) == a
    ensures ScaleLeft(s, ScaleLeft(t, a)) == ScaleLeft(s * t, a)
  {
  }

  /** Under exact arithmetic lerp reaches both end points. */
  lemma LerpEndpoints(a: Vector3, b: Vector3)
    ensures Lerp(a, b, 0.0) == a
    ensures Lerp(a, b, 1.0) == b
  {
  }

  /** dot is symmetric; lengthSquared is the dot product with itself and never negative. */
  lemma DotProperties(a: Vector3, b: Vector3)
    ensures a.Dot(b) == b.Dot(a)
    ensures a.LengthSquared() == a.Dot(a)
    ensures a.LengthSquared() >= 0.0
  {
  }

  /** a x b is orthogonal to both a and b. */
  lemma CrossOrthogonal(a: Vector3, b: Vector3)
    ensures a.Cross(b).Dot(a) == 0.0
    ensures a.Cross(b).Dot(b) == 0.0
  {
  }

  /** b x a = -(a x b). */
  lemma CrossAnticommutative(a: Vector3, b: Vector3)
    ensures b.Cross(a) == a.Cross(b).Scale(-1.0)
  {
  }

  /** Division and right scaling by the same admissible scalar undo each other. */
  lemma {:induction false} DivUndoesScale(v: Vector3, s: real)
    requires Abs(s) >= Epsilon
    ensures v.Scale(s).Div(s) == Ok(v)
  {
    assert s != 0.0;
    var w := v.Scale(s);
    assert w.x / s == v.x && w.y / s == v.y && w.z / s == v.z;
    assert w.Div(s) == Ok(Vector3(w.x / s, w.y / s, w.z / s));
  }

  /**
   * operator== is a tolerance test: reflexive and symmetric, but not
   * transitive (three points spaced just under epsilon apart along x);
   * operator!= holds exactly where operator== fails.
   */
  lemma ApproxEqualsNotTransitive()
    ensures Zero().ApproxEquals(Zero())
    ensures forall a: Vector3, b: Vector3 :: a.ApproxEquals(b) ==> b.ApproxEquals(a)
    ensures forall a: Vector3, b: Vector3 :: a.NotEquals(b) <==> !a.ApproxEquals(b)
    ensures var h := Vector3(Epsilon * 0.75, 0.0, 0.0); var k := Vector3(Epsilon * 1.5, 0.0, 0.0);
      Zero().ApproxEquals(h) && h.ApproxEquals(k) && !Zero().ApproxEquals(k) && Zero().NotEquals(k)
  {
  }

  /** Reflection in a unit normal keeps the squared length. */
  lemma ReflectPreservesLength(v: Vector3, n: Vector3)
    requires n.LengthSquared() == 1.0
    ensures v.Reflect(n).LengthSquared() == v.LengthSquared()
  {
    var d := v.Dot(n);
    var r := v.Reflect(n);
    assert r == Vector3(v.x - n.x * (2.0 * d), v.y - n.y * (2.0 * d), v.z - n.z * (2.0 * d));
    calc {
      r.LengthSquared();
      (v.x - n.x * (2.0 * d)) * (v.x - n.x * (2.0 * d)) + (v.y - n.y * (2.0 * d)) * (v.y - n.y * (2.0 * d))
        + (v.z - n.z * (2.0 * d)) * (v.z - n.z * (2.0 * d));
      v.LengthSquared() - 4.0 * d * (v.x * n.x + v.y * n.y + v.z * n.z) + 4.0 * d * d * n.LengthSquared();
      v.LengthSquared() - 4.0 * d * d + 4.0 * d * d * 1.0;
      v.LengthSquared();
    }
  }

  /** Reflection in a unit normal negates the component along the normal. */
  lemma ReflectNegatesNormalComponent(v: Vector3, n: Vector3)
    requires n.LengthSquared() == 1.0
    ensures v.Reflect(n).Dot(n) == -v.Dot(n)
  {
    var d := v.Dot(n);
    var r := v.Reflect(n);
    assert r == Vector3(v.x - n.x * (2.0 * d), v.y - n.y * (2.0 * d), v.z - n.z * (2.0 * d));
    calc {
      r.Dot(n);
      (v.x - n.x * (2.0 * d)) * n.x + (v.y - n.y * (2.0 * d)) * n.y + (v.z - n.z * (2.0 * d)) * n.z;
      d - 2.0 * d * n.LengthSquared();
      -d;
    }
  }

  /** Reflecting twice in the same unit normal gives back the original vector. */
  lemma ReflectInvolution(v: Vector3, n: Vector3)
    requires n.LengthSquared() == 1.0
    ensures v.Reflect(n).Reflect(n) == v
  {
    var d := v.Dot(n);
    var r := v.Reflect(n);
    ReflectNegatesNormalComponent(v, n);
    assert r.Dot(n) == -d;
    assert r.Reflect(n) == r.Sub(n.Scale(-2.0 * d));
    assert r == v.Sub(n.Scale(2.0 * d));
  }

  /**
   * A Vector3 object whose components the compound assignments and
   * normalize() update in place.
   */
  class MutableVector3 {
    var x: real
    var y: real
    var z: real

    function Value(): Vector3
      reads this
    {
      Vector3(x, y, z)
    }

    constructor (v: Vector3)
      ensures Value() == v
    {
      x, y, z := v.x, v.y, v.z;
    }

    /** Writing through the non-const operator[]: out_of_range before any write. */
    method SetAt(i: int, value: real) returns (r: Outcome)
      modifies this
      ensures r == if 0 <= i <= 2 then Pass else Fail(OutOfRange)
      ensures r.Pass? ==> Value().At(i) == Ok(value)
      ensures i != 0 ==> x == old(x)
      ensures i != 1 ==> y == old(y)
      ensures i != 2 ==> z == old(z)
    {
      if i < 0 || i > 2 {
        return Fail(OutOfRange);
      }
      if i == 0 {
        x := value;
      } else if i == 1 {
        y := value;
      } else {
        z := value;
      }
      r := Pass;
    }

    /** operator+= */
    method AddAssign(v: Vector3)
      modifies this
      ensures Value() == old(Value()).Add(v)
    {
      x := x + v.x;
      y := y + v.y;
      z := z + v.z;
    }

    /** operator-= */
    method SubAssign(v: Vector3)
      modifies this
      ensures Value() == old(Value()).Sub(v)
    {
      x := x - v.x;
      y := y - v.y;
      z := z - v.z;
    }

    /** operator*=(T s) */
    method ScaleAssign(s: real)
      modifies this
      ensures Value() == old(Value()).Scale(s)
    {
      x := x * s;
      y := y * s;
      z := z * s;
    }

    /** operator/=(T s): the guard comes before any write. */
    method DivAssign(s: real) returns (r: Outcome)
      modifies this
      ensures r == if Abs(s) < Epsilon then Fail(InvalidArgument) else Pass
      ensures r.Fail? ==> Value() == old(Value())
      ensures r.Pass? ==> old(Value()).Div(s) == Ok(Value())
    {
      if Abs(s) < Epsilon {
        return Fail(InvalidArgument);
      }
      x := x / s;
      y := y / s;
      z := z / s;
      r := Pass;
    }

    /** normalize(): domain_error (vector unchanged) below epsilon, else `*this /= len`. */
    method Normalize(len: real) returns (r: Outcome)
      requires len >= 0.0 && len * len == Value().LengthSquared()
      modifies this
      ensures r.Fail? <==> old(Value()).LengthSquared() < Epsilon * Epsilon
      ensures r.Fail? ==> r.error == DomainError && Value() == old(Value())
      ensures r.Pass? ==> old(Value()).Normalized(len) == Ok(Value())
      ensures r.Pass? ==> Value().LengthSquared() == 1.0
    {
      SquareBelow(len, Epsilon);
      if len < Epsilon {
        return Fail(DomainError);
      }
      r := DivAssign(len);
      assert r.Pass?;
    }
  }
}
