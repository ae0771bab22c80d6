/**
 * Vector2<T> (include/math/Vector2.inl): a 2-D vector. The operators that
 * return a new vector are functions on the value type `Vector2`; the compound
 * assignments and `normalize`, which update x and y in place, are methods of
 * `MutableVector2`, an object holding the two components.
 */
module Vectors2 {
  import opened Scalars

  datatype Vector2 = Vector2(x: real, y: real) {

    /** operator[] (const and non-const read): 0 is x, 1 is y, anything else throws. */
    function At(i: int): (r: Result<real>)
      ensures r.Ok? <==> 0 <= i <= 1
      ensures r.Err? ==> r.error == OutOfRange
      ensures i == 0 ==> r == Ok(x)
      ensures i == 1 ==> r == Ok(y)
    {
      if i < 0 || i > 1 then Err(OutOfRange)
      else if i == 0 then Ok(x) else Ok(y)
    }

    /** operator+ */
    function Add(v: Vector2): Vector2 {
      Vector2(x + v.x, y + v.y)
    }

    /** operator- */
    function Sub(v: Vector2): Vector2 {
      Vector2(x - v.x, y - v.y)
    }

    /** operator*(T s): scaling by a scalar on the right. */
    function Scale(s: real): Vector2 {
      Vector2(x * s, y * s)
    }

    /**
     * operator/(T s): throws invalid_argument when |s| < epsilon; otherwise the
     * quotient, which scaled back by s gives this vector.
     */
    function Div(s: real): (r: Result<Vector2>)
      ensures r.Err? <==> Abs(s) < Epsilon
      ensures r.Err? ==> r.error == InvalidArgument
      ensures r.Ok? ==> r.value.Scale(s) == this
    {
      if Abs(s) < Epsilon then Err(InvalidArgument)
      else Ok(Vector2(x / s, y / s))
    }

    /** operator*(const Vector2&): componentwise product. */
    function Mul(v: Vector2): Vector2 {
      Vector2(x * v.x, y * v.y)
    }

    function Dot(v: Vector2): real {
      x * v.x + y * v.y
    }

    function LengthSquared(): real {
      x * x + y * y
    }

    /**
     * normalized(): throws domain_error when the length is below epsilon,
     * otherwise this vector divided by its length. The square root is not
     * modelled: `len` is the length (non-negative, its square is
     * lengthSquared()). The guard is the same as lengthSquared() < epsilon^2,
     * and the result has length 1 and points the same way.
     */
    function Normalized(len: real): (r: Result<Vector2>)
      requires len >= 0.0 && len * len == LengthSquared()
      ensures r.Err? <==> LengthSquared() < Epsilon * Epsilon
      ensures r.Err? ==> r.error == DomainError
      ensures r.Ok? ==> r.value.LengthSquared() == 1.0 && r.value.Scale(len) == this
    {
      SquareBelow(len, Epsilon);
      if len < Epsilon then Err(DomainError)
      else
        var q := Div(len);
        UnitAfterDivision(this, len);
        q
    }

    /** operator==: every component within epsilon. */
    predicate ApproxEquals(v: Vector2) {
      Abs(x - v.x) < Epsilon && Abs(y - v.y) < Epsilon
    }

    /** operator!=: the negation of operator==, so some component differs by epsilon or more. */
    predicate NotEquals(v: Vector2)
      ensures NotEquals(v) <==> exists i :: 0 <= i <= 1 && Abs(At(i).value - v.At(i).value) >= Epsilon
    {
      assert At(0).value - v.At(0).value == x - v.x;
      assert At(1).value - v.At(1).value == y - v.y;
      !ApproxEquals(v)
    }
  }

  /** Dividing by the vector's own positive length yields a unit vector. */
  lemma UnitAfterDivision(v: Vector2, len: real)
    requires len > 0.0 && len * len == v.LengthSquared()
    ensures v.Div(len).Ok? ==> v.Div(len).value.LengthSquared() == 1.0
  {
    var u := Vector2(v.x / len, v.y / len);
    calc {
      u.LengthSquared() * (len * len);
      (v.x / len) * (v.x / len) * (len * len) + (v.y / len) * (v.y / len) * (len * len);
      { assert (v.x / len) * len == v.x; assert (v.y / len) * len == v.y; }
      v.x * v.x + v.y * v.y;
      len * len;
    }
  }

  /** free operator*(T s, const Vector2&): the scalar on the left. */
  function ScaleLeft(s: real, v: Vector2): (r: Vector2)
    ensures r == Vector2(s * v.x, s * v.y)
  {
    v.Scale(s)
  }

  /** lerp(a, b, t) = a + (b - a) * t, t unclamped. */
  function Lerp(a: Vector2, b: Vector2, t: real): Vector2 {
    a.Add(b.Sub(a).Scale(t))
  }

  function Zero(): Vector2 { Vector2(0.0, 0.0) }
  function One(): Vector2 { Vector2(1.0, 1.0) }
  function UnitX(): Vector2 { Vector2(1.0, 0.0) }
  function UnitY(): Vector2 { Vector2(0.0, 1.0) }

  /**
   * s * v is a scalar action on vectors: it distributes over operator+ on
   * either side, scaling by 1 changes nothing, and two scalings compose.
   */
  lemma ScaleLeftLaws(s: real, t: real, a: Vector2, b: Vector2)
    ensures ScaleLeft(s, a.Add(b)) == ScaleLeft(s, a).Add(ScaleLeft(s, b))
    ensures ScaleLeft(s + t, a) == ScaleLeft(s, a).Add(ScaleLeft(t, a))
    ensures ScaleLeft(1.0, a) == a
    ensures ScaleLeft(s, ScaleLeft(t, a)) == ScaleLeft(s * t, a)
  {
  }

  /** Under exact arithmetic lerp reaches both end points. */
  lemma LerpEndpoints(a: Vector2, b: Vector2)
    ensures Lerp(a, b, 0.0) == a
    ensures Lerp(a, b, 1.0) == b
  {
  }

  /** dot is symmetric. */
  lemma DotSymmetric(a: Vector2, b: Vector2)
    ensures a.Dot(b) == b.Dot(a)
  {
  }

  /** lengthSquared is the dot product with itself, and never negative. */
  lemma LengthSquaredIsSelfDot(a: Vector2)
    ensures a.LengthSquared() == a.Dot(a)
    ensures a.LengthSquared() >= 0.0
  {
  }

  /** Division and right scaling by the same admissible scalar undo each other. */
  lemma {:induction false} DivUndoesScale(v: Vector2, s: real)
    requires Abs(s) >= Epsilon
    ensures v.Scale(s).Div(s) == Ok(v)
  {
    assert s != 0.0;
    var w := v.Scale(s);
    assert w.x / s == v.x && w.y / s == v.y;
    assert w.Div(s) == Ok(Vector2(w.x / s, w.y / s));
  }

  /**
   * operator== is a tolerance test: reflexive and symmetric, but not
   * transitive (three points spaced just under epsilon apart);
   * operator!= holds exactly where operator== fails.
   */
  lemma ApproxEqualsNotTransitive()
    ensures Zero().ApproxEquals(Zero())
    ensures forall a: Vector2, b: Vector2 :: a.ApproxEquals(b) ==> b.ApproxEquals(a)
    ensures forall a: Vector2, b: Vector2 :: a.NotEquals(b) <==> !a.ApproxEquals(b)
    ensures var h := Vector2(Epsilon * 0.75, 0.0); var k := Vector2(Epsilon * 1.5, 0.0);
      Zero().ApproxEquals(h) && h.ApproxEquals(k) && !Zero().ApproxEquals(k) && Zero().NotEquals(k)
  {
  }

  /**
   * A Vector2 object whose components the compound assignments and normalize()
   * update in place.
   */
  class MutableVector2 {
    var x: real
    var y: real

    function Value(): Vector2
      reads this
    {
      Vector2(x, y)
    }

    constructor (v: Vector2)
      ensures Value() == v
    {
      x, y := v.x, v.y;
    }

    /** Writing through the non-const operator[]: out_of_range before any write. */
    method SetAt(i: int, value: real) returns (r: Outcome)
      modifies this
      ensures r == if 0 <= i <= 1 then Pass else Fail(OutOfRange)
      ensures r.Pass? ==> Value().At(i) == Ok(value)
      ensures i == 0 ==> y == old(y)
      ensures i == 1 ==> x == old(x)
      ensures r.Fail? ==> Value() == old(Value())
    {
      if i < 0 || i > 1 {
        return Fail(OutOfRange);
      }
      if i == 0 {
        x := value;
      } else {
        y := value;
      }
      r := Pass;
    }

    /** operator+= */
    method AddAssign(v: Vector2)
      modifies this
      ensures Value() == old(Value()).Add(v)
    {
      x := x + v.x;
      y := y + v.y;
    }

    /** operator-= */
    method SubAssign(v: Vector2)
      modifies this
      ensures Value() == old(Value()).Sub(v)
    {
      x := x - v.x;
      y := y - v.y;
    }

    /** operator*=(T s) */
    method ScaleAssign(s: real)
      modifies this
      ensures Value() == old(Value()).Scale(s)
    {
      x := x * s;
      y := y * s;
    }

    /**
     * operator/=(T s): the guard comes before any write, so on invalid_argument
     * the vector is unchanged; otherwise it becomes the quotient.
     */
    method DivAssign(s: real) returns (r: Outcome)
      modifies this
      ensures r == if Abs(s) < Epsilon then Fail(InvalidArgument) else Pass
      ensures r.Fail? ==> Value() == old(Value())
      ensures r.Pass? ==> old(Value()).Div(s) == Ok(Value())
    {
      if Abs(s) < Epsilon {
        return Fail(InvalidArgument);
      }
      x := x / s;
      y := y / s;
      r := Pass;
    }

    /**
     * normalize(): domain_error (vector unchanged) when the length is below
     * epsilon, otherwise `*this /= len`. As in Normalized, `len` is the length.
     */
    method Normalize(len: real) returns (r: Outcome)
      requires len >= 0.0 && len * len == Value().LengthSquared()
      modifies this
      ensures r.Fail? <==> old(Value()).LengthSquared() < Epsilon * Epsilon
      ensures r.Fail? ==> r.error == DomainError && Value() == old(Value())
      ensures r.Pass? ==> old(Value()).Normalized(len) == Ok(Value())
      ensures r.Pass? ==> Value().LengthSquared() == 1.0
    {
      SquareBelow(len, Epsilon);
      if len < Epsilon {
        return Fail(DomainError);
      }
      r := DivAssign(len);
      assert r.Pass?;
    }
  }
}
