/**
 * The geometric primitives of include/math/Geometry.inl: Ray, AABB, Plane,
 * Sphere, Frustum and Transform. Each is a value (its fields are only set by
 * constructors), so each is a datatype. The tests that loop (the slab test
 * of AABB::intersects, and Frustum::contains and Frustum::intersects, which
 * walk the six planes) are methods with the loop, proved against recursive
 * or quantified specifications; the ray tests that write their `T&` out
 * parameters are methods returning the values written.
 *
 * The infinities that AABB::intersects starts from are the `Extended`
 * values NegInfinity and PosInfinity. Square roots are parameters with their
 * defining property as a precondition.
 */
module Geometry {
  import opened Scalars
  import opened Vectors3
  import Matrices
  import Quaternions

  /** Coordinate i of v, as v[i] reads it for i in 0..2. */
  function Axis(v: Vector3, i: int): real
    requires 0 <= i < 3
  {
    if i == 0 then v.x else if i == 1 then v.y else v.z
  }

  /** Axis agrees with the bounds-checked v[i]. */
  lemma AxisIsAt(v: Vector3, i: int)
    requires 0 <= i < 3
    ensures v.At(i) == Ok(Axis(v, i))
  {
  }

  // ---------------------------------------------------------------- Ray

  /**
   * A ray: origin and direction. The two-argument constructor stores the
   * normalised direction; MakeRay models it.
   */
  datatype Ray = Ray(origin: Vector3, direction: Vector3) {

    /** getPoint(t) = origin + direction * t. */
    function GetPoint(t: real): (p: Vector3)
      ensures p.Sub(origin) == direction.Scale(t)
    {
      origin.Add(direction.Scale(t))
    }
  }

  /** Ray(): origin zero, direction forward (0, 0, 1). */
  function DefaultRay(): Ray {
    Ray(Zero(), Forward())
  }

  /**
   * Ray(origin, direction): the direction is normalised, so a direction
   * shorter than epsilon makes normalized() throw domain_error. `len` is the
   * length of `direction`.
   */
  function MakeRay(origin: Vector3, direction: Vector3, len: real): (r: Result<Ray>)
    requires len >= 0.0 && len * len == direction.LengthSquared()
    ensures r.Err? <==> direction.LengthSquared() < Epsilon * Epsilon
    ensures r.Err? ==> r.error == DomainError
    ensures r.Ok? ==> r.value.origin == origin && r.value.direction.LengthSquared() == 1.0
    ensures r.Ok? ==> r.value.direction.Scale(len) == direction
  {
    match direction.Normalized(len)
    case Ok(u) => Ok(Ray(origin, u))
    case Err(e) => Err(e)
  }

  /** Walking s and then t along a ray is walking s + t; t = 0 is the origin. */
  lemma GetPointAdditive(ray: Ray, s: real, t: real)
    ensures ray.GetPoint(0.0) == ray.origin
    ensures ray.GetPoint(s).Add(ray.direction.Scale(t)) == ray.GetPoint(s + t)
  {
  }

  // ---------------------------------------------------------------- AABB

  /** An axis-aligned box from its min corner to its max corner. */
  datatype AABB = AABB(min: Vector3, max: Vector3) {

    /** contains: closed on all six faces, min <= p <= max in each coordinate. */
    predicate Contains(p: Vector3) {
      p.x >= min.x && p.x <= max.x &&
      p.y >= min.y && p.y <= max.y &&
      p.z >= min.z && p.z <= max.z
    }

    /** min <= max in every coordinate: the box is not empty. */
    predicate WellFormed() {
      min.x <= max.x && min.y <= max.y && min.z <= max.z
    }

    /**
     * intersects(ray, tMin, tMax): the slab method. tMin and tMax start at
     * -infinity and +infinity; each axis either checks that the origin lies
     * in its slab (direction below epsilon) or narrows [tMin, tMax] to the
     * parameters where the ray crosses the slab, failing as soon as the
     * interval is empty. tMin and tMax are returned as written when the
     * test fails early.
     */
    method Intersects(ray: Ray) returns (hit: bool, tMin: Extended, tMax: Extended)
      ensures SlabResult(hit, tMin, tMax) == SlabsFrom(this, ray, 0, NegInfinity, PosInfinity)
      ensures hit ==> LessEq(tMin, tMax)
      ensures forall k :: 0 <= k < 3 && ParallelOutside(this, ray, k) ==> !hit
    {
      tMin, tMax := NegInfinity, PosInfinity;
      var i := 0;
      while i < 3
        invariant 0 <= i <= 3
        invariant SlabsFrom(this, ray, i, tMin, tMax) == SlabsFrom(this, ray, 0, NegInfinity, PosInfinity)
      {
        var o, d := Axis(ray.origin, i), Axis(ray.direction, i);
        var lo, hi := Axis(min, i), Axis(max, i);
        if Abs(d) < Epsilon {
          if o < lo || o > hi {
            hit := false;
            break;
          }
        } else {
          var t1 := (lo - o) / d;
          var t2 := (hi - o) / d;
          if t1 > t2 {
            t1, t2 := t2, t1;
          }
          assert t1 == SlabNear(this, ray, i) && t2 == SlabFar(this, ray, i);
          tMin := ExtMax(tMin, t1);
          tMax := ExtMin(tMax, t2);
          if Less(tMax, tMin) {
            hit := false;
            break;
          }
        }
        i := i + 1;
      }
      if i == 3 {
        hit := true;
      }
      SlabsHitOrdered(this, ray, 0, NegInfinity, PosInfinity);
      forall k | 0 <= k < 3 && ParallelOutside(this, ray, k)
        ensures !hit
      {
        ParallelOutsideMisses(this, ray, k);
      }
    }
  }

  /** AABB(): both corners at the origin. */
  function DefaultAABB(): AABB {
    AABB(Zero(), Zero())
  }

  /** contains, coordinate by coordinate. */
  lemma ContainsByAxis(box: AABB, p: Vector3)
    ensures box.Contains(p) <==> forall i :: 0 <= i < 3 ==> Axis(box.min, i) <= Axis(p, i) <= Axis(box.max, i)
  {
    assert Axis(p, 0) == p.x && Axis(p, 1) == p.y && Axis(p, 2) == p.z;
  }

  /** A box contains both of its corners exactly when it is well formed. */
  lemma ContainsCorners(box: AABB)
    ensures box.Contains(box.min) <==> box.WellFormed()
    ensures box.Contains(box.max) <==> box.WellFormed()
  {
  }

  /** A parameter bound that may be infinite: the start values of tMin and tMax. */
  datatype Extended = NegInfinity | Finite(value: real) | PosInfinity

  /** The strict order of the extended reals, as `<` and `>` compare infinities. */
  predicate Less(a: Extended, b: Extended) {
    match (a, b)
    case (NegInfinity, NegInfinity) => false
    case (NegInfinity, _) => true
    case (Finite(x), Finite(y)) => x < y
    case (Finite(_), PosInfinity) => true
    case (_, _) => false
  }

  predicate LessEq(a: Extended, b: Extended) {
    !Less(b, a)
  }

  /** std::max(a, Finite(t)): returns a unless a < t. */
  function ExtMax(a: Extended, t: real): (r: Extended)
    ensures LessEq(a, r) && LessEq(Finite(t), r)
    ensures r == a || r == Finite(t)
  {
    if Less(a, Finite(t)) then Finite(t) else a
  }

  /** std::min(a, Finite(t)): returns a unless t < a. */
  function ExtMin(a: Extended, t: real): (r: Extended)
    ensures LessEq(r, a) && LessEq(r, Finite(t))
    ensures r == a || r == Finite(t)
  {
    if Less(Finite(t), a) then Finite(t) else a
  }

  /** t lies in the closed interval [lo, hi] of extended bounds. */
  predicate InWindow(t: real, lo: Extended, hi: Extended) {
    LessEq(lo, Finite(t)) && LessEq(Finite(t), hi)
  }

  /** What intersects returns: the verdict and the final values of tMin and tMax. */
  datatype SlabResult = SlabResult(hit: bool, tMin: Extended, tMax: Extended)

  /** Axis k is one the test treats as parallel, with the ray's origin outside that slab. */
  predicate ParallelOutside(box: AABB, ray: Ray, k: int)
    requires 0 <= k < 3
  {
    Abs(Axis(ray.direction, k)) < Epsilon &&
    (Axis(ray.origin, k) < Axis(box.min, k) || Axis(ray.origin, k) > Axis(box.max, k))
  }

  /** The near and far crossing parameters of slab i, after the swap. */
  function SlabNear(box: AABB, ray: Ray, i: int): real
    requires 0 <= i < 3 && Axis(ray.direction, i) != 0.0
  {
    Near(Axis(ray.origin, i), Axis(ray.direction, i), Axis(box.min, i), Axis(box.max, i))
  }

  function SlabFar(box: AABB, ray: Ray, i: int): real
    requires 0 <= i < 3 && Axis(ray.direction, i) != 0.0
  {
    Far(Axis(ray.origin, i), Axis(ray.direction, i), Axis(box.min, i), Axis(box.max, i))
  }

  /** The smaller of the parameters where o + d t reaches lo and hi. */
  function Near(o: real, d: real, lo: real, hi: real): real
    requires d != 0.0
  {
    Min((lo - o) / d, (hi - o) / d)
  }

  /** The larger of the parameters where o + d t reaches lo and hi. */
  function Far(o: real, d: real, lo: real, hi: real): real
    requires d != 0.0
  {
    Max((lo - o) / d, (hi - o) / d)
  }

  /** o + d t lies between lo and hi. */
  predicate Between(o: real, d: real, lo: real, hi: real, t: real) {
    lo <= o + d * t <= hi
  }

  /** The iterations i, i + 1, ..., 2 of the slab loop, from the bounds tMin and tMax. */
  function SlabsFrom(box: AABB, ray: Ray, i: int, tMin: Extended, tMax: Extended): SlabResult
    requires 0 <= i <= 3
    decreases 3 - i
  {
    if i == 3 then SlabResult(true, tMin, tMax)
    else if Abs(Axis(ray.direction, i)) < Epsilon then
      if ParallelOutside(box, ray, i) then SlabResult(false, tMin, tMax)
      else SlabsFrom(box, ray, i + 1, tMin, tMax)
    else
      var newMin := ExtMax(tMin, SlabNear(box, ray, i));
      var newMax := ExtMin(tMax, SlabFar(box, ray, i));
      if Less(newMax, newMin) then SlabResult(false, newMin, newMax)
      else SlabsFrom(box, ray, i + 1, newMin, newMax)
  }

  /** Across the loop tMin never decreases and tMax never increases. */
  lemma {:induction false} SlabsNarrow(box: AABB, ray: Ray, i: int, tMin: Extended, tMax: Extended)
    requires 0 <= i <= 3
    ensures var r := SlabsFrom(box, ray, i, tMin, tMax); LessEq(tMin, r.tMin) && LessEq(r.tMax, tMax)
    decreases 3 - i
  {
    if i < 3 && Abs(Axis(ray.direction, i)) >= Epsilon {
      var newMin := ExtMax(tMin, SlabNear(box, ray, i));
      var newMax := ExtMin(tMax, SlabFar(box, ray, i));
      if !Less(newMax, newMin) {
        SlabsNarrow(box, ray, i + 1, newMin, newMax);
      }
    } else if i < 3 && !ParallelOutside(box, ray, i) {
      SlabsNarrow(box, ray, i + 1, tMin, tMax);
    }
  }

  /** When the test succeeds, tMin <= tMax. */
  lemma {:induction false} SlabsHitOrdered(box: AABB, ray: Ray, i: int, tMin: Extended, tMax: Extended)
    requires 0 <= i <= 3 && LessEq(tMin, tMax)
    ensures var r := SlabsFrom(box, ray, i, tMin, tMax); r.hit ==> LessEq(r.tMin, r.tMax)
    decreases 3 - i
  {
    if i < 3 && Abs(Axis(ray.direction, i)) >= Epsilon {
      var newMin := ExtMax(tMin, SlabNear(box, ray, i));
      var newMax := ExtMin(tMax, SlabFar(box, ray, i));
      if !Less(newMax, newMin) {
        SlabsHitOrdered(box, ray, i + 1, newMin, newMax);
      }
    } else if i < 3 && !ParallelOutside(box, ray, i) {
      SlabsHitOrdered(box, ray, i + 1, tMin, tMax);
    }
  }

  /** An axis treated as parallel whose slab misses the origin makes the whole test fail. */
  lemma ParallelOutsideMisses(box: AABB, ray: Ray, k: int)
    requires 0 <= k < 3 && ParallelOutside(box, ray, k)
    ensures !SlabsFrom(box, ray, 0, NegInfinity, PosInfinity).hit
  {
    ParallelOutsideFrom(box, ray, 0, k, NegInfinity, PosInfinity);
  }

  lemma {:induction false} ParallelOutsideFrom(box: AABB, ray: Ray, i: int, k: int, tMin: Extended, tMax: Extended)
    requires 0 <= i <= k < 3 && ParallelOutside(box, ray, k)
    ensures !SlabsFrom(box, ray, i, tMin, tMax).hit
    decreases 3 - i
  {
    if i < k && Abs(Axis(ray.direction, i)) >= Epsilon {
      var newMin := ExtMax(tMin, SlabNear(box, ray, i));
      var newMax := ExtMin(tMax, SlabFar(box, ray, i));
      if !Less(newMax, newMin) {
        ParallelOutsideFrom(box, ray, i + 1, k, newMin, newMax);
      }
    } else if i < k && !ParallelOutside(box, ray, i) {
      ParallelOutsideFrom(box, ray, i + 1, k, tMin, tMax);
    }
  }

  /**
   * Crossing one slab: for a non-zero direction d, the parameter t lies
   * between the two crossing parameters exactly when o + d t lies between
   * lo and hi.
   */
  lemma SlabCrossing(o: real, d: real, lo: real, hi: real, t: real)
    requires d != 0.0 && lo <= hi
    ensures Near(o, d, lo, hi) <= t <= Far(o, d, lo, hi) <==> Between(o, d, lo, hi, t)
  {
    if d > 0.0 {
      CrossingPositive(o, d, lo, hi, t);
    } else {
      CrossingPositive(-o, -d, -hi, -lo, t);
      assert (-hi - -o) / -d == (hi - o) / d && (-lo - -o) / -d == (lo - o) / d;
      assert -o + -d * t == -(o + d * t);
    }
  }

  /** SlabCrossing for a positive direction: the crossing parameters are in order. */
  lemma CrossingPositive(o: real, d: real, lo: real, hi: real, t: real)
    requires d > 0.0 && lo <= hi
    ensures (lo - o) / d <= (hi - o) / d
    ensures (lo - o) / d <= t <==> lo <= o + d * t
    ensures t <= (hi - o) / d <==> o + d * t <= hi
  {
    var t1, t2 := (lo - o) / d, (hi - o) / d;
    assert t1 * d == lo - o && t2 * d == hi - o;
    assert t * d == d * t;
    MulMonotone(t1, t2, d);
    MulMonotone(t1, t, d);
    MulMonotone(t, t2, d);
    assert t1 <= t <==> lo - o <= t * d;
    assert t <= t2 <==> t * d <= hi - o;
  }

  /** Multiplying by a positive number keeps the order, both ways. */
  lemma MulMonotone(a: real, b: real, k: real)
    requires k > 0.0
    ensures a <= b <==> a * k <= b * k
  {
    if a <= b {
      assert (b - a) * k >= 0.0;
    } else {
      assert (a - b) * k > 0.0;
    }
  }

  /**
   * Soundness of the slab test for a well-formed box, when every axis it
   * treats as parallel has direction exactly 0: every parameter in the final
   * [tMin, tMax] gives a point inside the slabs still to be checked, and lies
   * in the starting window.
   */
  lemma {:induction false} SlabsSound(box: AABB, ray: Ray, i: int, tMin: Extended, tMax: Extended, t: real)
    requires 0 <= i <= 3 && box.WellFormed()
    requires forall k :: i <= k < 3 && Abs(Axis(ray.direction, k)) < Epsilon ==> Axis(ray.direction, k) == 0.0
    requires SlabsFrom(box, ray, i, tMin, tMax).hit
    requires InWindow(t, SlabsFrom(box, ray, i, tMin, tMax).tMin, SlabsFrom(box, ray, i, tMin, tMax).tMax)
    ensures forall k :: i <= k < 3 ==> InSlab(box, ray, k, t)
    ensures InWindow(t, tMin, tMax)
    decreases 3 - i
  {
    if i < 3 {
      if Abs(Axis(ray.direction, i)) < Epsilon {
        SlabsSound(box, ray, i + 1, tMin, tMax, t);
        ParallelSlab(box, ray, i, t);
      } else {
        var newMin := ExtMax(tMin, SlabNear(box, ray, i));
        var newMax := ExtMin(tMax, SlabFar(box, ray, i));
        SlabsSound(box, ray, i + 1, newMin, newMax, t);
        CrossedSlab(box, ray, i, t);
      }
    }
  }

  /** Coordinate k of getPoint(t), origin[k] + direction[k] * t, lies in slab k of the box. */
  predicate InSlab(box: AABB, ray: Ray, k: int, t: real)
    requires 0 <= k < 3
  {
    Between(Axis(ray.origin, k), Axis(ray.direction, k), Axis(box.min, k), Axis(box.max, k), t)
  }

  /** The point at t lies in the box exactly when it lies in all three slabs. */
  lemma ContainsBySlabs(box: AABB, ray: Ray, t: real)
    ensures box.Contains(ray.GetPoint(t)) <==> InSlab(box, ray, 0, t) && InSlab(box, ray, 1, t) && InSlab(box, ray, 2, t)
  {
  }

  /** A zero direction along axis k keeps every point of the ray in the slab exactly when the origin is. */
  lemma ParallelSlab(box: AABB, ray: Ray, k: int, t: real)
    requires 0 <= k < 3 && Axis(ray.direction, k) == 0.0
    ensures InSlab(box, ray, k, t) <==> !ParallelOutside(box, ray, k)
  {
  }

  /** Along a non-parallel axis, t is between the crossing parameters exactly when getPoint(t) is in the slab. */
  lemma CrossedSlab(box: AABB, ray: Ray, k: int, t: real)
    requires 0 <= k < 3 && Abs(Axis(ray.direction, k)) >= Epsilon && box.WellFormed()
    ensures SlabNear(box, ray, k) <= t <= SlabFar(box, ray, k) <==> InSlab(box, ray, k, t)
  {
    assert Axis(box.min, k) <= Axis(box.max, k);
    SlabCrossing(Axis(ray.origin, k), Axis(ray.direction, k), Axis(box.min, k), Axis(box.max, k), t);
  }

  /**
   * Completeness of the slab test, when every axis it treats as parallel has
   * direction exactly 0: a parameter t in the starting window whose point
   * lies in the remaining slabs makes the test succeed with t in the result.
   */
  lemma {:induction false} SlabsComplete(box: AABB, ray: Ray, i: int, tMin: Extended, tMax: Extended, t: real)
    requires 0 <= i <= 3
    requires forall k :: i <= k < 3 && Abs(Axis(ray.direction, k)) < Epsilon ==> Axis(ray.direction, k) == 0.0
    requires forall k :: i <= k < 3 ==> InSlab(box, ray, k, t)
    requires InWindow(t, tMin, tMax)
    ensures SlabsFrom(box, ray, i, tMin, tMax).hit
    ensures InWindow(t, SlabsFrom(box, ray, i, tMin, tMax).tMin, SlabsFrom(box, ray, i, tMin, tMax).tMax)
    decreases 3 - i
  {
    if i < 3 {
      if Abs(Axis(ray.direction, i)) < Epsilon {
        ParallelSlab(box, ray, i, t);
        SlabsComplete(box, ray, i + 1, tMin, tMax, t);
      } else {
        assert InSlab(box, ray, i, t);
        CrossedSlabAnyBox(box, ray, i, t);
        var newMin := ExtMax(tMin, SlabNear(box, ray, i));
        var newMax := ExtMin(tMax, SlabFar(box, ray, i));
        assert InWindow(t, newMin, newMax);
        SlabsComplete(box, ray, i + 1, newMin, newMax, t);
      }
    }
  }

  /** A point in slab k puts its parameter between the crossing parameters, whatever the other slabs. */
  lemma CrossedSlabAnyBox(box: AABB, ray: Ray, k: int, t: real)
    requires 0 <= k < 3 && Abs(Axis(ray.direction, k)) >= Epsilon && InSlab(box, ray, k, t)
    ensures SlabNear(box, ray, k) <= t <= SlabFar(box, ray, k)
  {
    assert Axis(box.min, k) <= Axis(box.max, k);
    SlabCrossing(Axis(ray.origin, k), Axis(ray.direction, k), Axis(box.min, k), Axis(box.max, k), t);
  }

  /**
   * For a well-formed box and a ray whose near-parallel axes have direction
   * exactly 0, intersects succeeds with t in [tMin, tMax] exactly when
   * getPoint(t) is inside the box.
   */
  lemma IntersectsExactly(box: AABB, ray: Ray, t: real)
    requires box.WellFormed()
    requires forall k :: 0 <= k < 3 && Abs(Axis(ray.direction, k)) < Epsilon ==> Axis(ray.direction, k) == 0.0
    ensures var r := SlabsFrom(box, ray, 0, NegInfinity, PosInfinity);
      r.hit && InWindow(t, r.tMin, r.tMax) <==> box.Contains(ray.GetPoint(t))
  {
    var r := SlabsFrom(box, ray, 0, NegInfinity, PosInfinity);
    ContainsBySlabs(box, ray, t);
    assert box.Contains(ray.GetPoint(t)) <==> forall k :: 0 <= k < 3 ==> InSlab(box, ray, k, t);
    if r.hit && InWindow(t, r.tMin, r.tMax) {
      SlabsSound(box, ray, 0, NegInfinity, PosInfinity, t);
    }
    if box.Contains(ray.GetPoint(t)) {
      SlabsComplete(box, ray, 0, NegInfinity, PosInfinity, t);
    }
  }

  // ---------------------------------------------------------------- Plane

  /**
   * A plane: the points p with normal . p + distance == 0. The constructors
   * store a normalised normal.
   */
  datatype Plane = Plane(normal: Vector3, distance: real) {

    /** distanceToPoint(p) = normal . p + distance: zero exactly on the plane. */
    function DistanceToPoint(p: Vector3): real {
      normal.Dot(p) + distance
    }

    /**
     * intersects(ray, t): a ray within epsilon of parallel (|normal . direction|
     * below epsilon) misses and t keeps the value it came in with, `tIn`;
     * otherwise t is the parameter where the ray's line meets the plane, and
     * the test succeeds when t is not negative.
     */
    method IntersectsRay(ray: Ray, tIn: real) returns (hit: bool, t: real)
      ensures Abs(normal.Dot(ray.direction)) < Epsilon ==> !hit && t == tIn
      ensures Abs(normal.Dot(ray.direction)) >= Epsilon ==>
        DistanceToPoint(ray.GetPoint(t)) == 0.0 &&
        (forall s :: DistanceToPoint(ray.GetPoint(s)) == 0.0 ==> s == t) &&
        (hit <==> t >= 0.0)
    {
      var denom := normal.Dot(ray.direction);
      if Abs(denom) < Epsilon {
        return false, tIn;
      }
      t := -(normal.Dot(ray.origin) + distance) / denom;
      hit := t >= 0.0;
      DistanceAlongRay(this, ray, t);
      forall s | DistanceToPoint(ray.GetPoint(s)) == 0.0
        ensures s == t
      {
        DistanceAlongRay(this, ray, s);
        assert (s - t) * denom == 0.0;
      }
    }
  }

  /** Plane(): normal up (0, 1, 0), distance 0, the plane y = 0. */
  function DefaultPlane(): Plane {
    Plane(Up(), 0.0)
  }

  /** The default plane is y = 0. */
  lemma DefaultPlaneIsGround(p: Vector3)
    ensures DefaultPlane().DistanceToPoint(p) == p.y
  {
  }

  /** Along a ray the signed distance changes linearly, at rate normal . direction. */
  lemma DistanceAlongRay(plane: Plane, ray: Ray, t: real)
    ensures plane.DistanceToPoint(ray.GetPoint(t)) ==
      plane.DistanceToPoint(ray.origin) + t * plane.normal.Dot(ray.direction)
  {
  }

  /**
   * Plane(normal, distance): the normal is normalised, so a normal shorter
   * than epsilon fails with domain_error; `len` is its length.
   */
  function PlaneFromDistance(normal: Vector3, distance: real, len: real): (r: Result<Plane>)
    requires len >= 0.0 && len * len == normal.LengthSquared()
    ensures r.Err? <==> normal.LengthSquared() < Epsilon * Epsilon
    ensures r.Err? ==> r.error == DomainError
    ensures r.Ok? ==> r.value.distance == distance && r.value.normal.LengthSquared() == 1.0
    ensures r.Ok? ==> r.value.normal.Scale(len) == normal
  {
    match normal.Normalized(len)
    case Ok(u) => Ok(Plane(u, distance))
    case Err(e) => Err(e)
  }

  /**
   * Plane(normal, point) as written: the stored normal is normalised, but the
   * distance is computed from the constructor's argument, -normal . point,
   * before normalisation.
   */
  function PlaneThroughPointAsWritten(normal: Vector3, point: Vector3, len: real): (r: Result<Plane>)
    requires len >= 0.0 && len * len == normal.LengthSquared()
    ensures r.Err? <==> normal.LengthSquared() < Epsilon * Epsilon
    ensures r.Err? ==> r.error == DomainError
    ensures r.Ok? ==> r.value.normal.LengthSquared() == 1.0 && r.value.normal.Scale(len) == normal
    ensures r.Ok? ==> r.value.DistanceToPoint(point) == (1.0 - len) * r.value.normal.Dot(point)
  {
    match normal.Normalized(len)
    case Ok(u) =>
      DotOfScaled(u, len, point);
      Ok(Plane(u, -normal.Dot(point)))
    case Err(e) => Err(e)
  }

  lemma DotOfScaled(u: Vector3, k: real, p: Vector3)
    ensures u.Scale(k).Dot(p) == k * u.Dot(p)
  {
  }

  /**
   * The documented point is not on the plane built from it when the normal
   * is not of unit length: normal (0, 2, 0) through (0, 1, 0) gives the plane
   * y - 2 = 0, at distance -1 from the point.
   */
  lemma PlaneThroughPointMissesPoint(normal: Vector3, point: Vector3, len: real)
    requires normal == Vector3(0.0, 2.0, 0.0) && point == Vector3(0.0, 1.0, 0.0) && len == 2.0
    ensures PlaneThroughPointAsWritten(normal, point, len) == Ok(Plane(Up(), -2.0))
    ensures Plane(Up(), -2.0).DistanceToPoint(point) == -1.0
  {
  }

  /**
   * In general the plane built as written passes through the point only when
   * the normal has unit length or the point lies on the parallel plane
   * through the origin.
   */
  lemma PlaneThroughPointOffByLength(normal: Vector3, point: Vector3, len: real)
    requires len >= 0.0 && len * len == normal.LengthSquared()
    requires PlaneThroughPointAsWritten(normal, point, len).Ok?
    ensures var p := PlaneThroughPointAsWritten(normal, point, len).value;
      p.DistanceToPoint(point) == 0.0 <==> len == 1.0 || p.normal.Dot(point) == 0.0
  {
  }

  /**
   * Plane(normal, point) as documented: the distance is taken from the
   * normalised normal, so the plane passes through `point`.
   */
  function PlaneThroughPoint(normal: Vector3, point: Vector3, len: real): (r: Result<Plane>)
    requires len >= 0.0 && len * len == normal.LengthSquared()
    ensures r.Err? <==> normal.LengthSquared() < Epsilon * Epsilon
    ensures r.Err? ==> r.error == DomainError
    ensures r.Ok? ==> r.value.normal.LengthSquared() == 1.0 && r.value.normal.Scale(len) == normal
    ensures r.Ok? ==> r.value.DistanceToPoint(point) == 0.0
  {
    match normal.Normalized(len)
    case Ok(u) => Ok(Plane(u, -u.Dot(point)))
    case Err(e) => Err(e)
  }

  /** For a normal of unit length the constructor as written and as documented agree. */
  lemma PlaneThroughPointAgreesForUnitNormal(normal: Vector3, point: Vector3)
    requires normal.LengthSquared() == 1.0
    ensures PlaneThroughPointAsWritten(normal, point, 1.0) == PlaneThroughPoint(normal, point, 1.0)
  {
    assert normal.Normalized(1.0) == Ok(normal) by {
      assert normal.Normalized(1.0).value.Scale(1.0) == normal;
    }
  }

  // ---------------------------------------------------------------- Sphere

  /** A sphere: a centre and a radius. */
  datatype Sphere = Sphere(center: Vector3, radius: real) {

    /** contains: |p - center|^2 <= radius^2, so the surface is inside. */
    predicate Contains(p: Vector3) {
      p.Sub(center).LengthSquared() <= radius * radius
    }

    /** b = m . direction with m = origin - center. */
    function B(ray: Ray): real {
      ray.origin.Sub(center).Dot(ray.direction)
    }

    /** c = m . m - radius^2: positive exactly when the origin is outside. */
    function C(ray: Ray): real {
      ray.origin.Sub(center).LengthSquared() - radius * radius
    }

    function Discriminant(ray: Ray): real {
      B(ray) * B(ray) - C(ray)
    }

    /**
     * The verdict of intersects(ray, t): false for an origin outside that
     * points away (c > 0 and b > 0), false for a negative discriminant.
     */
    predicate RayMeets(ray: Ray) {
      !(C(ray) > 0.0 && B(ray) > 0.0) && Discriminant(ray) >= 0.0
    }

    /**
     * intersects(ray, t): `root` is the square root of the discriminant when
     * it is not negative. On success t is -b - root clamped to 0, so an origin
     * inside the sphere gives t = 0; on failure t keeps the value it came in
     * with, `tIn`.
     */
    method IntersectsRay(ray: Ray, tIn: real, root: real) returns (hit: bool, t: real)
      requires Discriminant(ray) >= 0.0 ==> root >= 0.0 && root * root == Discriminant(ray)
      ensures hit <==> RayMeets(ray)
      ensures !hit ==> t == tIn
      ensures hit ==> t >= 0.0 && (t == 0.0 || t == -B(ray) - root)
      ensures hit && Contains(ray.origin) ==> t == 0.0
      ensures hit && ray.direction.LengthSquared() == 1.0 ==> Contains(ray.GetPoint(t))
      ensures hit && ray.direction.LengthSquared() == 1.0 ==>
        forall s :: 0.0 <= s < t ==> !Contains(ray.GetPoint(s))
    {
      var b := B(ray);
      var c := C(ray);
      if c > 0.0 && b > 0.0 {
        return false, tIn;
      }
      var discriminant := b * b - c;
      if discriminant < 0.0 {
        return false, tIn;
      }
      t := -b - root;
      if t < 0.0 {
        t := 0.0;
      }
      hit := true;
      EntryParameter(this, ray, root);
    }
  }

  /** Sphere(): centre at the origin, radius 1. */
  function DefaultSphere(): Sphere {
    Sphere(Zero(), 1.0)
  }

  /** contains includes the surface: a point at exactly the radius is inside. */
  lemma SurfaceIsContained(s: Sphere, p: Vector3)
    requires p.Sub(s.center).LengthSquared() == s.radius * s.radius
    ensures s.Contains(p)
  {
  }

  /** Along a ray, |getPoint(t) - center|^2 - radius^2 is the quadratic t^2 |d|^2 + 2 b t + c. */
  lemma SphereQuadratic(s: Sphere, ray: Ray, t: real)
    ensures ray.GetPoint(t).Sub(s.center).LengthSquared() - s.radius * s.radius ==
      t * t * ray.direction.LengthSquared() + 2.0 * t * s.B(ray) + s.C(ray)
  {
    var m, d := ray.origin.Sub(s.center), ray.direction;
    var p := ray.GetPoint(t).Sub(s.center);
    assert p == Vector3(m.x + d.x * t, m.y + d.y * t, m.z + d.z * t);
    SquareOfSum(m.x, d.x, t);
    SquareOfSum(m.y, d.y, t);
    SquareOfSum(m.z, d.z, t);
  }

  lemma SquareOfSum(a: real, b: real, t: real)
    ensures (a + b * t) * (a + b * t) == a * a + 2.0 * t * (a * b) + t * t * (b * b)
  {
  }

  /**
   * |getPoint(t) - center|^2 - radius^2 along a ray with a unit direction,
   * written with b and c: (t + b)^2 - (b^2 - c).
   */
  function Excess(b: real, c: real, t: real): real {
    (t + b) * (t + b) - (b * b - c)
  }

  /** For a unit direction the point at t is inside exactly when the excess is not positive. */
  lemma ContainsAlongUnitRay(s: Sphere, ray: Ray, t: real)
    requires ray.direction.LengthSquared() == 1.0
    ensures s.Contains(ray.GetPoint(t)) <==> Excess(s.B(ray), s.C(ray), t) <= 0.0
  {
    SphereQuadratic(s, ray, t);
  }

  /**
   * On success the clamped parameter is the first one, from 0 on, whose point
   * is inside the sphere; with the origin inside it is 0.
   */
  lemma EntryParameter(s: Sphere, ray: Ray, root: real)
    requires s.RayMeets(ray) && root >= 0.0 && root * root == s.Discriminant(ray)
    ensures var t := Max(0.0, -s.B(ray) - root);
      (s.Contains(ray.origin) ==> t == 0.0) &&
      (ray.direction.LengthSquared() == 1.0 ==>
        s.Contains(ray.GetPoint(t)) && forall u :: 0.0 <= u < t ==> !s.Contains(ray.GetPoint(u)))
  {
    var b, c := s.B(ray), s.C(ray);
    var t := Max(0.0, -b - root);
    EntryScalar(b, c, root);
    if ray.direction.LengthSquared() == 1.0 {
      ContainsAlongUnitRay(s, ray, t);
      forall u | 0.0 <= u < t
        ensures !s.Contains(ray.GetPoint(u))
      {
        ContainsAlongUnitRay(s, ray, u);
      }
    }
  }

  /**
   * The entry parameter t = max(0, -b - root) on the quadratic
   * (t + b)^2 - (b^2 - c): inside at t, outside before t, and t = 0 when
   * c <= 0.
   */
  lemma EntryScalar(b: real, c: real, root: real)
    requires !(c > 0.0 && b > 0.0) && root >= 0.0 && root * root == b * b - c
    ensures c <= 0.0 ==> Max(0.0, -b - root) == 0.0
    ensures Excess(b, c, Max(0.0, -b - root)) <= 0.0
    ensures forall u :: 0.0 <= u < Max(0.0, -b - root) ==> Excess(b, c, u) > 0.0
  {
    if c <= 0.0 {
      if b < 0.0 {
        SquareBelow(root, -b);
      }
      assert b * b <= b * b - c;
    } else {
      SquareBelow(-b, root);
      assert (-b - root + b) * (-b - root + b) == root * root;
      forall u | 0.0 <= u < -b - root
        ensures Excess(b, c, u) > 0.0
      {
        SquareBelow(root, -(u + b));
      }
    }
  }

  /**
   * A failed test is right for a unit direction: no point of the ray from
   * t = 0 on is inside the sphere.
   */
  lemma MissMeansNoForwardPoint(s: Sphere, ray: Ray, t: real)
    requires ray.direction.LengthSquared() == 1.0 && !s.RayMeets(ray) && t >= 0.0
    ensures !s.Contains(ray.GetPoint(t))
  {
    ContainsAlongUnitRay(s, ray, t);
    MissScalar(s.B(ray), s.C(ray), t);
  }

  /** With c > 0 and b > 0, or with b^2 - c < 0, (t + b)^2 > b^2 - c for every t >= 0. */
  lemma MissScalar(b: real, c: real, t: real)
    requires (c > 0.0 && b > 0.0) || b * b - c < 0.0
    requires t >= 0.0
    ensures Excess(b, c, t) > 0.0
  {
    assert (t + b) * (t + b) == t * t + 2.0 * (t * b) + b * b;
    if c > 0.0 && b > 0.0 {
      assert t * t >= 0.0 && t * b >= 0.0;
    } else {
      SquareNonNegative(t + b);
    }
  }

  lemma SquareNonNegative(x: real)
    ensures x * x >= 0.0
  {
    if x < 0.0 {
      MulPos(-x, -x);
    } else if x > 0.0 {
      MulPos(x, x);
    }
  }

  // ---------------------------------------------------------------- Frustum

  /**
   * A frustum: in C++ a fixed array of six planes, each with the inside on its
   * non-negative side. The model holds a sequence of planes; the containment
   * and intersection lemmas hold for any number of planes, and DefaultFrustum
   * has exactly six.
   */
  datatype Frustum = Frustum(planes: seq<Plane>) {

    /** Every plane has the point on its non-negative side. */
    predicate Inside(p: Vector3) {
      forall i :: 0 <= i < |planes| ==> planes[i].DistanceToPoint(p) >= 0.0
    }

    /** Every plane has the box's positive vertex for its normal on its non-negative side. */
    predicate MayIntersect(box: AABB) {
      forall i :: 0 <= i < |planes| ==> planes[i].DistanceToPoint(PositiveVertex(planes[i].normal, box)) >= 0.0
    }

    /** contains(point): false at the first plane with the point on its negative side. */
    method Contains(p: Vector3) returns (r: bool)
      ensures r <==> Inside(p)
    {
      var i := 0;
      while i < |planes|
        invariant 0 <= i <= |planes|
        invariant forall j :: 0 <= j < i ==> planes[j].DistanceToPoint(p) >= 0.0
      {
        if planes[i].DistanceToPoint(p) < 0.0 {
          return false;
        }
        i := i + 1;
      }
      return true;
    }

    /**
     * intersects(aabb): for each plane, the corner of the box furthest along
     * the normal (the positive vertex) is built field by field from aabb.min;
     * false at the first plane that has it on its negative side.
     */
    method Intersects(box: AABB) returns (r: bool)
      ensures r <==> MayIntersect(box)
    {
      var i := 0;
      while i < |planes|
        invariant 0 <= i <= |planes|
        invariant forall j :: 0 <= j < i ==>
          planes[j].DistanceToPoint(PositiveVertex(planes[j].normal, box)) >= 0.0
      {
        var n := planes[i].normal;
        var positive := box.min;
        if n.x >= 0.0 {
          positive := positive.(x := box.max.x);
        }
        if n.y >= 0.0 {
          positive := positive.(y := box.max.y);
        }
        if n.z >= 0.0 {
          positive := positive.(z := box.max.z);
        }
        assert positive == PositiveVertex(n, box);
        if planes[i].DistanceToPoint(positive) < 0.0 {
          return false;
        }
        i := i + 1;
      }
      return true;
    }
  }

  /**
   * The positive vertex of a box for a normal n: in each coordinate max
   * where n is not negative, min where it is.
   */
  function PositiveVertex(n: Vector3, box: AABB): Vector3 {
    Vector3(if n.x >= 0.0 then box.max.x else box.min.x,
            if n.y >= 0.0 then box.max.y else box.min.y,
            if n.z >= 0.0 then box.max.z else box.min.z)
  }

  /** Frustum() = default: six default planes, so inside means y >= 0. */
  function DefaultFrustum(): Frustum {
    Frustum(seq(6, _ => DefaultPlane()))
  }

  lemma DefaultFrustumIsHalfSpace(p: Vector3)
    ensures |DefaultFrustum().planes| == 6
    ensures DefaultFrustum().Inside(p) <==> p.y >= 0.0
  {
    assert DefaultFrustum().planes[0] == DefaultPlane();
  }

  /** No point of the box is further along the normal than the positive vertex. */
  lemma PositiveVertexMaximises(plane: Plane, box: AABB, q: Vector3)
    requires box.Contains(q)
    ensures plane.DistanceToPoint(q) <= plane.DistanceToPoint(PositiveVertex(plane.normal, box))
    ensures box.WellFormed() ==> box.Contains(PositiveVertex(plane.normal, box))
  {
    DotBelowPositiveVertex(plane.normal, box, q);
  }

  /** The positive vertex maximises n . p over the box. */
  lemma {:induction false} DotBelowPositiveVertex(n: Vector3, box: AABB, q: Vector3)
    requires box.Contains(q)
    ensures n.Dot(q) <= n.Dot(PositiveVertex(n, box))
    ensures box.WellFormed() ==> box.Contains(PositiveVertex(n, box))
  {
    var v := PositiveVertex(n, box);
    assert n.x * q.x <= n.x * v.x by { AlongNormal(n.x, q.x, v.x, box.min.x, box.max.x); }
    assert n.y * q.y <= n.y * v.y by { AlongNormal(n.y, q.y, v.y, box.min.y, box.max.y); }
    assert n.z * q.z <= n.z * v.z by { AlongNormal(n.z, q.z, v.z, box.min.z, box.max.z); }
    SumBelow(n.x * q.x, n.y * q.y, n.z * q.z, n.x * v.x, n.y * v.y, n.z * v.z);
  }

  lemma SumBelow(a1: real, a2: real, a3: real, b1: real, b2: real, b3: real)
    requires a1 <= b1 && a2 <= b2 && a3 <= b3
    ensures a1 + a2 + a3 <= b1 + b2 + b3
  {
  }

  /** One coordinate of PositiveVertexMaximises. */
  lemma AlongNormal(n: real, q: real, v: real, lo: real, hi: real)
    requires lo <= q <= hi && v == if n >= 0.0 then hi else lo
    ensures n * q <= n * v
    ensures lo <= v <= hi
  {
    if n >= 0.0 {
      assert n * (v - q) >= 0.0;
    } else {
      assert (-n) * (q - v) >= 0.0;
    }
  }

  /**
   * intersects is conservative: a box with a point inside the frustum is
   * never rejected.
   */
  lemma IntersectsConservative(f: Frustum, box: AABB, q: Vector3)
    requires box.Contains(q) && f.Inside(q)
    ensures f.MayIntersect(box)
  {
    forall i | 0 <= i < |f.planes|
      ensures f.planes[i].DistanceToPoint(PositiveVertex(f.planes[i].normal, box)) >= 0.0
    {
      PositiveVertexMaximises(f.planes[i], box, q);
    }
  }

  /**
   * A point, as the degenerate box from the point to itself, passes
   * intersects exactly when contains accepts it.
   */
  lemma PointBoxAgrees(f: Frustum, p: Vector3)
    ensures f.MayIntersect(AABB(p, p)) <==> f.Inside(p)
  {
    forall i | 0 <= i < |f.planes|
      ensures PositiveVertex(f.planes[i].normal, AABB(p, p)) == p
    {
    }
  }

  /**
   * intersects is not exact: it can accept a box that only touches the
   * frustum. With the planes x >= 0 and y >= x + 1 and the unit box [0, 1]^3,
   * the positive vertices (1, 1, 1) and (0, 1, 1) pass both planes, while the
   * points of the box inside both planes all lie on the edge x = 0, y = 1.
   */
  lemma IntersectsNotExact(f: Frustum, box: AABB, q: Vector3)
    requires f == Frustum([Plane(Right(), 0.0), Plane(Vector3(-1.0, 1.0, 0.0), -1.0)])
    requires box == AABB(Zero(), One())
    ensures f.MayIntersect(box)
    ensures box.Contains(q) && f.Inside(q) ==> q.x == 0.0 && q.y == 1.0
  {
    ExampleAccepted(f, box);
    ExampleTouching(f, box, q);
  }

  lemma ExampleTouching(f: Frustum, box: AABB, q: Vector3)
    requires f == Frustum([Plane(Right(), 0.0), Plane(Vector3(-1.0, 1.0, 0.0), -1.0)])
    requires box == AABB(Zero(), One())
    ensures box.Contains(q) && f.Inside(q) ==> q.x == 0.0 && q.y == 1.0
  {
    if box.Contains(q) && f.Inside(q) {
      var p := f.planes[1];
      assert p == Plane(Vector3(-1.0, 1.0, 0.0), -1.0);
      assert p.DistanceToPoint(q) >= 0.0;
      TouchingOnly(p, box, q);
    }
  }

  lemma TouchingOnly(p: Plane, box: AABB, q: Vector3)
    requires p == Plane(Vector3(-1.0, 1.0, 0.0), -1.0) && box == AABB(Zero(), One())
    requires box.Contains(q) && p.DistanceToPoint(q) >= 0.0
    ensures q.x == 0.0 && q.y == 1.0
  {
    SlopedPlane(p, q);
  }

  lemma ExampleAccepted(f: Frustum, box: AABB)
    requires f == Frustum([Plane(Right(), 0.0), Plane(Vector3(-1.0, 1.0, 0.0), -1.0)])
    requires box == AABB(Zero(), One())
    ensures f.MayIntersect(box)
  {
    forall i | 0 <= i < |f.planes|
      ensures f.planes[i].DistanceToPoint(PositiveVertex(f.planes[i].normal, box)) >= 0.0
    {
      if i == 0 {
        assert PositiveVertex(f.planes[i].normal, box) == One();
      } else {
        SlopedPlane(f.planes[i], PositiveVertex(f.planes[i].normal, box));
      }
    }
  }

  lemma SlopedPlane(p: Plane, q: Vector3)
    requires p == Plane(Vector3(-1.0, 1.0, 0.0), -1.0)
    ensures p.DistanceToPoint(q) == q.y - q.x - 1.0
  {
  }

  // ---------------------------------------------------------------- Transform

  /** A transform: scale first, then rotate, then move by position. */
  datatype Transform = Transform(position: Vector3, rotation: Quaternions.Quaternion, scale: Vector3) {

    /** transformPoint(p) = rotation * (p * scale) + position, the product componentwise. */
    function TransformPoint(p: Vector3): Vector3 {
      rotation.Rotate(p.Mul(scale)).Add(position)
    }

    /** transformDirection(d) = rotation * d: directions are neither scaled nor moved. */
    function TransformDirection(d: Vector3): Vector3 {
      rotation.Rotate(d)
    }

    /** The matrix toMatrix() returns: translation(position) * rotation matrix * scaling(scale). */
    function Matrix(): Matrices.Matrix {
      Matrices.Product(Matrices.Product(Matrices.Translation(position), rotation.RotationMatrix()),
                       Matrices.Scaling(scale))
    }

    /** toMatrix(): the three factory matrices, multiplied left to right. */
    method ToMatrix() returns (m: Matrices.Matrix4x4)
      ensures m.Valid() && fresh(m.data)
      ensures m.Value() == Matrix()
    {
      var t := Matrices.Matrix4x4.MakeTranslation(position);
      var r := Quaternions.ToRotationMatrix(rotation);
      var s := Matrices.Matrix4x4.MakeScaling(scale);
      var tr := t.Multiply(r);
      m := tr.Multiply(s);
    }
  }

  /** Transform(): position zero, the identity rotation, scale one. */
  function DefaultTransform(): Transform {
    Transform(Zero(), Quaternions.Identity(), One())
  }

  /** The default transform moves no point and turns no direction. */
  lemma DefaultTransformNeutral(t: Transform, p: Vector3)
    requires t == DefaultTransform()
    ensures t.TransformPoint(p) == p
    ensures t.TransformDirection(p) == p
  {
    var q := p.Mul(t.scale);
    assert q == p;
    assert t.TransformDirection(p) == p by {
      Quaternions.RotateByIdentity(p);
    }
    assert t.TransformPoint(p) == t.TransformDirection(q).Add(t.position);
  }

  /** The default transform's matrix is the identity matrix. */
  lemma DefaultTransformMatrix()
    ensures DefaultTransform().Matrix() == Matrices.Identity()
  {
    Quaternions.RotationMatrixOfIdentity();
    Matrices.NeutralFactories();
    Matrices.ProductIdentity(Matrices.Identity());
  }

  /**
   * For a unit rotation, transformPoint is the point times scaling(scale),
   * then the rotation matrix, then translation(position), and
   * transformDirection is the direction times the rotation matrix.
   */
  lemma TransformStages(t: Transform, p: Vector3)
    requires t.rotation.NormSquared() == 1.0
    ensures t.TransformPoint(p) ==
      Matrices.Apply(Matrices.Translation(t.position),
        Matrices.Apply(t.rotation.RotationMatrix(), Matrices.Apply(Matrices.Scaling(t.scale), p)))
    ensures t.TransformDirection(p) == Matrices.Apply(t.rotation.RotationMatrix(), p)
  {
    Matrices.ScalingScalesPoints(t.scale, p);
    Quaternions.RotationMatrixRotates(t.rotation, p.Mul(t.scale));
    Matrices.TranslationMovesPoints(t.position, t.rotation.Rotate(p.Mul(t.scale)));
    Quaternions.RotationMatrixRotates(t.rotation, p);
  }

  /** For a unit rotation, toMatrix() * p is transformPoint(p). */
  lemma MatrixTransformsPoints(t: Transform, p: Vector3)
    requires t.rotation.NormSquared() == 1.0
    ensures Matrices.Apply(t.Matrix(), p) == t.TransformPoint(p)
  {
    var tm, rm, sm := Matrices.Translation(t.position), t.rotation.RotationMatrix(), Matrices.Scaling(t.scale);
    Matrices.ApplyProduct(Matrices.Product(tm, rm), sm, p);
    Matrices.ApplyProduct(tm, rm, Matrices.Apply(sm, p));
    TransformStages(t, p);
  }
}
