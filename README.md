# A verified model of the renderfx math library

This project models the header-only C++ math library of renderfx in Dafny and proves properties of the model. The library lives in `include/math/*.inl`:
- 2-D and 3-D vectors;
- axis-aligned rectangles;
- row-major 4x4 matrices;
- quaternions;
- the geometric primitives built on them: ray, axis-aligned box, plane, sphere, frustum and transform.

Scalars are exact reals. `Scalars.Epsilon` stands for `std::numeric_limits<float>::epsilon()`. Every exception the library throws becomes an `Err` of a `Result` (or a `Fail` of an `Outcome`), tagged with the exception type:
- `out_of_range`;
- `invalid_argument`;
- `domain_error`;
- `runtime_error`.

Form follows the source:
- Operations that build new values are functions on datatypes (`Vector2`, `Vector3`, `Rect`, `Quaternion`, `Ray`, `AABB`, `Plane`, `Sphere`, `Frustum`, `Transform`).
- Operations that update an object in place are methods of classes. These are the compound assignments and `normalize` of the vectors (`MutableVector2`, `MutableVector3`) and `Rect::expand` (`MutableRect`).
- `Matrix4x4` is a class over a 4x4 array. The sixteen-value constructor, the factories, the triple loop of `operator*`, `transposed` and `inverse` write the cells one at a time, as the source does. The default constructor and `setIdentity` assign the whole array at once, in the source and in the model. The algebra of matrices is stated on the value `Matrices.Matrix` (four rows of four reals).
- The loops of `AABB::intersects`, `Frustum::contains` and `Frustum::intersects` are methods with `while` loops. Each is proved against a recursive or quantified specification.

Files and modules: `scalars.dfy` (Scalars), `vector2.dfy` (Vectors2), `vector3.dfy` (Vectors3), `rect.dfy` (Rects), `matrix4x4.dfy` (Matrices), `quaternion.dfy` (Quaternions), `geometry.dfy` (Geometry).

Square roots are never computed. Where the source takes `length()`, `magnitude()` or `std::sqrt`, the model takes the value as a parameter (`len`, `mag`, `root`). A precondition gives that parameter its defining property: it is non-negative and its square is the squared length.

Where the header documentation and the code disagree, the model follows the code:
- `Ray()` has direction forward, not zero (Geometry.h:21).
- `Plane()` has normal up, not zero (Geometry.h:97).
- `Sphere()` has radius 1, not zero (Geometry.h:147).
- `Matrix4x4()` is the identity, not zeroes (Matrix4x4.h:21-23).

## Model

| member | source | states |
|---|---|---|
| Scalars.Abs | include/math/Vector2.inl:51 | std::abs: the result is non-negative and is a or -a |
| Scalars.Min | include/math/Rect.inl:52-55 | std::min: no larger than either argument and equal to one of them |
| Scalars.Max | include/math/Rect.inl:52-55 | std::max: no smaller than either argument and equal to one of them |
| Vectors2.Vector2.At | include/math/Vector2.inl:10-20 | operator[] succeeds exactly for 0 and 1, which give x and y; any other index is out_of_range |
| Vectors2.Vector2.Div | include/math/Vector2.inl:49-54 | operator/ throws invalid_argument exactly when \|s\| < epsilon; otherwise the quotient scaled back by s is the vector |
| Vectors2.Vector2.Normalized | include/math/Vector2.inl:90-96 | domain_error exactly when lengthSquared < epsilon²; otherwise a unit vector that scaled by the length gives the vector back |
| Vectors2.Vector2.NotEquals | include/math/Vector2.inl:106-115 | operator!= holds exactly when there is an index i in 0..1 whose components (through operator[]) differ by epsilon or more |
| Vectors2.ScaleLeft | include/math/Vector2.inl:147-150 | s * v multiplies each component by s |
| Vectors2.UnitAfterDivision | include/math/Vector2.inl:90-96 | dividing by the vector's own positive length gives a vector of length 1 |
| Vectors2.ScaleLeftLaws | include/math/Vector2.inl:147-150 | s * v distributes over + in the vector and in the scalar, 1 * v is v, and s * (t * v) is (s t) * v |
| Vectors2.LerpEndpoints | include/math/Vector2.inl:117-120 | lerp(a, b, 0) is a and lerp(a, b, 1) is b |
| Vectors2.DotSymmetric | include/math/Vector2.inl:75-78 | dot is symmetric |
| Vectors2.LengthSquaredIsSelfDot | include/math/Vector2.inl:75-83 | lengthSquared is the dot product with itself and is never negative |
| Vectors2.DivUndoesScale | include/math/Vector2.inl:44-54 | for \|s\| >= epsilon, (v * s) / s succeeds and gives v |
| Vectors2.ApproxEqualsNotTransitive | include/math/Vector2.inl:106-115 | operator== is reflexive and symmetric but not transitive (three points just under epsilon apart); operator!= is its negation |
| Vectors2.MutableVector2.constructor | include/math/Vector2.inl:7-8 | the object holds the given components |
| Vectors2.MutableVector2.SetAt | include/math/Vector2.inl:10-14 | writing through operator[]: out_of_range with nothing written for a bad index, otherwise exactly that component changes |
| Vectors2.MutableVector2.AddAssign | include/math/Vector2.inl:32-36 | after += the object equals the old value + v |
| Vectors2.MutableVector2.SubAssign | include/math/Vector2.inl:38-42 | after -= the object equals the old value - v |
| Vectors2.MutableVector2.ScaleAssign | include/math/Vector2.inl:56-60 | after *= the object equals the old value * s |
| Vectors2.MutableVector2.DivAssign | include/math/Vector2.inl:62-68 | invalid_argument exactly when \|s\| < epsilon, with the vector unchanged; otherwise the object is the old value / s |
| Vectors2.MutableVector2.Normalize | include/math/Vector2.inl:98-104 | domain_error exactly when lengthSquared < epsilon², with the vector unchanged; otherwise the object becomes normalized() of the old value and has length 1 |
| Vectors3.Vector3.At | include/math/Vector3.inl:10-20 | operator[] succeeds exactly for 0, 1, 2, which give x, y, z; any other index is out_of_range |
| Vectors3.Vector3.Div | include/math/Vector3.inl:49-54 | invalid_argument exactly when \|s\| < epsilon; otherwise the quotient scaled back by s is the vector |
| Vectors3.Vector3.Normalized | include/math/Vector3.inl:95-101 | domain_error exactly when lengthSquared < epsilon²; otherwise a unit vector that scaled by the length gives the vector back |
| Vectors3.Vector3.NotEquals | include/math/Vector3.inl:111-121 | operator!= holds exactly when there is an index i in 0..2 whose components (through operator[]) differ by epsilon or more |
| Vectors3.ApproxEqualsNotTransitive | include/math/Vector3.inl:111-121 | operator== is reflexive and symmetric but not transitive (three points just under epsilon apart along x); operator!= is its negation |
| Vectors3.Vector3.ProjectOnto | include/math/Vector3.inl:123-129 | invalid_argument exactly when v.lengthSquared() < epsilon; otherwise a vector parallel to v (zero cross product) whose residual is orthogonal to v |
| Vectors3.UnitAfterDivision | include/math/Vector3.inl:95-101 | dividing by the vector's own positive length gives a vector of length 1 |
| Vectors3.ProjectionResidualOrthogonal | include/math/Vector3.inl:123-129 | with k = a.v / v.v, the residual a - v k is orthogonal to v |
| Vectors3.ScaledCrossZero | include/math/Vector3.inl:123-129 | a multiple of v has zero cross product with v |
| Vectors3.ScaleLeft | include/math/Vector3.inl:179-182 | s * v multiplies each component by s |
| Vectors3.NamedConstantsOpposite | include/math/Vector3.inl:150-172 | up = -down, right = -left, forward = -backward |
| Vectors3.NamedConstantsOrthonormal | include/math/Vector3.inl:150-172 | right, up and forward have length 1 and are pairwise orthogonal |
| Vectors3.NamedConstantsRightHanded | include/math/Vector3.inl:150-172 | right x up = forward |
| Vectors3.ScaleLeftLaws | include/math/Vector3.inl:179-182 | s * v distributes over + in the vector and in the scalar, 1 * v is v, and s * (t * v) is (s t) * v |
| Vectors3.LerpEndpoints | include/math/Vector3.inl:136-139 | lerp(a, b, 0) is a and lerp(a, b, 1) is b |
| Vectors3.DotProperties | include/math/Vector3.inl:75-88 | dot is symmetric; lengthSquared is the dot product with itself and never negative |
| Vectors3.CrossOrthogonal | include/math/Vector3.inl:75-83 | a x b is orthogonal to a and to b |
| Vectors3.CrossAnticommutative | include/math/Vector3.inl:80-83 | b x a = -(a x b) |
| Vectors3.DivUndoesScale | include/math/Vector3.inl:44-54 | for \|s\| >= epsilon, (v * s) / s succeeds and gives v |
| Vectors3.ReflectPreservesLength | include/math/Vector3.inl:131-134 | reflecting in a unit normal keeps lengthSquared |
| Vectors3.ReflectNegatesNormalComponent | include/math/Vector3.inl:131-134 | reflecting in a unit normal negates the component along the normal |
| Vectors3.ReflectInvolution | include/math/Vector3.inl:131-134 | reflecting twice in the same unit normal gives the vector back |
| Vectors3.MutableVector3.constructor | include/math/Vector3.inl:7-8 | the object holds the given components |
| Vectors3.MutableVector3.SetAt | include/math/Vector3.inl:10-14 | writing through operator[]: out_of_range with nothing written for a bad index, otherwise exactly that component changes |
| Vectors3.MutableVector3.AddAssign | include/math/Vector3.inl:32-36 | after += the object equals the old value + v |
| Vectors3.MutableVector3.SubAssign | include/math/Vector3.inl:38-42 | after -= the object equals the old value - v |
| Vectors3.MutableVector3.ScaleAssign | include/math/Vector3.inl:56-60 | after *= the object equals the old value * s |
| Vectors3.MutableVector3.DivAssign | include/math/Vector3.inl:62-68 | invalid_argument exactly when \|s\| < epsilon, with the vector unchanged; otherwise the object is the old value / s |
| Vectors3.MutableVector3.Normalize | include/math/Vector3.inl:103-109 | domain_error exactly when lengthSquared < epsilon², with the vector unchanged; otherwise the object becomes normalized() of the old value and has length 1 |
| Rects.Rect.Center | include/math/Rect.inl:35-36 | the centre is halfway between left and right and between top and bottom |
| Rects.Rect.Intersection | include/math/Rect.inl:50-63 | either the empty Rect() or a rectangle of positive width and height lying inside both operands |
| Rects.FromVectors | include/math/Rect.inl:13-33 | the two-vector constructor: position() and size() give the vectors back; right() = x + width and bottom() = y + height |
| Rects.PositionSizeRoundTrip | include/math/Rect.inl:13-33 | rebuilding from position() and size() gives the same rectangle |
| Rects.ContainsHalfOpen | include/math/Rect.inl:38-42 | the top-left corner of a non-empty rectangle is inside; no point on the right or bottom edge is |
| Rects.EmptyContainsNothing | include/math/Rect.inl:7-8 | Rect() contains no point |
| Rects.IntersectsSymmetric | include/math/Rect.inl:44-48 | intersects is symmetric |
| Rects.SharedEdgeDoesNotIntersect | include/math/Rect.inl:44-48 | rectangles that only share an edge do not intersect |
| Rects.IntersectionCommutative | include/math/Rect.inl:50-63 | intersection is commutative |
| Rects.IntersectionContains | include/math/Rect.inl:50-63 | a point is in the intersection exactly when it is in both rectangles |
| Rects.IntersectsIffIntersectionNonEmpty | include/math/Rect.inl:44-63 | for rectangles of positive size, intersects holds exactly when the intersection has positive area |
| Rects.Expanded | include/math/Rect.inl:65-73 | after expand(p), left and top are the minima of the old edges and p, right and bottom the maxima |
| Rects.ExpandedCovers | include/math/Rect.inl:65-73 | after expand(p), p lies in the closed box and every old point is still contained |
| Rects.ExpandIdempotent | include/math/Rect.inl:65-73 | expanding twice by the same point changes nothing the second time |
| Rects.ExpandContainedNoOp | include/math/Rect.inl:65-73 | expanding by a point already contained changes nothing |
| Rects.ExpandedExcludesFarPoint | include/math/Rect.inl:38-42 | after expand(p) with p on or beyond the right or bottom edge, contains(p) is still false |
| Rects.MutableRect.constructor | include/math/Rect.inl:10-11 | the object holds the given fields |
| Rects.MutableRect.Expand | include/math/Rect.inl:65-73 | expand in place: the new fields are the Expanded rectangle of the old ones |
| Matrices.RowMajorIndexing | include/math/Matrix4x4.inl:11-16 | value i of the sixteen lands in row i / 4, column i % 4 |
| Matrices.ProductIdentity | include/math/Matrix4x4.inl:28-40 | the identity is neutral on both sides of operator* |
| Matrices.ProductEntry | include/math/Matrix4x4.inl:28-40 | the accumulated entry (i, j) is row i of a times column j of b |
| Matrices.ProductAssociative | include/math/Matrix4x4.inl:28-40 | operator* is associative |
| Matrices.TransposeInvolution | include/math/Matrix4x4.inl:61-70 | transposed() undoes itself |
| Matrices.TransposeProduct | include/math/Matrix4x4.inl:28-40 | (a * b) transposed is b transposed * a transposed |
| Matrices.ApplyDividesByW | include/math/Matrix4x4.inl:42-54 | when \|w\| > epsilon, matrix * point times w is the undivided point |
| Matrices.ApplyKeepsSmallW | include/math/Matrix4x4.inl:42-54 | when \|w\| <= epsilon, matrix * point is the undivided point |
| Matrices.AffineApply | include/math/Matrix4x4.inl:42-54 | a matrix with last row (0, 0, 0, 1) maps points without division |
| Matrices.ApplyProduct | include/math/Matrix4x4.inl:28-54 | (a * b) * v = a * (b * v) when b has last row (0, 0, 0, 1) |
| Matrices.NeutralFactories | include/math/Matrix4x4.inl:77-95 | translation(zero) and scaling(one) are the identity |
| Matrices.TranslationMovesPoints | include/math/Matrix4x4.inl:77-85 | translation(t) * v = v + t |
| Matrices.ScalingScalesPoints | include/math/Matrix4x4.inl:87-95 | scaling(s) * v is the componentwise product |
| Matrices.TranslationsCompose | include/math/Matrix4x4.inl:77-85 | translation(a) * translation(b) = translation(a + b) |
| Matrices.OrthographicCorners | include/math/Matrix4x4.inl:159-170 | orthographic maps (l, b, -n) to (-1, -1, -1) and (r, t, -f) to (1, 1, 1) |
| Matrices.DetIdentity | include/math/Matrix4x4.inl:235-247 | determinant of the identity is 1 |
| Matrices.DetTranslation | include/math/Matrix4x4.inl:235-247 | determinant of a translation is 1 |
| Matrices.DetScaling | include/math/Matrix4x4.inl:235-247 | determinant of scaling(s) is sx sy sz |
| Matrices.InlineDetIsDet | include/math/Matrix4x4.inl:186-218 | the determinant inverse() forms from column 0 of its cofactors equals determinant() |
| Matrices.ScaledComposes | include/math/Matrix4x4.inl:226-230 | the closing `*= det` loop's scaling: by 1 it changes nothing, two scalings compose to one by the product, and a scaling by a non-zero s is undone by one by 1/s |
| Matrices.InverseAsWritten | include/math/Matrix4x4.inl:185-233 | runtime_error exactly when \|determinant()\| < epsilon; otherwise the filled matrix scaled by 1 / determinant() |
| Matrices.InverseFillPattern | include/math/Matrix4x4.inl:186-232 | columns 1 to 3 of the result are the identity's, scaled by 1 / determinant() |
| Matrices.FillIsAdjugateColumn | include/math/Matrix4x4.inl:190-216 | the four cofactors inverse() writes into column 0 are column 0 of the adjugate |
| Matrices.InverseAsWrittenColumnZero | include/math/Matrix4x4.inl:186-232 | whenever \|determinant()\| >= epsilon, column 0 of inverse() as written equals the true inverse's column 0, so m times the result has the first unit vector as column 0 |
| Matrices.InverseAsWrittenNotInverse | include/math/Matrix4x4.inl:186-232 | for m = 2I inverse() returns diag(1/2, 1/16, 1/16, 1/16), and m times it has 1/8, not 1, at (1, 1) |
| Matrices.ExpandIsDet | include/math/Matrix4x4.inl:235-247 | the cofactor expansion along the first row is determinant() |
| Matrices.ExpandRepeated | include/math/Matrix4x4.inl:235-247 | a determinant with a repeated row is 0 |
| Matrices.ExpandMoved | include/math/Matrix4x4.inl:235-247 | moving the first row past one, two or three rows multiplies the determinant by -1, 1, -1 |
| Matrices.DetTranspose | include/math/Matrix4x4.inl:235-247 | determinant() of the transpose is determinant() |
| Matrices.AdjugateTranspose | include/math/Matrix4x4.inl:190-216 | the adjugate of the transpose is the transpose of the adjugate |
| Matrices.ProductAdjugate | include/math/Matrix4x4.inl:190-218 | m times its adjugate is determinant() times the identity |
| Matrices.AdjugateProduct | include/math/Matrix4x4.inl:190-218 | the adjugate times m is determinant() times the identity |
| Matrices.InverseByAdjugate | include/math/Matrix4x4.h:160-164 | inverse() as documented: runtime_error exactly when \|determinant()\| < epsilon, otherwise a matrix that is a left and right inverse of m |
| Matrices.Matrix4x4.constructor | include/math/Matrix4x4.inl:8-9 | Matrix4x4() holds the identity |
| Matrices.Matrix4x4.FromValues | include/math/Matrix4x4.inl:11-16 | the sixteen-value constructor holds the values row by row |
| Matrices.Matrix4x4.At | include/math/Matrix4x4.inl:23-26 | operator() const reads entry (row, col) |
| Matrices.Matrix4x4.Set | include/math/Matrix4x4.inl:18-21 | writing through operator() changes exactly that cell |
| Matrices.Matrix4x4.SetIdentity | include/math/Matrix4x4.inl:56-59 | setIdentity() makes the object the identity |
| Matrices.Matrix4x4.Multiply | include/math/Matrix4x4.inl:28-40 | the triple loop yields the matrix product of the two values |
| Matrices.Matrix4x4.AccumulateCell | include/math/Matrix4x4.inl:33-36 | the innermost loop sets result(i, j) to row i times column j and no other cell |
| Matrices.Matrix4x4.Transposed | include/math/Matrix4x4.inl:61-70 | the double loop yields the transpose |
| Matrices.Matrix4x4.MakeIdentity | include/math/Matrix4x4.inl:72-75 | identity() holds the identity |
| Matrices.Matrix4x4.MakeTranslation | include/math/Matrix4x4.inl:77-85 | translation(t) holds the identity with t in the last column |
| Matrices.Matrix4x4.MakeScaling | include/math/Matrix4x4.inl:87-95 | scaling(s) holds s on the diagonal |
| Matrices.Matrix4x4.MakeOrthographic | include/math/Matrix4x4.inl:159-170 | orthographic holds the glOrtho matrix |
| Matrices.Matrix4x4.ScaleAll | include/math/Matrix4x4.inl:226-230 | the final loop of inverse() makes the object its old value Scaled by s |
| Matrices.Matrix4x4.ScaleCells | include/math/Matrix4x4.inl:226-230 | every cell is multiplied by s |
| Matrices.Matrix4x4.Inverse | include/math/Matrix4x4.inl:185-233 | runtime_error exactly when \|determinant()\| < epsilon; otherwise a fresh matrix holding InverseAsWritten |
| Quaternions.Quaternion.Normalized | include/math/Quaternion.inl:46-53 | runtime_error exactly when the squared magnitude is below epsilon²; otherwise a unit quaternion that scaled by the magnitude gives the quaternion back |
| Quaternions.Quaternion.Inverse | include/math/Quaternion.inl:60-68 | runtime_error exactly when w² + x² + y² + z² < epsilon; otherwise a two-sided inverse for the Hamilton product |
| Quaternions.RotationEntries | include/math/Quaternion.inl:70-89 | row 3 and column 3 of the rotation matrix are those of the identity |
| Quaternions.DivideByMagnitude | include/math/Quaternion.inl:46-53 | dividing by the positive magnitude gives a unit quaternion that scales back |
| Quaternions.InverseIsTwoSided | include/math/Quaternion.inl:60-68 | the conjugate divided by w² + x² + y² + z² is a left and a right inverse |
| Quaternions.IdentityNeutral | include/math/Quaternion.inl:9-32 | the default quaternion is a two-sided identity of operator* |
| Quaternions.MulAssociative | include/math/Quaternion.inl:24-32 | the Hamilton product is associative |
| Quaternions.MulNotCommutative | include/math/Quaternion.inl:24-32 | i j = k but j i = -k |
| Quaternions.ConjugateInvolution | include/math/Quaternion.inl:55-58 | conjugate() undoes itself |
| Quaternions.ConjugateOfProduct | include/math/Quaternion.inl:24-58 | conj(p q) = conj(q) conj(p) |
| Quaternions.MulConjugate | include/math/Quaternion.inl:24-58 | q conj(q) and conj(q) q are (w² + x² + y² + z², 0, 0, 0) |
| Quaternions.InverseOfUnit | include/math/Quaternion.inl:55-68 | for a unit quaternion inverse() is conjugate() |
| Quaternions.ConjugateOfIdentity | include/math/Quaternion.inl:9-58 | the default quaternion is its own conjugate |
| Quaternions.RotateByIdentity | include/math/Quaternion.inl:34-39 | the default quaternion leaves every vector unchanged |
| Quaternions.SandwichIsPure | include/math/Quaternion.inl:34-39 | q (0, v) conj(q) has w = 0, so the rotation drops nothing |
| Quaternions.RotateCompose | include/math/Quaternion.inl:24-39 | rotating by p q is rotating by q, then by p |
| Quaternions.RotationMatrixOfIdentity | include/math/Quaternion.inl:70-89 | the default quaternion's rotation matrix is the identity |
| Quaternions.RotationMatrixRotates | include/math/Quaternion.inl:34-89 | for a unit quaternion, toRotationMatrix() * v is q * v |
| Quaternions.ToRotationMatrix | include/math/Quaternion.inl:70-89 | the matrix object holds the rotation matrix of q |
| Quaternions.RotationMatrixOf | include/math/Quaternion.inl:72-88 | the pairwise products written into a default matrix give the rotation matrix |
| Geometry.AxisIsAt | include/math/Geometry.inl:31-38 | the coordinate the slab loop reads is v[i] |
| Geometry.Ray.GetPoint | include/math/Geometry.inl:14-17 | getPoint(t) minus the origin is direction * t |
| Geometry.MakeRay | include/math/Geometry.inl:10-12 | domain_error exactly for a direction shorter than epsilon; otherwise the origin and a unit direction that scaled by its length is the argument |
| Geometry.GetPointAdditive | include/math/Geometry.inl:14-17 | getPoint(0) is the origin; walking s then t is walking s + t |
| Geometry.AABB.Intersects | include/math/Geometry.inl:25-50 | the loop returns what the slab specification SlabsFrom gives; on success tMin <= tMax; false when some near-parallel axis has the origin outside its slab |
| Geometry.ContainsByAxis | include/math/Geometry.inl:52-57 | contains is min <= p <= max in each coordinate, faces included |
| Geometry.ContainsCorners | include/math/Geometry.inl:52-57 | a box contains its corners exactly when min <= max |
| Geometry.ExtMax | include/math/Geometry.inl:42 | std::max of an extended bound and t: no smaller than either, equal to one |
| Geometry.ExtMin | include/math/Geometry.inl:43 | std::min of an extended bound and t: no larger than either, equal to one |
| Geometry.SlabsNarrow | include/math/Geometry.inl:30-47 | across the loop tMin never decreases and tMax never increases |
| Geometry.SlabsHitOrdered | include/math/Geometry.inl:30-49 | when the test succeeds, tMin <= tMax |
| Geometry.ParallelOutsideMisses | include/math/Geometry.inl:31-34 | an axis below epsilon whose slab misses the origin makes the test fail |
| Geometry.SlabCrossing | include/math/Geometry.inl:37-40 | for a non-zero direction, t is between the swapped crossing parameters exactly when o + d t is in [lo, hi] |
| Geometry.SlabsSound | include/math/Geometry.inl:30-49 | every t in the final [tMin, tMax] puts getPoint(t) in the remaining slabs |
| Geometry.ContainsBySlabs | include/math/Geometry.inl:14-57 | getPoint(t) is in the box exactly when it is in all three slabs |
| Geometry.ParallelSlab | include/math/Geometry.inl:31-34 | with zero direction on an axis, every point of the ray is in that slab exactly when the origin is |
| Geometry.CrossedSlab | include/math/Geometry.inl:37-43 | on a non-parallel axis, t is between the crossing parameters exactly when getPoint(t) is in the slab |
| Geometry.SlabsComplete | include/math/Geometry.inl:30-49 | a t whose point is in the remaining slabs makes the test succeed with t in [tMin, tMax] |
| Geometry.IntersectsExactly | include/math/Geometry.inl:25-57 | for a well-formed box, intersects succeeds with t in [tMin, tMax] exactly when getPoint(t) is in the box |
| Geometry.Plane.IntersectsRay | include/math/Geometry.inl:75-83 | parallel within epsilon: false and t untouched; otherwise t is the unique parameter whose point is on the plane, and the result is t >= 0 |
| Geometry.DefaultPlaneIsGround | include/math/Geometry.inl:59-73 | the default plane is y = 0 |
| Geometry.DistanceAlongRay | include/math/Geometry.inl:70-73 | along a ray the signed distance changes linearly at rate normal . direction |
| Geometry.PlaneFromDistance | include/math/Geometry.inl:62-64 | domain_error exactly for a normal shorter than epsilon; otherwise a unit normal and the given distance |
| Geometry.PlaneThroughPointAsWritten | include/math/Geometry.inl:66-68 | as written: domain_error exactly when the normal is shorter than epsilon; otherwise the stored normal is the unit vector along the given one, and the point's signed distance is (1 - length) times normal . point |
| Geometry.PlaneThroughPointMissesPoint | include/math/Geometry.inl:66-68 | normal (0, 2, 0) through (0, 1, 0) gives the plane y - 2 = 0, at distance -1 from the point |
| Geometry.PlaneThroughPointOffByLength | include/math/Geometry.inl:66-68 | as written, the point is on the plane only for a unit normal or a point orthogonal to it |
| Geometry.PlaneThroughPoint | include/math/Geometry.inl:66-68 | corrected: domain_error for a short normal; otherwise a unit normal with the point on the plane |
| Geometry.PlaneThroughPointAgreesForUnitNormal | include/math/Geometry.inl:66-68 | for a unit normal the as-written and corrected constructors agree |
| Geometry.Sphere.IntersectsRay | include/math/Geometry.inl:96-110 | true exactly when not (c > 0 and b > 0) and the discriminant is not negative; on false t is untouched; on true t >= 0 and is 0 for an origin inside; for a unit direction, getPoint(t) is inside and no earlier point from 0 on is |
| Geometry.SurfaceIsContained | include/math/Geometry.inl:91-94 | contains includes the surface |
| Geometry.SphereQuadratic | include/math/Geometry.inl:96-100 | along a ray, \|p - c\|² - r² is t² \|d\|² + 2 b t + c |
| Geometry.ContainsAlongUnitRay | include/math/Geometry.inl:91-100 | for a unit direction, getPoint(t) is inside exactly when (t + b)² <= b² - c |
| Geometry.EntryParameter | include/math/Geometry.inl:104-109 | the clamped t is inside the sphere and no earlier parameter from 0 on is; it is 0 for an origin inside |
| Geometry.MissMeansNoForwardPoint | include/math/Geometry.inl:102-105 | when the test fails, no point of a unit-direction ray from t = 0 on is inside |
| Geometry.Frustum.Contains | include/math/Geometry.inl:136-144 | true exactly when every plane has the point on its non-negative side |
| Geometry.Frustum.Intersects | include/math/Geometry.inl:146-159 | true exactly when every plane has the box's positive vertex on its non-negative side |
| Geometry.DefaultFrustumIsHalfSpace | include/math/Geometry.inl:136-144 | the default frustum has six default planes, so a point is inside exactly when y >= 0 |
| Geometry.PositiveVertexMaximises | include/math/Geometry.inl:149-154 | no point of the box is further along the normal than the positive vertex, which is in the box when min <= max |
| Geometry.DotBelowPositiveVertex | include/math/Geometry.inl:149-152 | the positive vertex maximises normal . q over the box |
| Geometry.IntersectsConservative | include/math/Geometry.inl:146-159 | a box holding a point the frustum contains is never rejected |
| Geometry.PointBoxAgrees | include/math/Geometry.inl:136-159 | the degenerate box [p, p] passes intersects exactly when contains(p) holds |
| Geometry.IntersectsNotExact | include/math/Geometry.inl:146-159 | intersects can accept a box that only touches the frustum along an edge |
| Geometry.Transform.ToMatrix | include/math/Geometry.inl:169-174 | the object holds translation(position) * rotation matrix * scaling(scale) |
| Geometry.DefaultTransformNeutral | include/math/Geometry.inl:161-184 | the default transform moves no point and turns no direction |
| Geometry.DefaultTransformMatrix | include/math/Geometry.inl:161-174 | the default transform's matrix is the identity |
| Geometry.TransformStages | include/math/Geometry.inl:176-184 | for a unit rotation, transformPoint is scaling, then the rotation matrix, then translation, applied to the point; transformDirection is the rotation matrix alone |
| Geometry.MatrixTransformsPoints | include/math/Geometry.inl:169-179 | for a unit rotation, toMatrix() * p = transformPoint(p) |

## Left out

- Exact reals replace floating point. Rounding, overflow, NaN and the infinities of `float` are not modelled. The two infinite start values of `AABB::intersects` are the `Extended` values `NegInfinity` and `PosInfinity`.
- The integer instantiations (`Vector2i`, `Vector3i`, `Recti`) are not modelled. There epsilon is 0 and `/` truncates toward zero, for example in `Rect::center`.
- Square roots (`length()`, `magnitude()`, the `std::sqrt` of `Sphere::intersects`) are parameters of the members that need them. The members are `Normalized`, `Normalize`, `MakeRay`, `PlaneFromDistance`, `PlaneThroughPoint` and `Sphere.IntersectsRay`. A precondition ties each parameter to the squared length it is the root of.
- `Geometry.AABB.Intersects`: its contract is exact, and the soundness and completeness lemmas beside it (`IntersectsExactly`) are stated for rays whose below-epsilon direction components are exactly 0. For a component that is non-zero but below epsilon, the test treats the ray as parallel even though its points drift across the slab.
- Trigonometry is not modelled:
  - `Vector3::slerp` (Vector3.inl:141-148);
  - the axis-angle constructor, `fromAxisAngle`, `toEulerAngles`, `fromEulerAngles` and `slerp` of Quaternion (Quaternion.inl:14-22, 91-172);
  - `rotationX`, `rotationY`, `rotationZ`, `lookAt` and `perspective` (Matrix4x4.inl:97-157, 172-183).
- `Transform::interpolate` (Geometry.inl:186-193) is lerp plus the quaternion slerp, so it is not modelled.
- `Frustum(viewProjection)` and `Frustum::updatePlanes` (Geometry.inl:112-134) are not modelled. They normalise through `length()`, a square root, and divide inside a `noexcept` function. The frustum is modelled through its planes; `DefaultFrustum` is `Frustum() = default`, six default planes.
- `Matrices.Orthographic` and `Matrices.Matrix4x4.MakeOrthographic` require non-empty extents. The source divides by zero there, which the model does not represent.
- `Matrices.Matrix4x4.At` and `Matrices.Matrix4x4.Set` require 0 <= row, col < 4, because `operator()` has no bounds check and reads outside the array otherwise.
- The Plane constructors `Plane(normal, distance)` and `Plane(normal, point)` (Geometry.h:107, 115; Geometry.inl:62-68) are `noexcept` yet call `normalized()`, which can throw; in C++ that ends the program (`std::terminate`). `PlaneFromDistance`, `PlaneThroughPoint` and `PlaneThroughPointAsWritten` return `Err(DomainError)` instead. `Ray(origin, direction)` is not `noexcept`, so its domain_error reaches the caller exactly as `MakeRay` returns it.
- `Matrices.Matrix4x4.Inverse` follows the code as written and holds `InverseAsWritten`. The corrected `InverseByAdjugate` (see Findings) is stated on matrix values only; no class method computes it.
- `Quaternions.Quaternion.Inverse`: the guard compares the squared magnitude with epsilon, while `normalized()` compares the magnitude itself. Both comparisons are modelled as written.
- The quaternion magnitude's multiplicativity (|p q| = |p| |q|) is not stated.
- The stream `operator<<` of Vector2, Vector3 and Rect is output only and is not modelled.
- The `.h` files hold declarations and documentation only. Their defaults disagree with the code in four places (see above); the model follows the code.

## Findings

| source | as written | input that shows it | evidently intended | confidence | as-written member | corrected member |
|---|---|---|---|---|---|---|
| include/math/Geometry.inl:66-68 | `Plane(normal, point)` stores the normalised normal but computes the distance from the un-normalised argument, `-normal.dot(point)` | normal (0, 2, 0), point (0, 1, 0): the plane is y - 2 = 0, and the point's signed distance is -1 | the point lies on the plane, as the parameter's documentation "a point on the plane" says (Geometry.h:110-113) | high; not executed | Geometry.PlaneThroughPointMissesPoint | Geometry.PlaneThroughPoint |
| include/math/Matrix4x4.inl:186-232 | `inverse()` computes only column 0 of the inverse (the cofactors of row 0). Columns 1 to 3 are never written, so they stay the default identity's and are then scaled by 1 / det | m = 2I: the result is diag(1/2, 1/16, 1/16, 1/16), and m times it has 1/8 at (1, 1) | the inverse of the matrix, as the documentation "@return The inverse of this matrix" says (Matrix4x4.h:160-164) | high; not executed | Matrices.InverseAsWrittenNotInverse | Matrices.InverseByAdjugate |
