// The 4x4 transform constructors of Inc/VecMat.h: Scale, Translate, the rotations, the
// orthographic and perspective projections, the camera (LookTowards, LookAt) and ReferenceFrame.
// Points are vec4(p, 1), directions vec4(d, 0).

module Transforms {
  import opened Vectors
  import opened Matrices

  // ---------------------------------------------------------------- Scale and Translate

  /** Scale(x, y, z): the identity with x, y and z written on the diagonal. */
  function ScaleXYZ(x: real, y: real, z: real): Mat4
  {
    var c := Identity4;
    c.(r0 := c.r0.(x := x)).(r1 := c.r1.(y := y)).(r2 := c.r2.(z := z))
  }

  /** Scale(vec3 s) and Scale(float f). */
  function ScaleV(s: Vec3): Mat4 { ScaleXYZ(s.x, s.y, s.z) }
  function ScaleUniform(f: real): Mat4 { ScaleXYZ(f, f, f) }

  /** Scale multiplies each coordinate by its factor and keeps w. */
  lemma ScaleIsDiagonal(x: real, y: real, z: real, p: Vec4)
    ensures ScaleXYZ(x, y, z) == Mat4(Vec4(x, 0.0, 0.0, 0.0), Vec4(0.0, y, 0.0, 0.0), Vec4(0.0, 0.0, z, 0.0), Vec4(0.0, 0.0, 0.0, 1.0))
    ensures MulVec4(ScaleXYZ(x, y, z), p) == Vec4(x * p.x, y * p.y, z * p.z, p.w)
  {
  }

  /** Uniform scaling by 1 is the identity. */
  lemma UnitScaleIsIdentity()
    ensures ScaleUniform(1.0) == Identity4
  {
  }

  /** Translate(x, y, z): the identity with the offset in the last column. */
  function Translate(t: Vec3): Mat4
  {
    Mat4(Vec4(1.0, 0.0, 0.0, t.x), Vec4(0.0, 1.0, 0.0, t.y), Vec4(0.0, 0.0, 1.0, t.z), Vec4(0.0, 0.0, 0.0, 1.0))
  }

  /** Translate moves a point by t and leaves a direction alone. */
  lemma TranslateMovesPoints(t: Vec3, p: Vec3)
    ensures MulVec4(Translate(t), Vec4Of3(p, 1.0)) == Vec4Of3(Add3(p, t), 1.0)
  {
  }

  lemma TranslateKeepsDirections(t: Vec3, d: Vec3)
    ensures MulVec4(Translate(t), Vec4Of3(d, 0.0)) == Vec4Of3(d, 0.0)
  {
  }

  /** Two translations compose to their sum. */
  lemma TranslationsCompose(s: Vec3, t: Vec3)
    ensures MatMul4(Translate(s), Translate(t)) == Translate(Add3(s, t))
  {
    var b := Translate(t);
    assert Col4(b, 0) == Vec4(1.0, 0.0, 0.0, 0.0) && Col4(b, 1) == Vec4(0.0, 1.0, 0.0, 0.0);
    assert Col4(b, 2) == Vec4(0.0, 0.0, 1.0, 0.0) && Col4(b, 3) == Vec4(t.x, t.y, t.z, 1.0);
  }

  // ---------------------------------------------------------------- rotations

  /** DegreesToRadians = 3.14159265358f/180.f. */
  const DegreesToRadians: real := 3.14159265358 / 180.0

  /** RotateX(theta): cos on [1][1] and [2][2], sin on [2][1], -sin on [1][2]. */
  function RotateX(lib: MathLib, theta: real): Mat4
  {
    var angle := DegreesToRadians * theta;
    var c, s := lib.cos(angle), lib.sin(angle);
    Mat4(Vec4(1.0, 0.0, 0.0, 0.0), Vec4(0.0, c, -s, 0.0), Vec4(0.0, s, c, 0.0), Vec4(0.0, 0.0, 0.0, 1.0))
  }

  /** RotateY(theta): cos on [0][0] and [2][2], sin on [0][2], -sin on [2][0]. */
  function RotateY(lib: MathLib, theta: real): Mat4
  {
    var angle := DegreesToRadians * theta;
    var c, s := lib.cos(angle), lib.sin(angle);
    Mat4(Vec4(c, 0.0, s, 0.0), Vec4(0.0, 1.0, 0.0, 0.0), Vec4(-s, 0.0, c, 0.0), Vec4(0.0, 0.0, 0.0, 1.0))
  }

  /** RotateZ(theta): cos on [0][0] and [1][1], sin on [1][0], -sin on [0][1]. */
  function RotateZ(lib: MathLib, theta: real): Mat4
  {
    var angle := DegreesToRadians * theta;
    var c, s := lib.cos(angle), lib.sin(angle);
    Mat4(Vec4(c, -s, 0.0, 0.0), Vec4(s, c, 0.0, 0.0), Vec4(0.0, 0.0, 1.0, 0.0), Vec4(0.0, 0.0, 0.0, 1.0))
  }

  /** Each rotation leaves its own axis, and every w, in place, whatever sin and cos are. */
  lemma RotationsFixTheirAxis(lib: MathLib, theta: real, k: real, w: real)
    ensures MulVec4(RotateX(lib, theta), Vec4(k, 0.0, 0.0, w)) == Vec4(k, 0.0, 0.0, w)
    ensures MulVec4(RotateY(lib, theta), Vec4(0.0, k, 0.0, w)) == Vec4(0.0, k, 0.0, w)
    ensures MulVec4(RotateZ(lib, theta), Vec4(0.0, 0.0, k, w)) == Vec4(0.0, 0.0, k, w)
  {
  }

  /** sin^2 + cos^2 = 1 at the given angle. */
  ghost predicate Pythagorean(lib: MathLib, angle: real)
  {
    lib.sin(angle) * lib.sin(angle) + lib.cos(angle) * lib.cos(angle) == 1.0
  }

  /** When sin and cos satisfy sin^2 + cos^2 = 1, RotateZ is orthogonal: its transpose undoes it. */
  lemma RotateZIsOrthogonal(lib: MathLib, theta: real)
    requires Pythagorean(lib, DegreesToRadians * theta)
    ensures MatMul4(Transpose4(RotateZ(lib, theta)), RotateZ(lib, theta)) == Identity4
  {
    var angle := DegreesToRadians * theta;
    var c, s := lib.cos(angle), lib.sin(angle);
    var r := RotateZ(lib, theta);
    assert Transpose4(r) == Mat4(Vec4(c, s, 0.0, 0.0), Vec4(-s, c, 0.0, 0.0), Vec4(0.0, 0.0, 1.0, 0.0), Vec4(0.0, 0.0, 0.0, 1.0));
    assert Col4(r, 0) == Vec4(c, s, 0.0, 0.0) && Col4(r, 1) == Vec4(-s, c, 0.0, 0.0);
    assert Col4(r, 2) == Vec4(0.0, 0.0, 1.0, 0.0) && Col4(r, 3) == Vec4(0.0, 0.0, 0.0, 1.0);
  }

  // ---------------------------------------------------------------- projections

  /** Orthographic(left, right, bottom, top, zNear = -1, zFar = 1). */
  function Orthographic(left: real, right: real, bottom: real, top: real, zNear: real, zFar: real): Mat4
    requires right != left && top != bottom && zNear != zFar
  {
    Mat4(Vec4(2.0 / (right - left), 0.0, 0.0, -(right + left) / (right - left)),
         Vec4(0.0, 2.0 / (top - bottom), 0.0, -(top + bottom) / (top - bottom)),
         Vec4(0.0, 0.0, 2.0 / (zNear - zFar), -(zFar + zNear) / (zFar - zNear)),
         Vec4(0.0, 0.0, 0.0, 1.0))
  }

  /** With the default z range, Orthographic(-1, 1, -1, 1) is diag(1, 1, -1, 1): it negates z. */
  lemma OrthographicDefaultFlipsZ(p: Vec4)
    ensures Orthographic(-1.0, 1.0, -1.0, 1.0, -1.0, 1.0) == Mat4(Vec4(1.0, 0.0, 0.0, 0.0), Vec4(0.0, 1.0, 0.0, 0.0), Vec4(0.0, 0.0, -1.0, 0.0), Vec4(0.0, 0.0, 0.0, 1.0))
    ensures MulVec4(Orthographic(-1.0, 1.0, -1.0, 1.0, -1.0, 1.0), p) == Vec4(p.x, p.y, -p.z, p.w)
  {
  }

  /** The box's near-bottom-left corner, at z = -zNear, goes to (-1, -1, -1), and its far-top-right
      corner, at z = -zFar, to (1, 1, 1). */
  lemma OrthographicMapsNearCorner(l: real, r: real, b: real, t: real, n: real, f: real)
    requires r != l && t != b && n != f
    ensures MulVec4(Orthographic(l, r, b, t, n, f), Vec4(l, b, -n, 1.0)) == Vec4(-1.0, -1.0, -1.0, 1.0)
  {
    OrthoAxis(l, r, l, -1.0);
    OrthoAxis(b, t, b, -1.0);
    OrthoDepth(n, f, n, -1.0);
  }

  lemma OrthographicMapsFarCorner(l: real, r: real, b: real, t: real, n: real, f: real)
    requires r != l && t != b && n != f
    ensures MulVec4(Orthographic(l, r, b, t, n, f), Vec4(r, t, -f, 1.0)) == Vec4(1.0, 1.0, 1.0, 1.0)
  {
    OrthoAxis(l, r, r, 1.0);
    OrthoAxis(b, t, t, 1.0);
    OrthoDepth(n, f, f, 1.0);
  }

  /** One axis of the box: lo maps to -1 and hi to 1. */
  lemma OrthoAxis(lo: real, hi: real, v: real, e: real)
    requires hi != lo && ((v == lo && e == -1.0) || (v == hi && e == 1.0))
    ensures 2.0 / (hi - lo) * v + -(hi + lo) / (hi - lo) == e
  {
    var d := hi - lo;
    assert 2.0 / d * v + -(hi + lo) / d == (2.0 * v - (hi + lo)) / d;
  }

  /** Depth: z = -near maps to -1 and z = -far to 1. */
  lemma OrthoDepth(n: real, f: real, v: real, e: real)
    requires n != f && ((v == n && e == -1.0) || (v == f && e == 1.0))
    ensures 2.0 / (n - f) * -v + -(f + n) / (f - n) == e
  {
    var d := f - n;
    assert 2.0 / (n - f) == -2.0 / d;
    assert -2.0 / d * -v + -(f + n) / d == (2.0 * v - (f + n)) / d;
  }

  /** Perspective(verticalFOV, aspectRatio, zNear, zFar), with t = tan(verticalFOV * DegreesToRadians / 2). */
  function Perspective(lib: MathLib, verticalFOV: real, aspectRatio: real, zNear: real, zFar: real): Mat4
    requires aspectRatio * lib.tan(verticalFOV * DegreesToRadians / 2.0) != 0.0
    requires lib.tan(verticalFOV * DegreesToRadians / 2.0) != 0.0
    requires zFar != zNear
  {
    var t := lib.tan(verticalFOV * DegreesToRadians / 2.0);
    var fnDif := zFar - zNear;
    Mat4(Vec4(1.0 / (aspectRatio * t), 0.0, 0.0, 0.0),
         Vec4(0.0, 1.0 / t, 0.0, 0.0),
         Vec4(0.0, 0.0, -(zFar + zNear) / fnDif, -2.0 * zFar * zNear / fnDif),
         Vec4(0.0, 0.0, -1.0, 0.0))
  }

  /** A point on the view axis at distance zNear lands on depth -1 after the perspective divide,
      and one at distance zFar on depth 1: clip z equals -w, respectively w. */
  lemma PerspectiveMapsNearPlane(lib: MathLib, fov: real, aspect: real, n: real, f: real)
    requires aspect * lib.tan(fov * DegreesToRadians / 2.0) != 0.0
    requires lib.tan(fov * DegreesToRadians / 2.0) != 0.0
    requires f != n
    ensures MulVec4(Perspective(lib, fov, aspect, n, f), Vec4(0.0, 0.0, -n, 1.0)) == Vec4(0.0, 0.0, -n, n)
  {
    PerspectiveDepth(n, f, n);
  }

  lemma PerspectiveMapsFarPlane(lib: MathLib, fov: real, aspect: real, n: real, f: real)
    requires aspect * lib.tan(fov * DegreesToRadians / 2.0) != 0.0
    requires lib.tan(fov * DegreesToRadians / 2.0) != 0.0
    requires f != n
    ensures MulVec4(Perspective(lib, fov, aspect, n, f), Vec4(0.0, 0.0, -f, 1.0)) == Vec4(0.0, 0.0, f, f)
  {
    PerspectiveDepth(n, f, f);
  }

  /** Row 2 of the perspective matrix applied to (0, 0, -v, 1), for v the near or the far distance:
      the depth lands on -near at the near plane and on far at the far plane. */
  lemma PerspectiveDepth(n: real, f: real, v: real)
    requires f != n && (v == n || v == f)
    ensures -(f + n) / (f - n) * -v + -2.0 * f * n / (f - n) * 1.0 == (if v == n then -n else f)
  {
    var d := f - n;
    assert -(f + n) / d * -v + -2.0 * f * n / d * 1.0 == (v * (f + n) - 2.0 * f * n) / d;
    if v == n {
      assert v * (f + n) - 2.0 * f * n == -n * d;
    } else {
      assert v * (f + n) - 2.0 * f * n == f * d;
    }
  }

  // ---------------------------------------------------------------- camera

  /** The matrix of LookTowards for the axes x, y, z it builds: the axes as rows (z negated) and
      the eye projected onto each axis as the translation. */
  function ViewMatrix(x: Vec3, y: Vec3, z: Vec3, eye: Vec3): Mat4
  {
    Mat4(Vec4(x.x, x.y, x.z, -Dot3(x, eye)),
         Vec4(y.x, y.y, y.z, -Dot3(y, eye)),
         Vec4(-z.x, -z.y, -z.z, Dot3(z, eye)),
         Vec4(0.0, 0.0, 0.0, 1.0))
  }

  /** LookTowards(eye, lookV, up): z = normalize(lookV), x = normalize(cross(z, up)), y = cross(x, z). */
  function LookTowards(lib: MathLib, eye: Vec3, lookV: Vec3, up: Vec3): Mat4
    requires Length3(lib, lookV) != 0.0
    requires Length3(lib, Cross3(Normalize3(lib, lookV), up)) != 0.0
  {
    var z := Normalize3(lib, lookV);
    var x := Normalize3(lib, Cross3(z, up));
    var y := Cross3(x, z);
    ViewMatrix(x, y, z, eye)
  }

  /** LookAt(eye, lookat, up) = LookTowards(eye, lookat - eye, up). */
  function LookAt(lib: MathLib, eye: Vec3, lookat: Vec3, up: Vec3): Mat4
    requires Length3(lib, Sub3(lookat, eye)) != 0.0
    requires Length3(lib, Cross3(Normalize3(lib, Sub3(lookat, eye)), up)) != 0.0
  {
    LookTowards(lib, eye, Sub3(lookat, eye), up)
  }

  /** The camera matrix takes the eye to the origin, whatever the axes are. */
  lemma ViewMatrixMapsEye(x: Vec3, y: Vec3, z: Vec3, eye: Vec3)
    ensures MulVec4(ViewMatrix(x, y, z, eye), Vec4Of3(eye, 1.0)) == Vec4(0.0, 0.0, 0.0, 1.0)
  {
  }

  lemma LookTowardsMapsEye(lib: MathLib, eye: Vec3, lookV: Vec3, up: Vec3)
    requires Length3(lib, lookV) != 0.0
    requires Length3(lib, Cross3(Normalize3(lib, lookV), up)) != 0.0
    ensures MulVec4(LookTowards(lib, eye, lookV, up), Vec4Of3(eye, 1.0)) == Vec4(0.0, 0.0, 0.0, 1.0)
  {
    var z := Normalize3(lib, lookV);
    var x := Normalize3(lib, Cross3(z, up));
    ViewMatrixMapsEye(x, Cross3(x, z), z, eye);
  }

  lemma LookAtMapsEye(lib: MathLib, eye: Vec3, lookat: Vec3, up: Vec3)
    requires Length3(lib, Sub3(lookat, eye)) != 0.0
    requires Length3(lib, Cross3(Normalize3(lib, Sub3(lookat, eye)), up)) != 0.0
    ensures MulVec4(LookAt(lib, eye, lookat, up), Vec4Of3(eye, 1.0)) == Vec4(0.0, 0.0, 0.0, 1.0)
  {
    LookTowardsMapsEye(lib, eye, Sub3(lookat, eye), up);
  }

  // ---------------------------------------------------------------- ReferenceFrame

  /** ReferenceFrame(x, y, z, o): the transpose of the matrix with rows (x,0), (y,0), (z,0), (o,1),
      so x, y, z and o are its columns. */
  function ReferenceFrame(x: Vec3, y: Vec3, z: Vec3, o: Vec3): Mat4
  {
    Transpose4(Mat4(Vec4Of3(x, 0.0), Vec4Of3(y, 0.0), Vec4Of3(z, 0.0), Vec4Of3(o, 1.0)))
  }

  /** The frame takes the origin to o and the standard axes to x, y and z. */
  lemma ReferenceFrameMapsOrigin(x: Vec3, y: Vec3, z: Vec3, o: Vec3)
    ensures MulVec4(ReferenceFrame(x, y, z, o), Vec4(0.0, 0.0, 0.0, 1.0)) == Vec4Of3(o, 1.0)
  {
  }

  lemma ReferenceFrameMapsXAxis(x: Vec3, y: Vec3, z: Vec3, o: Vec3)
    ensures MulVec4(ReferenceFrame(x, y, z, o), Vec4(1.0, 0.0, 0.0, 0.0)) == Vec4Of3(x, 0.0)
  {
  }

  lemma ReferenceFrameMapsYAxis(x: Vec3, y: Vec3, z: Vec3, o: Vec3)
    ensures MulVec4(ReferenceFrame(x, y, z, o), Vec4(0.0, 1.0, 0.0, 0.0)) == Vec4Of3(y, 0.0)
  {
  }

  lemma ReferenceFrameMapsZAxis(x: Vec3, y: Vec3, z: Vec3, o: Vec3)
    ensures MulVec4(ReferenceFrame(x, y, z, o), Vec4(0.0, 0.0, 1.0, 0.0)) == Vec4Of3(z, 0.0)
  {
  }

  /** A point p of the frame's coordinates goes to o + p.x x + p.y y + p.z z. */
  lemma ReferenceFrameMapsPoints(x: Vec3, y: Vec3, z: Vec3, o: Vec3, p: Vec3)
    ensures MulVec4(ReferenceFrame(x, y, z, o), Vec4Of3(p, 1.0))
         == Vec4Of3(Add3(Add3(Add3(Scale3(x, p.x), Scale3(y, p.y)), Scale3(z, p.z)), o), 1.0)
  {
  }

  // ---------------------------------------------------------------- the camera undoes its frame

  /** x, y and z are unit length and mutually perpendicular. */
  ghost predicate Orthonormal(x: Vec3, y: Vec3, z: Vec3)
  {
    Dot3(x, x) == 1.0 && Dot3(y, y) == 1.0 && Dot3(z, z) == 1.0 &&
    Dot3(x, y) == 0.0 && Dot3(x, z) == 0.0 && Dot3(y, z) == 0.0
  }

  /** For orthonormal axes the camera matrix is the inverse of the reference frame with origin eye
      and axes x, y, -z: the rotation part is inverted by its transpose, and the translation terms
      cancel the eye. */
  lemma ViewMatrixInvertsFrame(x: Vec3, y: Vec3, z: Vec3, eye: Vec3)
    requires Orthonormal(x, y, z)
    ensures MatMul4(ViewMatrix(x, y, z, eye), ReferenceFrame(x, y, Neg3(z), eye)) == Identity4
  {
    FrameColumns(x, y, z, eye);
    ViewRowAgainstFrame(x, -Dot3(x, eye), x, y, z, eye);
    ViewRowAgainstFrame(y, -Dot3(y, eye), x, y, z, eye);
    ViewRowAgainstFrame(Neg3(z), Dot3(z, eye), x, y, z, eye);
    DotCommutes3(x, y);
    DotCommutes3(x, z);
    DotCommutes3(y, z);
  }

  /** The columns of the frame are its axes and its origin. */
  lemma FrameColumns(x: Vec3, y: Vec3, z: Vec3, eye: Vec3)
    ensures Col4(ReferenceFrame(x, y, Neg3(z), eye), 0) == Vec4Of3(x, 0.0)
    ensures Col4(ReferenceFrame(x, y, Neg3(z), eye), 1) == Vec4Of3(y, 0.0)
    ensures Col4(ReferenceFrame(x, y, Neg3(z), eye), 2) == Vec4Of3(Neg3(z), 0.0)
    ensures Col4(ReferenceFrame(x, y, Neg3(z), eye), 3) == Vec4Of3(eye, 1.0)
  {
  }

  /** A row (a, t) of the camera matrix against the columns of the frame. */
  lemma ViewRowAgainstFrame(a: Vec3, t: real, x: Vec3, y: Vec3, z: Vec3, eye: Vec3)
    ensures Dot4(Vec4Of3(a, t), Vec4Of3(x, 0.0)) == Dot3(a, x)
    ensures Dot4(Vec4Of3(a, t), Vec4Of3(y, 0.0)) == Dot3(a, y)
    ensures Dot4(Vec4Of3(a, t), Vec4Of3(Neg3(z), 0.0)) == -Dot3(a, z)
    ensures Dot4(Vec4Of3(a, t), Vec4Of3(eye, 1.0)) == Dot3(a, eye) + t
  {
  }
}
