// The Quaternion class of Inc/VecMat.h: x, y, z the vector part and w the scalar part, the
// Hamilton product, the rotation matrix of a quaternion (with its near-zero fallback), the
// construction from a rotation matrix, and the branches of Slerp.

module Quaternions {
  import opened Vectors
  import opened Matrices

  /** Quaternion(): all four components start at zero. */
  datatype Quat = Quat(x: real, y: real, z: real, w: real)

  const ZeroQuat: Quat := Quat(0.0, 0.0, 0.0, 0.0)

  /** The quaternion (0, 0, 0, 1), the rotation by no angle. */
  const UnitQuat: Quat := Quat(0.0, 0.0, 0.0, 1.0)

  // ---------------------------------------------------------------- arithmetic

  /** operator + and operator * (float s): componentwise. */
  function QAdd(p: Quat, q: Quat): Quat { Quat(p.x + q.x, p.y + q.y, p.z + q.z, p.w + q.w) }
  function QScale(q: Quat, s: real): Quat { Quat(s * q.x, s * q.y, s * q.z, s * q.w) }

  /** operator * (const Quaternion &q): the Hamilton product, written out component by component. */
  function QMul(p: Quat, q: Quat): Quat
  {
    Quat( p.x * q.w + p.y * q.z - p.z * q.y + p.w * q.x,
         -p.x * q.z + p.y * q.w + p.z * q.x + p.w * q.y,
          p.x * q.y - p.y * q.x + p.z * q.w + p.w * q.z,
         -p.x * q.x - p.y * q.y - p.z * q.z + p.w * q.w)
  }

  /** Norm(): the squared length x^2 + y^2 + z^2 + w^2. */
  function Norm(q: Quat): real { q.x * q.x + q.y * q.y + q.z * q.z + q.w * q.w }

  /** Dot(qL, qR). */
  function QDot(p: Quat, q: Quat): real { p.x * q.x + p.y * q.y + p.z * q.z + p.w * q.w }

  function VecPart(q: Quat): Vec3 { Vec3(q.x, q.y, q.z) }

  /** The textbook form of the Hamilton product, on the vector part v and scalar part w:
      (v1, w1)(v2, w2) = (w1 v2 + w2 v1 + v1 x v2, w1 w2 - v1 . v2). */
  function HamiltonByParts(p: Quat, q: Quat): Quat
  {
    var v := Add3(Add3(Scale3(VecPart(q), p.w), Scale3(VecPart(p), q.w)), Cross3(VecPart(p), VecPart(q)));
    Quat(v.x, v.y, v.z, p.w * q.w - Dot3(VecPart(p), VecPart(q)))
  }

  /** The component formulas of operator * are the Hamilton product. */
  lemma ProductIsHamilton(p: Quat, q: Quat)
    ensures QMul(p, q) == HamiltonByParts(p, q)
  {
  }

  /** (0, 0, 0, 1) is a two-sided unit of the product. */
  lemma UnitQuatIsUnit(q: Quat)
    ensures QMul(UnitQuat, q) == q && QMul(q, UnitQuat) == q
  {
  }

  /** Quaternion(axis, radAng): the axis is normalized, the vector part is that unit axis
      scaled by sin(radAng/2) and w is cos(radAng/2). */
  function FromAxisAngle(lib: MathLib, axis: Vec3, radAng: real): (q: Quat)
    requires Length3(lib, axis) != 0.0
    ensures VecPart(q) == Scale3(Normalize3(lib, axis), lib.sin(radAng / 2.0))
    ensures q.w == lib.cos(radAng / 2.0)
  {
    var c, s := lib.cos(radAng / 2.0), lib.sin(radAng / 2.0);
    var a := Normalize3(lib, axis);
    Quat(s * a.x, s * a.y, s * a.z, c)
  }

  /** With an exact square root and sin^2 + cos^2 = 1 at half the angle, the axis-angle
      quaternion is a unit quaternion. */
  lemma AxisAngleIsUnit(lib: MathLib, axis: Vec3, radAng: real)
    requires ExactSqrt(lib, Dot3(axis, axis))
    requires Length3(lib, axis) != 0.0
    requires lib.sin(radAng / 2.0) * lib.sin(radAng / 2.0) + lib.cos(radAng / 2.0) * lib.cos(radAng / 2.0) == 1.0
    ensures Norm(FromAxisAngle(lib, axis, radAng)) == 1.0
  {
    NormalizeIsUnit(lib, axis);
    ScaledUnitHasUnitNorm(FromAxisAngle(lib, axis, radAng), lib.sin(radAng / 2.0), lib.cos(radAng / 2.0),
                          Normalize3(lib, axis));
  }

  /** A unit vector scaled by s, with w = c and s^2 + c^2 = 1, has quaternion norm 1. */
  lemma ScaledUnitHasUnitNorm(q: Quat, s: real, c: real, a: Vec3)
    requires Dot3(a, a) == 1.0 && s * s + c * c == 1.0
    requires VecPart(q) == Scale3(a, s) && q.w == c
    ensures Norm(q) == 1.0
  {
    Scale3Entries(a, s);
    ScaledUnitPoly(s, c, a.x, a.y, a.z, q.x, q.y, q.z);
  }

  /** s^2 (a^2 + b^2 + d^2) + c^2 = 1 when the unit vector (a, b, d) is scaled by s. */
  lemma ScaledUnitPoly(s: real, c: real, a: real, b: real, d: real, x: real, y: real, z: real)
    requires a * a + b * b + d * d == 1.0 && s * s + c * c == 1.0
    requires x == s * a && y == s * b && z == s * d
    ensures x * x + y * y + z * z + c * c == 1.0
  {
    calc {
      x * x + y * y + z * z + c * c;
      == (s * s) * (a * a + b * b + d * d) + c * c;
      == s * s + c * c;
    }
  }

  // ---------------------------------------------------------------- rotation matrix

  /** Get3x3(): the identity when |Norm()| < FLT_EPSILON, otherwise the rotation matrix of the
      quaternion, with s = 2 / Norm() normalizing it. */
  function Get3x3(q: Quat): (r: Mat3)
    ensures -FltEpsilon < Norm(q) < FltEpsilon ==> r == Identity3
  {
    var norm := Norm(q);
    if -FltEpsilon < norm < FltEpsilon then Mat3(Vec3(1.0, 0.0, 0.0), Vec3(0.0, 1.0, 0.0), Vec3(0.0, 0.0, 1.0))
    else ScaledRotation(q, 2.0 / norm)
  }

  /** The body of Get3x3 past the fallback, for a given scale s, with its temporaries written
      out: xs = x s, wx = w xs, xy = x ys, and so on. */
  function ScaledRotation(q: Quat, s: real): Mat3
  {
    var x, y, z, w := q.x, q.y, q.z, q.w;
    Mat3(Vec3(1.0 - (y * (y * s) + z * (z * s)), x * (y * s) + w * (z * s), x * (z * s) - w * (y * s)),
         Vec3(x * (y * s) - w * (z * s), 1.0 - (x * (x * s) + z * (z * s)), y * (z * s) + w * (x * s)),
         Vec3(x * (z * s) + w * (y * s), y * (z * s) - w * (x * s), 1.0 - (x * (x * s) + y * (y * s))))
  }

  /** GetMatrix(): mat4(Get3x3()), the rotation with no translation; a quaternion too small to
      normalize gives the 4x4 identity. */
  function GetMatrix(q: Quat): (r: Mat4)
    ensures -FltEpsilon < Norm(q) < FltEpsilon ==> r == Identity4
    ensures r.r3 == Vec4(0.0, 0.0, 0.0, 1.0) && r.r0.w == 0.0 && r.r1.w == 0.0 && r.r2.w == 0.0
  {
    Mat4Of3(Get3x3(q))
  }

  /** A default-constructed quaternion yields the identity, and so does (0, 0, 0, 1). */
  lemma ZeroQuatGivesIdentity()
    ensures Get3x3(ZeroQuat) == Identity3 && GetMatrix(ZeroQuat) == Identity4
  {
  }

  lemma UnitQuatGivesIdentity()
    ensures Get3x3(UnitQuat) == Identity3
  {
  }

  /** The matrix fixes the quaternion's axis (its vector part): applied to (x, y, z) it returns
      (x, y, z). */
  lemma AxisIsFixed(q: Quat)
    ensures MulVec3(Get3x3(q), VecPart(q)) == VecPart(q)
  {
    var norm := Norm(q);
    if !(-FltEpsilon < norm < FltEpsilon) {
      ScaledRotationFixesAxis(q, 2.0 / norm);
    }
  }

  /** Whatever the scale, the rotation built from q fixes (x, y, z). */
  lemma ScaledRotationFixesAxis(q: Quat, s: real)
    ensures MulVec3(ScaledRotation(q, s), VecPart(q)) == VecPart(q)
  {
    AxisRow0(q, s);
    AxisRow1(q, s);
    AxisRow2(q, s);
  }

  /** Row by row: each row of the matrix has dot product with (x, y, z) equal to that row's
      component. */
  lemma AxisRow0(q: Quat, s: real)
    ensures Dot3(ScaledRotation(q, s).r0, VecPart(q)) == q.x
  {
    var r := ScaledRotation(q, s).r0;
    RotationEntries(q, s);
    AxisPoly0(q.x, q.y, q.z, q.w, s, r.x, r.y, r.z);
  }

  lemma AxisRow1(q: Quat, s: real)
    ensures Dot3(ScaledRotation(q, s).r1, VecPart(q)) == q.y
  {
    var r := ScaledRotation(q, s).r1;
    RotationEntries(q, s);
    AxisPoly1(q.x, q.y, q.z, q.w, s, r.x, r.y, r.z);
  }

  lemma AxisRow2(q: Quat, s: real)
    ensures Dot3(ScaledRotation(q, s).r2, VecPart(q)) == q.z
  {
    var r := ScaledRotation(q, s).r2;
    RotationEntries(q, s);
    AxisPoly2(q.x, q.y, q.z, q.w, s, r.x, r.y, r.z);
  }

  /** The rows of ScaledRotation and the vector part, entry by entry. */
  lemma RotationEntries(q: Quat, s: real)
    ensures ScaledRotation(q, s).r0
      == Vec3(1.0 - (q.y * (q.y * s) + q.z * (q.z * s)), q.x * (q.y * s) + q.w * (q.z * s), q.x * (q.z * s) - q.w * (q.y * s))
    ensures ScaledRotation(q, s).r1
      == Vec3(q.x * (q.y * s) - q.w * (q.z * s), 1.0 - (q.x * (q.x * s) + q.z * (q.z * s)), q.y * (q.z * s) + q.w * (q.x * s))
    ensures ScaledRotation(q, s).r2
      == Vec3(q.x * (q.z * s) + q.w * (q.y * s), q.y * (q.z * s) - q.w * (q.x * s), 1.0 - (q.x * (q.x * s) + q.y * (q.y * s)))
    ensures VecPart(q) == Vec3(q.x, q.y, q.z)
  {
  }

  /** Row 0 of the rotation, entry by entry, dotted with (x, y, z), gives back x. */
  lemma AxisPoly0(x: real, y: real, z: real, w: real, s: real, a: real, b: real, c: real)
    requires a == 1.0 - (y * (y * s) + z * (z * s)) && b == x * (y * s) + w * (z * s) && c == x * (z * s) - w * (y * s)
    ensures a * x + b * y + c * z == x
  {
  }

  /** Row 1 of the rotation dotted with (x, y, z) gives back y. */
  lemma AxisPoly1(x: real, y: real, z: real, w: real, s: real, a: real, b: real, c: real)
    requires a == x * (y * s) - w * (z * s) && b == 1.0 - (x * (x * s) + z * (z * s)) && c == y * (z * s) + w * (x * s)
    ensures a * x + b * y + c * z == y
  {
  }

  /** Row 2 of the rotation dotted with (x, y, z) gives back z. */
  lemma AxisPoly2(x: real, y: real, z: real, w: real, s: real, a: real, b: real, c: real)
    requires a == x * (z * s) + w * (y * s) && b == y * (z * s) - w * (x * s) && c == 1.0 - (x * (x * s) + y * (y * s))
    ensures a * x + b * y + c * z == z
  {
  }

  // ---------------------------------------------------------------- from a matrix

  /** A sqrt that is positive on positive arguments. */
  ghost predicate PositiveSqrt(lib: MathLib)
  {
    forall a :: a > 0.0 ==> lib.sqrt(a) > 0.0
  }

  /** The diagonal entry mat[i][i]. */
  function DiagAt(m: Mat3, i: nat): real
    requires i < 3
  {
    Get3(m, i, i)
  }

  function Trace(m: Mat3): real { m.r0.x + m.r1.y + m.r2.z }

  /** The switch of Quaternion(mat3): X if mat[X][X] is at least both others, else Y or Z by
      the same tests. The axis chosen has the largest diagonal entry, and a tie goes to the
      earlier axis. */
  function SelectAxis(m: Mat3): (i: nat)
    ensures i < 3
    ensures forall k :: 0 <= k < 3 ==> DiagAt(m, k) <= DiagAt(m, i)
    ensures forall k :: 0 <= k < i ==> DiagAt(m, k) < DiagAt(m, i)
  {
    if m.r0.x >= m.r1.y then (if m.r0.x >= m.r2.z then 0 else 2)
    else (if m.r1.y >= m.r2.z then 1 else 2)
  }

  /** The axis after i, cyclically: X, Y, Z, X. */
  function Next3(i: nat): nat
    requires i < 3
  {
    if i == 2 then 0 else i + 1
  }

  /** The argument .25 (mat[I][I] - mat[J][J] - mat[K][K] + 1) of caseMacro. */
  function CaseArgument(m: Mat3, i: nat): real
    requires i < 3
  {
    var j, k := Next3(i), Next3(Next3(i));
    0.25 * (DiagAt(m, i) - DiagAt(m, j) - DiagAt(m, k) + 1.0)
  }

  /** When the trace is negative, the axis the switch selects gives a square-root argument
      above 1/4, so the division .25f/i is by a positive number. */
  lemma CaseArgumentIsPositive(m: Mat3)
    requires Trace(m) < 0.0
    ensures CaseArgument(m, SelectAxis(m)) > 0.25
  {
  }

  /** caseMacro(i, j, k, I, J, K) for axis I, giving the (i, j, k, w) it writes. */
  function CaseMacro(lib: MathLib, m: Mat3, i: nat): (r: (real, real, real, real))
    requires i < 3 && PositiveSqrt(lib) && CaseArgument(m, i) > 0.0
    ensures r.0 > 0.0
  {
    var j, k := Next3(i), Next3(Next3(i));
    var ci := lib.sqrt(CaseArgument(m, i));
    var s := 0.25 / ci;
    (ci, (Get3(m, i, j) + Get3(m, j, i)) * s, (Get3(m, k, i) + Get3(m, i, k)) * s, (Get3(m, k, j) - Get3(m, j, k)) * s)
  }

  /** Quaternion(mat3): the trace branch when mat[X][X] + mat[Y][Y] + mat[Z][Z] >= 0, otherwise
      the case of the selected axis, whose component is the positive square root. */
  function FromMat3(lib: MathLib, m: Mat3): (q: Quat)
    requires PositiveSqrt(lib)
    ensures Trace(m) >= 0.0 ==> q.w > 0.0
    ensures Trace(m) < 0.0 && SelectAxis(m) == 0 ==> q.x > 0.0
    ensures Trace(m) < 0.0 && SelectAxis(m) == 1 ==> q.y > 0.0
    ensures Trace(m) < 0.0 && SelectAxis(m) == 2 ==> q.z > 0.0
  {
    var tr := Trace(m);
    if tr >= 0.0 then
      var w := lib.sqrt(0.25 * (tr + 1.0));
      var s := 0.25 / w;
      Quat((m.r2.y - m.r1.z) * s, (m.r0.z - m.r2.x) * s, (m.r1.x - m.r0.y) * s, w)
    else
      var a := SelectAxis(m);
      CaseArgumentIsPositive(m);
      var c := CaseMacro(lib, m, a);
      if a == 0 then Quat(c.0, c.1, c.2, c.3)
      else if a == 1 then Quat(c.2, c.0, c.1, c.3)
      else Quat(c.1, c.2, c.0, c.3)
  }

  /** With a sqrt exact at 1, the identity matrix gives the quaternion (0, 0, 0, 1) back, and that
      quaternion's matrix is the identity again. */
  lemma IdentityRoundTrip(lib: MathLib)
    requires PositiveSqrt(lib) && ExactSqrt(lib, 1.0)
    ensures FromMat3(lib, Identity3) == UnitQuat
    ensures Get3x3(FromMat3(lib, Identity3)) == Identity3
  {
    var r := lib.sqrt(0.25 * (3.0 + 1.0));
    assert r > 0.0 && r * r == 1.0;
    PositiveRootOfOne(r);
  }

  /** The only positive square root of 1 is 1. */
  lemma PositiveRootOfOne(r: real)
    requires r > 0.0 && r * r == 1.0
    ensures r == 1.0
  {
    assert (r - 1.0) * (r + 1.0) == 0.0;
  }

  /** The matrix Quaternion(mat4) builds before converting: the transposed upper-left block, then
      its columns divided by the lengths of the columns of m. */
  function NormalizedBlock(lib: MathLib, m: Mat4): Mat3
    requires ColumnLength(lib, m, 0) != 0.0 && ColumnLength(lib, m, 1) != 0.0 && ColumnLength(lib, m, 2) != 0.0
  {
    var xlen, ylen, zlen := ColumnLength(lib, m, 0), ColumnLength(lib, m, 1), ColumnLength(lib, m, 2);
    Mat3(Vec3(m.r0.x / xlen, m.r1.x / ylen, m.r2.x / zlen),
         Vec3(m.r0.y / xlen, m.r1.y / ylen, m.r2.y / zlen),
         Vec3(m.r0.z / xlen, m.r1.z / ylen, m.r2.z / zlen))
  }

  /** length(vec3(m[0][j], m[1][j], m[2][j])). */
  function ColumnLength(lib: MathLib, m: Mat4, j: nat): real
    requires j < 3
  {
    Length3(lib, Vec3Of4(Col4(m, j)))
  }

  /** When every column already has length 1, the block is only transposed. */
  lemma UnitColumnsOnlyTranspose(lib: MathLib, m: Mat4)
    requires ColumnLength(lib, m, 0) == 1.0 && ColumnLength(lib, m, 1) == 1.0 && ColumnLength(lib, m, 2) == 1.0
    ensures NormalizedBlock(lib, m) == Transpose3(Mat3(Vec3Of4(m.r0), Vec3Of4(m.r1), Vec3Of4(m.r2)))
  {
  }

  /** Quaternion(mat4 m): t is filled with the transposed block, its columns are divided in place
      by the column lengths of m, and the result is Quaternion(t). */
  method FromMat4(lib: MathLib, m: Mat4) returns (q: Quat)
    requires PositiveSqrt(lib)
    requires ColumnLength(lib, m, 0) != 0.0 && ColumnLength(lib, m, 1) != 0.0 && ColumnLength(lib, m, 2) != 0.0
    ensures q == FromMat3(lib, NormalizedBlock(lib, m))
  {
    var t := new real[3, 3];
    t[0, 0], t[0, 1], t[0, 2] := m.r0.x, m.r1.x, m.r2.x;
    t[1, 0], t[1, 1], t[1, 2] := m.r0.y, m.r1.y, m.r2.y;
    t[2, 0], t[2, 1], t[2, 2] := m.r0.z, m.r1.z, m.r2.z;
    var lens := [ColumnLength(lib, m, 0), ColumnLength(lib, m, 1), ColumnLength(lib, m, 2)];
    DivideColumns(t, lens);
    var n := Mat3(Vec3(t[0, 0], t[0, 1], t[0, 2]), Vec3(t[1, 0], t[1, 1], t[1, 2]), Vec3(t[2, 0], t[2, 1], t[2, 2]));
    assert n == NormalizedBlock(lib, m);
    q := FromMat3(lib, n);
  }

  /** The loops of Quaternion(mat4): every entry of column j is divided by the length of that
      column. */
  method DivideColumns(t: array2<real>, lens: seq<real>)
    requires t.Length0 == 3 && t.Length1 == 3 && |lens| == 3
    requires forall c :: 0 <= c < 3 ==> lens[c] != 0.0
    modifies t
    ensures forall i, c :: 0 <= i < 3 && 0 <= c < 3 ==> t[i, c] == old(t[i, c]) / lens[c]
  {
    for j := 0 to 3
      invariant forall i, c :: 0 <= i < 3 && 0 <= c < 3 ==>
        t[i, c] == if c < j then old(t[i, c]) / lens[c] else old(t[i, c])
    {
      for i := 0 to 3
        invariant forall i', c :: 0 <= i' < 3 && 0 <= c < 3 ==>
          t[i', c] == if c < j || (c == j && i' < i) then old(t[i', c]) / lens[c] else old(t[i', c])
      {
        t[i, j] := t[i, j] / lens[j];
      }
    }
  }

  // ---------------------------------------------------------------- Slerp

  /** _PI */
  const SlerpPi: real := 3.141592

  const SlerpEpsilon: real := 0.00001

  /** The companion Slerp uses when the ends are nearly opposite: qup = (-y, x, -w, z). */
  function Qup(q: Quat): (r: Quat)
    ensures QDot(q, r) == 0.0
    ensures Norm(r) == Norm(q)
  {
    Quat(-q.y, q.x, -q.w, q.z)
  }

  /** sin(u omega) / sin(omega), the weight the usual case gives an end. */
  function SineRatio(lib: MathLib, u: real, omega: real): real
    requires lib.sin(omega) != 0.0
  {
    lib.sin(u * omega) / lib.sin(omega)
  }

  /** Slerp(qu0, qu1, t), assigning the result to *this. With cosOmega = Dot(qu0, qu1):
      the usual case (both 1 + cosOmega and 1 - cosOmega above epsilon) blends by sines of
      omega = acos(cosOmega); ends very close blend linearly; ends nearly opposite blend qu0 with
      its companion qup by sines of multiples of _PI. */
  method Slerp(lib: MathLib, q0: Quat, q1: Quat, t: real) returns (r: Quat)
    requires 1.0 + QDot(q0, q1) > SlerpEpsilon && 1.0 - QDot(q0, q1) > SlerpEpsilon ==>
      lib.sin(lib.acos(QDot(q0, q1))) != 0.0
    ensures 1.0 + QDot(q0, q1) > SlerpEpsilon && 1.0 - QDot(q0, q1) > SlerpEpsilon ==>
      var omega := lib.acos(QDot(q0, q1));
      r == QAdd(QScale(q0, SineRatio(lib, 1.0 - t, omega)), QScale(q1, SineRatio(lib, t, omega)))
    ensures 1.0 + QDot(q0, q1) > SlerpEpsilon && !(1.0 - QDot(q0, q1) > SlerpEpsilon) ==>
      r == QAdd(QScale(q0, 1.0 - t), QScale(q1, t))
    ensures !(1.0 + QDot(q0, q1) > SlerpEpsilon) ==>
      r == QAdd(QScale(q0, lib.sin((0.5 - t) * SlerpPi)), QScale(Qup(q0), lib.sin(t * SlerpPi)))
  {
    var qu0Part: real, qu1Part: real;
    var cosOmega := QDot(q0, q1);
    if 1.0 + cosOmega > SlerpEpsilon {
      if 1.0 - cosOmega > SlerpEpsilon {
        var omega := lib.acos(cosOmega);
        qu0Part := SineRatio(lib, 1.0 - t, omega);
        qu1Part := SineRatio(lib, t, omega);
      } else {
        qu0Part := 1.0 - t;
        qu1Part := t;
      }
      var s1, s2 := QScale(q0, qu0Part), QScale(q1, qu1Part);
      r := QAdd(s1, s2);
    } else {
      var qup := Qup(q0);
      qu0Part := lib.sin((0.5 - t) * SlerpPi);
      qu1Part := lib.sin(t * SlerpPi);
      var s1, s2 := QScale(q0, qu0Part), QScale(qup, qu1Part);
      r := QAdd(s1, s2);
    }
  }

  /** The linear blend of the close-ends branch starts at q0 and ends at q1. */
  lemma LinearBlendEndpoints(q0: Quat, q1: Quat)
    ensures QAdd(QScale(q0, 1.0 - 0.0), QScale(q1, 0.0)) == q0
    ensures QAdd(QScale(q0, 1.0 - 1.0), QScale(q1, 1.0)) == q1
  {
  }

  /** In the usual case, where sin(0) = 0, t = 0 gives q0. */
  lemma SineBlendStartsAtQ0(lib: MathLib, q0: Quat, q1: Quat, omega: real)
    requires lib.sin(omega) != 0.0 && lib.sin(0.0) == 0.0
    ensures QAdd(QScale(q0, SineRatio(lib, 1.0 - 0.0, omega)), QScale(q1, SineRatio(lib, 0.0, omega))) == q0
  {
  }

  /** And it gives q1 at t = 1. */
  lemma SineBlendEndsAtQ1(lib: MathLib, q0: Quat, q1: Quat, omega: real)
    requires lib.sin(omega) != 0.0 && lib.sin(0.0) == 0.0
    ensures QAdd(QScale(q0, SineRatio(lib, 1.0 - 1.0, omega)), QScale(q1, SineRatio(lib, 1.0, omega))) == q1
  {
  }
}
