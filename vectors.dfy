// Value-typed 2D, 3D and 4D vectors and integer pairs/triples/quadruples of Inc/VecMat.h.
// Every float is a real; the transcendental functions of <math.h> are left uninterpreted
// and reach the model through a MathLib value.

module Vectors {

  /** FLT_EPSILON of <float.h>: 2^-23. */
  const FltEpsilon: real := 0.00000011920928955078125

  /** FLT_MAX of <float.h>: (2 - 2^-23) * 2^127. */
  const FltMax: real := 340282346638528859811704183484516925440.0

  /** sqrt, sin, cos, tan and acos: functions the model does not interpret. */
  datatype MathLib = MathLib(sqrt: real -> real, sin: real -> real, cos: real -> real,
                             tan: real -> real, acos: real -> real)

  /** A MathLib whose sqrt returns the non-negative root of a non-negative argument. */
  ghost predicate ExactSqrt(lib: MathLib, d: real)
  {
    d >= 0.0 ==> lib.sqrt(d) >= 0.0 && lib.sqrt(d) * lib.sqrt(d) == d
  }

  datatype Vec2 = Vec2(x: real, y: real)
  datatype Vec3 = Vec3(x: real, y: real, z: real)
  datatype Vec4 = Vec4(x: real, y: real, z: real, w: real)

  /** vec2(s), vec3(s), vec4(s): every component s (s = 0 by default). */
  function Splat2(s: real): Vec2 { Vec2(s, s) }
  function Splat3(s: real): Vec3 { Vec3(s, s, s) }
  function Splat4(s: real): Vec4 { Vec4(s, s, s, s) }

  /** vec3(vec2 v, f), vec4(vec3 v, w), vec4(vec2 v, z, w), Vec2(vec4), Vec3(vec4). */
  function Vec3Of2(v: Vec2, z: real): Vec3 { Vec3(v.x, v.y, z) }
  function Vec4Of3(v: Vec3, w: real): Vec4 { Vec4(v.x, v.y, v.z, w) }
  function Vec4Of2(v: Vec2, z: real, w: real): Vec4 { Vec4(v.x, v.y, z, w) }
  function Vec2Of4(v: Vec4): Vec2 { Vec2(v.x, v.y) }
  function Vec3Of4(v: Vec4): Vec3 { Vec3(v.x, v.y, v.z) }

  /** v[i] for the components in declared order. */
  function At2(v: Vec2, i: nat): real requires i < 2 { if i == 0 then v.x else v.y }
  function At3(v: Vec3, i: nat): real requires i < 3 { if i == 0 then v.x else if i == 1 then v.y else v.z }
  function At4(v: Vec4, i: nat): real requires i < 4
  {
    if i == 0 then v.x else if i == 1 then v.y else if i == 2 then v.z else v.w
  }

  // ---------------------------------------------------------------- vec2

  function Neg2(v: Vec2): Vec2 { Vec2(-v.x, -v.y) }
  function Add2(a: Vec2, b: Vec2): Vec2 { Vec2(a.x + b.x, a.y + b.y) }
  function Sub2(a: Vec2, b: Vec2): Vec2 { Vec2(a.x - b.x, a.y - b.y) }
  /** v*s and s*v. */
  function Scale2(v: Vec2, s: real): Vec2 { Vec2(s * v.x, s * v.y) }
  /** a*b: componentwise, not the dot product. */
  function Mul2(a: Vec2, b: Vec2): Vec2 { Vec2(a.x * b.x, a.y * b.y) }
  /** v/s: multiplies by the reciprocal 1/s. */
  function Div2(v: Vec2, s: real): Vec2 requires s != 0.0 { Scale2(v, 1.0 / s) }
  function DivV2(a: Vec2, b: Vec2): Vec2 requires b.x != 0.0 && b.y != 0.0 { Vec2(a.x / b.x, a.y / b.y) }

  function Dot2(a: Vec2, b: Vec2): real { a.x * b.x + a.y * b.y }

  /** The scalar "2D cross product": the signed area of the parallelogram on a and b. */
  function Cross2(a: Vec2, b: Vec2): (r: real)
    ensures r == -(b.x * a.y - b.y * a.x)
    ensures Dot2(a, a) * Dot2(b, b) == r * r + Dot2(a, b) * Dot2(a, b)
  {
    a.x * b.y - a.y * b.x
  }

  function Length2(lib: MathLib, v: Vec2): real { lib.sqrt(Dot2(v, v)) }
  function Normalize2(lib: MathLib, v: Vec2): Vec2 requires Length2(lib, v) != 0.0 { Div2(v, Length2(lib, v)) }

  // ---------------------------------------------------------------- vec3

  function Neg3(v: Vec3): Vec3 { Vec3(-v.x, -v.y, -v.z) }
  function Add3(a: Vec3, b: Vec3): Vec3 { Vec3(a.x + b.x, a.y + b.y, a.z + b.z) }
  function Sub3(a: Vec3, b: Vec3): Vec3 { Vec3(a.x - b.x, a.y - b.y, a.z - b.z) }
  function Scale3(v: Vec3, s: real): Vec3 { Vec3(s * v.x, s * v.y, s * v.z) }
  function Mul3(a: Vec3, b: Vec3): Vec3 { Vec3(a.x * b.x, a.y * b.y, a.z * b.z) }
  function Div3(v: Vec3, s: real): Vec3 requires s != 0.0 { Scale3(v, 1.0 / s) }
  function DivV3(a: Vec3, b: Vec3): Vec3 requires b.x != 0.0 && b.y != 0.0 && b.z != 0.0
  {
    Vec3(a.x / b.x, a.y / b.y, a.z / b.z)
  }

  function Dot3(a: Vec3, b: Vec3): real { a.x * b.x + a.y * b.y + a.z * b.z }

  /** The right-handed cross product. */
  function Cross3(a: Vec3, b: Vec3): Vec3
  {
    Vec3(a.y * b.z - a.z * b.y, a.z * b.x - a.x * b.z, a.x * b.y - a.y * b.x)
  }

  /** The cross product is orthogonal to both of its arguments. */
  lemma CrossIsOrthogonal(a: Vec3, b: Vec3)
    ensures Dot3(Cross3(a, b), a) == 0.0 && Dot3(Cross3(a, b), b) == 0.0
    ensures Dot3(a, Cross3(a, b)) == 0.0 && Dot3(b, Cross3(a, b)) == 0.0
  {
  }

  /** The triple product a . (b x c) is invariant under cyclic rotation of its arguments. */
  lemma TripleProductCycles(a: Vec3, b: Vec3, c: Vec3)
    ensures Dot3(a, Cross3(b, c)) == Dot3(b, Cross3(c, a))
  {
  }

  lemma DotCommutes3(u: Vec3, v: Vec3)
    ensures Dot3(u, v) == Dot3(v, u)
  {
  }

  function Length3(lib: MathLib, v: Vec3): real { lib.sqrt(Dot3(v, v)) }
  function Normalize3(lib: MathLib, v: Vec3): Vec3 requires Length3(lib, v) != 0.0 { Div3(v, Length3(lib, v)) }

  // ---------------------------------------------------------------- vec4

  function Neg4(v: Vec4): Vec4 { Vec4(-v.x, -v.y, -v.z, -v.w) }
  function Add4(a: Vec4, b: Vec4): Vec4 { Vec4(a.x + b.x, a.y + b.y, a.z + b.z, a.w + b.w) }
  function Sub4(a: Vec4, b: Vec4): Vec4 { Vec4(a.x - b.x, a.y - b.y, a.z - b.z, a.w - b.w) }
  function Scale4(v: Vec4, s: real): Vec4 { Vec4(s * v.x, s * v.y, s * v.z, s * v.w) }
  function Div4(v: Vec4, s: real): Vec4 requires s != 0.0 { Scale4(v, 1.0 / s) }
  function Dot4(a: Vec4, b: Vec4): real { a.x * b.x + a.y * b.y + a.z * b.z + a.w * b.w }
  function Length4(lib: MathLib, v: Vec4): real { lib.sqrt(Dot4(v, v)) }
  function Normalize4(lib: MathLib, v: Vec4): Vec4 requires Length4(lib, v) != 0.0 { Div4(v, Length4(lib, v)) }

  /** vec4 * vec4 as written: the w component is w*v.z, not w*v.w. */
  function Mul4(a: Vec4, b: Vec4): (r: Vec4)
    ensures Vec3Of4(r) == Mul3(Vec3Of4(a), Vec3Of4(b))
    ensures r.w == a.w * b.z
  {
    Vec4(a.x * b.x, a.y * b.y, a.z * b.z, a.w * b.z)
  }

  /** The componentwise product the operator evidently intends; vec4 *= vec4 computes it. */
  function Hadamard4(a: Vec4, b: Vec4): (r: Vec4)
    ensures forall i :: 0 <= i < 4 ==> At4(r, i) == At4(a, i) * At4(b, i)
  {
    Vec4(a.x * b.x, a.y * b.y, a.z * b.z, a.w * b.w)
  }

  // ---------------------------------------------------------------- compound assignment

  // A compound operator overwrites the fields of its left operand; on a value type this is
  // the new value that replaces the old one.

  function AddAssign2(v: Vec2, u: Vec2): Vec2 { Vec2(v.x + u.x, v.y + u.y) }
  function SubAssign2(v: Vec2, u: Vec2): Vec2 { Vec2(v.x - u.x, v.y - u.y) }
  function ScaleAssign2(v: Vec2, s: real): Vec2 { Vec2(v.x * s, v.y * s) }
  function MulAssign2(v: Vec2, u: Vec2): Vec2 { Vec2(v.x * u.x, v.y * u.y) }
  function DivAssign2(v: Vec2, s: real): Vec2 requires s != 0.0 { ScaleAssign2(v, 1.0 / s) }

  function AddAssign3(v: Vec3, u: Vec3): Vec3 { Vec3(v.x + u.x, v.y + u.y, v.z + u.z) }
  function SubAssign3(v: Vec3, u: Vec3): Vec3 { Vec3(v.x - u.x, v.y - u.y, v.z - u.z) }
  function ScaleAssign3(v: Vec3, s: real): Vec3 { Vec3(v.x * s, v.y * s, v.z * s) }
  function MulAssign3(v: Vec3, u: Vec3): Vec3 { Vec3(v.x * u.x, v.y * u.y, v.z * u.z) }
  function DivAssign3(v: Vec3, s: real): Vec3 requires s != 0.0 { ScaleAssign3(v, 1.0 / s) }

  function AddAssign4(v: Vec4, u: Vec4): Vec4 { Vec4(v.x + u.x, v.y + u.y, v.z + u.z, v.w + u.w) }
  function SubAssign4(v: Vec4, u: Vec4): Vec4 { Vec4(v.x - u.x, v.y - u.y, v.z - u.z, v.w - u.w) }
  function ScaleAssign4(v: Vec4, s: real): Vec4 { Vec4(v.x * s, v.y * s, v.z * s, v.w * s) }
  function DivAssign4(v: Vec4, s: real): Vec4 requires s != 0.0 { ScaleAssign4(v, 1.0 / s) }

  /** Each compound operator leaves its left operand equal to the binary operator's result,
      except vec4's *= (Hadamard4) against vec4's *, which differ in w. */
  lemma CompoundMatchesBinary(a2: Vec2, b2: Vec2, a3: Vec3, b3: Vec3, a4: Vec4, b4: Vec4, s: real)
    ensures AddAssign2(a2, b2) == Add2(a2, b2) && SubAssign2(a2, b2) == Sub2(a2, b2)
    ensures ScaleAssign2(a2, s) == Scale2(a2, s) && MulAssign2(a2, b2) == Mul2(a2, b2)
    ensures s != 0.0 ==> DivAssign2(a2, s) == Div2(a2, s)
    ensures AddAssign3(a3, b3) == Add3(a3, b3) && SubAssign3(a3, b3) == Sub3(a3, b3)
    ensures ScaleAssign3(a3, s) == Scale3(a3, s) && MulAssign3(a3, b3) == Mul3(a3, b3)
    ensures s != 0.0 ==> DivAssign3(a3, s) == Div3(a3, s)
    ensures AddAssign4(a4, b4) == Add4(a4, b4) && SubAssign4(a4, b4) == Sub4(a4, b4)
    ensures ScaleAssign4(a4, s) == Scale4(a4, s)
    ensures s != 0.0 ==> DivAssign4(a4, s) == Div4(a4, s)
    ensures Hadamard4(a4, b4) == Mul4(a4, b4) <==> a4.w * b4.w == a4.w * b4.z
  {
  }

  /** The input that shows vec4 * vec4 (as written) is not the componentwise product. */
  lemma Mul4IsNotComponentwise(a: Vec4, b: Vec4)
    requires a == Vec4(1.0, 1.0, 1.0, 1.0) && b == Vec4(1.0, 1.0, 1.0, 2.0)
    ensures Mul4(a, b).w == 1.0 && Hadamard4(a, b).w == 2.0
  {
  }

  // ---------------------------------------------------------------- algebraic facts

  /** cross is anti-commutative, in 2D and in 3D. */
  lemma CrossAntiCommutes(a2: Vec2, b2: Vec2, a3: Vec3, b3: Vec3)
    ensures Cross2(a2, b2) == -Cross2(b2, a2)
    ensures Cross3(a3, b3) == Neg3(Cross3(b3, a3))
    ensures Cross2(a2, a2) == 0.0 && Cross3(a3, a3) == Vec3(0.0, 0.0, 0.0)
  {
  }

  /** Lagrange's identity: |a x b|^2 = |a|^2 |b|^2 - (a.b)^2. */
  lemma Lagrange3(a: Vec3, b: Vec3)
    ensures Dot3(Cross3(a, b), Cross3(a, b)) == Dot3(a, a) * Dot3(b, b) - Dot3(a, b) * Dot3(a, b)
  {
  }

  /** Division by a scalar is multiplication by its reciprocal, component by component. */
  lemma DivIsComponentwise(v: Vec3, s: real)
    requires s != 0.0
    ensures Div3(v, s) == Vec3(v.x / s, v.y / s, v.z / s)
    ensures Scale3(Div3(v, s), s) == v
  {
  }

  /** With an exact square root, normalize yields a unit vector. */
  lemma NormalizeIsUnit(lib: MathLib, v: Vec3)
    requires ExactSqrt(lib, Dot3(v, v))
    requires Length3(lib, v) != 0.0
    ensures Dot3(Normalize3(lib, v), Normalize3(lib, v)) == 1.0
  {
    var l := Length3(lib, v);
    var d := Dot3(v, v);
    assert d >= 0.0;
    assert l * l == d;
    var n := Normalize3(lib, v);
    assert n == Vec3(v.x * (1.0 / l), v.y * (1.0 / l), v.z * (1.0 / l));
    calc {
      Dot3(n, n);
      == d * ((1.0 / l) * (1.0 / l));
      == (l * l) * ((1.0 / l) * (1.0 / l));
      == 1.0;
    }
  }

  // ---------------------------------------------------------------- integer vectors

  /** Flint: floor, then conversion to int. */
  function Flint(x: real): (r: int)
    ensures r as real <= x < r as real + 1.0
  {
    x.Floor
  }

  datatype Int2 = Int2(i1: int, i2: int)
  datatype Int3 = Int3(i1: int, i2: int, i3: int)
  datatype Int4 = Int4(i1: int, i2: int, i3: int, i4: int)

  function Int2Of(v: Vec2): Int2 { Int2(Flint(v.x), Flint(v.y)) }
  function Int3Of(v: Vec3): Int3 { Int3(Flint(v.x), Flint(v.y), Flint(v.z)) }
  function Int4Of(v: Vec4): Int4 { Int4(Flint(v.x), Flint(v.y), Flint(v.z), Flint(v.w)) }

  function AddInt2(a: Int2, b: Int2): Int2 { Int2(a.i1 + b.i1, a.i2 + b.i2) }
  function SubInt2(a: Int2, b: Int2): Int2 { Int2(a.i1 - b.i1, a.i2 - b.i2) }
  function AddInt3(a: Int3, b: Int3): Int3 { Int3(a.i1 + b.i1, a.i2 + b.i2, a.i3 + b.i3) }
  function SubInt3(a: Int3, b: Int3): Int3 { Int3(a.i1 - b.i1, a.i2 - b.i2, a.i3 - b.i3) }

  /** Converting a float vector rounds every component toward negative infinity, so a
      negative non-integer component goes down (floor), not toward zero. */
  lemma FlintRoundsDown(v: Vec2)
    ensures Int2Of(v).i1 as real <= v.x < Int2Of(v).i1 as real + 1.0
    ensures Int2Of(v).i2 as real <= v.y < Int2Of(v).i2 as real + 1.0
    ensures Int2Of(Vec2(-0.5, 2.5)) == Int2(-1, 2)
  {
    assert Flint(-0.5) == -1;
    assert Flint(2.5) == 2;
  }
}
