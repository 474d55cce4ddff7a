# Tower-Toppler core in Dafny

A Dafny model of three pieces of the Tower-Toppler graphics code, with proofs of what each promises.

- **`Inc/VecMat.h`: the value-typed linear-algebra header.**
  - vec2/vec3/vec4 and int2/int3/int4.
  - mat3/mat4: products, `Transpose`, the adjugate, the two inversion routines and the affine/projection constructors.
  - `Quaternion`.
- **`Apps/Siege.cpp`: the `Character` animation and health state machine**, with the sprite tables it is built from.
- **`Lib/Text.cpp`: `Nice` and the text-width and pen-advance arithmetic.** `Nice` trims a formatted number in place in a `char[100]`.

`float` is modelled as `real`; `FLT_EPSILON`, `FLT_MAX` and the `.1f` of `Nice` are written out as the exact values of those single-precision constants. `sqrt`, `sin`, `cos`, `tan` and `acos` are not interpreted. They are fields of a `MathLib` value passed to the members that need them, and a lemma that needs one of their properties asks for it in `requires` (`ExactSqrt`, `PositiveSqrt`, `Pythagorean`, sin² + cos² = 1).

Modules follow the header's sections:

| module | file | holds |
|---|---|---|
| `Vectors` | vectors.dfy | vectors and int tuples |
| `Bounds` | bounds.dfy | the two `Bounds` loops |
| `Matrices` | matrices.dfy | mat3/mat4, the loop products, `Transpose` |
| `Inversion` | inverse.dfy | adjugate, `InvertMatrix3x3`, `TransposeInverseMatrix3x3`, `InvertMatrix4x4` |
| `Transforms` | transforms.dfy | `Scale` … `ReferenceFrame` |
| `Quaternions` | quaternions.dfy | `Quaternion` |
| `Siege` | siege.dfy | `Character` |
| `Text` | text.dfy | `Nice`, `TextWidth`, `RenderText` |

Operations follow the form of their source:

- **Pure code becomes functions with lemmas.** This covers the vector operators, `Transpose`, `Adjoint3x3`, the constructors, the quaternion product and `Get3x3`.
- **Loops and in-place updates become methods proved against specification functions:**
  - the triple-loop matrix products;
  - the `Bounds` loops over an `array`;
  - `InvertMatrix3x3` overwriting `out`;
  - `InvertMatrix4x4` filling `inv[16]` and then an `out` buffer;
  - the column division of `Quaternion(mat4)`;
  - `Slerp`;
  - `Nice` on a `char` array;
  - the character loops of `TextWidth` and `RenderText`.
- **`Character` is a class with the source's fields.** Each method `ensures State() == XSpec(old(State()), …)`, and the properties are lemmas about the `XSpec` functions.

## Model

| member | source | states |
|---|---|---|
| Vectors.Cross2 | Inc/VecMat.h:65 | the 2D cross product is v1.x*v2.y - v1.y*v2.x, and \|a\|²\|b\|² = cross² + dot² (Lagrange's identity in the plane) |
| Vectors.CrossIsOrthogonal | Inc/VecMat.h:114 | cross(a, b) is orthogonal to both a and b |
| Vectors.TripleProductCycles | Inc/VecMat.h:111-114 | a · (b × c) = b · (c × a) |
| Vectors.DotCommutes3 | Inc/VecMat.h:111 | dot is symmetric |
| Vectors.CrossAntiCommutes | Inc/VecMat.h:65-114 | cross(a, b) = -cross(b, a) for the 2D scalar and the 3D vector versions, and cross(a, a) is zero |
| Vectors.Lagrange3 | Inc/VecMat.h:111-114 | \|a × b\|² = \|a\|²\|b\|² - (a · b)² |
| Vectors.DivIsComponentwise | Inc/VecMat.h:101 | dividing by s through the reciprocal 1/s divides every component by s, and multiplying back by s restores the vector |
| Vectors.NormalizeIsUnit | Inc/VecMat.h:112-113 | with an exact square root, normalize(v) has unit length whenever length(v) is non-zero |
| Vectors.Hadamard4 | Inc/VecMat.h:157 | vec4 *= vec4: every component i of the result is a[i] * b[i], the component-wise product |
| Vectors.Mul4IsNotComponentwise | Inc/VecMat.h:150-157 | for a = (1,1,1,1) and b = (1,1,1,2), operator * gives w = 1 while *= gives w = 2 |
| Vectors.CompoundMatchesBinary | Inc/VecMat.h:57-158 | each compound operator (+=, -=, *= s, *= v, /= s) yields the result of its binary operator; vec4's *= equals vec4 * exactly when a.w*b.w = a.w*b.z |
| Vectors.Flint | Inc/VecMat.h:170 | Flint(x) is floor(x): the integer r with r <= x < r + 1 |
| Vectors.FlintRoundsDown | Inc/VecMat.h:172-176 | int2(vec2) floors each component; int2(vec2(-0.5, 2.5)) is (-1, 2) |
| Bounds.LargestSpan2 | Inc/VecMat.h:76-77 | the returned span is one of dif.x, dif.y and at least both |
| Bounds.LargestSpan3 | Inc/VecMat.h:124-125 | the returned span is one of dif.x, dif.y, dif.z and at least all three |
| Bounds.Bounds2 | Inc/VecMat.h:69-78 | npoints <= 0 leaves min = FLT_MAX and max = -FLT_MAX; otherwise every point lies in [min, max] componentwise, each bound is attained when the points are within float range, and the result is the largest per-axis span |
| Bounds.Bounds3 | Inc/VecMat.h:117-126 | the same, for vec3 and three axes |
| Matrices.Mat4Of3 | Inc/VecMat.h:338-343 | mat4(mat3) copies the 3x3 block, leaves the last column zero, and makes the last row (0,0,0,1) |
| Matrices.MatMul3Entry | Inc/VecMat.h:229-236 | entry [i][j] of the product is the sum over k of row[i][k]*m[k][j], i.e. row i of a dotted with column j of b |
| Matrices.MatMul4Entry | Inc/VecMat.h:358-365 | the same for mat4 |
| Matrices.Mul3 | Inc/VecMat.h:229-236 | the triple loop, starting from mat3(0), computes the matrix product |
| Matrices.Mul4 | Inc/VecMat.h:358-365 | the triple loop, starting from mat4(0), computes the matrix product |
| Matrices.ProductEntries4 | Inc/VecMat.h:359-363 | after the loop nest, every accumulator entry [p][q] holds the full sum over k of row[p][k]*m[k][q] |
| Matrices.Transpose3 | Inc/VecMat.h:240-246 | entry [i][j] of Transpose(m) is m[j][i] |
| Matrices.Transpose4 | Inc/VecMat.h:461-466 | entry [i][j] of Transpose(m) is m[j][i] |
| Matrices.TransposeInvolution | Inc/VecMat.h:240-246 | transposing twice gives back the matrix, for mat3 and mat4 |
| Matrices.TransposeOfProduct3 | Inc/VecMat.h:229-246 | Transpose(a*b) = Transpose(b)*Transpose(a) |
| Matrices.TransposeOfProduct4 | Inc/VecMat.h:461-466 | the same for mat4 |
| Matrices.IdentityIsUnit3 | Inc/VecMat.h:214-237 | the default mat3 (diagonal 1) is a left and right identity of the product and fixes vectors |
| Matrices.IdentityIsUnit4 | Inc/VecMat.h:328-366 | the default mat4 is a left and right identity of the product and fixes vectors |
| Matrices.ProductComposes3 | Inc/VecMat.h:229-237 | (a*b)*v = a*(b*v) |
| Matrices.ColOfProduct3 | Inc/VecMat.h:229-237 | column j of a*b is a times column j of b |
| Matrices.ProductAssociates3 | Inc/VecMat.h:229-236 | the mat3 product is associative |
| Inversion.DetIsRowTriple | Inc/VecMat.h:250-252 | the cofactor expansion of det along row 0 is the triple product r0 · (r1 × r2) |
| Inversion.AdjugateColumn0 | Inc/VecMat.h:269-271 | column 0 of Adjoint3x3(m) is r1 × r2 |
| Inversion.AdjugateColumn1 | Inc/VecMat.h:272-274 | column 1 of Adjoint3x3(m) is r2 × r0 |
| Inversion.AdjugateColumn2 | Inc/VecMat.h:275-277 | column 2 of Adjoint3x3(m) is r0 × r1 |
| Inversion.AdjugateRow0 | Inc/VecMat.h:269-275 | row 0 of Adjoint3x3(m) is column 1 × column 2 of m |
| Inversion.AdjugateRow1 | Inc/VecMat.h:270-276 | row 1 of Adjoint3x3(m) is column 2 × column 0 of m |
| Inversion.AdjugateRow2 | Inc/VecMat.h:271-277 | row 2 of Adjoint3x3(m) is column 0 × column 1 of m |
| Inversion.AdjugateRightInverse | Inc/VecMat.h:267-279 | m * Adjoint3x3(m) = det(m) * I |
| Inversion.AdjugateLeftInverse | Inc/VecMat.h:267-279 | Adjoint3x3(m) * m = det(m) * I |
| Inversion.InvertDetIsDet3 | Inc/VecMat.h:283 | the det computed from out after the adjugate assignment is the determinant of in |
| Inversion.ScaledAdjugateIsInverse | Inc/VecMat.h:286-295 | for det != 0, (1/det) * Adjoint3x3(m) is a two-sided inverse of m |
| Inversion.InvertMatrix3x3 | Inc/VecMat.h:281-297 | returns false exactly when \|det\| < FLT_EPSILON, leaving the undivided adjugate in out; on true, out is the adjugate times 1/det and is a two-sided inverse |
| Inversion.ScaleEntries | Inc/VecMat.h:286-295 | the nine in-place assignments multiply every entry by di |
| Inversion.Inverse3 | Inc/VecMat.h:299-303 | Inverse(mat3) of a near-singular input returns the adjugate, and otherwise a two-sided inverse |
| Inversion.TransposeInverseMatrix3x3 | Inc/VecMat.h:248-265 | the nine closed-form entries make the transpose of the scaled adjugate, which is a two-sided inverse of Transpose(m) |
| Inversion.TransposeInverseRow0 | Inc/VecMat.h:255-261 | the closed-form entries r[0][0], r[0][1], r[0][2] form row 0 of Transpose(invdet * Adjoint3x3(m)) |
| Inversion.TransposeInverseRow1 | Inc/VecMat.h:256-262 | the same for row 1 |
| Inversion.TransposeInverseRow2 | Inc/VecMat.h:257-263 | the same for row 2 |
| Inversion.TransposedInverse | Inc/VecMat.h:248-265 | the transpose of the scaled adjugate is a two-sided inverse of Transpose(m) |
| Inversion.Unflatten4 | Inc/VecMat.h:354 | reading 16 floats back as a mat4 gives a matrix whose row-major layout is those floats |
| Inversion.FlattenRoundTrip | Inc/VecMat.h:354 | the row-major float view of a mat4 converts back to the same matrix |
| Inversion.PivotTerms | Inc/VecMat.h:499-501 | D is m[0]*inv[0] + m[1]*inv[4] + m[2]*inv[8] + m[3]*inv[12] |
| Inversion.CofactorTableEntry | Inc/VecMat.h:496-498 | inv[j*4+i] holds invf(i, j, m) |
| Inversion.PivotOfEmbedded3 | Inc/VecMat.h:477-501 | for mat4(mat3 a), D is det(a) |
| Inversion.PivotOfZeroRow | Inc/VecMat.h:477-502 | a mat4 with a zero row (any of the four) has D = 0, so InvertMatrix4x4 rejects it |
| Inversion.IdentityPivot | Inc/VecMat.h:477-502 | the identity has D = 1 |
| Inversion.Cofactors | Inc/VecMat.h:495-498 | the double loop fills inv with the cofactor table |
| Inversion.PivotOf | Inc/VecMat.h:499-501 | the loop accumulates D |
| Inversion.ScaleInto | Inc/VecMat.h:505-506 | the loop writes inv[i]*D to out[i] for all 16 entries |
| Inversion.InvertMatrix4x4 | Inc/VecMat.h:472-512 | returns false exactly when D == 0, and then leaves out untouched; otherwise out[k] is inv[k] * (1/D) |
| Inversion.IdentityBuffer | Inc/VecMat.h:515 | the default mat4 lays out as the identity |
| Inversion.Inverse4 | Inc/VecMat.h:514-518 | Inverse(mat4) of a matrix with D = 0 is the identity; otherwise it is the scaled cofactor table |
| Transforms.ScaleIsDiagonal | Inc/VecMat.h:369-375 | Scale(x, y, z) is diag(x, y, z, 1) and scales points component-wise |
| Transforms.UnitScaleIsIdentity | Inc/VecMat.h:378 | Scale(1) is the identity |
| Transforms.TranslateMovesPoints | Inc/VecMat.h:380-384 | Translate(t) * vec4(p, 1) = vec4(p + t, 1) |
| Transforms.TranslateKeepsDirections | Inc/VecMat.h:380-384 | Translate(t) leaves directions vec4(d, 0) unchanged |
| Transforms.TranslationsCompose | Inc/VecMat.h:380-384 | Translate(s) * Translate(t) = Translate(s + t) |
| Transforms.RotationsFixTheirAxis | Inc/VecMat.h:389-414 | RotateX/Y/Z leave their own axis fixed, whatever sin and cos return |
| Transforms.RotateZIsOrthogonal | Inc/VecMat.h:407-414 | when sin² + cos² = 1, Transpose(RotateZ) * RotateZ is the identity |
| Transforms.OrthographicDefaultFlipsZ | Inc/VecMat.h:416-426 | Orthographic(-1,1,-1,1) with the default zNear = -1, zFar = 1 is diag(1,1,-1,1), so it negates z |
| Transforms.OrthographicMapsNearCorner | Inc/VecMat.h:416-426 | (left, bottom, -zNear) maps to (-1, -1, -1) |
| Transforms.OrthographicMapsFarCorner | Inc/VecMat.h:416-426 | (right, top, -zFar) maps to (1, 1, 1) |
| Transforms.PerspectiveMapsNearPlane | Inc/VecMat.h:428-442 | a point on the near plane at -zNear maps to clip z = -w |
| Transforms.PerspectiveMapsFarPlane | Inc/VecMat.h:428-442 | a point on the far plane at -zFar maps to clip z = w |
| Transforms.ViewMatrixMapsEye | Inc/VecMat.h:452-455 | the view matrix built from any x, y, z sends the eye to (0, 0, 0, 1) |
| Transforms.LookTowardsMapsEye | Inc/VecMat.h:444-457 | LookTowards(eye, v, up) * vec4(eye, 1) = (0, 0, 0, 1) |
| Transforms.LookAtMapsEye | Inc/VecMat.h:459 | LookAt(eye, lookat, up) * vec4(eye, 1) = (0, 0, 0, 1) |
| Transforms.ReferenceFrameMapsOrigin | Inc/VecMat.h:468-470 | ReferenceFrame(x, y, z, o) * (0, 0, 0, 1) = vec4(o, 1) |
| Transforms.ReferenceFrameMapsXAxis | Inc/VecMat.h:468-470 | (1, 0, 0, 0) maps to vec4(x, 0) |
| Transforms.ReferenceFrameMapsYAxis | Inc/VecMat.h:468-470 | (0, 1, 0, 0) maps to vec4(y, 0) |
| Transforms.ReferenceFrameMapsZAxis | Inc/VecMat.h:468-470 | (0, 0, 1, 0) maps to vec4(z, 0) |
| Transforms.ReferenceFrameMapsPoints | Inc/VecMat.h:468-470 | a point p maps to o + p.x*x + p.y*y + p.z*z |
| Transforms.ViewMatrixInvertsFrame | Inc/VecMat.h:444-470 | for orthonormal axes, the LookTowards matrix times ReferenceFrame(x, y, -z, eye) is the identity |
| Quaternions.ProductIsHamilton | Inc/VecMat.h:580-586 | the component formula is the Hamilton product (v1 × v2 + w1 v2 + w2 v1, w1 w2 - v1 · v2) |
| Quaternions.UnitQuatIsUnit | Inc/VecMat.h:580-586 | (0, 0, 0, 1) is a two-sided unit of the product |
| Quaternions.AxisAngleIsUnit | Inc/VecMat.h:529-533 | with an exact square root and sin² + cos² = 1, the axis-angle quaternion has Norm() = 1 |
| Quaternions.Get3x3 | Inc/VecMat.h:588-601 | returns the identity whenever \|Norm()\| < FLT_EPSILON |
| Quaternions.ZeroQuatGivesIdentity | Inc/VecMat.h:588-605 | the default (all-zero) quaternion yields the identity from Get3x3 and GetMatrix |
| Quaternions.UnitQuatGivesIdentity | Inc/VecMat.h:588-601 | (0, 0, 0, 1) yields the identity |
| Quaternions.GetMatrix | Inc/VecMat.h:602-605 | a quaternion with \|Norm()\| < FLT_EPSILON gives the 4x4 identity; in every case the matrix has no translation and its last row is (0, 0, 0, 1) |
| Quaternions.AxisIsFixed | Inc/VecMat.h:588-601 | the rotation matrix fixes the quaternion's vector part (its axis), for every quaternion |
| Quaternions.SelectAxis | Inc/VecMat.h:553-555 | the switch picks an axis whose diagonal entry is >= both others, and no earlier axis ties it |
| Quaternions.CaseArgumentIsPositive | Inc/VecMat.h:536-555 | on the non-trace branch, the selected axis makes the argument of sqrt greater than 1/4 |
| Quaternions.CaseMacro | Inc/VecMat.h:545-552 | the component the case computes by sqrt is positive |
| Quaternions.FromMat3 | Inc/VecMat.h:535-561 | trace >= 0 gives w > 0; otherwise the component of the selected axis is positive |
| Quaternions.IdentityRoundTrip | Inc/VecMat.h:535-601 | Quaternion(identity) is (0, 0, 0, 1), whose Get3x3 is the identity again |
| Quaternions.UnitColumnsOnlyTranspose | Inc/VecMat.h:562-573 | when the column lengths are 1, the normalized block is the transpose of the upper 3x3 |
| Quaternions.FromMat4 | Inc/VecMat.h:562-575 | Quaternion(mat4) is Quaternion(mat3) of the transposed block with its columns divided by their lengths |
| Quaternions.DivideColumns | Inc/VecMat.h:571-573 | the three loops divide column c of t by its length, in place |
| Quaternions.Qup | Inc/VecMat.h:627 | qup = (-y, x, -w, z) has zero dot product with q0 and the same norm |
| Quaternions.Slerp | Inc/VecMat.h:609-633 | the three branches: the sine-ratio blend; (1-t)*q0 + t*q1 when the ends nearly coincide; q0 and qup blended by sin((0.5-t)π) and sin(tπ) when they are nearly opposite |
| Quaternions.LinearBlendEndpoints | Inc/VecMat.h:619-624 | the linear blend gives q0 at t = 0 and q1 at t = 1 |
| Quaternions.SineBlendStartsAtQ0 | Inc/VecMat.h:613-624 | the sine-ratio blend gives q0 at t = 0 when sin(0) = 0 |
| Quaternions.SineBlendEndsAtQ1 | Inc/VecMat.h:613-624 | the sine-ratio blend gives q1 at t = 1 when sin(0) = 0 |
| Siege.CDivMod | Apps/Siege.cpp:92 | C++'s truncating / and %: quotient*b + remainder = a, \|remainder\| < \|b\|, and the remainder takes the sign of a |
| Siege.FrameCell | Apps/Siege.cpp:92 | for 0 <= f < rows*cols, row = f / nCols lies in [0, rows) and col = f % nCols in [0, nCols), and row*nCols + col = f |
| Siege.TablesAreWellFormed | Apps/Siege.cpp:16-38 | every animation range {i1, i2} of the four SpriteInfo tables has 0 <= i1 <= i2 < rows*cols, and the attack, moving, death and hurt indices name an animation |
| Siege.ValidFrameIsOnSheet | Apps/Siege.cpp:90-94 | in every valid state the frame's row and column lie on the sprite sheet |
| Siege.SetFrameSpec | Apps/Siege.cpp:90-94 | frame = f, row*nCols + col = f, and 0 <= col < nCols for f >= 0 and nCols > 0 |
| Siege.SetAnimationSpec | Apps/Siege.cpp:96-103 | SetAnimation keeps the character valid |
| Siege.SetAnimationSelects | Apps/Siege.cpp:96-103 | for a < nAnimations: nFrames = i2 - i1 + 1, CurrentAnimation = a, startFrame = frame = i1, health and the flags unchanged; otherwise nothing changes |
| Siege.NextFrame | Apps/Siege.cpp:109 | the next frame is frame + 1 or a wrap to startFrame, and stays inside the animation range |
| Siege.AnimateSpec | Apps/Siege.cpp:105-111 | Animate keeps the character valid |
| Siege.AnimateSteps | Apps/Siege.cpp:105-111 | nothing changes unless now > change; then change = now + frameDuration and the frame advances or wraps; startFrame <= frame < startFrame + nFrames holds afterwards |
| Siege.AnimationLoops | Apps/Siege.cpp:105-111 | nFrames advances bring the frame back to where it started |
| Siege.AttackSpec | Apps/Siege.cpp:113-116 | Attack clears IsMoving and keeps the character valid |
| Siege.MovingSpec | Apps/Siege.cpp:118-121 | Moving sets IsMoving and keeps the character valid |
| Siege.AttackAndMovingSelect | Apps/Siege.cpp:113-121 | Attack clears and Moving sets IsMoving; each selects its own animation index and leaves health alone |
| Siege.HurtingSpec | Apps/Siege.cpp:123-130 | Hurting keeps the character valid |
| Siege.HurtingTakesDamage | Apps/Siege.cpp:123-130 | health drops by exactly dmg and IsMoving is cleared; new health <= 0 means dead, otherwise the hurt animation is selected and nothing is released |
| Siege.DeathSpec | Apps/Siege.cpp:132-138 | Death sets IsDead and keeps the character valid |
| Siege.DeathIsIdempotent | Apps/Siege.cpp:132-138 | a second Death changes nothing; the sprite is released once |
| Siege.HurtingTheDeadReleasesNothing | Apps/Siege.cpp:123-138 | hurting a dead character keeps it dead and does not release its sprite again |
| Siege.UpdatePositionMoves | Apps/Siege.cpp:140-146 | when moving, x grows by exactly speed and y stays; otherwise nothing changes |
| Siege.Character.Default | Apps/Siege.cpp:43-72 | the default constructor gives the member initialisers (health 100, damage 10, CurrentAnimation 1, frameDuration 0.1, change = now + 0.1) and no animation table |
| Siege.Character.constructor | Apps/Siege.cpp:74-88 | the constructor copies the SpriteInfo fields, and a well-formed SpriteInfo gives a valid character |
| Siege.Character.SetFrame | Apps/Siege.cpp:90-94 | the new state is SetFrameSpec of the old: frame = f and the sprite cell (row, col) recombines to f |
| Siege.Character.SetAnimation | Apps/Siege.cpp:96-103 | the new state is SetAnimationSpec of the old, which selects the animation range when a < nAnimations and changes nothing otherwise; a valid character stays valid |
| Siege.Character.Animate | Apps/Siege.cpp:105-111 | the new state is AnimateSpec of the old: one frame step with wrap-around once now passes change, nothing before; a valid character stays valid |
| Siege.Character.Attack | Apps/Siege.cpp:113-116 | the new state is AttackSpec of the old: not moving, attack animation selected; a valid character stays valid |
| Siege.Character.Moving | Apps/Siege.cpp:118-121 | the new state is MovingSpec of the old: moving, moving animation selected; a valid character stays valid |
| Siege.Character.Hurting | Apps/Siege.cpp:123-130 | the new state is HurtingSpec of the old: health reduced by dmg, not moving, then Death or the hurt animation; a valid character stays valid |
| Siege.Character.Death | Apps/Siege.cpp:132-138 | the new state is DeathSpec of the old: the first call selects the death animation, releases the sprite and sets IsDead; later calls change nothing; a valid character stays valid |
| Siege.Character.UpdatePosition | Apps/Siege.cpp:140-146 | the new state is UpdatePositionSpec of the old: x advances by speed only while moving; a valid character stays valid |
| Text.Precision | Lib/Text.cpp:279 | 1 decimal when \|f\| > 1, 2 when .1f < \|f\| <= 1, 3 otherwise (each as an if-and-only-if) |
| Text.PrecisionFallsWithMagnitude | Lib/Text.cpp:279 | a larger magnitude never gets more decimals |
| Text.Strlen | Lib/Text.cpp:280-292 | strlen is the index of the first NUL |
| Text.TrimmedIsPrefix | Lib/Text.cpp:280-283 | trimming keeps a prefix of the buffer that is never empty; the dot is cut only from a string longer than 1 that ends in '.' |
| Text.NiceIsSuffix | Lib/Text.cpp:277-294 | the result is a suffix of the trimmed buffer, or "-" followed by one; it is never longer than the formatted input and at most one character shorter than the trimmed buffer |
| Text.NiceDropsLeadingZero | Lib/Text.cpp:285-290 | "-0.5" becomes "-.5" and "0.25" becomes ".25" |
| Text.NiceOfZero | Lib/Text.cpp:280-292 | "0.000", "-0.000" and "-0." all become "0" |
| Text.NiceOfWholeNumber | Lib/Text.cpp:280-283 | "10.0" becomes "10" |
| Text.CutLast | Lib/Text.cpp:280-283 | writing NUL at strlen-1 drops the last character of the C string |
| Text.Overwrite | Lib/Text.cpp:286 | writing a non-NUL character before the terminator replaces that character of the C string |
| Text.Nice | Lib/Text.cpp:277-294 | the in-place trimming of the 100-char buffer returns NiceSpec of the formatted string |
| Text.SkipLeadingZero | Lib/Text.cpp:284-293 | the three prefix rules return DropLeadingZero of the trimmed C string |
| Text.CutZeros | Lib/Text.cpp:280-281 | the while loop leaves the C string with its trailing zeros trimmed, keeping at least one character |
| Text.CutDot | Lib/Text.cpp:282-283 | a trailing '.' is removed only from a string longer than 1 |
| Text.InBuffer | Lib/Text.cpp:16-24 | formatting into char[500] keeps a prefix of at most 499 characters, and the whole string when it fits |
| Text.FixedTextWidthAdds | Lib/Text.cpp:49-54 | without FreeType, the width of a + b is the width of a plus the width of b, and the empty string has width 0 |
| Text.FixedTextWidthIsBounded | Lib/Text.cpp:49-54 | for scale >= 0 the width lies in [0, 499*scale] |
| Text.Truncate | Lib/Text.cpp:58 | (int) truncates toward zero |
| Text.FixedTextWidthIntIsExact | Lib/Text.cpp:55-59 | the int overload returns exactly scale * strlen(text) |
| Text.Shr6 | Lib/Text.cpp:244 | advance >> 6 is floor(advance / 64) |
| Text.AdvanceStep | Lib/Text.cpp:242-245 | each loop iteration adds one character's advance >> 6 |
| Text.FreeTypeTextWidth | Lib/Text.cpp:233-248 | with no font the width is 0; otherwise it is the sum of advance >> 6 over the characters, times scale/charRes |
| Text.RenderText | Lib/Text.cpp:188-231 | the returned pen is Pen(...) of the text with scale divided by charRes |
| Text.PenMovesByWidth | Lib/Text.cpp:188-248 | horizontal rendering moves the pen right by exactly the FreeType TextWidth of the text, and leaves y unchanged |

## Left out

- Floating-point rounding. Every `float` is a `real`, and the `(double)` accumulation of `InvertMatrix4x4` is the same real sum.
- The transcendental functions. `sqrt`, `sin`, `cos`, `tan` and `acos` are uninterpreted fields of `MathLib`. `length`, `normalize`, `RotateX/Y/Z`, `Perspective`, the trig branches of `Slerp` and the matrix and axis-angle quaternion constructors are therefore proved only for the structure the code gives them, or under a stated property of the function.
- The memory layout: `operator float*`, `*(&x+i)` and the raw address views of the matrices. `m[i][j]` is record or sequence access, and `Flatten4`/`Unflatten4` stand for the row-major float view.
- `InvertMatrix4x4`: only the D == 0 check, the failure path and the scaling are proved. That the result is an inverse is not proved, because of the size of the cofactor algebra.
- `Helper::invert` is three methods, one per source loop (`Cofactors`, `PivotOf`, `ScaleInto`), so that each is small enough to prove.
- The compound operators (`+=`, `*=`, …) are functions returning the updated value rather than methods on a mutable vector. Every caller in this core uses the updated value only.
- `Quaternion(mat4)` and `Slerp` are methods that return a new quaternion rather than assigning `*this`.
- Precondition: division by a length, determinant or `sin(omega)` has a `requires` that it is non-zero. The source divides regardless and, in floating point, produces infinities. Affected: `Normalize2/3/4`, `LookTowards`, `LookAt`, `Perspective`, `Transforms.Orthographic` (`right != left`, `top != bottom`, `zNear != zFar`), `Quaternions.FromAxisAngle`, `Quaternions.FromMat4`, `Quaternions.Slerp`, `Inversion.TransposeInverseMatrix3x3`, and the `charRes != 0` of `Text.FreeTypeTextWidth`, `Text.RenderText` and `Text.PenMovesByWidth` (the source divides by `charRes` when it scales the advances).
- Vectors.Flint: `(int) floor(x)` is an unbounded integer floor. The C cast is undefined outside the `int` range, and the model does not say what happens there.
- Constants: `FLT_EPSILON`, `FLT_MAX` and the `.1f` of `Nice` are written as their exact single-precision values, because the code compares against them. The other `float` literals (`_PI` and the epsilon of `Slerp`, `frameDuration`, the degrees-to-radians factor) are kept as the decimal values the source writes, because the model only multiplies or compares with them.
- Quaternions.FromMat3: asks the `sqrt` in `MathLib` to return positive roots of positive arguments (`PositiveSqrt`), and states only the sign of the component each branch computes by `sqrt`. It does not state that the result is the rotation of the matrix.
- The quaternion product: that `Norm()` is multiplicative and that the product is associative are not proved.
- Quaternions.Slerp: its first-branch result is stated through `acos`/`sin` as given; nothing is proved about the interpolation being on the unit sphere.
- OpenGL, GLFW and FreeType: shaders, buffers, textures, draw calls, `SetFont`/`SetCharacterSet` and font loading. A loaded font is a `Font` value (charRes and one advance per character code); a missing font is `None`.
- `RenderText` and the FreeType `TextWidth` take the font as a parameter, so the `SetFont` call made when no font is loaded is not modelled. For `RenderText` the font must be present. In the source `SetFont` always leaves a current font, so the `None` case of `Text.FreeTypeTextWidth` (width 0) models only the guard at `Lib/Text.cpp` line 240, which the program never takes.
- The glyph quads `RenderText` draws (positions, bearings, sizes) are not modelled. Only the pen advance is.
- `vsnprintf`/`sprintf` formatting. The formatted text is an input, and `Text.InBuffer` keeps its 499-character limit. The `int` `TextWidth` passes the formatted text back as a format string; this model assumes it contains no `%` directive.
- Text.Covers: the signed `char` index into the glyph table is modelled as a non-negative character code below the size of the table. Negative codes are excluded by this requirement. It also asks that the text hold no NUL, because the loops stop at the first one; the fixed-width `Text.FixedTextWidth` measures `InBuffer` of its text and likewise assumes no NUL inside it.
- `Apps/Siege.cpp` outside `Character`: the global vectors, the `Deploy…` functions, the event handlers, the window and the main loop.
- The `Sprite` methods (`SetUVforFrame`, `Release`, `SetPosition`): their source is not part of this model. Each is an abstract effect on a `Sprite` value (the last UV cell set, a release count, the position).
- `glfwGetTime` is the `now` parameter of the constructors and of `Animate`.
- Siege.Character.Hurting: `health -= dmg` is an unbounded integer subtraction; 32-bit overflow is not modelled.
- Siege.Character.SetAnimation: requires 0 <= a. The source indexes `animations[a]` without a lower-bound check, so a negative index would be undefined behaviour.
- Siege.Character.Default: the default-constructed character has `nCols = 0` and no animation table. The source would divide by zero in `SetFrame` or read through a null `animations` in `SetAnimation`, so the methods require a wired character (`Wired`).
- `Inversion.Adjoint3x3` is written as three row functions with the source's entries. The entries are the same, grouped by row for the proofs.
- `Inc/Draw.h` and `Inc/GLXtras.h` declare GL helpers without bodies and are not part of this model.

Behaviour of the code on edge cases, as modelled:

- `Inverse(mat4)` of a singular matrix returns the identity. `InvertMatrix4x4` does not write `out`, and the default `mat4` is the identity.
- On failure `InvertMatrix3x3` leaves in `out` the undivided adjugate, so `Inverse(mat3)` of a singular matrix returns the adjugate.
- `Orthographic(-1, 1, -1, 1)` with its default depth range is not the identity. It negates z.

## Findings

| source | as written | input that shows it | evidently intended | confidence | as-written member | corrected member |
|---|---|---|---|---|---|---|
| Inc/VecMat.h:150 | `vec4 * vec4` computes its w component as `w*v.z` | a = (1, 1, 1, 1), b = (1, 1, 1, 2): `a*b` has w = 1, while `a *= b` (line 157) gives w = 2 | the component-wise product `w*v.w`, as `*=` computes | high (not executed) | Vectors.Mul4, Vectors.Mul4IsNotComponentwise | Vectors.Hadamard4 |
