// Matrix inversion in Inc/VecMat.h: the 3x3 adjugate and its epsilon-guarded inverse, the
// closed-form transpose-of-inverse, and the 4x4 cofactor inverse guarded by an exact-zero test.

module Inversion {
  import opened Vectors
  import opened Matrices

  // ---------------------------------------------------------------- 3x3

  /** The determinant by cofactor expansion along row 0, as TransposeInverseMatrix3x3 writes it. */
  function Det3(m: Mat3): real
  {
    m.r0.x * (m.r1.y * m.r2.z - m.r2.y * m.r1.z)
    - m.r0.y * (m.r1.x * m.r2.z - m.r1.z * m.r2.x)
    + m.r0.z * (m.r1.x * m.r2.y - m.r1.y * m.r2.x)
  }

  /** Adjoint3x3: the adjugate (transpose of the cofactor matrix), one entry per 2x2 cofactor,
      written here a row at a time. */
  function Adjoint3x3(m: Mat3): Mat3
  {
    Mat3(AdjugateRowX(m), AdjugateRowY(m), AdjugateRowZ(m))
  }

  function AdjugateRowX(m: Mat3): Vec3
  {
    Vec3(m.r1.y * m.r2.z - m.r1.z * m.r2.y, -(m.r0.y * m.r2.z - m.r0.z * m.r2.y), m.r0.y * m.r1.z - m.r0.z * m.r1.y)
  }

  function AdjugateRowY(m: Mat3): Vec3
  {
    Vec3(-(m.r1.x * m.r2.z - m.r1.z * m.r2.x), m.r0.x * m.r2.z - m.r0.z * m.r2.x, -(m.r0.x * m.r1.z - m.r0.z * m.r1.x))
  }

  function AdjugateRowZ(m: Mat3): Vec3
  {
    Vec3(m.r1.x * m.r2.y - m.r1.y * m.r2.x, -(m.r0.x * m.r2.y - m.r0.y * m.r2.x), m.r0.x * m.r1.y - m.r0.y * m.r1.x)
  }

  /** Det3 is the triple product of the rows... */
  lemma DetIsRowTriple(m: Mat3)
    ensures Det3(m) == Dot3(m.r0, Cross3(m.r1, m.r2))
  {
  }

  /** Column j of the adjugate is the cross product of the two rows other than j. */
  lemma AdjugateColumn0(m: Mat3) ensures Col3(Adjoint3x3(m), 0) == Cross3(m.r1, m.r2)
  {
    AdjugateEntries(m);
    ColumnEntries(Adjoint3x3(m));
    CrossAsColumn(m.r1.x, m.r1.y, m.r1.z, m.r2.x, m.r2.y, m.r2.z);
  }
  lemma AdjugateColumn1(m: Mat3) ensures Col3(Adjoint3x3(m), 1) == Cross3(m.r2, m.r0)
  {
    AdjugateEntries(m);
    ColumnEntries(Adjoint3x3(m));
    CrossAsNegatedColumn(m.r2.x, m.r2.y, m.r2.z, m.r0.x, m.r0.y, m.r0.z);
  }
  lemma AdjugateColumn2(m: Mat3) ensures Col3(Adjoint3x3(m), 2) == Cross3(m.r0, m.r1)
  {
    AdjugateEntries(m);
    ColumnEntries(Adjoint3x3(m));
    CrossAsColumn(m.r0.x, m.r0.y, m.r0.z, m.r1.x, m.r1.y, m.r1.z);
  }

  /** The cross product of (a, b, c) and (d, e, f), in the order columns 0 and 2 of the
      adjugate write it. */
  lemma CrossAsColumn(a: real, b: real, c: real, d: real, e: real, f: real)
    ensures Vec3(b * f - c * e, -(a * f - c * d), a * e - b * d) == Cross3(Vec3(a, b, c), Vec3(d, e, f))
  {
  }

  /** The same, in the order column 1 writes it. */
  lemma CrossAsNegatedColumn(a: real, b: real, c: real, d: real, e: real, f: real)
    ensures Vec3(-(e * c - f * b), d * c - f * a, -(d * b - e * a)) == Cross3(Vec3(a, b, c), Vec3(d, e, f))
  {
  }

  /** m times its adjugate is Det3(m) times the identity. */
  lemma AdjugateRightInverse(m: Mat3)
    ensures MatMul3(m, Adjoint3x3(m)) == Diag3(Det3(m))
  {
    AdjugateColumn0(m);
    AdjugateColumn1(m);
    AdjugateColumn2(m);
    DetIsRowTriple(m);
    TripleProductCycles(m.r0, m.r1, m.r2);
    TripleProductCycles(m.r1, m.r2, m.r0);
    CrossIsOrthogonal(m.r1, m.r2);
    CrossIsOrthogonal(m.r2, m.r0);
    CrossIsOrthogonal(m.r0, m.r1);
  }

  /** The adjugate times m is Det3(m) times the identity, row by row. */
  lemma AdjugateLeftInverse(m: Mat3)
    ensures MatMul3(Adjoint3x3(m), m) == Diag3(Det3(m))
  {
    AdjugateLeftRow0(m);
    AdjugateLeftRow1(m);
    AdjugateLeftRow2(m);
  }

  /** Row i of the adjugate is the cross product of the two columns of m other than i. */
  lemma AdjugateRow0(m: Mat3) ensures Adjoint3x3(m).r0 == Cross3(Col3(m, 1), Col3(m, 2))
  {
    AdjugateEntries(m);
    ColumnEntries(m);
    CrossAsCofactors(m.r0.y, m.r1.y, m.r2.y, m.r0.z, m.r1.z, m.r2.z);
  }
  lemma AdjugateRow1(m: Mat3) ensures Adjoint3x3(m).r1 == Cross3(Col3(m, 2), Col3(m, 0))
  {
    AdjugateEntries(m);
    ColumnEntries(m);
    CrossAsNegatedCofactors(m.r0.z, m.r1.z, m.r2.z, m.r0.x, m.r1.x, m.r2.x);
  }
  lemma AdjugateRow2(m: Mat3) ensures Adjoint3x3(m).r2 == Cross3(Col3(m, 0), Col3(m, 1))
  {
    AdjugateEntries(m);
    ColumnEntries(m);
    CrossAsCofactors(m.r0.x, m.r1.x, m.r2.x, m.r0.y, m.r1.y, m.r2.y);
  }

  /** The rows of the adjugate, entry by entry. */
  lemma AdjugateEntries(m: Mat3)
    ensures Adjoint3x3(m).r0 == Vec3(m.r1.y * m.r2.z - m.r1.z * m.r2.y, -(m.r0.y * m.r2.z - m.r0.z * m.r2.y), m.r0.y * m.r1.z - m.r0.z * m.r1.y)
    ensures Adjoint3x3(m).r1 == Vec3(-(m.r1.x * m.r2.z - m.r1.z * m.r2.x), m.r0.x * m.r2.z - m.r0.z * m.r2.x, -(m.r0.x * m.r1.z - m.r0.z * m.r1.x))
    ensures Adjoint3x3(m).r2 == Vec3(m.r1.x * m.r2.y - m.r1.y * m.r2.x, -(m.r0.x * m.r2.y - m.r0.y * m.r2.x), m.r0.x * m.r1.y - m.r0.y * m.r1.x)
  {
    assert Adjoint3x3(m) == Mat3(AdjugateRowX(m), AdjugateRowY(m), AdjugateRowZ(m));
    AdjugateRowXEntries(m);
    AdjugateRowYEntries(m);
    AdjugateRowZEntries(m);
  }

  lemma AdjugateRowXEntries(m: Mat3)
    ensures AdjugateRowX(m) == Vec3(m.r1.y * m.r2.z - m.r1.z * m.r2.y, -(m.r0.y * m.r2.z - m.r0.z * m.r2.y), m.r0.y * m.r1.z - m.r0.z * m.r1.y)
  {
  }

  lemma AdjugateRowYEntries(m: Mat3)
    ensures AdjugateRowY(m) == Vec3(-(m.r1.x * m.r2.z - m.r1.z * m.r2.x), m.r0.x * m.r2.z - m.r0.z * m.r2.x, -(m.r0.x * m.r1.z - m.r0.z * m.r1.x))
  {
  }

  lemma AdjugateRowZEntries(m: Mat3)
    ensures AdjugateRowZ(m) == Vec3(m.r1.x * m.r2.y - m.r1.y * m.r2.x, -(m.r0.x * m.r2.y - m.r0.y * m.r2.x), m.r0.x * m.r1.y - m.r0.y * m.r1.x)
  {
  }

  /** The columns of a 3x3 matrix, entry by entry. */
  lemma ColumnEntries(m: Mat3)
    ensures Col3(m, 0) == Vec3(m.r0.x, m.r1.x, m.r2.x)
    ensures Col3(m, 1) == Vec3(m.r0.y, m.r1.y, m.r2.y)
    ensures Col3(m, 2) == Vec3(m.r0.z, m.r1.z, m.r2.z)
  {
  }

  /** The cross product of (a, b, c) and (d, e, f), in the order the adjugate writes rows 0 and 2. */
  lemma CrossAsCofactors(a: real, b: real, c: real, d: real, e: real, f: real)
    ensures Vec3(b * f - e * c, -(a * f - d * c), a * e - d * b) == Cross3(Vec3(a, b, c), Vec3(d, e, f))
  {
  }

  /** The same, in the order the adjugate writes row 1. */
  lemma CrossAsNegatedCofactors(a: real, b: real, c: real, d: real, e: real, f: real)
    ensures Vec3(-(e * c - b * f), d * c - a * f, -(d * b - a * e)) == Cross3(Vec3(a, b, c), Vec3(d, e, f))
  {
  }

  /** The determinant is also the triple product of the columns. */
  lemma DetIsColumnTriple(m: Mat3)
    ensures Det3(m) == Dot3(Cross3(Col3(m, 1), Col3(m, 2)), Col3(m, 0))
  {
  }

  lemma AdjugateLeftRow0(m: Mat3) ensures MatMul3(Adjoint3x3(m), m).r0 == Vec3(Det3(m), 0.0, 0.0)
  {
    var c0, c1, c2 := Col3(m, 0), Col3(m, 1), Col3(m, 2);
    AdjugateRow0(m);
    DetIsColumnTriple(m);
    CrossIsOrthogonal(c1, c2);
  }

  lemma AdjugateLeftRow1(m: Mat3) ensures MatMul3(Adjoint3x3(m), m).r1 == Vec3(0.0, Det3(m), 0.0)
  {
    var c0, c1, c2 := Col3(m, 0), Col3(m, 1), Col3(m, 2);
    AdjugateRow1(m);
    DetIsColumnTriple(m);
    CrossIsOrthogonal(c2, c0);
    TripleProductCycles(c0, c1, c2);
    DotCommutes3(Cross3(c2, c0), c1);
    DotCommutes3(Cross3(c1, c2), c0);
  }

  lemma AdjugateLeftRow2(m: Mat3) ensures MatMul3(Adjoint3x3(m), m).r2 == Vec3(0.0, 0.0, Det3(m))
  {
    var c0, c1, c2 := Col3(m, 0), Col3(m, 1), Col3(m, 2);
    AdjugateRow2(m);
    DetIsColumnTriple(m);
    CrossIsOrthogonal(c0, c1);
    TripleProductCycles(c2, c0, c1);
    DotCommutes3(Cross3(c0, c1), c2);
    DotCommutes3(Cross3(c1, c2), c0);
    TripleProductCycles(c0, c1, c2);
  }

  /** The determinant InvertMatrix3x3 computes from the adjugate's first row is Det3. */
  lemma InvertDetIsDet3(m: Mat3, adj: Mat3)
    requires adj == Adjoint3x3(m)
    ensures adj.r0.x * m.r0.x + adj.r0.y * m.r1.x + adj.r0.z * m.r2.x == Det3(m)
  {
  }

  /** Scaling either factor scales the product. */
  lemma ScaleRightFactor3(a: Mat3, b: Mat3, s: real)
    ensures MatMul3(a, ScaleMat3(b, s)) == ScaleMat3(MatMul3(a, b), s)
  {
    var c0, c1, c2 := Col3(b, 0), Col3(b, 1), Col3(b, 2);
    assert ScaleMat3(MatMul3(a, b), s)
        == Mat3(Scale3(Vec3(Dot3(a.r0, c0), Dot3(a.r0, c1), Dot3(a.r0, c2)), s),
                Scale3(Vec3(Dot3(a.r1, c0), Dot3(a.r1, c1), Dot3(a.r1, c2)), s),
                Scale3(Vec3(Dot3(a.r2, c0), Dot3(a.r2, c1), Dot3(a.r2, c2)), s));
    ScaledColumns(b, s);
    ScaledRow(a.r0, c0, c1, c2, s);
    ScaledRow(a.r1, c0, c1, c2, s);
    ScaledRow(a.r2, c0, c1, c2, s);
  }

  lemma ScaleLeftFactor3(a: Mat3, b: Mat3, s: real)
    ensures MatMul3(ScaleMat3(a, s), b) == ScaleMat3(MatMul3(a, b), s)
  {
    var c0, c1, c2 := Col3(b, 0), Col3(b, 1), Col3(b, 2);
    assert ScaleMat3(MatMul3(a, b), s)
        == Mat3(Scale3(Vec3(Dot3(a.r0, c0), Dot3(a.r0, c1), Dot3(a.r0, c2)), s),
                Scale3(Vec3(Dot3(a.r1, c0), Dot3(a.r1, c1), Dot3(a.r1, c2)), s),
                Scale3(Vec3(Dot3(a.r2, c0), Dot3(a.r2, c1), Dot3(a.r2, c2)), s));
    ScaledRowLeft(a.r0, c0, c1, c2, s);
    ScaledRowLeft(a.r1, c0, c1, c2, s);
    ScaledRowLeft(a.r2, c0, c1, c2, s);
  }

  lemma ScaledColumns(b: Mat3, s: real)
    ensures Col3(ScaleMat3(b, s), 0) == Scale3(Col3(b, 0), s)
    ensures Col3(ScaleMat3(b, s), 1) == Scale3(Col3(b, 1), s)
    ensures Col3(ScaleMat3(b, s), 2) == Scale3(Col3(b, 2), s)
  {
    ScaledColumn(b, s, 0);
    ScaledColumn(b, s, 1);
    ScaledColumn(b, s, 2);
  }

  lemma ScaledColumn(b: Mat3, s: real, j: nat)
    requires j < 3
    ensures Col3(ScaleMat3(b, s), j) == Scale3(Col3(b, j), s)
  {
  }

  /** One row of the product, with the scale on the columns or on the row. */
  lemma ScaledRow(u: Vec3, c0: Vec3, c1: Vec3, c2: Vec3, s: real)
    ensures Vec3(Dot3(u, Scale3(c0, s)), Dot3(u, Scale3(c1, s)), Dot3(u, Scale3(c2, s)))
         == Scale3(Vec3(Dot3(u, c0), Dot3(u, c1), Dot3(u, c2)), s)
  {
    assert Scale3(Vec3(Dot3(u, c0), Dot3(u, c1), Dot3(u, c2)), s)
        == Vec3(s * Dot3(u, c0), s * Dot3(u, c1), s * Dot3(u, c2));
    DotScales(u, c0, s);
    DotScales(u, c1, s);
    DotScales(u, c2, s);
  }

  lemma ScaledRowLeft(u: Vec3, c0: Vec3, c1: Vec3, c2: Vec3, s: real)
    ensures Vec3(Dot3(Scale3(u, s), c0), Dot3(Scale3(u, s), c1), Dot3(Scale3(u, s), c2))
         == Scale3(Vec3(Dot3(u, c0), Dot3(u, c1), Dot3(u, c2)), s)
  {
    assert Scale3(Vec3(Dot3(u, c0), Dot3(u, c1), Dot3(u, c2)), s)
        == Vec3(s * Dot3(u, c0), s * Dot3(u, c1), s * Dot3(u, c2));
    DotScales(u, c0, s);
    DotScales(u, c1, s);
    DotScales(u, c2, s);
  }

  lemma DotScales(u: Vec3, v: Vec3, s: real)
    ensures Dot3(u, Scale3(v, s)) == s * Dot3(u, v)
    ensures Dot3(Scale3(u, s), v) == s * Dot3(u, v)
  {
  }

  /** The adjugate divided by a non-zero determinant is a two-sided inverse. */
  lemma ScaledAdjugateIsInverse(m: Mat3)
    requires Det3(m) != 0.0
    ensures MatMul3(m, ScaleMat3(Adjoint3x3(m), 1.0 / Det3(m))) == Identity3
    ensures MatMul3(ScaleMat3(Adjoint3x3(m), 1.0 / Det3(m)), m) == Identity3
  {
    var d := Det3(m);
    assert ScaleMat3(Diag3(d), 1.0 / d) == Identity3;
    AdjugateRightInverse(m);
    AdjugateLeftInverse(m);
    ScaleRightFactor3(m, Adjoint3x3(m), 1.0 / d);
    ScaleLeftFactor3(Adjoint3x3(m), m, 1.0 / d);
  }

  /** InvertMatrix3x3(mat3 in, mat3 &out): out receives the adjugate; when the determinant lies
      strictly inside (-FLT_EPSILON, FLT_EPSILON) the result is false and out keeps the undivided
      adjugate, otherwise every entry of out is multiplied by 1/det. */
  method InvertMatrix3x3(m: Mat3) returns (ok: bool, out: Mat3)
    ensures ok <==> !(-FltEpsilon < Det3(m) < FltEpsilon)
    ensures !ok ==> out == Adjoint3x3(m)
    ensures ok ==> out == ScaleMat3(Adjoint3x3(m), 1.0 / Det3(m))
    ensures ok ==> MatMul3(m, out) == Identity3 && MatMul3(out, m) == Identity3
  {
    out := Adjoint3x3(m);
    var det := out.r0.x * m.r0.x + out.r0.y * m.r1.x + out.r0.z * m.r2.x;
    InvertDetIsDet3(m, out);
    if det < FltEpsilon && det > -FltEpsilon {
      return false, out;
    }
    var di := 1.0 / det;
    out := ScaleEntries(out, di);
    ok := true;
    ScaledAdjugateIsInverse(m);
  }

  /** The nine assignments of InvertMatrix3x3 that multiply each entry of out by 1/det, row by
      row. */
  method ScaleEntries(a: Mat3, s: real) returns (out: Mat3)
    ensures out == ScaleMat3(a, s)
  {
    out := a;
    out := out.(r0 := out.r0.(x := s * out.r0.x));
    out := out.(r0 := out.r0.(y := s * out.r0.y));
    out := out.(r0 := out.r0.(z := s * out.r0.z));
    assert out.r0 == Scale3(a.r0, s);
    out := out.(r1 := out.r1.(x := s * out.r1.x));
    out := out.(r1 := out.r1.(y := s * out.r1.y));
    out := out.(r1 := out.r1.(z := s * out.r1.z));
    assert out.r1 == Scale3(a.r1, s);
    out := out.(r2 := out.r2.(x := s * out.r2.x));
    out := out.(r2 := out.r2.(y := s * out.r2.y));
    out := out.(r2 := out.r2.(z := s * out.r2.z));
    assert out.r2 == Scale3(a.r2, s);
  }

  /** Inverse(mat3): whatever InvertMatrix3x3 leaves in out, so the adjugate of a near-singular
      matrix. */
  method Inverse3(m: Mat3) returns (r: Mat3)
    ensures -FltEpsilon < Det3(m) < FltEpsilon ==> r == Adjoint3x3(m)
    ensures !(-FltEpsilon < Det3(m) < FltEpsilon) ==>
      MatMul3(m, r) == Identity3 && MatMul3(r, m) == Identity3
  {
    var ok;
    ok, r := InvertMatrix3x3(m);
  }

  /** TransposeInverseMatrix3x3: the closed-form transpose of the inverse, with no singularity
      guard (the determinant must not be zero). */
  function TransposeInverseMatrix3x3(m: Mat3): (r: Mat3)
    requires Det3(m) != 0.0
    ensures r == Transpose3(ScaleMat3(Adjoint3x3(m), 1.0 / Det3(m)))
    ensures MatMul3(Transpose3(m), r) == Identity3 && MatMul3(r, Transpose3(m)) == Identity3
  {
    var invdet := 1.0 / Det3(m);
    TransposeInverseRow0(m, invdet);
    TransposeInverseRow1(m, invdet);
    TransposeInverseRow2(m, invdet);
    TransposedInverse(m);
    Mat3(Vec3((m.r1.y * m.r2.z - m.r2.y * m.r1.z) * invdet,
              -(m.r1.x * m.r2.z - m.r1.z * m.r2.x) * invdet,
              (m.r1.x * m.r2.y - m.r2.x * m.r1.y) * invdet),
         Vec3(-(m.r0.y * m.r2.z - m.r0.z * m.r2.y) * invdet,
              (m.r0.x * m.r2.z - m.r0.z * m.r2.x) * invdet,
              -(m.r0.x * m.r2.y - m.r2.x * m.r0.y) * invdet),
         Vec3((m.r0.y * m.r1.z - m.r0.z * m.r1.y) * invdet,
              -(m.r0.x * m.r1.z - m.r1.x * m.r0.z) * invdet,
              (m.r0.x * m.r1.y - m.r1.x * m.r0.y) * invdet))
  }

  /** Row by row, the closed-form entries are those of the transposed, scaled adjugate. */
  lemma TransposeInverseRow0(m: Mat3, k: real)
    ensures Vec3((m.r1.y * m.r2.z - m.r2.y * m.r1.z) * k,
                 -(m.r1.x * m.r2.z - m.r1.z * m.r2.x) * k,
                 (m.r1.x * m.r2.y - m.r2.x * m.r1.y) * k)
         == Transpose3(ScaleMat3(Adjoint3x3(m), k)).r0
  {
    TransposedScaledAdjugate(m, k);
    AdjugateEntries(m);
    ClosedFormRow0(m.r1.x, m.r1.y, m.r1.z, m.r2.x, m.r2.y, m.r2.z, k, Adjoint3x3(m).r0.x, Adjoint3x3(m).r1.x, Adjoint3x3(m).r2.x);
  }

  lemma TransposeInverseRow1(m: Mat3, k: real)
    ensures Vec3(-(m.r0.y * m.r2.z - m.r0.z * m.r2.y) * k,
                 (m.r0.x * m.r2.z - m.r0.z * m.r2.x) * k,
                 -(m.r0.x * m.r2.y - m.r2.x * m.r0.y) * k)
         == Transpose3(ScaleMat3(Adjoint3x3(m), k)).r1
  {
    TransposedScaledAdjugate(m, k);
    AdjugateEntries(m);
    ClosedFormRow1(m.r0.x, m.r0.y, m.r0.z, m.r2.x, m.r2.y, m.r2.z, k, Adjoint3x3(m).r0.y, Adjoint3x3(m).r1.y, Adjoint3x3(m).r2.y);
  }

  lemma TransposeInverseRow2(m: Mat3, k: real)
    ensures Vec3((m.r0.y * m.r1.z - m.r0.z * m.r1.y) * k,
                 -(m.r0.x * m.r1.z - m.r1.x * m.r0.z) * k,
                 (m.r0.x * m.r1.y - m.r1.x * m.r0.y) * k)
         == Transpose3(ScaleMat3(Adjoint3x3(m), k)).r2
  {
    TransposedScaledAdjugate(m, k);
    AdjugateEntries(m);
    ClosedFormRow2(m.r0.x, m.r0.y, m.r0.z, m.r1.x, m.r1.y, m.r1.z, k, Adjoint3x3(m).r0.z, Adjoint3x3(m).r1.z, Adjoint3x3(m).r2.z);
  }

  /** The transposed, scaled adjugate, entry by entry. */
  lemma TransposedScaledAdjugate(m: Mat3, k: real)
    ensures Transpose3(ScaleMat3(Adjoint3x3(m), k))
         == Mat3(Vec3(k * Adjoint3x3(m).r0.x, k * Adjoint3x3(m).r1.x, k * Adjoint3x3(m).r2.x),
                 Vec3(k * Adjoint3x3(m).r0.y, k * Adjoint3x3(m).r1.y, k * Adjoint3x3(m).r2.y),
                 Vec3(k * Adjoint3x3(m).r0.z, k * Adjoint3x3(m).r1.z, k * Adjoint3x3(m).r2.z))
  {
    ScaleMat3Entries(Adjoint3x3(m), k);
    TransposeEntries(ScaleMat3(Adjoint3x3(m), k));
  }

  /** Row i of the closed form, over the two rows of m other than i, is k times column i of
      the adjugate, whose entries are a, b and c. */
  lemma ClosedFormRow0(p: real, q: real, r: real, u: real, v: real, w: real, k: real, a: real, b: real, c: real)
    requires a == q * w - r * v && b == -(p * w - r * u) && c == p * v - q * u
    ensures Vec3((q * w - v * r) * k, -(p * w - r * u) * k, (p * v - u * q) * k) == Vec3(k * a, k * b, k * c)
  {
  }

  lemma ClosedFormRow1(p: real, q: real, r: real, u: real, v: real, w: real, k: real, a: real, b: real, c: real)
    requires a == -(q * w - r * v) && b == p * w - r * u && c == -(p * v - q * u)
    ensures Vec3(-(q * w - r * v) * k, (p * w - r * u) * k, -(p * v - u * q) * k) == Vec3(k * a, k * b, k * c)
  {
  }

  lemma ClosedFormRow2(p: real, q: real, r: real, u: real, v: real, w: real, k: real, a: real, b: real, c: real)
    requires a == q * w - r * v && b == -(p * w - r * u) && c == p * v - q * u
    ensures Vec3((q * w - r * v) * k, -(p * w - u * r) * k, (p * v - u * q) * k) == Vec3(k * a, k * b, k * c)
  {
  }

  /** The transpose of an inverse is the inverse of the transpose. */
  lemma TransposedInverse(m: Mat3)
    requires Det3(m) != 0.0
    ensures MatMul3(Transpose3(m), Transpose3(ScaleMat3(Adjoint3x3(m), 1.0 / Det3(m)))) == Identity3
    ensures MatMul3(Transpose3(ScaleMat3(Adjoint3x3(m), 1.0 / Det3(m))), Transpose3(m)) == Identity3
  {
    var inv := ScaleMat3(Adjoint3x3(m), 1.0 / Det3(m));
    assert Transpose3(Identity3) == Identity3;
    ScaledAdjugateIsInverse(m);
    TransposeOfProduct3(inv, m);
    TransposeOfProduct3(m, inv);
  }

  // ---------------------------------------------------------------- 4x4

  /** The 16 floats of a mat4 as laid out in memory: row i, column j at 4 * i + j. */
  function Flatten4(m: Mat4): (f: seq<real>)
    ensures |f| == 16
  {
    [m.r0.x, m.r0.y, m.r0.z, m.r0.w, m.r1.x, m.r1.y, m.r1.z, m.r1.w,
     m.r2.x, m.r2.y, m.r2.z, m.r2.w, m.r3.x, m.r3.y, m.r3.z, m.r3.w]
  }

  /** The mat4 whose memory is f. */
  function Unflatten4(f: seq<real>): (m: Mat4)
    requires |f| == 16
    ensures Flatten4(m) == f
  {
    Mat4(Vec4(f[0], f[1], f[2], f[3]), Vec4(f[4], f[5], f[6], f[7]),
         Vec4(f[8], f[9], f[10], f[11]), Vec4(f[12], f[13], f[14], f[15]))
  }

  lemma FlattenRoundTrip(m: Mat4)
    ensures Unflatten4(Flatten4(m)) == m
  {
  }

  /** C's a % 4 for the indices invf produces, all of them non-negative and below 12, where C's %
      and Dafny's agree; written as subtractions so that the solver need not reason about %. */
  function Mod4(a: nat): nat
    requires a < 12
  {
    if a < 4 then a else if a < 8 then a - 4 else a - 8
  }

  lemma Mod4IsMod(a: nat)
    requires a < 12
    ensures Mod4(a) == a % 4
  {
  }

  /** C's o % 2 != 0 for the offsets o = 2 + (j - i) that invf computes, -1 <= o <= 5; in C -1 % 2
      is -1, in Dafny 1, and both are non-zero. */
  predicate Odd(o: int)
  {
    o == -1 || o == 1 || o == 3 || o == 5
  }

  lemma OddIsMod(o: int)
    requires -1 <= o <= 5
    ensures Odd(o) <==> o % 2 != 0
  {
  }

  /** Helper::e: entry a % 4 of row b % 4 of the flat matrix, so e(a, b) is the entry at column a,
      row b. */
  function E(a: nat, b: nat, f: seq<real>): real
    requires a < 12 && b < 12 && |f| == 16
  {
    f[Mod4(b) * 4 + Mod4(a)]
  }

  /** Helper::invf: the signed 3x3 minor that goes to column i, row j of the inverse, with the
      offset o = 2 + (j - i) shifting the row index up by 4 + o and the column index by 4 - o,
      and the sum kept for odd o and negated for even o. */
  function Invf(i: nat, j: nat, f: seq<real>): real
    requires i < 4 && j < 4 && |f| == 16
  {
    var o := 2 + (j - i);
    var i' := i + 4 + o;
    var j' := j + 4 - o;
    var inv :=
        E(i' + 1, j' - 1, f) * E(i' + 0, j' + 0, f) * E(i' - 1, j' + 1, f)
      + E(i' + 1, j' + 1, f) * E(i' + 0, j' - 1, f) * E(i' - 1, j' + 0, f)
      + E(i' - 1, j' - 1, f) * E(i' + 1, j' + 0, f) * E(i' + 0, j' + 1, f)
      - E(i' - 1, j' - 1, f) * E(i' + 0, j' + 0, f) * E(i' + 1, j' + 1, f)
      - E(i' - 1, j' + 1, f) * E(i' + 0, j' - 1, f) * E(i' + 1, j' + 0, f)
      - E(i' + 1, j' - 1, f) * E(i' - 1, j' + 0, f) * E(i' + 0, j' + 1, f);
    if Odd(o) then inv else -inv
  }

  /** The sum D of Helper::invert after n steps: row 0 of the flat matrix f against the cofactors
      the table t holds at 0, 4, 8 and 12. */
  function PivotSoFar(f: seq<real>, t: seq<real>, n: nat): real
    requires |f| == 16 && |t| == 16 && n <= 4
  {
    if n == 0 then 0.0 else PivotSoFar(f, t, n - 1) + f[n - 1] * t[(n - 1) * 4]
  }

  /** The pivot D: the determinant expanded along row 0. */
  function Pivot(f: seq<real>): real
    requires |f| == 16
  {
    PivotSoFar(f, CofactorTable(f), 4)
  }

  /** Unrolled, the pivot's sum has four terms, for any table. */
  lemma PivotTerms(f: seq<real>, t: seq<real>)
    requires |f| == 16 && |t| == 16
    ensures PivotSoFar(f, t, 4) == f[0] * t[0] + f[1] * t[4] + f[2] * t[8] + f[3] * t[12]
  {
    assert PivotSoFar(f, t, 1) == f[0] * t[0];
    assert PivotSoFar(f, t, 2) == PivotSoFar(f, t, 1) + f[1] * t[4];
    assert PivotSoFar(f, t, 3) == PivotSoFar(f, t, 2) + f[2] * t[8];
  }

  /** On a mat4 built from a mat3, the row-0 cofactors are those of the mat3 and the pivot
      is the 3x3 determinant. */
  lemma EmbeddedCofactor0(a: Mat3)
    ensures CofactorTable(Flatten4(Mat4Of3(a)))[0] == a.r1.y * a.r2.z - a.r2.y * a.r1.z
  {
  }

  lemma EmbeddedCofactor1(a: Mat3)
    ensures CofactorTable(Flatten4(Mat4Of3(a)))[4] == -(a.r1.x * a.r2.z - a.r1.z * a.r2.x)
  {
  }

  lemma EmbeddedCofactor2(a: Mat3)
    ensures CofactorTable(Flatten4(Mat4Of3(a)))[8] == a.r1.x * a.r2.y - a.r1.y * a.r2.x
  {
  }

  lemma PivotOfEmbedded3(a: Mat3)
    ensures Pivot(Flatten4(Mat4Of3(a))) == Det3(a)
  {
    var f := Flatten4(Mat4Of3(a));
    assert f[0] == a.r0.x && f[1] == a.r0.y && f[2] == a.r0.z && f[3] == 0.0;
    PivotTerms(f, CofactorTable(f));
    EmbeddedCofactor0(a);
    EmbeddedCofactor1(a);
    EmbeddedCofactor2(a);
  }

  /** A mat4 with a zero row has pivot zero: a zero row 0 zeroes the factors of the sum, and
      a zero row 1, 2 or 3 zeroes every cofactor of row 0. */
  lemma PivotOfZeroRow(m: Mat4)
    requires m.r0 == Vec4(0.0, 0.0, 0.0, 0.0) || m.r1 == Vec4(0.0, 0.0, 0.0, 0.0)
          || m.r2 == Vec4(0.0, 0.0, 0.0, 0.0) || m.r3 == Vec4(0.0, 0.0, 0.0, 0.0)
    ensures Pivot(Flatten4(m)) == 0.0
  {
    var f := Flatten4(m);
    var t := CofactorTable(f);
    PivotTerms(f, t);
    if m.r0 == Vec4(0.0, 0.0, 0.0, 0.0) {
      assert f[0] == 0.0 && f[1] == 0.0 && f[2] == 0.0 && f[3] == 0.0;
    } else {
      assert t[0] == 0.0 && t[4] == 0.0 && t[8] == 0.0 && t[12] == 0.0;
    }
  }

  /** The identity is the embedded 3x3 identity, so its pivot is 1. */
  lemma IdentityPivot()
    ensures Pivot(Flatten4(Identity4)) == 1.0
  {
    assert Mat4Of3(Identity3) == Identity4;
    PivotOfEmbedded3(Identity3);
  }

  /** The cofactor table inv of Helper::invert, entry j * 4 + i holding invf(i, j). */
  function CofactorTable(m: seq<real>): (t: seq<real>)
    requires |m| == 16
    ensures |t| == 16
  {
    [Invf(0, 0, m), Invf(1, 0, m), Invf(2, 0, m), Invf(3, 0, m),
     Invf(0, 1, m), Invf(1, 1, m), Invf(2, 1, m), Invf(3, 1, m),
     Invf(0, 2, m), Invf(1, 2, m), Invf(2, 2, m), Invf(3, 2, m),
     Invf(0, 3, m), Invf(1, 3, m), Invf(2, 3, m), Invf(3, 3, m)]
  }

  lemma CofactorTableEntry(m: seq<real>, i: nat, j: nat)
    requires |m| == 16 && i < 4 && j < 4
    ensures CofactorTable(m)[j * 4 + i] == Invf(i, j, m)
  {
    var t := CofactorTable(m);
    if i == 0 {
      if j == 0 {} else if j == 1 {} else if j == 2 {} else {}
    } else if i == 1 {
      if j == 0 {} else if j == 1 {} else if j == 2 {} else {}
    } else if i == 2 {
      if j == 0 {} else if j == 1 {} else if j == 2 {} else {}
    } else {
      if j == 0 {} else if j == 1 {} else if j == 2 {} else {}
    }
  }

  /** The first loop nest of Helper::invert: inv[j*4+i] = invf(i, j) for every column i and row j. */
  method Cofactors(m: seq<real>) returns (inv: array<real>)
    requires |m| == 16
    ensures fresh(inv) && inv[..] == CofactorTable(m)
  {
    inv := new real[16];
    for i := 0 to 4
      invariant forall k :: 0 <= k < 16 && k % 4 < i ==> inv[k] == CofactorTable(m)[k]
    {
      for j := 0 to 4
        invariant forall k :: 0 <= k < 16 && (k % 4 < i || (k % 4 == i && k / 4 < j)) ==>
          inv[k] == CofactorTable(m)[k]
      {
        CofactorTableEntry(m, i, j);
        inv[j * 4 + i] := Invf(i, j, m);
      }
    }
  }

  /** The second loop of Helper::invert: D accumulates row 0 against the cofactors at inv[k*4]. */
  method PivotOf(m: seq<real>, inv: array<real>) returns (d: real)
    requires |m| == 16 && inv.Length == 16
    ensures d == PivotSoFar(m, inv[..], 4)
  {
    d := 0.0;
    for k := 0 to 4
      invariant d == PivotSoFar(m, inv[..], k)
    {
      d := d + m[k] * inv[k * 4];
    }
  }

  /** The last loop of Helper::invert: out[i] = inv[i] * D. */
  method ScaleInto(inv: array<real>, d: real, out: array<real>)
    requires inv.Length == 16 && out.Length == 16 && inv != out
    modifies out
    ensures forall k :: 0 <= k < 16 ==> out[k] == inv[k] * d
  {
    for k := 0 to 16
      invariant forall n :: 0 <= n < k ==> out[n] == inv[n] * d
    {
      out[k] := inv[k] * d;
    }
  }

  /** InvertMatrix4x4: fills the cofactor table, forms D and, only when D is not exactly zero,
      writes inv[k] / D to all 16 entries of out. */
  method InvertMatrix4x4(m: seq<real>, out: array<real>) returns (ok: bool)
    requires |m| == 16 && out.Length == 16
    modifies out
    ensures ok <==> Pivot(m) != 0.0
    ensures !ok ==> out[..] == old(out[..])
    ensures ok ==> forall k :: 0 <= k < 16 ==> out[k] == CofactorTable(m)[k] * (1.0 / Pivot(m))
  {
    var inv := Cofactors(m);
    var d := PivotOf(m, inv);
    if d == 0.0 {
      return false;
    }
    d := 1.0 / d;
    ScaleInto(inv, d, out);
    return true;
  }

  /** The memory of a default-constructed mat4, the identity. */
  method IdentityBuffer() returns (buf: array<real>)
    ensures fresh(buf) && buf[..] == Flatten4(Identity4)
  {
    buf := new real[16](k => if k == 0 || k == 5 || k == 10 || k == 15 then 1.0 else 0.0);
  }

  /** Inverse(mat4): the result starts as the identity and is overwritten only on success. */
  method Inverse4(m: Mat4) returns (r: Mat4)
    ensures Pivot(Flatten4(m)) == 0.0 ==> r == Identity4
    ensures Pivot(Flatten4(m)) != 0.0 ==>
      forall k :: 0 <= k < 16 ==> Flatten4(r)[k] == CofactorTable(Flatten4(m))[k] * (1.0 / Pivot(Flatten4(m)))
  {
    var buf := IdentityBuffer();
    var ok := InvertMatrix4x4(Flatten4(m), buf);
    r := Unflatten4(buf[..]);
    if !ok {
      FlattenRoundTrip(Identity4);
      FlattenRoundTrip(r);
    }
  }
}
