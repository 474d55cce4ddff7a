// The 3x3 and 4x4 matrices of Inc/VecMat.h: rows of vectors (m[i] is row i, m[i][j] the entry
// in row i and column j), their products, transposes and inverses, and the constructors of
// 4x4 transforms.

module Matrices {
  import opened Vectors

  datatype Mat3 = Mat3(r0: Vec3, r1: Vec3, r2: Vec3)
  datatype Mat4 = Mat4(r0: Vec4, r1: Vec4, r2: Vec4, r3: Vec4)

  // ---------------------------------------------------------------- access

  function Row3(m: Mat3, i: nat): Vec3 requires i < 3 { if i == 0 then m.r0 else if i == 1 then m.r1 else m.r2 }
  function Row4(m: Mat4, i: nat): Vec4 requires i < 4
  {
    if i == 0 then m.r0 else if i == 1 then m.r1 else if i == 2 then m.r2 else m.r3
  }

  /** m[i][j] */
  function Get3(m: Mat3, i: nat, j: nat): real requires i < 3 && j < 3 { At3(Row3(m, i), j) }
  function Get4(m: Mat4, i: nat, j: nat): real requires i < 4 && j < 4 { At4(Row4(m, i), j) }

  /** Column j: entry j of every row. */
  function Col3(m: Mat3, j: nat): Vec3 requires j < 3
  {
    if j == 0 then Vec3(m.r0.x, m.r1.x, m.r2.x)
    else if j == 1 then Vec3(m.r0.y, m.r1.y, m.r2.y)
    else Vec3(m.r0.z, m.r1.z, m.r2.z)
  }
  function Col4(m: Mat4, j: nat): Vec4 requires j < 4
  {
    if j == 0 then Vec4(m.r0.x, m.r1.x, m.r2.x, m.r3.x)
    else if j == 1 then Vec4(m.r0.y, m.r1.y, m.r2.y, m.r3.y)
    else if j == 2 then Vec4(m.r0.z, m.r1.z, m.r2.z, m.r3.z)
    else Vec4(m.r0.w, m.r1.w, m.r2.w, m.r3.w)
  }

  // ---------------------------------------------------------------- constructors

  /** mat3(float diag = 1): diag on the diagonal, zero elsewhere; mat3() is the identity. */
  function Diag3(d: real): Mat3 { Mat3(Vec3(d, 0.0, 0.0), Vec3(0.0, d, 0.0), Vec3(0.0, 0.0, d)) }
  const Identity3: Mat3 := Diag3(1.0)

  /** mat4(float diag = 1). */
  function Diag4(d: real): Mat4
  {
    Mat4(Vec4(d, 0.0, 0.0, 0.0), Vec4(0.0, d, 0.0, 0.0), Vec4(0.0, 0.0, d, 0.0), Vec4(0.0, 0.0, 0.0, d))
  }
  const Identity4: Mat4 := Diag4(1.0)

  /** mat4(const mat3 &m): m in the upper-left block, 1 in the corner, zero elsewhere. */
  function Mat4Of3(m: Mat3): (r: Mat4)
    ensures forall i, j :: 0 <= i < 3 && 0 <= j < 3 ==> Get4(r, i, j) == Get3(m, i, j)
    ensures r.r3 == Vec4(0.0, 0.0, 0.0, 1.0)
    ensures r.r0.w == 0.0 && r.r1.w == 0.0 && r.r2.w == 0.0
  {
    Mat4(Vec4Of3(m.r0, 0.0), Vec4Of3(m.r1, 0.0), Vec4Of3(m.r2, 0.0), Vec4(0.0, 0.0, 0.0, 1.0))
  }

  /** s*m and m*s: every row scaled. */
  function ScaleMat3(m: Mat3, s: real): Mat3 { Mat3(Scale3(m.r0, s), Scale3(m.r1, s), Scale3(m.r2, s)) }
  function ScaleMat4(m: Mat4, s: real): Mat4
  {
    Mat4(Scale4(m.r0, s), Scale4(m.r1, s), Scale4(m.r2, s), Scale4(m.r3, s))
  }

  /** m*v: each row dotted with v. */
  function MulVec3(m: Mat3, v: Vec3): Vec3 { Vec3(Dot3(m.r0, v), Dot3(m.r1, v), Dot3(m.r2, v)) }
  function MulVec4(m: Mat4, v: Vec4): Vec4 { Vec4(Dot4(m.r0, v), Dot4(m.r1, v), Dot4(m.r2, v), Dot4(m.r3, v)) }

  // ---------------------------------------------------------------- products

  /** Row i of a times column j of b, accumulated over the first n terms as the loop does. */
  function ProdSum3(a: Mat3, b: Mat3, i: nat, j: nat, n: nat): real
    requires i < 3 && j < 3 && n <= 3
  {
    if n == 0 then 0.0 else ProdSum3(a, b, i, j, n - 1) + Get3(a, i, n - 1) * Get3(b, n - 1, j)
  }

  function ProdSum4(a: Mat4, b: Mat4, i: nat, j: nat, n: nat): real
    requires i < 4 && j < 4 && n <= 4
  {
    if n == 0 then 0.0 else ProdSum4(a, b, i, j, n - 1) + Get4(a, i, n - 1) * Get4(b, n - 1, j)
  }

  /** The matrix product: entry (i, j) is row i of a dotted with column j of b. */
  function MatMul3(a: Mat3, b: Mat3): Mat3
  {
    Mat3(Vec3(Dot3(a.r0, Col3(b, 0)), Dot3(a.r0, Col3(b, 1)), Dot3(a.r0, Col3(b, 2))),
         Vec3(Dot3(a.r1, Col3(b, 0)), Dot3(a.r1, Col3(b, 1)), Dot3(a.r1, Col3(b, 2))),
         Vec3(Dot3(a.r2, Col3(b, 0)), Dot3(a.r2, Col3(b, 1)), Dot3(a.r2, Col3(b, 2))))
  }

  function MatMul4(a: Mat4, b: Mat4): Mat4
  {
    Mat4(Vec4(Dot4(a.r0, Col4(b, 0)), Dot4(a.r0, Col4(b, 1)), Dot4(a.r0, Col4(b, 2)), Dot4(a.r0, Col4(b, 3))),
         Vec4(Dot4(a.r1, Col4(b, 0)), Dot4(a.r1, Col4(b, 1)), Dot4(a.r1, Col4(b, 2)), Dot4(a.r1, Col4(b, 3))),
         Vec4(Dot4(a.r2, Col4(b, 0)), Dot4(a.r2, Col4(b, 1)), Dot4(a.r2, Col4(b, 2)), Dot4(a.r2, Col4(b, 3))),
         Vec4(Dot4(a.r3, Col4(b, 0)), Dot4(a.r3, Col4(b, 1)), Dot4(a.r3, Col4(b, 2)), Dot4(a.r3, Col4(b, 3))))
  }

  /** Entry (i, j) of the product is the sum over k of a[i][k]*b[k][j]. */
  lemma MatMul3Entry(a: Mat3, b: Mat3, i: nat, j: nat)
    requires i < 3 && j < 3
    ensures Get3(MatMul3(a, b), i, j) == ProdSum3(a, b, i, j, 3)
    ensures Get3(MatMul3(a, b), i, j) == Dot3(Row3(a, i), Col3(b, j))
  {
    ProdSum3IsDot(a, b, i, j);
    var r := Row3(a, i);
    var row := Vec3(Dot3(r, Col3(b, 0)), Dot3(r, Col3(b, 1)), Dot3(r, Col3(b, 2)));
    assert Row3(MatMul3(a, b), i) == row;
  }

  /** The loop's accumulated sum is the dot product of a row and a column. */
  lemma ProdSum3IsDot(a: Mat3, b: Mat3, i: nat, j: nat)
    requires i < 3 && j < 3
    ensures ProdSum3(a, b, i, j, 3) == Dot3(Row3(a, i), Col3(b, j))
  {
    var r, c := Row3(a, i), Col3(b, j);
    assert ProdSum3(a, b, i, j, 1) == r.x * c.x;
    assert ProdSum3(a, b, i, j, 2) == ProdSum3(a, b, i, j, 1) + r.y * c.y;
    assert ProdSum3(a, b, i, j, 3) == ProdSum3(a, b, i, j, 2) + r.z * c.z;
  }

  lemma MatMul4Entry(a: Mat4, b: Mat4, i: nat, j: nat)
    requires i < 4 && j < 4
    ensures Get4(MatMul4(a, b), i, j) == ProdSum4(a, b, i, j, 4)
    ensures Get4(MatMul4(a, b), i, j) == Dot4(Row4(a, i), Col4(b, j))
  {
    ProdSum4IsDot(a, b, i, j);
    var r := Row4(a, i);
    var row := Vec4(Dot4(r, Col4(b, 0)), Dot4(r, Col4(b, 1)), Dot4(r, Col4(b, 2)), Dot4(r, Col4(b, 3)));
    assert Row4(MatMul4(a, b), i) == row;
  }

  /** The loop's accumulated sum is the dot product of a row and a column. */
  lemma ProdSum4IsDot(a: Mat4, b: Mat4, i: nat, j: nat)
    requires i < 4 && j < 4
    ensures ProdSum4(a, b, i, j, 4) == Dot4(Row4(a, i), Col4(b, j))
  {
    var r, c := Row4(a, i), Col4(b, j);
    assert ProdSum4(a, b, i, j, 1) == r.x * c.x;
    assert ProdSum4(a, b, i, j, 2) == ProdSum4(a, b, i, j, 1) + r.y * c.y;
    assert ProdSum4(a, b, i, j, 3) == ProdSum4(a, b, i, j, 2) + r.z * c.z;
    assert ProdSum4(a, b, i, j, 4) == ProdSum4(a, b, i, j, 3) + r.w * c.w;
  }

  /** Two matrices with equal entries are equal. */
  lemma Mat3Ext(m: Mat3, n: Mat3)
    requires forall p, q :: 0 <= p < 3 && 0 <= q < 3 ==> Get3(m, p, q) == Get3(n, p, q)
    ensures m == n
  {
    assert Get3(m, 0, 0) == Get3(n, 0, 0) && Get3(m, 0, 1) == Get3(n, 0, 1) && Get3(m, 0, 2) == Get3(n, 0, 2);
    assert Get3(m, 1, 0) == Get3(n, 1, 0) && Get3(m, 1, 1) == Get3(n, 1, 1) && Get3(m, 1, 2) == Get3(n, 1, 2);
    assert Get3(m, 2, 0) == Get3(n, 2, 0) && Get3(m, 2, 1) == Get3(n, 2, 1) && Get3(m, 2, 2) == Get3(n, 2, 2);
  }

  lemma Mat4Ext(m: Mat4, n: Mat4)
    requires forall p, q :: 0 <= p < 4 && 0 <= q < 4 ==> Get4(m, p, q) == Get4(n, p, q)
    ensures m == n
  {
    assert Get4(m, 0, 0) == Get4(n, 0, 0) && Get4(m, 0, 1) == Get4(n, 0, 1);
    assert Get4(m, 0, 2) == Get4(n, 0, 2) && Get4(m, 0, 3) == Get4(n, 0, 3);
    assert Get4(m, 1, 0) == Get4(n, 1, 0) && Get4(m, 1, 1) == Get4(n, 1, 1);
    assert Get4(m, 1, 2) == Get4(n, 1, 2) && Get4(m, 1, 3) == Get4(n, 1, 3);
    assert Get4(m, 2, 0) == Get4(n, 2, 0) && Get4(m, 2, 1) == Get4(n, 2, 1);
    assert Get4(m, 2, 2) == Get4(n, 2, 2) && Get4(m, 2, 3) == Get4(n, 2, 3);
    assert Get4(m, 3, 0) == Get4(n, 3, 0) && Get4(m, 3, 1) == Get4(n, 3, 1);
    assert Get4(m, 3, 2) == Get4(n, 3, 2) && Get4(m, 3, 3) == Get4(n, 3, 3);
  }

  /** mat3::operator*(const mat3 &m): a triple loop that adds each product of entry (i, k) of
      this matrix and entry (k, j) of m into entry (i, j) of a matrix that starts at zero. */
  method Mul3(a: Mat3, b: Mat3) returns (r: Mat3)
    ensures r == MatMul3(a, b)
  {
    var acc := new real[3, 3]((i, j) => 0.0);
    for i := 0 to 3
      invariant forall p, q :: 0 <= p < 3 && 0 <= q < 3 ==>
        acc[p, q] == if p < i then ProdSum3(a, b, p, q, 3) else 0.0
    {
      for j := 0 to 3
        invariant forall p, q :: 0 <= p < 3 && 0 <= q < 3 ==>
          acc[p, q] == if p < i || (p == i && q < j) then ProdSum3(a, b, p, q, 3) else 0.0
      {
        for k := 0 to 3
          invariant acc[i, j] == ProdSum3(a, b, i, j, k)
          invariant forall p, q :: 0 <= p < 3 && 0 <= q < 3 && (p != i || q != j) ==>
            acc[p, q] == if p < i || (p == i && q < j) then ProdSum3(a, b, p, q, 3) else 0.0
        {
          acc[i, j] := acc[i, j] + Get3(a, i, k) * Get3(b, k, j);
        }
      }
    }
    r := Mat3(Vec3(acc[0, 0], acc[0, 1], acc[0, 2]),
              Vec3(acc[1, 0], acc[1, 1], acc[1, 2]),
              Vec3(acc[2, 0], acc[2, 1], acc[2, 2]));
    forall p, q | 0 <= p < 3 && 0 <= q < 3 ensures Get3(r, p, q) == Get3(MatMul3(a, b), p, q) {
      MatMul3Entry(a, b, p, q);
    }
    Mat3Ext(r, MatMul3(a, b));
  }

  /** mat4::operator*(const mat4 &m): the same triple loop over a mat4(0). */
  method Mul4(a: Mat4, b: Mat4) returns (r: Mat4)
    ensures r == MatMul4(a, b)
  {
    var acc := ProductEntries4(a, b);
    r := Mat4(Vec4(acc[0, 0], acc[0, 1], acc[0, 2], acc[0, 3]),
              Vec4(acc[1, 0], acc[1, 1], acc[1, 2], acc[1, 3]),
              Vec4(acc[2, 0], acc[2, 1], acc[2, 2], acc[2, 3]),
              Vec4(acc[3, 0], acc[3, 1], acc[3, 2], acc[3, 3]));
    forall p, q | 0 <= p < 4 && 0 <= q < 4 ensures Get4(r, p, q) == Get4(MatMul4(a, b), p, q) {
      MatMul4Entry(a, b, p, q);
    }
    Mat4Ext(r, MatMul4(a, b));
  }

  /** The loops of mat4::operator*: the same accumulation of products into a zero mat4. */
  method ProductEntries4(a: Mat4, b: Mat4) returns (acc: array2<real>)
    ensures fresh(acc) && acc.Length0 == 4 && acc.Length1 == 4
    ensures forall p, q :: 0 <= p < 4 && 0 <= q < 4 ==> acc[p, q] == ProdSum4(a, b, p, q, 4)
  {
    acc := new real[4, 4]((i, j) => 0.0);
    for i := 0 to 4
      invariant forall p, q :: 0 <= p < 4 && 0 <= q < 4 ==>
        acc[p, q] == if p < i then ProdSum4(a, b, p, q, 4) else 0.0
    {
      for j := 0 to 4
        invariant forall p, q :: 0 <= p < 4 && 0 <= q < 4 ==>
          acc[p, q] == if p < i || (p == i && q < j) then ProdSum4(a, b, p, q, 4) else 0.0
      {
        for k := 0 to 4
          invariant acc[i, j] == ProdSum4(a, b, i, j, k)
          invariant forall p, q :: 0 <= p < 4 && 0 <= q < 4 && (p != i || q != j) ==>
            acc[p, q] == if p < i || (p == i && q < j) then ProdSum4(a, b, p, q, 4) else 0.0
        {
          acc[i, j] := acc[i, j] + Get4(a, i, k) * Get4(b, k, j);
        }
      }
    }
  }

  // ---------------------------------------------------------------- transpose

  /** Transpose(mat3): built row by row from the columns of m. */
  function Transpose3(m: Mat3): (r: Mat3)
    ensures forall i, j :: 0 <= i < 3 && 0 <= j < 3 ==> Get3(r, i, j) == Get3(m, j, i)
  {
    Mat3(Vec3(m.r0.x, m.r1.x, m.r2.x), Vec3(m.r0.y, m.r1.y, m.r2.y), Vec3(m.r0.z, m.r1.z, m.r2.z))
  }

  /** Transpose(mat4). */
  function Transpose4(m: Mat4): (r: Mat4)
    ensures forall i, j :: 0 <= i < 4 && 0 <= j < 4 ==> Get4(r, i, j) == Get4(m, j, i)
  {
    Mat4(Vec4(m.r0.x, m.r1.x, m.r2.x, m.r3.x), Vec4(m.r0.y, m.r1.y, m.r2.y, m.r3.y),
         Vec4(m.r0.z, m.r1.z, m.r2.z, m.r3.z), Vec4(m.r0.w, m.r1.w, m.r2.w, m.r3.w))
  }

  /** Transpose3 and ScaleMat3, entry by entry. */
  lemma TransposeEntries(m: Mat3)
    ensures Transpose3(m) == Mat3(Vec3(m.r0.x, m.r1.x, m.r2.x), Vec3(m.r0.y, m.r1.y, m.r2.y), Vec3(m.r0.z, m.r1.z, m.r2.z))
  {
  }

  lemma ScaleMat3Entries(m: Mat3, s: real)
    ensures ScaleMat3(m, s) == Mat3(Vec3(s * m.r0.x, s * m.r0.y, s * m.r0.z),
                                    Vec3(s * m.r1.x, s * m.r1.y, s * m.r1.z),
                                    Vec3(s * m.r2.x, s * m.r2.y, s * m.r2.z))
  {
    ScaleMat3Rows(m, s);
    Scale3Entries(m.r0, s);
    Scale3Entries(m.r1, s);
    Scale3Entries(m.r2, s);
  }

  lemma ScaleMat3Rows(m: Mat3, s: real)
    ensures ScaleMat3(m, s) == Mat3(Scale3(m.r0, s), Scale3(m.r1, s), Scale3(m.r2, s))
  {
  }

  lemma Scale3Entries(v: Vec3, s: real)
    ensures Scale3(v, s) == Vec3(s * v.x, s * v.y, s * v.z)
  {
  }

  /** Transposing twice gives the matrix back. */
  lemma TransposeInvolution(m3: Mat3, m4: Mat4)
    ensures Transpose3(Transpose3(m3)) == m3
    ensures Transpose4(Transpose4(m4)) == m4
  {
  }

  /** The transpose of a product is the product of the transposes in reverse order. */
  lemma TransposeOfProduct3(a: Mat3, b: Mat3)
    ensures Transpose3(MatMul3(a, b)) == MatMul3(Transpose3(b), Transpose3(a))
  {
  }

  lemma TransposeOfProduct4(a: Mat4, b: Mat4)
    ensures Transpose4(MatMul4(a, b)) == MatMul4(Transpose4(b), Transpose4(a))
  {
  }

  // ---------------------------------------------------------------- algebra of the product

  /** The default-constructed matrix (diagonal 1) is a left and right identity. */
  lemma IdentityIsUnit3(m: Mat3)
    ensures MatMul3(Identity3, m) == m && MatMul3(m, Identity3) == m
    ensures MulVec3(Identity3, m.r0) == m.r0
  {
  }

  lemma IdentityIsUnit4(m: Mat4)
    ensures MatMul4(Identity4, m) == m && MatMul4(m, Identity4) == m
    ensures MulVec4(Identity4, m.r0) == m.r0
  {
  }

  /** Multiplying by a product applies the right factor first: (a*b)*v == a*(b*v). */
  lemma ProductComposes3(a: Mat3, b: Mat3, v: Vec3)
    ensures MulVec3(MatMul3(a, b), v) == MulVec3(a, MulVec3(b, v))
  {
  }

  /** Column j of a product is the left factor applied to column j of the right factor. */
  lemma ColOfProduct3(a: Mat3, b: Mat3, j: nat)
    requires j < 3
    ensures Col3(MatMul3(a, b), j) == MulVec3(a, Col3(b, j))
  {
  }

  /** Two matrices with equal columns are equal. */
  lemma Mat3ExtCols(m: Mat3, n: Mat3)
    requires Col3(m, 0) == Col3(n, 0) && Col3(m, 1) == Col3(n, 1) && Col3(m, 2) == Col3(n, 2)
    ensures m == n
  {
  }

  /** The product is associative. */
  lemma ProductAssociates3(a: Mat3, b: Mat3, c: Mat3)
    ensures MatMul3(MatMul3(a, b), c) == MatMul3(a, MatMul3(b, c))
  {
    forall j | 0 <= j < 3
      ensures Col3(MatMul3(MatMul3(a, b), c), j) == Col3(MatMul3(a, MatMul3(b, c)), j)
    {
      ColOfProduct3(MatMul3(a, b), c, j);
      ProductComposes3(a, b, Col3(c, j));
      ColOfProduct3(a, MatMul3(b, c), j);
      ColOfProduct3(b, c, j);
    }
    Mat3ExtCols(MatMul3(MatMul3(a, b), c), MatMul3(a, MatMul3(b, c)));
  }
}
