/**
  Two-component vertices and 2x2 matrices, with the vertex-by-matrix product
  that every transform of a figure is built from (src/lib.rs:24-50).

  Coordinates are mathematical reals: the f32 rounding of the Rust library is not
  part of this model.
 */
module Algebra {

  /** Number of components of a vertex and of each matrix row. */
  const Dim: nat := 2

  /** A point of the plane, stored as the pair `[x, y]`. */
  datatype Vertex = Vertex(x: real, y: real) {

    /** Component `i` in array order: 0 is x, 1 is y. */
    function Coord(i: nat): real
      requires i < Dim
    {
      if i == 0 then x else y
    }
  }

  /** A 2x2 matrix held by rows: `mji` is the entry in row j, column i. */
  datatype Matrix = Matrix(m00: real, m01: real, m10: real, m11: real) {

    /** The entry in row `j`, column `i`. */
    function Entry(j: nat, i: nat): real
      requires j < Dim && i < Dim
    {
      if j == 0 then (if i == 0 then m00 else m01)
      else (if i == 0 then m10 else m11)
    }
  }

  /**
    The sum over i < n of v[i] * m[j][i]: what the accumulating double loop of
    the product has added to result component j once the outer index has run
    through 0 .. n-1.
   */
  function PartialSum(v: Vertex, m: Matrix, j: nat, n: nat): real
    requires j < Dim && n <= Dim
  {
    if n == 0 then 0.0
    else PartialSum(v, m, j, n - 1) + v.Coord(n - 1) * m.Entry(j, n - 1)
  }

  /**
    `vertex * matrix`: result component j is the sum over i of v[i] * m[j][i],
    which is the matrix applied to the vertex read as a column vector.
   */
  function Mul(v: Vertex, m: Matrix): (r: Vertex)
    ensures r.x == m.m00 * v.x + m.m01 * v.y
    ensures r.y == m.m10 * v.x + m.m11 * v.y
  {
    FullSum(v, m, 0);
    FullSum(v, m, 1);
    Vertex(PartialSum(v, m, 0, Dim), PartialSum(v, m, 1, Dim))
  }

  /** The full sum for row j has the two terms m[j][0] * x and m[j][1] * y. */
  lemma FullSum(v: Vertex, m: Matrix, j: nat)
    requires j < Dim
    ensures PartialSum(v, m, j, Dim) == m.Entry(j, 0) * v.x + m.Entry(j, 1) * v.y
  {
    assert PartialSum(v, m, j, 1) == v.x * m.Entry(j, 0);
  }

  /** The matrix `[[sx, 0], [0, sy]]` built by `scale`. */
  function ScaleMatrix(sx: real, sy: real): Matrix {
    Matrix(sx, 0.0, 0.0, sy)
  }

  /**
    The matrix `[[c, -s], [s, c]]` built by `rotate`, where c and s stand for
    the cosine and sine of the angle, which the caller supplies.
   */
  function RotationMatrix(c: real, s: real): Matrix {
    Matrix(c, -s, s, c)
  }

  /** Squared distance of a vertex from the origin. */
  function NormSq(v: Vertex): real {
    v.x * v.x + v.y * v.y
  }

  /** The product is linear: it maps the origin to the origin. */
  lemma MulFixesOrigin(m: Matrix)
    ensures Mul(Vertex(0.0, 0.0), m) == Vertex(0.0, 0.0)
  {
  }

  /** Multiplying by a rotation matrix keeps the distance from the origin when c*c + s*s == 1. */
  lemma RotationKeepsNorm(v: Vertex, c: real, s: real)
    requires c * c + s * s == 1.0
    ensures NormSq(Mul(v, RotationMatrix(c, s))) == NormSq(v)
  {
  }
}
