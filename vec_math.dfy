/** Small 3-vector helpers used by the normal estimator and the camera:
    `difference`, `quotient`, `cross` and `norm` of objParse.js. Arithmetic
    is exact over `real`; the square root inside `norm` is a parameter. */
module VecMath {

  datatype Vec3 = Vec3(x: real, y: real, z: real)

  const Zero: Vec3 := Vec3(0.0, 0.0, 0.0)

  /** Component `c` (0 = x, 1 = y, 2 = z), as the source indexes `a[c]`. */
  function Comp(a: Vec3, c: nat): real
    requires c < 3
  {
    if c == 0 then a.x else if c == 1 then a.y else a.z
  }

  function Add(a: Vec3, b: Vec3): Vec3 {
    Vec3(a.x + b.x, a.y + b.y, a.z + b.z)
  }

  function Neg(a: Vec3): Vec3 {
    Vec3(-a.x, -a.y, -a.z)
  }

  function Dot(a: Vec3, b: Vec3): real {
    a.x * b.x + a.y * b.y + a.z * b.z
  }

  /** `difference(a, b)`: the vector from `b` to `a`; adding `b` back gives `a`. */
  function Difference(a: Vec3, b: Vec3): (d: Vec3)
    ensures Add(d, b) == a
    ensures d == Zero <==> a == b
  {
    Vec3(a.x - b.x, a.y - b.y, a.z - b.z)
  }

  /** `quotient(a, d)`: every component divided by `d`; multiplying back gives `a`. */
  function Quotient(a: Vec3, d: real): (q: Vec3)
    requires d != 0.0
    ensures q.x * d == a.x && q.y * d == a.y && q.z * d == a.z
  {
    Vec3(a.x / d, a.y / d, a.z / d)
  }

  /** `cross(a, b)`, with the source's component formulas. */
  function Cross(a: Vec3, b: Vec3): Vec3 {
    Vec3(a.y * b.z - a.z * b.y, a.z * b.x - a.x * b.z, a.x * b.y - a.y * b.x)
  }

  /** The cross product is perpendicular to both operands. */
  lemma CrossPerpendicular(a: Vec3, b: Vec3)
    ensures Dot(Cross(a, b), a) == 0.0
    ensures Dot(Cross(a, b), b) == 0.0
  {
  }

  /** Swapping the operands flips the sign, so the operand order of the
      normal estimator decides which way a face normal points. */
  lemma CrossAntiCommutative(a: Vec3, b: Vec3)
    ensures Cross(b, a) == Neg(Cross(a, b))
  {
  }

  /** Sum of the squares of the entries, accumulated left to right. */
  function SumOfSquares(a: seq<real>): real
  {
    if |a| == 0 then 0.0 else SumOfSquares(a[..|a| - 1]) + a[|a| - 1] * a[|a| - 1]
  }

  /** `norm(a)`: a loop summing squares, then the square root, which is the
      parameter `sqrt` here. */
  method Norm(a: seq<real>, sqrt: real -> real) returns (n: real)
    ensures n == sqrt(SumOfSquares(a))
  {
    var sum := 0.0;
    var i := 0;
    while i < |a|
      invariant 0 <= i <= |a|
      invariant sum == SumOfSquares(a[..i])
    {
      assert a[..i + 1][..i] == a[..i];
      sum := sum + a[i] * a[i];
      i := i + 1;
    }
    assert a[..|a|] == a;
    n := sqrt(sum);
  }
}
