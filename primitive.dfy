/** Points, segments and the small vector algebra every shape uses
    (include/irg/primitive.hpp, plus the glm operations the shapes call).
    The source's `unit` is a 32-bit float; coordinates are real numbers here. */
module Primitive {

  datatype Option<T> = None | Some(value: T)

  /** `point`: a position in normalised device space or in window pixels. */
  datatype Point = Point(x: real, y: real)

  /** `line_segment`: the segment a drag gesture is building. */
  datatype LineSegment = LineSegment(start: Point, end: Point)

  /** `glm::vec3` and `glm::vec4`. */
  datatype Vec3 = Vec3(x: real, y: real, z: real)
  datatype Vec4 = Vec4(x: real, y: real, z: real, w: real)

  /** `operator==` on points compares both coordinates exactly. */
  function SamePoint(a: Point, b: Point): (r: bool)
    ensures r <==> a == b
  {
    a.x == b.x && a.y == b.y
  }

  /** `swap(point&, point&)`: exchanges both coordinates of the two points. */
  function Swap(a: Point, b: Point): (r: (Point, Point))
    ensures r.0.x == b.x && r.0.y == b.y && r.1.x == a.x && r.1.y == a.y
  {
    (Point(b.x, b.y), Point(a.x, a.y))
  }

  /** A window size the division in `normalize` can use. */
  predicate ValidDim(dim: Point) {
    dim.x != 0.0 && dim.y != 0.0
  }

  /** `normalize`: window pixels (y down) to device coordinates (y up). */
  function Normalize(p: Point, dim: Point): Point
    requires ValidDim(dim)
  {
    Point(p.x / dim.x * 2.0 - 1.0, -p.y / dim.y * 2.0 + 1.0)
  }

  /** `scale`: device coordinates back to window pixels. */
  function Scale(p: Point, dim: Point): Point {
    Point((p.x + 1.0) / 2.0 * dim.x, (p.y - 1.0) / 2.0 * dim.y * -1.0)
  }

  /** `scale` undoes `normalize` for every window size with non-zero sides. */
  lemma ScaleNormalize(p: Point, dim: Point)
    requires ValidDim(dim)
    ensures Scale(Normalize(p, dim), dim) == p
  {
    var qx, qy := p.x / dim.x, p.y / dim.y;
    assert qx * dim.x == p.x && qy * dim.y == p.y;
    var n := Normalize(p, dim);
    assert n == Point(qx * 2.0 - 1.0, -qy * 2.0 + 1.0);
    assert (n.x + 1.0) / 2.0 == qx;
    assert (n.y - 1.0) / 2.0 == -qy;
  }

  /** and `normalize` undoes `scale`. */
  lemma NormalizeScale(p: Point, dim: Point)
    requires ValidDim(dim)
    ensures Normalize(Scale(p, dim), dim) == p
  {
    var hx, hy := (p.x + 1.0) / 2.0, (p.y - 1.0) / 2.0;
    var s := Scale(p, dim);
    assert s == Point(hx * dim.x, hy * dim.y * -1.0);
    assert s.x / dim.x == hx;
    assert -s.y / dim.y == hy;
  }

  /** The window's top-left corner is device (-1, 1), its bottom-right corner (1, -1). */
  lemma NormalizeCorners(dim: Point)
    requires ValidDim(dim)
    ensures Normalize(Point(0.0, 0.0), dim) == Point(-1.0, 1.0)
    ensures Normalize(dim, dim) == Point(1.0, -1.0)
  {
    assert dim.x / dim.x == 1.0 && -dim.y / dim.y == -1.0;
  }

  /** `homogenous`: the point with z = 1. */
  function Homogenous(p: Point): (v: Vec3)
    ensures v.x == p.x && v.y == p.y && v.z == 1.0
  {
    Vec3(p.x, p.y, 1.0)
  }

  /** `non_homogenous`: drops z (no division by it). */
  function NonHomogenous(v: Vec3): (p: Point)
    ensures p.x == v.x && p.y == v.y
  {
    Point(v.x, v.y)
  }

  lemma NonHomogenousHomogenous(p: Point)
    ensures NonHomogenous(Homogenous(p)) == p
  {
  }

  function Sub(a: Vec3, b: Vec3): Vec3 {
    Vec3(a.x - b.x, a.y - b.y, a.z - b.z)
  }

  function Dot(a: Vec3, b: Vec3): real {
    a.x * b.x + a.y * b.y + a.z * b.z
  }

  function Cross(a: Vec3, b: Vec3): Vec3 {
    Vec3(a.y * b.z - a.z * b.y, a.z * b.x - a.x * b.z, a.x * b.y - a.y * b.x)
  }

  function Dot4(a: Vec4, b: Vec4): real {
    a.x * b.x + a.y * b.y + a.z * b.z + a.w * b.w
  }

  /** The cross product is perpendicular to both of its factors. */
  lemma CrossPerpendicular(a: Vec3, b: Vec3)
    ensures Dot(a, Cross(a, b)) == 0.0 && Dot(b, Cross(a, b)) == 0.0
  {
  }

  /** Exchanging two factors of a triple product negates it. */
  lemma TripleSwap(a: Vec3, b: Vec3, c: Vec3)
    ensures Dot(a, Cross(c, b)) == -Dot(a, Cross(b, c))
  {
  }

  /** A triple product is invariant under rotation of its factors. */
  lemma TripleRotate(a: Vec3, b: Vec3, c: Vec3)
    ensures Dot(a, Cross(b, c)) == Dot(b, Cross(c, a)) == Dot(c, Cross(a, b))
  {
  }
}
