/** Points, triangles and directed edges of a triangulated surface, over exact coordinates. */
module SurfaceTypes {

  datatype Point = Point(x: real, y: real, z: real)

  /** The order of coordinate tuples. */
  predicate Less(p: Point, q: Point) {
    p.x < q.x || (p.x == q.x && (p.y < q.y || (p.y == q.y && p.z < q.z)))
  }

  function Subtract(p: Point, q: Point): Point {
    Point(p.x - q.x, p.y - q.y, p.z - q.z)
  }

  function Plus(p: Point, q: Point): Point {
    Point(p.x + q.x, p.y + q.y, p.z + q.z)
  }

  function Cross(p: Point, q: Point): Point {
    Point(p.y * q.z - p.z * q.y, p.z * q.x - p.x * q.z, p.x * q.y - p.y * q.x)
  }

  function Dot(p: Point, q: Point): real {
    p.x * q.x + p.y * q.y + p.z * q.z
  }

  const ZERO: Point := Point(0.0, 0.0, 0.0)

  datatype Triangle = Triangle(a: Point, b: Point, c: Point)

  /** A side of a triangle, in the direction the triangle walks it. */
  datatype Edge = Edge(left: Point, right: Point)

  function Reverse(e: Edge): Edge {
    Edge(e.right, e.left)
  }

  function Forward(e: Edge): bool {
    Less(e.left, e.right)
  }

  /** The edge's two ends in order: the dictionary key. */
  function Sorted(e: Edge): Edge {
    if Less(e.right, e.left) then Reverse(e) else e
  }

  /** The three corners without their order: what makes two faces duplicates. */
  function Corners(t: Triangle): multiset<Point> {
    multiset{t.a, t.b, t.c}
  }

  function Normal(t: Triangle): Point {
    Cross(Subtract(t.b, t.a), Subtract(t.c, t.a))
  }

  function SignedVolume(t: Triangle): real {
    Dot(t.a, Normal(t)) / 6.0
  }

  /** The triangle seen from another origin. */
  function From(t: Triangle, origin: Point): Triangle {
    Triangle(Subtract(t.a, origin), Subtract(t.b, origin), Subtract(t.c, origin))
  }

  /** The directed sides of all triangles, in the order the triangles are walked. */
  function AllSides(triangles: seq<Triangle>): (r: seq<Edge>)
    ensures |r| == 3 * |triangles|
  {
    if triangles == [] then []
    else
      var t := triangles[|triangles| - 1];
      AllSides(triangles[..|triangles| - 1]) + [Edge(t.a, t.b)] + [Edge(t.b, t.c)] + [Edge(t.c, t.a)]
  }
}
