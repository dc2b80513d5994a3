/** The enclosed volume and its dependence on the origin. */
module SurfaceVolume {
  import opened Reals
  import opened SurfaceTypes
  import opened SurfaceEdges

  /** The summed signed volume, as seen from an origin. */
  ghost function VolumeFrom(triangles: seq<Triangle>, origin: Point): real {
    if triangles == [] then 0.0
    else VolumeFrom(triangles[..|triangles| - 1], origin)
         + SignedVolume(SurfaceTypes.From(triangles[|triangles| - 1], origin))
  }

  method TotalVolume(triangles: seq<Triangle>) returns (volume: real)
    ensures volume == VolumeFrom(triangles, ZERO)
  {
    volume := 0.0;
    var i := 0;
    while i < |triangles|
      invariant 0 <= i <= |triangles|
      invariant volume == VolumeFrom(triangles[..i], ZERO)
    {
      assert triangles[..i + 1][..i] == triangles[..i];
      SameOrigin(triangles[i]);
      volume := volume + SignedVolume(triangles[i]);
      i := i + 1;
    }
    assert triangles[..i] == triangles;
  }

  lemma SameOrigin(t: Triangle)
    ensures SurfaceTypes.From(t, ZERO) == t
  {
  }

  /** A quantity of directed sides, summed. */
  ghost function SideSum(sides: seq<Edge>, f: Edge -> Point): Point {
    if sides == [] then ZERO else Plus(SideSum(sides[..|sides| - 1], f), f(sides[|sides| - 1]))
  }

  /** Twice the area swept by a side, as a vector. */
  ghost function Sweep(): Edge -> Point {
    (e: Edge) => Cross(e.left, e.right)
  }

  ghost function AreaVector(triangles: seq<Triangle>): Point {
    if triangles == [] then ZERO
    else Plus(AreaVector(triangles[..|triangles| - 1]), Normal(triangles[|triangles| - 1]))
  }

  lemma SideSumAppend(sides: seq<Edge>, f: Edge -> Point, s: Edge)
    ensures SideSum(sides + [s], f) == Plus(SideSum(sides, f), f(s))
  {
    assert (sides + [s])[..|sides|] == sides;
  }

  lemma Component(a: real, a': real, b: real, b': real, c: real, c': real)
    ensures (b - a) * (c' - a') - (b' - a') * (c - a)
            == (a * b' - a' * b) + (b * c' - b' * c) + (c * a' - c' * a)
  {
    assert (b - a) * (c' - a') == b * c' - b * a' - a * c' + a * a';
    assert (b' - a') * (c - a) == b' * c - b' * a - a' * c + a' * a;
  }

  lemma NormalX(a: Point, b: Point, c: Point)
    ensures Cross(Subtract(b, a), Subtract(c, a)).x == Cross(a, b).x + Cross(b, c).x + Cross(c, a).x
  {
    Component(a.y, a.z, b.y, b.z, c.y, c.z);
  }

  lemma NormalY(a: Point, b: Point, c: Point)
    ensures Cross(Subtract(b, a), Subtract(c, a)).y == Cross(a, b).y + Cross(b, c).y + Cross(c, a).y
  {
    Component(a.z, a.x, b.z, b.x, c.z, c.x);
  }

  lemma NormalZ(a: Point, b: Point, c: Point)
    ensures Cross(Subtract(b, a), Subtract(c, a)).z == Cross(a, b).z + Cross(b, c).z + Cross(c, a).z
  {
    Component(a.x, a.y, b.x, b.y, c.x, c.y);
  }

  lemma SamePoint(p: Point, u: Point, v: Point, w: Point)
    requires p.x == u.x + v.x + w.x && p.y == u.y + v.y + w.y && p.z == u.z + v.z + w.z
    ensures p == Plus(Plus(u, v), w)
  {
  }

  lemma NormalOfSides(t: Triangle)
    ensures Normal(t) == Plus(Plus(Cross(t.a, t.b), Cross(t.b, t.c)), Cross(t.c, t.a))
  {
    NormalX(t.a, t.b, t.c);
    NormalY(t.a, t.b, t.c);
    NormalZ(t.a, t.b, t.c);
    SamePoint(Normal(t), Cross(t.a, t.b), Cross(t.b, t.c), Cross(t.c, t.a));
  }

  lemma PlusThree(p: Point, u: Point, v: Point, w: Point)
    ensures Plus(Plus(Plus(p, u), v), w) == Plus(p, Plus(Plus(u, v), w))
  {
  }

  lemma {:induction false} AreaOfSides(triangles: seq<Triangle>)
    ensures AreaVector(triangles) == SideSum(AllSides(triangles), Sweep())
  {
    if triangles != [] {
      var front, t := triangles[..|triangles| - 1], triangles[|triangles| - 1];
      AreaOfSides(front);
      NormalOfSides(t);
      ThreeSides(AllSides(front), Sweep(), Edge(t.a, t.b), Edge(t.b, t.c), Edge(t.c, t.a));
      PlusThree(AreaVector(front), Sweep()(Edge(t.a, t.b)), Sweep()(Edge(t.b, t.c)), Sweep()(Edge(t.c, t.a)));
    }
  }

  lemma ThreeSides(sides: seq<Edge>, f: Edge -> Point, r: Edge, s: Edge, t: Edge)
    ensures SideSum(sides + [r] + [s] + [t], f) == Plus(Plus(Plus(SideSum(sides, f), f(r)), f(s)), f(t))
  {
    SideSumAppend(sides, f, r);
    SideSumAppend(sides + [r], f, s);
    SideSumAppend(sides + [r] + [s], f, t);
  }

  // ----- paired sides cancel

  ghost predicate Balanced(sides: seq<Edge>) {
    forall e :: Count(sides, e) == Count(sides, Reverse(e))
  }

  lemma ClosedBalanced(sides: seq<Edge>)
    requires SidesClosed(sides)
    ensures Balanced(sides)
  {
    forall e
      ensures Count(sides, e) == Count(sides, Reverse(e))
    {
      CountPositive(sides, e);
      CountPositive(sides, Reverse(e));
      assert Reverse(Reverse(e)) == e;
    }
  }

  function Without(sides: seq<Edge>, j: nat): seq<Edge>
    requires j < |sides|
  {
    sides[..j] + sides[j + 1..]
  }

  lemma {:induction false} TakeOne(sides: seq<Edge>, j: nat, e: Edge)
    requires j < |sides|
    ensures Count(sides, e) == Count(Without(sides, j), e) + if sides[j] == e then 1 else 0
  {
    var n := |sides| - 1;
    if j == n {
      assert Without(sides, j) == sides[..n];
    } else {
      var front := sides[..n];
      TakeOne(front, j, e);
      assert Without(sides, j) == Without(front, j) + [sides[n]];
      CountAppend(Without(front, j), sides[n], e);
    }
  }

  lemma PlusSwap(p: Point, u: Point, v: Point)
    ensures Plus(Plus(p, u), v) == Plus(Plus(p, v), u)
  {
  }

  lemma {:induction false} TakeOneSum(sides: seq<Edge>, j: nat, f: Edge -> Point)
    requires j < |sides|
    ensures SideSum(sides, f) == Plus(SideSum(Without(sides, j), f), f(sides[j]))
  {
    var n := |sides| - 1;
    if j == n {
      assert Without(sides, j) == sides[..n];
    } else {
      var front := sides[..n];
      var rest := SideSum(Without(front, j), f);
      assert SideSum(Without(sides, j), f) == Plus(rest, f(sides[n])) by {
        assert Without(sides, j) == Without(front, j) + [sides[n]];
        SideSumAppend(Without(front, j), f, sides[n]);
      }
      assert SideSum(front, f) == Plus(rest, f(sides[j])) by {
        TakeOneSum(front, j, f);
      }
      PlusSwap(rest, f(sides[j]), f(sides[n]));
    }
  }

  /** A side and its reverse count opposite. */
  ghost predicate Odd(f: Edge -> Point) {
    forall e :: Plus(f(Reverse(e)), f(e)) == ZERO
  }

  lemma SweepOdd()
    ensures Odd(Sweep())
  {
    forall e
      ensures Plus(Sweep()(Reverse(e)), Sweep()(e)) == ZERO
    {
      CrossReversed(e.left, e.right);
    }
  }

  lemma CrossReversed(p: Point, q: Point)
    ensures Plus(Cross(q, p), Cross(p, q)) == ZERO
  {
  }

  /** Taking out the last side and its reverse leaves the sum as it was. */
  lemma PairCancels(sides: seq<Edge>, j: nat, f: Edge -> Point)
    requires Odd(f) && j < |sides| - 1 && sides[j] == Reverse(sides[|sides| - 1])
    ensures SideSum(sides, f) == SideSum(Without(sides[..|sides| - 1], j), f)
  {
    var n := |sides| - 1;
    TakeOneSum(sides[..n], j, f);
    assert Plus(f(Reverse(sides[n])), f(sides[n])) == ZERO;
  }

  lemma SelfCancels(sides: seq<Edge>, f: Edge -> Point)
    requires Odd(f) && |sides| > 0 && sides[|sides| - 1].left == sides[|sides| - 1].right
    ensures SideSum(sides, f) == SideSum(sides[..|sides| - 1], f)
  {
    var e := sides[|sides| - 1];
    assert Reverse(e) == e;
    assert Plus(f(Reverse(e)), f(e)) == ZERO;
  }

  lemma FindReverse(sides: seq<Edge>) returns (j: nat)
    requires |sides| > 0 && Balanced(sides) && sides[|sides| - 1].left != sides[|sides| - 1].right
    ensures j < |sides| - 1 && sides[j] == Reverse(sides[|sides| - 1])
  {
    var n := |sides| - 1;
    var e, front := sides[n], sides[..n];
    CountAppend(front, e, e);
    CountAppend(front, e, Reverse(e));
    assert front + [e] == sides && Reverse(e) != e;
    assert Count(sides, e) == Count(sides, Reverse(e));
    CountPositive(front, Reverse(e));
    j :| 0 <= j < n && front[j] == Reverse(e);
  }

  /** Over sides that occur as often as their reverses, every odd quantity cancels. */
  lemma {:induction false} BalancedCancels(sides: seq<Edge>, f: Edge -> Point)
    requires Balanced(sides) && Odd(f)
    ensures SideSum(sides, f) == ZERO
    decreases |sides|
  {
    if sides != [] {
      var n := |sides| - 1;
      if sides[n].left == sides[n].right {
        SelfCancels(sides, f);
        StillBalanced(sides, n, sides[n]);
        BalancedCancels(sides[..n], f);
      } else {
        var j := FindReverse(sides);
        PairCancels(sides, j, f);
        PairTaken(sides, j);
        BalancedCancels(Without(sides[..n], j), f);
      }
    }
  }

  lemma StillBalanced(sides: seq<Edge>, n: nat, e: Edge)
    requires Balanced(sides) && n == |sides| - 1 && sides[n] == e && Reverse(e) == e
    ensures Balanced(sides[..n])
  {
    forall f
      ensures Count(sides[..n], f) == Count(sides[..n], Reverse(f))
    {
      assert Reverse(Reverse(f)) == f;
      assert Count(sides, f) == Count(sides, Reverse(f));
    }
  }

  lemma PairTaken(sides: seq<Edge>, j: nat)
    requires Balanced(sides) && j < |sides| - 1 && sides[j] == Reverse(sides[|sides| - 1]) != sides[|sides| - 1]
    ensures Balanced(Without(sides[..|sides| - 1], j))
  {
    var front := sides[..|sides| - 1];
    forall f
      ensures Count(Without(front, j), f) == Count(Without(front, j), Reverse(f))
    {
      TakeOne(front, j, f);
      TakeOne(front, j, Reverse(f));
      assert Reverse(Reverse(f)) == f;
      assert Count(sides, f) == Count(sides, Reverse(f));
    }
  }

  // ----- moving the origin

  lemma NormalFrom(t: Triangle, origin: Point)
    ensures Normal(SurfaceTypes.From(t, origin)) == Normal(t)
  {
    var u := SurfaceTypes.From(t, origin);
    assert Subtract(u.b, u.a) == Subtract(t.b, t.a);
    assert Subtract(u.c, u.a) == Subtract(t.c, t.a);
  }

  lemma DotLinear(p: Point, q: Point, n: Point)
    ensures Dot(Subtract(p, q), n) == Dot(p, n) - Dot(q, n)
    ensures Dot(n, Plus(p, q)) == Dot(n, p) + Dot(n, q)
  {
    assert (p.x - q.x) * n.x == p.x * n.x - q.x * n.x;
    assert (p.y - q.y) * n.y == p.y * n.y - q.y * n.y;
    assert (p.z - q.z) * n.z == p.z * n.z - q.z * n.z;
  }

  lemma TriangleFrom(t: Triangle, origin: Point)
    ensures SignedVolume(SurfaceTypes.From(t, origin)) == SignedVolume(t) - Dot(origin, Normal(t)) / 6.0
  {
    NormalFrom(t, origin);
    DotLinear(t.a, origin, Normal(t));
  }

  /** Moving the origin changes the summed volume by the origin's component along the vector area. */
  lemma {:induction false} VolumeMoves(triangles: seq<Triangle>, origin: Point)
    ensures VolumeFrom(triangles, origin) == VolumeFrom(triangles, ZERO) - Dot(origin, AreaVector(triangles)) / 6.0
  {
    if triangles != [] {
      var front, t := triangles[..|triangles| - 1], triangles[|triangles| - 1];
      VolumeMoves(front, origin);
      SameOrigin(t);
      TriangleFrom(t, origin);
      DotLinear(AreaVector(front), Normal(t), origin);
      OneStep(AreaVector(front), Normal(t), origin);
    }
  }

  lemma OneStep(a: Point, n: Point, origin: Point)
    ensures Dot(origin, Plus(a, n)) == Dot(origin, a) + Dot(origin, n)
  {
    DotLinear(a, n, origin);
  }

  /** Every origin sees the same volume. */
  ghost predicate OriginFree(triangles: seq<Triangle>) {
    forall origin :: VolumeFrom(triangles, origin) == VolumeFrom(triangles, ZERO)
  }

  lemma OriginFreeArea(triangles: seq<Triangle>)
    requires OriginFree(triangles)
    ensures AreaVector(triangles) == ZERO
  {
    var area := AreaVector(triangles);
    VolumeMoves(triangles, area);
    assert VolumeFrom(triangles, area) == VolumeFrom(triangles, ZERO);
    SelfDot(area);
  }

  lemma AreaOriginFree(triangles: seq<Triangle>)
    requires AreaVector(triangles) == ZERO
    ensures OriginFree(triangles)
  {
    forall origin
      ensures VolumeFrom(triangles, origin) == VolumeFrom(triangles, ZERO)
    {
      VolumeMoves(triangles, origin);
      assert Dot(origin, ZERO) == 0.0;
    }
  }

  /** The summed volume is the same from every origin exactly when the vector area vanishes. */
  lemma OriginFreeExactly(triangles: seq<Triangle>)
    ensures OriginFree(triangles) <==> AreaVector(triangles) == ZERO
  {
    if OriginFree(triangles) {
      OriginFreeArea(triangles);
    }
    if AreaVector(triangles) == ZERO {
      AreaOriginFree(triangles);
    }
  }

  lemma SelfDot(p: Point)
    requires Dot(p, p) == 0.0
    ensures p == ZERO
  {
    Square(p.x);
    Square(p.y);
    Square(p.z);
    NoneOfThree(p.x * p.x, p.y * p.y, p.z * p.z);
    NoZeroDivisors(p.x, p.x);
    NoZeroDivisors(p.y, p.y);
    NoZeroDivisors(p.z, p.z);
  }

  lemma NoneOfThree(a: real, b: real, c: real)
    requires a >= 0.0 && b >= 0.0 && c >= 0.0 && a + b + c == 0.0
    ensures a == 0.0 && b == 0.0 && c == 0.0
  {
  }

  /** A surface whose sides are paired encloses a volume that does not depend on the origin. */
  lemma ClosedVolume(triangles: seq<Triangle>)
    requires SidesClosed(AllSides(triangles))
    ensures OriginFree(triangles)
  {
    ClosedBalanced(AllSides(triangles));
    SweepOdd();
    BalancedCancels(AllSides(triangles), Sweep());
    AreaOfSides(triangles);
    AreaOriginFree(triangles);
  }

  // ----- removing oppositely wound pairs

  /** The same corners walked the other way round, from any start. */
  predicate OppositeWinding(left: Triangle, right: Triangle) {
    || left == Triangle(right.a, right.c, right.b)
    || left == Triangle(right.b, right.a, right.c)
    || left == Triangle(right.c, right.b, right.a)
  }

  lemma VolumeOfSides(t: Triangle)
    ensures SignedVolume(t) == Dot(t.a, Cross(t.b, t.c)) / 6.0
  {
    NormalOfSides(t);
    OneStep(Plus(Cross(t.a, t.b), Cross(t.b, t.c)), Cross(t.c, t.a), t.a);
    OneStep(Cross(t.a, t.b), Cross(t.b, t.c), t.a);
    Perpendicular(t.a, t.b);
    Perpendicular(t.a, t.c);
  }

  lemma Perpendicular(p: Point, q: Point)
    ensures Dot(p, Cross(p, q)) == 0.0 && Dot(p, Cross(q, p)) == 0.0
  {
  }

  lemma Turned(p: Point, q: Point, r: Point)
    ensures Dot(p, Cross(q, r)) == Dot(q, Cross(r, p))
    ensures Dot(p, Cross(r, q)) == -Dot(p, Cross(q, r))
  {
  }

  /** A duplicate pair wound opposite ways has zero volume together, from any origin. */
  lemma OppositeVolumes(left: Triangle, right: Triangle, origin: Point)
    requires OppositeWinding(left, right)
    ensures SignedVolume(SurfaceTypes.From(left, origin)) + SignedVolume(SurfaceTypes.From(right, origin)) == 0.0
  {
    OppositeSum(SurfaceTypes.From(left, origin), SurfaceTypes.From(right, origin));
  }

  lemma OppositeSum(left: Triangle, right: Triangle)
    requires OppositeWinding(left, right)
    ensures SignedVolume(left) + SignedVolume(right) == 0.0
  {
    VolumeOfSides(left);
    VolumeOfSides(right);
    var a, b, c := right.a, right.b, right.c;
    Turned(a, b, c);
    Turned(b, c, a);
    Turned(c, a, b);
    assert Dot(left.a, Cross(left.b, left.c)) == -Dot(a, Cross(b, c));
  }

  /** The volume of the triangles whose index is not in a set. */
  ghost function VolumeWithout(triangles: seq<Triangle>, removed: set<nat>, origin: Point): real {
    if triangles == [] then 0.0
    else
      var n := |triangles| - 1;
      VolumeWithout(triangles[..n], removed, origin)
      + if n in removed then 0.0 else SignedVolume(SurfaceTypes.From(triangles[n], origin))
  }

  lemma {:induction false} NothingRemoved(triangles: seq<Triangle>, origin: Point)
    ensures VolumeWithout(triangles, {}, origin) == VolumeFrom(triangles, origin)
  {
    if triangles != [] {
      NothingRemoved(triangles[..|triangles| - 1], origin);
    }
  }

  lemma {:induction false} RemoveIndex(triangles: seq<Triangle>, removed: set<nat>, i: nat, origin: Point)
    requires i !in removed
    ensures VolumeWithout(triangles, removed + {i}, origin)
            == VolumeWithout(triangles, removed, origin)
               - if i < |triangles| then SignedVolume(SurfaceTypes.From(triangles[i], origin)) else 0.0
  {
    if triangles != [] {
      RemoveIndex(triangles[..|triangles| - 1], removed, i, origin);
    }
  }

  lemma RemovePair(triangles: seq<Triangle>, removed: set<nat>, i: nat, j: nat, origin: Point)
    requires i < |triangles| && j < |triangles| && i != j && i !in removed && j !in removed
    requires OppositeWinding(triangles[i], triangles[j])
    ensures VolumeWithout(triangles, removed + {i, j}, origin) == VolumeWithout(triangles, removed, origin)
  {
    RemoveIndex(triangles, removed, i, origin);
    RemoveIndex(triangles, removed + {i}, j, origin);
    OppositeVolumes(triangles[i], triangles[j], origin);
    assert removed + {i} + {j} == removed + {i, j};
  }

  /** The triangles whose index is not in a set, in order. */
  function Kept(triangles: seq<Triangle>, removed: set<nat>): seq<Triangle> {
    if triangles == [] then []
    else
      var n := |triangles| - 1;
      Kept(triangles[..n], removed) + if n in removed then [] else [triangles[n]]
  }

  lemma {:induction false} KeptVolume(triangles: seq<Triangle>, removed: set<nat>, origin: Point)
    ensures VolumeFrom(Kept(triangles, removed), origin) == VolumeWithout(triangles, removed, origin)
  {
    if triangles != [] {
      var n := |triangles| - 1;
      var front := Kept(triangles[..n], removed);
      KeptVolume(triangles[..n], removed, origin);
      assert front + [] == front && (front + [triangles[n]])[..|front|] == front;
    }
  }
}
