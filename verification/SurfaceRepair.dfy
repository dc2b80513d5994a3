/** The repair of the surface and its final closure checks. */
module SurfaceRepair {
  import opened BoundaryLoops
  import opened Duplicates
  import opened GroupTables
  import opened Options
  import opened SurfaceEdges
  import opened SurfaceInspection
  import opened SurfaceTypes
  import opened SurfaceVolume

  /** The square of the largest permitted seam gap, in metres. */
  const GAP_LIMIT_SQUARED: real := 0.00018 * 0.00018

  function DistanceSquared(p: Point, q: Point): real {
    Dot(Subtract(p, q), Subtract(p, q))
  }

  function Midpoint(p: Point, q: Point): Point {
    Point((p.x + q.x) / 2.0, (p.y + q.y) / 2.0, (p.z + q.z) / 2.0)
  }

  /** The midpoint is half the gap away from either end. */
  lemma MidpointMoves(p: Point, q: Point)
    ensures 4.0 * DistanceSquared(p, Midpoint(p, q)) == DistanceSquared(p, q)
    ensures 4.0 * DistanceSquared(q, Midpoint(p, q)) == DistanceSquared(p, q)
  {
    HalfGap(p.x, q.x);
    HalfGap(p.y, q.y);
    HalfGap(p.z, q.z);
  }

  lemma HalfGap(a: real, b: real)
    ensures 4.0 * ((a - (a + b) / 2.0) * (a - (a + b) / 2.0)) == (a - b) * (a - b)
    ensures 4.0 * ((b - (a + b) / 2.0) * (b - (a + b) / 2.0)) == (a - b) * (a - b)
  {
    assert a - (a + b) / 2.0 == (a - b) / 2.0;
    assert b - (a + b) / 2.0 == -((a - b) / 2.0);
  }

  // ----- removing the duplicate pairs

  /** The entries of an edge in the dictionary; a missing key has none. */
  function Incidence(edges: Table<Edge, Owner>, e: Edge): nat {
    if Sorted(e) in edges.lists then |edges.lists[Sorted(e)]| else 0
  }

  predicate AttachedSide(edges: Table<Edge, Owner>, e: Edge) {
    Incidence(edges, e) == 2 || Incidence(edges, e) == 4
  }

  predicate Attached(edges: Table<Edge, Owner>, t: Triangle) {
    AttachedSide(edges, Edge(t.a, t.b)) && AttachedSide(edges, Edge(t.b, t.c)) && AttachedSide(edges, Edge(t.c, t.a))
  }

  predicate Removable(triangles: seq<Triangle>, edges: Table<Edge, Owner>, pair: seq<nat>) {
    && |pair| == 2 && pair[0] < |triangles| && pair[1] < |triangles|
    && OppositeWinding(triangles[pair[0]], triangles[pair[1]]) && Attached(edges, triangles[pair[0]])
  }

  /** Removing a set of triangles leaves the volume, from every origin, as it was. */
  ghost predicate VolumeKept(triangles: seq<Triangle>, removed: set<nat>) {
    forall origin :: VolumeWithout(triangles, removed, origin) == VolumeFrom(triangles, origin)
  }

  ghost predicate RemovableFirst(triangles: seq<Triangle>, edges: Table<Edge, Owner>, duplicates: seq<seq<nat>>, n: nat)
    requires n <= |duplicates|
  {
    forall d :: 0 <= d < n ==> Removable(triangles, edges, duplicates[d])
  }

  method RemoveOne(triangles: seq<Triangle>, edges: Table<Edge, Owner>, duplicates: seq<seq<nat>>, d: nat,
                   removed: set<nat>)
    returns (ok: bool, next: set<nat>)
    requires AllDuplicates(CornersOf(triangles), duplicates) && d < |duplicates|
    requires removed == Union(duplicates[..d]) && VolumeKept(triangles, removed)
    ensures DuplicatePair(CornersOf(triangles), duplicates[d]) && ok == Removable(triangles, edges, duplicates[d])
    ensures ok ==> next == Union(duplicates[..d + 1]) && VolumeKept(triangles, next)
  {
    var pair := duplicates[d];
    assert DuplicatePair(CornersOf(triangles), pair);
    ok, next := Removable(triangles, edges, pair), removed;
    if ok {
      RemovalStep(triangles, edges, duplicates, d, removed);
      next := removed + {pair[0], pair[1]};
    }
  }

  /** The removal loop. What it removes never contributed to the volume. */
  method RemoveDuplicates(triangles: seq<Triangle>, edges: Table<Edge, Owner>, duplicates: seq<seq<nat>>)
    returns (r: Option<set<nat>>)
    requires AllDuplicates(CornersOf(triangles), duplicates)
    ensures r.Some? <==> RemovableFirst(triangles, edges, duplicates, |duplicates|)
    ensures r.Some? ==> r.value == Union(duplicates) && VolumeKept(triangles, r.value)
  {
    var removed: set<nat> := {};
    var d := 0;
    NoRemoval(triangles);
    while d < |duplicates|
      invariant 0 <= d <= |duplicates| && RemovableFirst(triangles, edges, duplicates, d)
      invariant removed == Union(duplicates[..d]) && VolumeKept(triangles, removed)
    {
      var ok;
      ok, removed := RemoveOne(triangles, edges, duplicates, d, removed);
      if !ok {
        return None;
      }
      d := d + 1;
    }
    assert duplicates[..d] == duplicates;
    r := Some(removed);
  }

  lemma NoRemoval(triangles: seq<Triangle>)
    ensures VolumeKept(triangles, {})
  {
    forall origin
      ensures VolumeWithout(triangles, {}, origin) == VolumeFrom(triangles, origin)
    {
      NothingRemoved(triangles, origin);
    }
  }

  lemma RemovalStep(triangles: seq<Triangle>, edges: Table<Edge, Owner>, duplicates: seq<seq<nat>>, d: nat,
                    removed: set<nat>)
    requires AllDuplicates(CornersOf(triangles), duplicates) && d < |duplicates|
    requires removed == Union(duplicates[..d]) && VolumeKept(triangles, removed)
    requires DuplicatePair(CornersOf(triangles), duplicates[d]) && Removable(triangles, edges, duplicates[d])
    ensures var next := removed + {duplicates[d][0], duplicates[d][1]};
            next == Union(duplicates[..d + 1]) && VolumeKept(triangles, next)
  {
    PairIsNew(triangles, duplicates, d);
    KeepsVolume(triangles, removed, duplicates[d][0], duplicates[d][1]);
  }

  lemma PairIsNew(triangles: seq<Triangle>, duplicates: seq<seq<nat>>, d: nat)
    requires AllDuplicates(CornersOf(triangles), duplicates) && d < |duplicates|
    ensures var pair := duplicates[d];
            && |pair| == 2 && pair[0] !in Union(duplicates[..d]) && pair[1] !in Union(duplicates[..d])
            && Union(duplicates[..d + 1]) == Union(duplicates[..d]) + {pair[0], pair[1]}
  {
    var pair := duplicates[d];
    assert DuplicatePair(CornersOf(triangles), pair);
    assert pair[0] in pair && pair[1] in pair && pair == [pair[0], pair[1]];
    forall e, i | 0 <= e < d && i in duplicates[e]
      ensures i !in pair
    {
    }
    var before, after := Union(duplicates[..d]), Union(duplicates[..d + 1]);
    forall i
      ensures i in after <==> i in before + {pair[0], pair[1]}
    {
      UnionStep(duplicates, d, i);
    }
  }

  lemma UnionStep(duplicates: seq<seq<nat>>, d: nat, i: nat)
    requires d < |duplicates|
    ensures i in Union(duplicates[..d + 1]) <==> i in Union(duplicates[..d]) || i in duplicates[d]
  {
    if i in Union(duplicates[..d]) {
      var e :| 0 <= e < d && i in duplicates[..d][e];
      assert duplicates[..d + 1][e] == duplicates[e];
    }
    if i in duplicates[d] {
      assert duplicates[..d + 1][d] == duplicates[d];
    }
    if i in Union(duplicates[..d + 1]) && i !in duplicates[d] {
      var e :| 0 <= e < d + 1 && i in duplicates[..d + 1][e];
      assert duplicates[..d][e] == duplicates[e];
    }
  }

  lemma KeepsVolume(triangles: seq<Triangle>, removed: set<nat>, i: nat, j: nat)
    requires i < |triangles| && j < |triangles| && i != j && i !in removed && j !in removed
    requires OppositeWinding(triangles[i], triangles[j]) && VolumeKept(triangles, removed)
    ensures VolumeKept(triangles, removed + {i, j})
  {
    forall origin
      ensures VolumeWithout(triangles, removed + {i, j}, origin) == VolumeFrom(triangles, origin)
    {
      RemovePair(triangles, removed, i, j, origin);
      assert VolumeWithout(triangles, removed, origin) == VolumeFrom(triangles, origin);
    }
  }

  // ----- the seams

  datatype Seam = Seam(a: Point, b: Point, target: Point, gapSquared: real)

  predicate SeamOk(s: Seam) {
    && s.target == Midpoint(s.a, s.b) && s.gapSquared == DistanceSquared(s.a, s.b)
    && s.gapSquared < GAP_LIMIT_SQUARED
  }

  /** Every seam is shorter than the limit and targets its middle. */
  ghost predicate SeamsOk(seams: seq<Seam>) {
    forall s :: 0 <= s < |seams| ==> SeamOk(seams[s])
  }

  /** The mapping that moves the seams' ends, each to its seam's target. */
  function MappingOf(seams: seq<Seam>): map<Point, Point> {
    if seams == [] then map[]
    else
      var s := seams[|seams| - 1];
      MappingOf(seams[..|seams| - 1])[s.a := s.target][s.b := s.target]
  }

  /** A seam by its two ends. */
  type Ends = (Point, Point)

  function SeamOf(e: Ends): Seam {
    Seam(e.0, e.1, Midpoint(e.0, e.1), DistanceSquared(e.0, e.1))
  }

  function SeamsFrom(ends: seq<Ends>): (r: seq<Seam>)
    ensures |r| == |ends| && forall s :: 0 <= s < |r| ==> r[s] == SeamOf(ends[s])
  {
    seq(|ends|, s requires 0 <= s < |ends| => SeamOf(ends[s]))
  }

  predicate IsEnd(e: Ends, p: Point) {
    p == e.0 || p == e.1
  }

  predicate Near(e: Ends) {
    DistanceSquared(e.0, e.1) < GAP_LIMIT_SQUARED
  }

  predicate Apart(e: Ends, f: Ends) {
    !IsEnd(e, f.0) && !IsEnd(e, f.1)
  }

  /** Seams that can be joined: each shorter than the limit, and no point in two of them. */
  ghost predicate Joinable(ends: seq<Ends>) {
    && (forall s :: 0 <= s < |ends| ==> Near(ends[s]))
    && (forall s, t :: 0 <= s < t < |ends| ==> Apart(ends[s], ends[t]))
  }

  lemma JoinableSeams(ends: seq<Ends>)
    requires Joinable(ends)
    ensures SeamsOk(SeamsFrom(ends))
  {
    forall s | 0 <= s < |ends|
      ensures SeamOk(SeamsFrom(ends)[s])
    {
      assert Near(ends[s]);
    }
  }

  lemma {:induction false} MappedExactly(ends: seq<Ends>, p: Point)
    ensures p in MappingOf(SeamsFrom(ends)) <==> exists s :: 0 <= s < |ends| && IsEnd(ends[s], p)
  {
    if ends != [] {
      var n := |ends| - 1;
      MappedExactly(ends[..n], p);
      assert SeamsFrom(ends)[..n] == SeamsFrom(ends[..n]);
      assert IsEnd(ends[n], p) <==> p == SeamsFrom(ends)[n].a || p == SeamsFrom(ends)[n].b;
      assert forall s :: 0 <= s < n ==> ends[..n][s] == ends[s];
    }
  }

  lemma JoinableMore(ends: seq<Ends>, e: Ends)
    requires Joinable(ends)
    ensures Joinable(ends + [e])
            <==> Near(e) && e.0 !in MappingOf(SeamsFrom(ends)) && e.1 !in MappingOf(SeamsFrom(ends))
  {
    var more := ends + [e];
    MappedExactly(ends, e.0);
    MappedExactly(ends, e.1);
    if Joinable(more) {
      assert Near(more[|ends|]);
      forall s | 0 <= s < |ends|
        ensures !IsEnd(ends[s], e.0) && !IsEnd(ends[s], e.1)
      {
        assert Apart(more[s], more[|ends|]);
      }
    }
  }

  lemma JoinableFront(ends: seq<Ends>, e: Ends)
    requires Joinable(ends + [e])
    ensures Joinable(ends)
  {
    var more := ends + [e];
    forall s | 0 <= s < |ends|
      ensures Near(ends[s])
    {
      assert Near(more[s]);
    }
    forall s, t | 0 <= s < t < |ends|
      ensures Apart(ends[s], ends[t])
    {
      assert Apart(more[s], more[t]);
    }
  }

  method JoinSeam(mapping: map<Point, Point>, seams: seq<Seam>, ghost ends: seq<Ends>, left: Point, right: Point)
    returns (ok: bool, wider: map<Point, Point>, more: seq<Seam>)
    requires mapping == MappingOf(seams) && seams == SeamsFrom(ends) && Joinable(ends)
    ensures ok <==> Joinable(ends + [(left, right)])
    ensures ok ==> wider == MappingOf(more) && more == SeamsFrom(ends + [(left, right)])
  {
    wider, more := mapping, seams;
    JoinableMore(ends, (left, right));
    ok := Near((left, right)) && left !in mapping && right !in mapping;
    if ok {
      var seam := SeamOf((left, right));
      SeamsMore(ends, (left, right));
      wider := mapping[left := seam.target][right := seam.target];
      more := seams + [seam];
    }
  }

  lemma SeamsMore(ends: seq<Ends>, e: Ends)
    ensures var seam, seams := SeamOf(e), SeamsFrom(ends);
            && SeamsFrom(ends + [e]) == seams + [seam]
            && MappingOf(seams + [seam]) == MappingOf(seams)[e.0 := seam.target][e.1 := seam.target]
  {
    var seam, seams := SeamOf(e), SeamsFrom(ends);
    assert (seams + [seam])[..|seams|] == seams;
    assert SeamsFrom(ends + [e]) == seams + [seam];
  }

  /** The two seams of a loop, joined one after the other. */
  method JoinLoop(mapping: map<Point, Point>, seams: seq<Seam>, ghost ends: seq<Ends>, loop: seq<Point>)
    returns (ok: bool, wider: map<Point, Point>, more: seq<Seam>)
    requires |loop| == LOOP_LENGTH && mapping == MappingOf(seams) && seams == SeamsFrom(ends) && Joinable(ends)
    ensures ok <==> Joinable(ends + LoopEnds(loop))
    ensures ok ==> wider == MappingOf(more) && more == SeamsFrom(ends + LoopEnds(loop))
  {
    var middle;
    assert ends + LoopEnds(loop) == ends + [(loop[0], loop[4])] + [(loop[1], loop[3])];
    ok, wider, middle := JoinSeam(mapping, seams, ends, loop[0], loop[4]);
    more := middle;
    if ok {
      ok, wider, more := JoinSeam(wider, middle, ends + [(loop[0], loop[4])], loop[1], loop[3]);
    } else if Joinable(ends + LoopEnds(loop)) {
      JoinableFront(ends + [(loop[0], loop[4])], (loop[1], loop[3]));
    }
  }

  /** Positions 0 and 4, then 1 and 3. */
  function LoopEnds(loop: seq<Point>): seq<Ends>
    requires |loop| == LOOP_LENGTH
  {
    [(loop[0], loop[4]), (loop[1], loop[3])]
  }

  function SeamEnds(loops: seq<seq<Point>>): seq<Ends>
    requires forall l :: 0 <= l < |loops| ==> |loops[l]| == LOOP_LENGTH
  {
    if loops == [] then [] else SeamEnds(loops[..|loops| - 1]) + LoopEnds(loops[|loops| - 1])
  }

  lemma {:induction false} JoinablePrefix(loops: seq<seq<Point>>, n: nat)
    requires forall l :: 0 <= l < |loops| ==> |loops[l]| == LOOP_LENGTH
    requires n <= |loops| && Joinable(SeamEnds(loops))
    ensures Joinable(SeamEnds(loops[..n]))
    decreases |loops|
  {
    if n == |loops| {
      assert loops[..n] == loops;
    } else {
      var front, loop := loops[..|loops| - 1], loops[|loops| - 1];
      var ends := SeamEnds(front);
      assert ends + LoopEnds(loop) == ends + [(loop[0], loop[4])] + [(loop[1], loop[3])];
      JoinableFront(ends + [(loop[0], loop[4])], (loop[1], loop[3]));
      JoinableFront(ends, (loop[0], loop[4]));
      JoinablePrefix(front, n);
      assert front[..n] == loops[..n];
    }
  }

  /** The seam loop: it succeeds exactly when the seams of the loops can be joined. */
  method JoinSeams(loops: seq<seq<Point>>) returns (r: Option<(map<Point, Point>, seq<Seam>)>)
    requires forall l :: 0 <= l < |loops| ==> |loops[l]| == LOOP_LENGTH
    ensures r.Some? <==> Joinable(SeamEnds(loops))
    ensures r.Some? ==> r.value == (MappingOf(SeamsFrom(SeamEnds(loops))), SeamsFrom(SeamEnds(loops)))
  {
    var mapping: map<Point, Point>, seams: seq<Seam> := map[], [];
    var l := 0;
    while l < |loops|
      invariant 0 <= l <= |loops| && Joinable(SeamEnds(loops[..l]))
      invariant mapping == MappingOf(seams) && seams == SeamsFrom(SeamEnds(loops[..l]))
    {
      assert loops[..l + 1][..l] == loops[..l];
      var ok;
      ok, mapping, seams := JoinLoop(mapping, seams, SeamEnds(loops[..l]), loops[l]);
      if !ok {
        if Joinable(SeamEnds(loops)) {
          JoinablePrefix(loops, l + 1);
        }
        return None;
      }
      l := l + 1;
    }
    assert loops[..l] == loops;
    r := Some((mapping, seams));
  }

  function Moved(mapping: map<Point, Point>, p: Point): Point {
    if p in mapping then mapping[p] else p
  }

  function MovedTriangle(mapping: map<Point, Point>, t: Triangle): Triangle {
    Triangle(Moved(mapping, t.a), Moved(mapping, t.b), Moved(mapping, t.c))
  }

  /** The seam that moves a point, or -1 for a point that stays. */
  lemma {:induction false} MovedBy(seams: seq<Seam>, p: Point) returns (k: int)
    ensures -1 <= k < |seams|
    ensures k == -1 ==> Moved(MappingOf(seams), p) == p
    ensures k >= 0 ==> (p == seams[k].a || p == seams[k].b) && Moved(MappingOf(seams), p) == seams[k].target
  {
    k := -1;
    if seams != [] {
      var last := seams[|seams| - 1];
      if p == last.a || p == last.b {
        k := |seams| - 1;
      } else {
        k := MovedBy(seams[..|seams| - 1], p);
      }
    }
  }

  lemma SeamMoves(s: Seam, p: Point)
    requires SeamOk(s) && (p == s.a || p == s.b)
    ensures 4.0 * DistanceSquared(p, s.target) == s.gapSquared
  {
    MidpointMoves(s.a, s.b);
  }

  lemma NoDistance(p: Point)
    ensures DistanceSquared(p, p) == 0.0
  {
    assert Subtract(p, p) == ZERO;
  }

  /** No vertex moves more than half of the largest permitted gap. */
  lemma MovementBounded(seams: seq<Seam>, p: Point)
    requires SeamsOk(seams)
    ensures 4.0 * DistanceSquared(p, Moved(MappingOf(seams), p)) < GAP_LIMIT_SQUARED
  {
    var k := MovedBy(seams, p);
    if k >= 0 {
      SeamMoves(seams[k], p);
    } else {
      NoDistance(p);
    }
  }

  // ----- the repaired triangles

  predicate Acceptable(t: Triangle, candidate: Triangle) {
    && candidate.a != candidate.b && candidate.b != candidate.c && candidate.a != candidate.c
    && Dot(Normal(t), Normal(candidate)) > 0.0
  }

  function MovedAll(triangles: seq<Triangle>, mapping: map<Point, Point>): (r: seq<Triangle>)
    ensures |r| == |triangles| && forall i :: 0 <= i < |r| ==> r[i] == MovedTriangle(mapping, triangles[i])
  {
    seq(|triangles|, i requires 0 <= i < |triangles| => MovedTriangle(mapping, triangles[i]))
  }

  lemma MovedAllAppend(triangles: seq<Triangle>, mapping: map<Point, Point>, t: Triangle)
    ensures MovedAll(triangles + [t], mapping) == MovedAll(triangles, mapping) + [MovedTriangle(mapping, t)]
  {
  }

  ghost predicate AllAcceptable(triangles: seq<Triangle>, removed: set<nat>, mapping: map<Point, Point>, n: nat)
    requires n <= |triangles|
  {
    forall i: nat :: i < n && i !in removed ==> Acceptable(triangles[i], MovedTriangle(mapping, triangles[i]))
  }

  predicate Changes(triangles: seq<Triangle>, removed: set<nat>, mapping: map<Point, Point>, i: nat)
    requires i < |triangles|
  {
    i !in removed && MovedTriangle(mapping, triangles[i]) != triangles[i]
  }

  /** The indices of the retained triangles that move, in increasing order. */
  ghost predicate ChangedExactly(triangles: seq<Triangle>, removed: set<nat>, mapping: map<Point, Point>, n: nat,
                                 changed: seq<nat>)
    requires n <= |triangles|
  {
    Increasing(changed) && forall i: nat :: i in changed <==> i < n && Changes(triangles, removed, mapping, i)
  }

  lemma ChangedMore(triangles: seq<Triangle>, removed: set<nat>, mapping: map<Point, Point>, n: nat, changed: seq<nat>)
    requires n < |triangles| && ChangedExactly(triangles, removed, mapping, n, changed)
    ensures ChangedExactly(triangles, removed, mapping, n + 1,
                           if Changes(triangles, removed, mapping, n) then changed + [n] else changed)
  {
    forall k | 0 <= k < |changed|
      ensures changed[k] < n
    {
      assert changed[k] in changed;
    }
  }

  /** The candidate loop: the retained triangles in order, moved; every one keeps its orientation. */
  method MoveTriangles(triangles: seq<Triangle>, removed: set<nat>, mapping: map<Point, Point>)
    returns (r: Option<(seq<Triangle>, seq<nat>)>)
    ensures r.Some? <==> AllAcceptable(triangles, removed, mapping, |triangles|)
    ensures r.Some? ==> r.value.0 == MovedAll(Kept(triangles, removed), mapping)
    ensures r.Some? ==> ChangedExactly(triangles, removed, mapping, |triangles|, r.value.1)
  {
    var repaired: seq<Triangle>, changed: seq<nat> := [], [];
    var index := 0;
    while index < |triangles|
      invariant 0 <= index <= |triangles| && AllAcceptable(triangles, removed, mapping, index)
      invariant repaired == MovedAll(Kept(triangles[..index], removed), mapping)
      invariant ChangedExactly(triangles, removed, mapping, index, changed)
    {
      assert triangles[..index + 1][..index] == triangles[..index];
      ChangedMore(triangles, removed, mapping, index, changed);
      if index !in removed {
        var candidate := MovedTriangle(mapping, triangles[index]);
        if !Acceptable(triangles[index], candidate) {
          return None;
        }
        MovedAllAppend(Kept(triangles[..index], removed), mapping, triangles[index]);
        if triangles[index] != candidate {
          changed := changed + [index];
        }
        repaired := repaired + [candidate];
      } else {
        assert Kept(triangles[..index], removed) + [] == Kept(triangles[..index], removed);
      }
      index := index + 1;
    }
    assert triangles[..index] == triangles;
    r := Some((repaired, changed));
  }

  // ----- the whole repair

  datatype Repaired = Repaired(triangles: seq<Triangle>, seams: seq<Seam>, changed: seq<nat>)

  /** A closed surface of the audited size: every directed side once, its reverse once, and no face twice. */
  ghost predicate ClosedSurface(plan: Plan, repaired: seq<Triangle>) {
    && |repaired| == plan.triangles && 3 * plan.triangles == 2 * plan.edges
    && SidesClosed(AllSides(repaired)) && DistinctKeys(CornersOf(repaired))
  }

  /** The final checks on the repaired list. */
  method Closes(plan: Plan, repaired: seq<Triangle>) returns (ok: bool)
    ensures ok <==> ClosedSurface(plan, repaired)
  {
    var edges := CollectEdges(repaired);
    PairedExactly(repaired, edges);
    if Paired(edges) {
      ThreeHalves(repaired, edges);
    }
    AllDifferent(CornersOf(repaired));
    ok := && |repaired| == plan.triangles && |edges.lists| == plan.edges && Paired(edges)
          && |Elements(CornersOf(repaired))| == |repaired|;
  }

  /** The whole repair as a function of its inputs: what is kept, moved along the seams. */
  function RepairedTriangles(plan: Plan, triangles: seq<Triangle>, loops: seq<seq<Point>>): seq<Triangle>
    requires forall l :: 0 <= l < |loops| ==> |loops[l]| == LOOP_LENGTH
  {
    MovedAll(Kept(triangles, plan.removed), MappingOf(SeamsFrom(SeamEnds(loops))))
  }

  ghost predicate Repairable(plan: Plan, triangles: seq<Triangle>, edges: Table<Edge, Owner>, duplicates: seq<seq<nat>>,
                             loops: seq<seq<Point>>)
    requires forall l :: 0 <= l < |loops| ==> |loops[l]| == LOOP_LENGTH
  {
    && RemovableFirst(triangles, edges, duplicates, |duplicates|) && Union(duplicates) == plan.removed
    && Joinable(SeamEnds(loops))
    && AllAcceptable(triangles, plan.removed, MappingOf(SeamsFrom(SeamEnds(loops))), |triangles|)
    && ClosedSurface(plan, RepairedTriangles(plan, triangles, loops))
  }

  /** The repair succeeds exactly when its pairs can be removed, its seams joined, its triangles moved, and the result
      is a closed surface; then the removal left the volume as it was and the new volume is the same from every
      origin. */
  method Repair(plan: Plan, triangles: seq<Triangle>, edges: Table<Edge, Owner>, duplicates: seq<seq<nat>>,
                loops: seq<seq<Point>>)
    returns (r: Option<Repaired>)
    requires AllDuplicates(CornersOf(triangles), duplicates)
    requires forall l :: 0 <= l < |loops| ==> |loops[l]| == LOOP_LENGTH
    ensures r.Some? <==> Repairable(plan, triangles, edges, duplicates, loops)
    ensures r.Some? ==> r.value.triangles == RepairedTriangles(plan, triangles, loops)
                        && r.value.seams == SeamsFrom(SeamEnds(loops)) && SeamsOk(r.value.seams)
                        && VolumeKept(triangles, plan.removed) && OriginFree(r.value.triangles)
    ensures r.Some? ==> ChangedExactly(triangles, plan.removed, MappingOf(r.value.seams), |triangles|, r.value.changed)
  {
    var removed := RemoveDuplicates(triangles, edges, duplicates);
    if removed == None || removed.value != plan.removed {
      return None;
    }
    var joined := JoinSeams(loops);
    if joined == None {
      return None;
    }
    var moved := MoveTriangles(triangles, removed.value, joined.value.0);
    if moved == None {
      return None;
    }
    var repaired := moved.value.0;
    var ok := Closes(plan, repaired);
    if !ok {
      return None;
    }
    ClosedVolume(repaired);
    JoinableSeams(SeamEnds(loops));
    r := Some(Repaired(repaired, joined.value.1, moved.value.1));
  }

  const TARGET_TRIANGLES := 280968
  const TARGET_EDGES := 421452

  /** For the audited counts the edge-count check follows from the triangle count and the pairing check. */
  lemma EdgeCountFollows(repaired: seq<Triangle>, edges: Table<Edge, Owner>)
    requires Groups(edges, EdgeItems(repaired)) && Paired(edges) && |repaired| == TARGET_TRIANGLES
    ensures |edges.lists| == TARGET_EDGES
  {
    ThreeHalves(repaired, edges);
  }
}
