/** The topology inspection of the source surface. */
module SurfaceInspection {
  import opened BoundaryLoops
  import opened Duplicates
  import opened GroupTables
  import opened Options
  import opened SurfaceEdges
  import opened SurfaceTypes

  const LOOP_LENGTH := 6

  /** The counts and the removal set the audited surface is known to have. */
  datatype Plan = Plan(removed: set<nat>, triangles: nat, edges: nat, boundaryPoints: nat, loops: nat)

  function CornersOf(triangles: seq<Triangle>): seq<multiset<Point>> {
    seq(|triangles|, i requires 0 <= i < |triangles| => Corners(triangles[i]))
  }

  // ----- boundary edges

  /** The keys with a single owner, in the dictionary's order. */
  function SingleOwner(edges: Table<Edge, Owner>, n: nat): (r: seq<Edge>)
    requires n <= |edges.order| && forall k :: 0 <= k < n ==> edges.order[k] in edges.lists
  {
    if n == 0 then []
    else
      var key := edges.order[n - 1];
      if |edges.lists[key]| == 1 then SingleOwner(edges, n - 1) + [key] else SingleOwner(edges, n - 1)
  }

  function NeighbourItems(boundary: seq<Edge>): seq<Item<Point, Point>> {
    if boundary == [] then []
    else
      var e := boundary[|boundary| - 1];
      NeighbourItems(boundary[..|boundary| - 1]) + [Item(e.left, e.right)] + [Item(e.right, e.left)]
  }

  lemma NeighbourItemsAppend(boundary: seq<Edge>, e: Edge)
    ensures NeighbourItems(boundary + [e])
            == NeighbourItems(boundary) + [Item(e.left, e.right)] + [Item(e.right, e.left)]
  {
    assert (boundary + [e])[..|boundary|] == boundary;
  }

  ghost predicate SortedKeysOnly(boundary: seq<Edge>) {
    DistinctKeys(boundary) && forall i :: 0 <= i < |boundary| ==> Sorted(boundary[i]) == boundary[i]
  }

  /** A point lists a neighbour once for the edge between them, twice when the edge is a loop. */
  lemma {:induction false} NeighbourCount(boundary: seq<Edge>, p: Point, q: Point)
    requires SortedKeysOnly(boundary)
    ensures multiset(GroupOf(NeighbourItems(boundary), p))[q]
            == if Sorted(Edge(p, q)) in boundary then (if p == q then 2 else 1) else 0
  {
    if boundary != [] {
      var front, e := boundary[..|boundary| - 1], boundary[|boundary| - 1];
      NeighbourCount(front, p, q);
      var items := NeighbourItems(front);
      GroupOfAppend(items, Item(e.left, e.right), p);
      GroupOfAppend(items + [Item(e.left, e.right)], Item(e.right, e.left), p);
      SortedKeys(e, Edge(p, q));
      assert e !in front;
      assert boundary == front + [e];
    }
  }

  /** Two entries a point make the boundary graph two-regular. */
  lemma BoundaryTwoRegular(boundary: seq<Edge>, adjacency: Table<Point, Point>)
    requires SortedKeysOnly(boundary) && Groups(adjacency, NeighbourItems(boundary))
    requires forall p :: p in adjacency.lists ==> |adjacency.lists[p]| == 2
    ensures TwoRegular(adjacency.lists)
  {
    forall p, q | p in adjacency.lists && q in adjacency.lists[p]
      ensures q in adjacency.lists && p in adjacency.lists[q]
      ensures p == q ==> adjacency.lists[p] == [p, p]
      ensures adjacency.lists[p][0] == adjacency.lists[p][1] ==> p == adjacency.lists[p][0]
    {
      Symmetric(boundary, adjacency, p, q);
    }
    forall p | p in adjacency.lists && adjacency.lists[p][0] == adjacency.lists[p][1]
      ensures adjacency.lists[p][0] == p
    {
      Symmetric(boundary, adjacency, p, adjacency.lists[p][0]);
    }
  }

  lemma TwoEntries(s: seq<Point>, q: Point)
    requires |s| == 2
    ensures multiset(s)[q] == (if s[0] == q then 1 else 0) + if s[1] == q then 1 else 0
  {
    assert s == [s[0], s[1]];
  }

  lemma Symmetric(boundary: seq<Edge>, adjacency: Table<Point, Point>, p: Point, q: Point)
    requires SortedKeysOnly(boundary) && Groups(adjacency, NeighbourItems(boundary))
    requires forall p :: p in adjacency.lists ==> |adjacency.lists[p]| == 2
    requires p in adjacency.lists && q in adjacency.lists[p]
    ensures q in adjacency.lists && p in adjacency.lists[q]
    ensures p == q ==> adjacency.lists[p] == [p, p]
    ensures adjacency.lists[p][0] == adjacency.lists[p][1] ==> p == adjacency.lists[p][0]
  {
    NeighbourCount(boundary, p, q);
    NeighbourCount(boundary, q, p);
    SortedKeys(Edge(p, q), Edge(q, p));
    TwoEntries(adjacency.lists[p], q);
    assert multiset(GroupOf(NeighbourItems(boundary), q))[p] > 0;
    assert p in GroupOf(NeighbourItems(boundary), q);
  }

  predicate SourceIncidence(owners: nat) {
    owners == 1 || owners == 2 || owners == 4
  }

  /** A boundary edge makes its two ends neighbours of each other. */
  method BoundaryStep(edges: Table<Edge, Owner>, k: nat, adjacency: Table<Point, Point>)
    returns (longer: Table<Point, Point>)
    requires Listed(edges) && k < |edges.order| && Groups(adjacency, NeighbourItems(SingleOwner(edges, k)))
    ensures Groups(longer, NeighbourItems(SingleOwner(edges, k + 1)))
  {
    longer := adjacency;
    var key := edges.order[k];
    if |edges.lists[key]| == 1 {
      ghost var items := NeighbourItems(SingleOwner(edges, k));
      NeighbourItemsAppend(SingleOwner(edges, k), key);
      AppendedGroups(adjacency, items, key.left, key.right);
      longer := Appended(adjacency, key.left, key.right);
      AppendedGroups(longer, items + [Item(key.left, key.right)], key.right, key.left);
      longer := Appended(longer, key.right, key.left);
    }
  }

  /** The boundary loop of the inspection: single-owner edges become neighbours; others must have two or four owners. */
  method CollectBoundary(edges: Table<Edge, Owner>) returns (r: Option<Table<Point, Point>>)
    requires Listed(edges)
    ensures r.Some? <==> forall k :: 0 <= k < |edges.order| ==> SourceIncidence(|edges.lists[edges.order[k]]|)
    ensures r.Some? ==> Groups(r.value, NeighbourItems(SingleOwner(edges, |edges.order|)))
  {
    var adjacency: Table<Point, Point> := Table([], map[]);
    var k := 0;
    while k < |edges.order|
      invariant 0 <= k <= |edges.order|
      invariant Groups(adjacency, NeighbourItems(SingleOwner(edges, k)))
      invariant forall j :: 0 <= j < k ==> SourceIncidence(|edges.lists[edges.order[j]]|)
    {
      if !SourceIncidence(|edges.lists[edges.order[k]]|) {
        return None;
      }
      adjacency := BoundaryStep(edges, k, adjacency);
      k := k + 1;
    }
    r := Some(adjacency);
  }

  lemma {:induction false} SingleOwnerEdges(edges: Table<Edge, Owner>, n: nat, e: Edge)
    requires Listed(edges) && n <= |edges.order|
    ensures e in SingleOwner(edges, n) <==> e in edges.order[..n] && |edges.lists[e]| == 1
  {
    if n > 0 {
      SingleOwnerEdges(edges, n - 1, e);
      assert edges.order[..n] == edges.order[..n - 1] + [edges.order[n - 1]];
    }
  }

  lemma {:induction false} SingleOwnerSorted(triangles: seq<Triangle>, edges: Table<Edge, Owner>, n: nat)
    requires Groups(edges, EdgeItems(triangles)) && n <= |edges.order|
    requires Listed(edges)
    ensures SortedKeysOnly(SingleOwner(edges, n))
  {
    if n > 0 {
      SingleOwnerSorted(triangles, edges, n - 1);
      var key := edges.order[n - 1];
      assert key in edges.lists && GroupOf(EdgeItems(triangles), key) != [];
      KeySorted(triangles, key);
      SingleOwnerEdges(edges, n - 1, key);
      assert key !in edges.order[..n - 1];
    }
  }

  // ----- the inspection

  datatype Topology = Topology(edges: Table<Edge, Owner>, duplicates: seq<seq<nat>>, loops: seq<seq<Point>>)

  function Union(duplicates: seq<seq<nat>>): set<nat> {
    set d, i | 0 <= d < |duplicates| && i in duplicates[d] :: i
  }

  method SixLong(loops: seq<seq<Point>>) returns (ok: bool)
    ensures ok <==> forall l :: 0 <= l < |loops| ==> |loops[l]| == LOOP_LENGTH
  {
    var l := 0;
    while l < |loops|
      invariant 0 <= l <= |loops|
      invariant forall m :: 0 <= m < l ==> |loops[m]| == LOOP_LENGTH
    {
      if |loops[l]| != LOOP_LENGTH {
        return false;
      }
      l := l + 1;
    }
    ok := true;
  }

  lemma OrderListed<K(!new), V>(t: Table<K, V>, items: seq<Item<K, V>>)
    requires Groups(t, items)
    ensures Listed(t)
    ensures Elements(t.order) == t.lists.Keys
  {
    forall k | 0 <= k < |t.order|
      ensures t.order[k] in t.lists
    {
      assert t.order[k] in t.order;
    }
  }

  /** No three faces have the same corners, and the faces that share theirs with another are the audited ones. */
  ghost predicate FacesPass(plan: Plan, triangles: seq<Triangle>) {
    && NoTriple(CornersOf(triangles))
    && forall i: nat :: i in plan.removed <==> Repeated(CornersOf(triangles), i)
  }

  lemma UnionExactly(duplicates: seq<seq<nat>>, i: nat)
    ensures i in Union(duplicates) <==> InSomePair(duplicates, i)
  {
    if InSomePair(duplicates, i) {
      var d :| 0 <= d < |duplicates| && i in duplicates[d];
      assert i in Union(duplicates);
    }
  }

  /** The duplicate pairs of a surface, exactly if its duplicate faces come in pairs and are the audited ones. */
  method InspectFaces(plan: Plan, triangles: seq<Triangle>) returns (r: Option<seq<seq<nat>>>)
    ensures r.Some? <==> FacesPass(plan, triangles)
    ensures r.Some? ==> AllDuplicates(CornersOf(triangles), r.value) && Union(r.value) == plan.removed
  {
    var corners := CornersOf(triangles);
    var faces := CollectIndices(corners);
    OrderListed(faces, IndexItems(corners));
    var duplicates, from := GatherDuplicates(faces);
    PairsFromGroups(corners, faces, duplicates, from);
    forall i: nat
      ensures i in Union(duplicates) <==> Repeated(corners, i)
    {
      UnionExactly(duplicates, i);
    }
    if Union(duplicates) != plan.removed || exists d :: 0 <= d < |duplicates| && |duplicates[d]| != 2 {
      return None;
    }
    r := Some(duplicates);
  }

  /** Every edge of the surface has one, two or four owners. */
  ghost predicate IncidencesPass(edges: Table<Edge, Owner>)
    requires Listed(edges)
  {
    forall k :: 0 <= k < |edges.order| ==> SourceIncidence(|edges.lists[edges.order[k]]|)
  }

  /** The audited number of boundary points, each with two neighbours. */
  predicate BoundaryPasses(plan: Plan, neighbours: Table<Point, Point>) {
    |neighbours.lists| == plan.boundaryPoints && forall p :: p in neighbours.lists ==> |neighbours.lists[p]| == 2
  }

  /** The audited number of loops, each of six points. */
  predicate LoopsPass(plan: Plan, loops: seq<seq<Point>>) {
    |loops| == plan.loops && forall l :: 0 <= l < |loops| ==> |loops[l]| == LOOP_LENGTH
  }

  /** The loops of a boundary: cycles of its edges that hold every boundary point once, in the order of discovery. */
  ghost predicate LoopsOf(neighbours: Table<Point, Point>, loops: seq<seq<Point>>) {
    && Decomposes(neighbours.lists, loops)
    && exists starts :: InOrder(neighbours.lists, neighbours.order, loops, starts)
  }

  /** The inspection: it passes exactly when the faces, the incidences, the boundary graph and its loops do. */
  method Inspect(plan: Plan, triangles: seq<Triangle>)
    returns (r: Option<Topology>, edges: Table<Edge, Owner>, neighbours: Table<Point, Point>, loops: seq<seq<Point>>)
    ensures Groups(edges, EdgeItems(triangles)) && Listed(edges)
    ensures FacesPass(plan, triangles) && IncidencesPass(edges) ==>
              Groups(neighbours, NeighbourItems(SingleOwner(edges, |edges.order|)))
    ensures FacesPass(plan, triangles) && IncidencesPass(edges) && BoundaryPasses(plan, neighbours) ==>
              LoopsOf(neighbours, loops)
    ensures r.Some? <==> FacesPass(plan, triangles) && IncidencesPass(edges) && BoundaryPasses(plan, neighbours)
                         && LoopsPass(plan, loops)
    ensures r.Some? ==> AllDuplicates(CornersOf(triangles), r.value.duplicates)
                        && Union(r.value.duplicates) == plan.removed
                        && r.value == Topology(edges, r.value.duplicates, loops)
  {
    neighbours, loops := Table([], map[]), [];
    edges := CollectEdges(triangles);
    OrderListed(edges, EdgeItems(triangles));
    var duplicates := InspectFaces(plan, triangles);
    if duplicates == None {
      return None, edges, neighbours, loops;
    }
    var boundary := CollectBoundary(edges);
    if boundary == None {
      return None, edges, neighbours, loops;
    }
    neighbours := boundary.value;
    if !BoundaryPasses(plan, neighbours) {
      return None, edges, neighbours, loops;
    }
    loops := TraceBoundary(triangles, edges, neighbours);
    var sixes := SixLong(loops);
    if !sixes || |loops| != plan.loops {
      return None, edges, neighbours, loops;
    }
    r := Some(Topology(edges, duplicates.value, loops));
  }

  method TraceBoundary(triangles: seq<Triangle>, edges: Table<Edge, Owner>, adjacency: Table<Point, Point>)
    returns (loops: seq<seq<Point>>)
    requires Groups(edges, EdgeItems(triangles))
    requires Listed(edges)
    requires Groups(adjacency, NeighbourItems(SingleOwner(edges, |edges.order|)))
    requires forall p :: p in adjacency.lists ==> |adjacency.lists[p]| == 2
    ensures LoopsOf(adjacency, loops)
  {
    SingleOwnerSorted(triangles, edges, |edges.order|);
    BoundaryTwoRegular(SingleOwner(edges, |edges.order|), adjacency);
    OrderListed(adjacency, NeighbourItems(SingleOwner(edges, |edges.order|)));
    loops := TraceLoops(adjacency.lists, adjacency.order);
  }
}
