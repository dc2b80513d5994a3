/** The edge dictionary of the surface and its pairing check. */
module SurfaceEdges {
  import opened GroupTables
  import opened SurfaceTypes

  /** Who uses an edge, and in which direction. */
  datatype Owner = Owner(triangle: nat, forward: bool)

  function EdgeItem(triangle: nat, e: Edge): Item<Edge, Owner> {
    Item(Sorted(e), Owner(triangle, Forward(e)))
  }

  /** The appends the dictionary loop makes, in order. */
  function EdgeItems(triangles: seq<Triangle>): (r: seq<Item<Edge, Owner>>)
    ensures |r| == 3 * |triangles|
  {
    if triangles == [] then []
    else
      var n := |triangles| - 1;
      var t := triangles[n];
      EdgeItems(triangles[..n]) + [EdgeItem(n, Edge(t.a, t.b))] + [EdgeItem(n, Edge(t.b, t.c))]
      + [EdgeItem(n, Edge(t.c, t.a))]
  }

  method CollectEdges(triangles: seq<Triangle>) returns (edges: Table<Edge, Owner>)
    ensures Groups(edges, EdgeItems(triangles))
  {
    edges := Table([], map[]);
    var index := 0;
    while index < |triangles|
      invariant 0 <= index <= |triangles|
      invariant Groups(edges, EdgeItems(triangles[..index]))
    {
      var t := triangles[index];
      ghost var items := EdgeItems(triangles[..index]);
      assert triangles[..index + 1][..index] == triangles[..index];
      edges := AppendSide(edges, items, index, Edge(t.a, t.b));
      items := items + [EdgeItem(index, Edge(t.a, t.b))];
      edges := AppendSide(edges, items, index, Edge(t.b, t.c));
      items := items + [EdgeItem(index, Edge(t.b, t.c))];
      edges := AppendSide(edges, items, index, Edge(t.c, t.a));
      index := index + 1;
    }
    assert triangles[..index] == triangles;
  }

  method AppendSide(edges: Table<Edge, Owner>, ghost items: seq<Item<Edge, Owner>>, index: nat, e: Edge)
    returns (longer: Table<Edge, Owner>)
    requires Groups(edges, items)
    ensures Groups(longer, items + [EdgeItem(index, e)])
  {
    AppendedGroups(edges, items, Sorted(e), Owner(index, Forward(e)));
    longer := Appended(edges, Sorted(e), Owner(index, Forward(e)));
  }

  /** The final check of the repair. */
  predicate PairedOwners(owners: seq<Owner>) {
    |owners| == 2 && owners[0].forward != owners[1].forward
  }

  predicate Paired(edges: Table<Edge, Owner>) {
    forall key :: key in edges.lists ==> PairedOwners(edges.lists[key])
  }

  // ----- counting directed sides

  function Count(sides: seq<Edge>, e: Edge): nat {
    if sides == [] then 0 else Count(sides[..|sides| - 1], e) + if sides[|sides| - 1] == e then 1 else 0
  }

  function Directed(owners: seq<Owner>, forward: bool): nat {
    if owners == [] then 0
    else Directed(owners[..|owners| - 1], forward) + if owners[|owners| - 1].forward == forward then 1 else 0
  }

  lemma SortedKeys(p: Edge, e: Edge)
    ensures Sorted(Reverse(e)) == Sorted(e)
    ensures Sorted(p) == Sorted(e) <==> p == e || p == Reverse(e)
    ensures e.left != e.right ==> Forward(e) != Forward(Reverse(e))
    ensures e.left == e.right ==> !Forward(e)
  {
  }

  lemma CountAppend(sides: seq<Edge>, s: Edge, e: Edge)
    ensures Count(sides + [s], e) == Count(sides, e) + if s == e then 1 else 0
  {
    assert (sides + [s])[..|sides|] == sides;
  }

  lemma DirectedAppend(owners: seq<Owner>, o: Owner, forward: bool)
    ensures Directed(owners + [o], forward) == Directed(owners, forward) + if o.forward == forward then 1 else 0
  {
    assert (owners + [o])[..|owners|] == owners;
  }

  ghost predicate Tallies(items: seq<Item<Edge, Owner>>, sides: seq<Edge>, e: Edge) {
    && Directed(GroupOf(items, Sorted(e)), Forward(e)) == Count(sides, e)
    && |GroupOf(items, Sorted(e))| == Count(sides, e) + if e.left == e.right then 0 else Count(sides, Reverse(e))
  }

  lemma TalliesAppend(items: seq<Item<Edge, Owner>>, sides: seq<Edge>, index: nat, s: Edge, e: Edge)
    requires Tallies(items, sides, e)
    ensures Tallies(items + [EdgeItem(index, s)], sides + [s], e)
  {
    GroupOfAppend(items, EdgeItem(index, s), Sorted(e));
    CountAppend(sides, s, e);
    CountAppend(sides, s, Reverse(e));
    DirectedAppend(GroupOf(items, Sorted(e)), Owner(index, Forward(s)), Forward(e));
    SortedKeys(s, e);
  }

  /** An owner list records how often its edge is walked in each direction. */
  lemma {:induction false} OwnersCount(triangles: seq<Triangle>, e: Edge)
    ensures Tallies(EdgeItems(triangles), AllSides(triangles), e)
  {
    if triangles != [] {
      var n := |triangles| - 1;
      var t, items, sides := triangles[n], EdgeItems(triangles[..n]), AllSides(triangles[..n]);
      OwnersCount(triangles[..n], e);
      TalliesAppend(items, sides, n, Edge(t.a, t.b), e);
      TalliesAppend(items + [EdgeItem(n, Edge(t.a, t.b))], sides + [Edge(t.a, t.b)], n, Edge(t.b, t.c), e);
      TalliesAppend(items + [EdgeItem(n, Edge(t.a, t.b))] + [EdgeItem(n, Edge(t.b, t.c))],
                    sides + [Edge(t.a, t.b)] + [Edge(t.b, t.c)], n, Edge(t.c, t.a), e);
    }
  }

  lemma {:induction false} CountPositive(sides: seq<Edge>, e: Edge)
    ensures e in sides <==> Count(sides, e) > 0
  {
    if sides != [] {
      var front := sides[..|sides| - 1];
      assert sides == front + [sides[|sides| - 1]];
      CountPositive(front, e);
    }
  }

  /** Every side is walked once, its reverse is walked once, and no side joins a point to itself. */
  ghost predicate SidesClosed(sides: seq<Edge>) {
    forall e :: e in sides ==> e.left != e.right && Count(sides, e) == 1 && Count(sides, Reverse(e)) == 1
  }

  /** The repair's final edge check passes exactly on such surfaces. */
  lemma PairedExactly(triangles: seq<Triangle>, edges: Table<Edge, Owner>)
    requires Groups(edges, EdgeItems(triangles))
    ensures Paired(edges) <==> SidesClosed(AllSides(triangles))
  {
    var sides := AllSides(triangles);
    if Paired(edges) {
      forall e | e in sides
        ensures e.left != e.right && Count(sides, e) == 1 && Count(sides, Reverse(e)) == 1
      {
        SidePaired(triangles, edges, e);
      }
    }
    if SidesClosed(sides) {
      forall key | key in edges.lists
        ensures PairedOwners(edges.lists[key])
      {
        KeyPaired(triangles, edges, key);
      }
    }
  }

  lemma TwoOwners(owners: seq<Owner>)
    requires |owners| == 2
    ensures Directed(owners, true) == (if owners[0].forward then 1 else 0) + if owners[1].forward then 1 else 0
    ensures Directed(owners, false) == 2 - Directed(owners, true)
  {
    var front := owners[..1];
    assert owners[..|owners| - 1] == front && front[..0] == [];
    assert Directed(front, true) == (if owners[0].forward then 1 else 0);
    assert Directed(front, false) == (if owners[0].forward then 0 else 1);
  }

  lemma SidePaired(triangles: seq<Triangle>, edges: Table<Edge, Owner>, e: Edge)
    requires Groups(edges, EdgeItems(triangles)) && Paired(edges) && e in AllSides(triangles)
    ensures var sides := AllSides(triangles);
            e.left != e.right && Count(sides, e) == 1 && Count(sides, Reverse(e)) == 1
  {
    var key := Sorted(e);
    OwnersCount(triangles, e);
    CountPositive(AllSides(triangles), e);
    assert GroupOf(EdgeItems(triangles), key) != [];
    assert key in edges.lists;
    TwoOwners(edges.lists[key]);
    SortedKeys(e, e);
  }

  lemma {:induction false} KeySorted(triangles: seq<Triangle>, key: Edge)
    requires GroupOf(EdgeItems(triangles), key) != []
    ensures Sorted(key) == key
  {
    var n := |triangles| - 1;
    var t := triangles[n];
    var items := EdgeItems(triangles[..n]);
    GroupOfAppend(items, EdgeItem(n, Edge(t.a, t.b)), key);
    GroupOfAppend(items + [EdgeItem(n, Edge(t.a, t.b))], EdgeItem(n, Edge(t.b, t.c)), key);
    GroupOfAppend(items + [EdgeItem(n, Edge(t.a, t.b))] + [EdgeItem(n, Edge(t.b, t.c))], EdgeItem(n, Edge(t.c, t.a)),
                  key);
    if GroupOf(items, key) != [] {
      KeySorted(triangles[..n], key);
    }
  }

  lemma KeyPaired(triangles: seq<Triangle>, edges: Table<Edge, Owner>, key: Edge)
    requires Groups(edges, EdgeItems(triangles)) && key in edges.lists && SidesClosed(AllSides(triangles))
    ensures PairedOwners(edges.lists[key])
  {
    var sides := AllSides(triangles);
    KeySorted(triangles, key);
    OwnersCount(triangles, key);
    OwnersCount(triangles, Reverse(key));
    SortedKeys(key, key);
    CountPositive(sides, key);
    CountPositive(sides, Reverse(key));
    assert Reverse(Reverse(key)) == key;
    assert key in sides || Reverse(key) in sides;
    TwoOwners(edges.lists[key]);
  }

  lemma TwoPerEdge(edges: Table<Edge, Owner>, items: seq<Item<Edge, Owner>>)
    requires Groups(edges, items) && Paired(edges)
    ensures |items| == 2 * |edges.lists|
  {
    forall key | key in edges.lists
      ensures |edges.lists[key]| == 2
    {
      assert PairedOwners(edges.lists[key]);
    }
    TableOfTwo(edges, items);
  }

  /** A closed surface has three edges for every two triangles. */
  lemma ThreeHalves(triangles: seq<Triangle>, edges: Table<Edge, Owner>)
    requires Groups(edges, EdgeItems(triangles)) && Paired(edges)
    ensures 3 * |triangles| == 2 * |edges.lists|
  {
    TwoPerEdge(edges, EdgeItems(triangles));
  }
}
