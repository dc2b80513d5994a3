/** Tracing the boundary loops of a surface. */
module BoundaryLoops {
  import opened Options

  /** What the adjacency dictionary of boundary edges satisfies: two entries a point, symmetric, and no repeated edge;
      an edge from a point to itself fills both its entries. */
  ghost predicate TwoRegular<T(!new)>(adjacency: map<T, seq<T>>) {
    && (forall p :: p in adjacency ==> |adjacency[p]| == 2)
    && (forall p, q :: p in adjacency && q in adjacency[p] ==> q in adjacency && p in adjacency[q])
    && (forall p :: p in adjacency && p in adjacency[p] ==> adjacency[p] == [p, p])
    && (forall p :: p in adjacency && adjacency[p][0] == adjacency[p][1] ==> adjacency[p][0] == p)
  }

  function Before<T>(loop: seq<T>, i: nat): T
    requires i < |loop|
  {
    if i == 0 then loop[|loop| - 1] else loop[i - 1]
  }

  function After<T>(loop: seq<T>, i: nat): T
    requires i < |loop|
  {
    if i == |loop| - 1 then loop[0] else loop[i + 1]
  }

  predicate TheTwo<T(==)>(neighbours: seq<T>, a: T, b: T) {
    neighbours == [a, b] || neighbours == [b, a]
  }

  ghost predicate Distinct<T(!new)>(loop: seq<T>) {
    forall i, j :: 0 <= i < j < |loop| ==> loop[i] != loop[j]
  }

  /** A list of different points in which the neighbours of each are exactly the one before and the one after it. */
  ghost predicate Cycle<T(!new)>(adjacency: map<T, seq<T>>, loop: seq<T>) {
    && |loop| > 0 && Distinct(loop)
    && (forall i :: 0 <= i < |loop| ==> loop[i] in adjacency)
    && (forall i :: 0 <= i < |loop| ==> TheTwo(adjacency[loop[i]], Before(loop, i), After(loop, i)))
  }

  /** A set that no edge leaves. */
  ghost predicate Closed<T(!new)>(adjacency: map<T, seq<T>>, points: set<T>) {
    forall p, q :: p in points && p in adjacency && q in adjacency[p] ==> q in points
  }

  /** The points visited, then the one reached: along edges, never straight back. */
  ghost predicate Trail<T(!new)>(adjacency: map<T, seq<T>>, trail: seq<T>) {
    && (forall i :: 0 <= i < |trail| ==> trail[i] in adjacency)
    && (forall i :: 0 <= i < |trail| - 1 ==> trail[i + 1] in adjacency[trail[i]])
    && (forall i :: 0 <= i < |trail| - 2 ==> trail[i + 2] != trail[i])
  }

  /** Where a trail passes, both neighbours are on it. */
  lemma Passed<T(!new)>(adjacency: map<T, seq<T>>, trail: seq<T>, i: nat)
    requires TwoRegular(adjacency) && Trail(adjacency, trail) && 0 < i < |trail| - 1
    ensures TheTwo(adjacency[trail[i]], trail[i - 1], trail[i + 1])
  {
    assert trail[(i - 1) + 1] in adjacency[trail[i - 1]];
    assert trail[(i - 1) + 2] != trail[i - 1];
    assert trail[i + 1] in adjacency[trail[i]];
  }

  /** A trail that reaches a visited point has reached its start: never an earlier loop, never the middle of its own. */
  lemma ReachesStart<T(!new)>(adjacency: map<T, seq<T>>, earlier: set<T>, loop: seq<T>, point: T)
    requires TwoRegular(adjacency) && Closed(adjacency, earlier)
    requires |loop| > 0 && Distinct(loop) && Trail(adjacency, loop + [point])
    requires forall p :: p in loop ==> p !in earlier
    requires point in earlier || point in loop
    ensures point == loop[0]
  {
    var trail, last := loop + [point], |loop| - 1;
    assert trail[last + 1] in adjacency[trail[last]];
    assert trail[last + 1] == point && trail[last] == loop[last] && loop[last] in loop;
    assert loop[last] in adjacency[point];
    if last > 0 {
      assert trail[(last - 1) + 2] != trail[last - 1];
    }
    forall i | 0 < i <= last
      ensures loop[i] in adjacency && TheTwo(adjacency[loop[i]], trail[i - 1], trail[i + 1])
    {
      assert trail[i] == loop[i];
      Passed(adjacency, trail, i);
    }
  }

  /** The trail closed at its start is a cycle. */
  lemma ClosesCycle<T(!new)>(adjacency: map<T, seq<T>>, loop: seq<T>)
    requires TwoRegular(adjacency)
    requires |loop| > 0 && Distinct(loop) && Trail(adjacency, loop + [loop[0]])
    ensures Cycle(adjacency, loop) && |loop| != 2
  {
    var trail, k := loop + [loop[0]], |loop|;
    assert trail[(k - 1) + 1] in adjacency[trail[k - 1]];
    assert loop[k - 1] in adjacency[loop[0]];
    if k >= 2 {
      assert trail[(k - 2) + 2] != trail[k - 2];
      assert trail[0 + 1] in adjacency[trail[0]];
    }
    forall i | 0 <= i < k
      ensures loop[i] in adjacency && TheTwo(adjacency[loop[i]], Before(loop, i), After(loop, i))
    {
      assert trail[i] == loop[i];
      if i > 0 {
        Passed(adjacency, trail, i);
      }
    }
  }

  lemma CycleClosed<T(!new)>(adjacency: map<T, seq<T>>, loop: seq<T>, p: T, q: T)
    requires Cycle(adjacency, loop) && p in loop && q in adjacency[p]
    ensures q in loop
  {
    var i :| 0 <= i < |loop| && loop[i] == p;
    assert TheTwo(adjacency[loop[i]], Before(loop, i), After(loop, i));
  }

  function Elements<T>(s: seq<T>): set<T> {
    set p | p in s
  }

  /** The first neighbour that is not the previous point; there always is one. */
  method Following<T(==, !new)>(adjacency: map<T, seq<T>>, point: T, previous: Option<T>) returns (following: T)
    requires TwoRegular(adjacency) && point in adjacency
    requires previous != Some(point)
    ensures following in adjacency[point] && previous != Some(following)
    ensures previous.None? ==> following == adjacency[point][0]
  {
    var neighbours := adjacency[point];
    if Some(neighbours[0]) != previous {
      following := neighbours[0];
    } else {
      following := neighbours[1];
    }
  }

  /** The inner loop: from an unvisited point to a cycle of unvisited points. It ends, and the check that it ends at its
      start can never fail. */
  method TraceFrom<T(==, !new)>(adjacency: map<T, seq<T>>, start: T, earlier: set<T>)
    returns (loop: seq<T>, visited: set<T>, point: T)
    requires TwoRegular(adjacency) && earlier <= adjacency.Keys && Closed(adjacency, earlier)
    requires start in adjacency && start !in earlier
    ensures point == start && Cycle(adjacency, loop) && loop[0] == start && |loop| != 2
    ensures |loop| > 1 ==> loop[1] == adjacency[start][0]
    ensures forall p :: p in loop ==> p !in earlier
    ensures visited == earlier + Elements(loop) && visited <= adjacency.Keys && Closed(adjacency, visited)
  {
    loop, visited, point := [], earlier, start;
    var previous := None;
    while point !in visited
      invariant visited == earlier + Elements(loop) && visited <= adjacency.Keys
      invariant forall p :: p in loop ==> p !in earlier
      invariant Distinct(loop) && Trail(adjacency, loop + [point])
      invariant (loop + [point])[0] == start
      invariant loop != [] ==> (loop + [point])[1] == adjacency[start][0]
      invariant previous == if loop == [] then None else Some(loop[|loop| - 1])
      decreases adjacency.Keys - visited
    {
      ghost var trail := loop + [point];
      assert trail[|loop|] == point;
      var following := Following(adjacency, point, previous);
      visited := visited + {point};
      loop := loop + [point];
      previous, point := Some(point), following;
      Extended(adjacency, trail, following);
    }
    assert loop != [];
    assert (loop + [point])[0] == loop[0] && (|loop| > 1 ==> (loop + [point])[1] == loop[1]);
    ReachesStart(adjacency, earlier, loop, point);
    ClosesCycle(adjacency, loop);
    forall p, q | p in visited && p in adjacency && q in adjacency[p]
      ensures q in visited
    {
      if p !in earlier {
        CycleClosed(adjacency, loop, p, q);
      }
    }
  }

  lemma Extended<T(!new)>(adjacency: map<T, seq<T>>, trail: seq<T>, following: T)
    requires TwoRegular(adjacency) && Trail(adjacency, trail) && |trail| > 0
    requires following in adjacency[trail[|trail| - 1]] && (|trail| > 1 ==> following != trail[|trail| - 2])
    ensures Trail(adjacency, trail + [following])
  {
  }

  /** Cycles that share no point. */
  ghost predicate Separate<T(!new)>(adjacency: map<T, seq<T>>, loops: seq<seq<T>>) {
    && (forall l :: 0 <= l < |loops| ==> Cycle(adjacency, loops[l]) && |loops[l]| != 2)
    && (forall l, m, p :: 0 <= l < m < |loops| && p in loops[l] ==> p !in loops[m])
  }

  ghost predicate OnLoop<T>(loops: seq<seq<T>>, p: T) {
    exists l :: 0 <= l < |loops| && p in loops[l]
  }

  /** The points on the loops are exactly the given ones. */
  ghost predicate Cover<T(!new)>(loops: seq<seq<T>>, points: set<T>) {
    && (forall p :: p in points ==> OnLoop(loops, p))
    && (forall l, p :: 0 <= l < |loops| && p in loops[l] ==> p in points)
  }

  /** The loops are cycles that share no point and together hold every point. */
  ghost predicate Decomposes<T(!new)>(adjacency: map<T, seq<T>>, loops: seq<seq<T>>) {
    Separate(adjacency, loops) && Cover(loops, adjacency.Keys)
  }

  ghost predicate Progress<T(!new)>(adjacency: map<T, seq<T>>, loops: seq<seq<T>>, visited: set<T>) {
    && visited <= adjacency.Keys && Closed(adjacency, visited)
    && Separate(adjacency, loops) && Cover(loops, visited)
  }

  /** A loop starts at the first key that no earlier loop holds, and goes first to that key's first neighbour. */
  ghost predicate StartsAt<T(!new)>(adjacency: map<T, seq<T>>, order: seq<T>, loops: seq<seq<T>>, l: nat, i: nat) {
    && l < |loops| && i < |order| && loops[l] != [] && loops[l][0] == order[i]
    && (forall j :: 0 <= j < i ==> OnLoop(loops[..l], order[j]))
    && (|loops[l]| > 1 ==> order[i] in adjacency && adjacency[order[i]] != [] && loops[l][1] == adjacency[order[i]][0])
  }

  ghost predicate InOrder<T(!new)>(adjacency: map<T, seq<T>>, order: seq<T>, loops: seq<seq<T>>, starts: seq<nat>) {
    |starts| == |loops| && forall l :: 0 <= l < |loops| ==> StartsAt(adjacency, order, loops, l, starts[l])
  }

  lemma OneLoopMore<T(!new)>(adjacency: map<T, seq<T>>, order: seq<T>, loops: seq<seq<T>>, starts: seq<nat>,
                             loop: seq<T>, i: nat)
    requires InOrder(adjacency, order, loops, starts) && i < |order| && loop != [] && loop[0] == order[i]
    requires forall j :: 0 <= j < i ==> OnLoop(loops, order[j])
    requires |loop| > 1 ==> order[i] in adjacency && adjacency[order[i]] != [] && loop[1] == adjacency[order[i]][0]
    ensures InOrder(adjacency, order, loops + [loop], starts + [i])
  {
    var longer := loops + [loop];
    forall l | 0 <= l < |longer|
      ensures StartsAt(adjacency, order, longer, l, (starts + [i])[l])
    {
      if l < |loops| {
        assert StartsAt(adjacency, order, loops, l, starts[l]);
        assert longer[..l] == loops[..l];
      } else {
        assert longer[..l] == loops;
      }
    }
  }

  ghost predicate Seen<T(!new)>(order: seq<T>, n: nat, visited: set<T>) {
    n <= |order| && forall j :: 0 <= j < n ==> order[j] in visited
  }

  lemma AllSeen<T(!new)>(order: seq<T>, visited: set<T>)
    requires Seen(order, |order|, visited)
    ensures Elements(order) <= visited
  {
  }

  /** One turn of the outer loop. */
  method Visit<T(==, !new)>(adjacency: map<T, seq<T>>, order: seq<T>, i: nat, loops: seq<seq<T>>, visited: set<T>,
                            ghost starts: seq<nat>)
    returns (longer: seq<seq<T>>, reached: set<T>, ghost more: seq<nat>)
    requires TwoRegular(adjacency) && i < |order| && order[i] in adjacency && Progress(adjacency, loops, visited)
    requires InOrder(adjacency, order, loops, starts) && Seen(order, i, visited)
    ensures Progress(adjacency, longer, reached) && Seen(order, i + 1, reached)
    ensures InOrder(adjacency, order, longer, more)
  {
    longer, reached, more := loops, visited, starts;
    if order[i] !in visited {
      var loop, all, point := TraceFrom(adjacency, order[i], visited);
      assert loop[0] in loop;
      Collected(adjacency, loops, loop, visited, all);
      OneLoopMore(adjacency, order, loops, starts, loop, i);
      longer, reached, more := loops + [loop], all, starts + [i];
    }
  }

  /** The outer loop, over the dictionary's keys in their order: it decomposes the graph into cycles, and which cycle is
      found when, from which point and in which direction, is settled by the order of the keys and neighbours. */
  method TraceLoops<T(==, !new)>(adjacency: map<T, seq<T>>, order: seq<T>) returns (loops: seq<seq<T>>)
    requires TwoRegular(adjacency) && Elements(order) == adjacency.Keys
    ensures Decomposes(adjacency, loops)
    ensures exists starts :: InOrder(adjacency, order, loops, starts)
  {
    loops := [];
    var visited: set<T> := {};
    ghost var starts := [];
    var i := 0;
    while i < |order|
      invariant 0 <= i <= |order| && Progress(adjacency, loops, visited)
      invariant InOrder(adjacency, order, loops, starts) && Seen(order, i, visited)
    {
      assert order[i] in Elements(order);
      loops, visited, starts := Visit(adjacency, order, i, loops, visited, starts);
      i := i + 1;
    }
    AllSeen(order, visited);
  }

  lemma Collected<T(!new)>(adjacency: map<T, seq<T>>, loops: seq<seq<T>>, loop: seq<T>, visited: set<T>,
                           reached: set<T>)
    requires Separate(adjacency, loops) && Cover(loops, visited)
    requires Cycle(adjacency, loop) && |loop| != 2 && forall p :: p in loop ==> p !in visited
    requires reached == visited + Elements(loop)
    ensures Separate(adjacency, loops + [loop]) && Cover(loops + [loop], reached)
  {
    var longer := loops + [loop];
    forall l, m, p | 0 <= l < m < |longer| && p in longer[l]
      ensures p !in longer[m]
    {
      assert longer[l] == loops[l];
      if m < |loops| {
        assert longer[m] == loops[m];
      }
    }
    forall p | p in reached
      ensures OnLoop(longer, p)
    {
      if p in visited {
        assert OnLoop(loops, p);
        var l :| 0 <= l < |loops| && p in loops[l];
        assert p in longer[l];
      } else {
        assert p in longer[|loops|];
      }
    }
  }
}
