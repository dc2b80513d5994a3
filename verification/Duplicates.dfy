/** Grouping list positions by a key, and the positions whose key occurs twice. */
module Duplicates {
  import opened GroupTables

  /** The position of every key, as the dictionary loop appends it. */
  function IndexItems<K>(keys: seq<K>): seq<Item<K, nat>> {
    if keys == [] then [] else IndexItems(keys[..|keys| - 1]) + [Item(keys[|keys| - 1], |keys| - 1)]
  }

  method CollectIndices<K(==, !new)>(keys: seq<K>) returns (groups: Table<K, nat>)
    ensures Groups(groups, IndexItems(keys))
  {
    groups := Table([], map[]);
    var index := 0;
    while index < |keys|
      invariant 0 <= index <= |keys|
      invariant Groups(groups, IndexItems(keys[..index]))
    {
      assert keys[..index + 1][..index] == keys[..index];
      AppendedGroups(groups, IndexItems(keys[..index]), keys[index], index);
      groups := Appended(groups, keys[index], index);
      index := index + 1;
    }
    assert keys[..index] == keys;
  }

  ghost predicate Increasing(g: seq<nat>) {
    forall a, b :: 0 <= a < b < |g| ==> g[a] < g[b]
  }

  /** A group lists, in increasing order, exactly the positions of its key. */
  lemma {:induction false} IndexGroup<K(!new)>(keys: seq<K>, key: K)
    ensures forall i: nat :: i in GroupOf(IndexItems(keys), key) <==> i < |keys| && keys[i] == key
    ensures Increasing(GroupOf(IndexItems(keys), key))
  {
    if keys != [] {
      var n := |keys| - 1;
      var front, g := GroupOf(IndexItems(keys[..n]), key), GroupOf(IndexItems(keys), key);
      IndexGroup(keys[..n], key);
      GroupOfAppend(IndexItems(keys[..n]), Item(keys[n], n), key);
      forall a, b | 0 <= a < b < |g|
        ensures g[a] < g[b]
      {
        assert front[a] in front;
      }
    }
  }

  /** Two different positions of one key, the earlier first. */
  predicate DuplicatePair<K(==)>(keys: seq<K>, pair: seq<nat>) {
    |pair| == 2 && pair[0] < pair[1] < |keys| && keys[pair[0]] == keys[pair[1]]
  }

  ghost predicate InSomePair(duplicates: seq<seq<nat>>, i: nat) {
    exists d :: 0 <= d < |duplicates| && i in duplicates[d]
  }

  ghost predicate Repeated<K(!new)>(keys: seq<K>, i: nat) {
    i < |keys| && exists j :: 0 <= j < |keys| && j != i && keys[j] == keys[i]
  }

  ghost predicate Disjoint(duplicates: seq<seq<nat>>) {
    forall d, e, i :: 0 <= d < e < |duplicates| && i in duplicates[d] ==> i !in duplicates[e]
  }

  /** Pairs that share no position and hold exactly the positions whose key is repeated. */
  ghost predicate AllDuplicates<K(!new)>(keys: seq<K>, duplicates: seq<seq<nat>>) {
    && (forall d :: 0 <= d < |duplicates| ==> DuplicatePair(keys, duplicates[d]))
    && Disjoint(duplicates)
    && (forall i: nat :: InSomePair(duplicates, i) <==> Repeated(keys, i))
  }

  ghost predicate Listed<K(!new), V>(t: Table<K, V>) {
    forall k :: 0 <= k < |t.order| ==> t.order[k] in t.lists
  }

  /** The groups gathered from the first keys, and the key each came from. */
  ghost predicate GatheredFrom<K(!new)>(t: Table<K, nat>, n: nat, duplicates: seq<seq<nat>>, from: seq<nat>)
    requires n <= |t.order| && Listed(t)
  {
    && |from| == |duplicates|
    && (forall d :: 0 <= d < |from| ==>
          from[d] < n && duplicates[d] == t.lists[t.order[from[d]]] && |duplicates[d]| > 1)
    && Increasing(from)
    && (forall k: nat :: k < n && |t.lists[t.order[k]]| > 1 ==> k in from)
  }

  /** The groups of more than one position, in the dictionary's order. */
  method GatherDuplicates<K(==, !new)>(t: Table<K, nat>) returns (duplicates: seq<seq<nat>>, ghost from: seq<nat>)
    requires Listed(t)
    ensures GatheredFrom(t, |t.order|, duplicates, from)
  {
    duplicates, from := [], [];
    var k := 0;
    while k < |t.order|
      invariant 0 <= k <= |t.order|
      invariant GatheredFrom(t, k, duplicates, from)
    {
      var indices := t.lists[t.order[k]];
      if |indices| > 1 {
        duplicates, from := duplicates + [indices], from + [k];
      }
      k := k + 1;
    }
  }

  lemma Member<K(!new)>(keys: seq<K>, t: Table<K, nat>, duplicates: seq<seq<nat>>, from: seq<nat>, d: nat)
    requires Groups(t, IndexItems(keys)) && Listed(t) && GatheredFrom(t, |t.order|, duplicates, from)
    requires d < |duplicates|
    ensures |duplicates[d]| == 2 ==> DuplicatePair(keys, duplicates[d])
    ensures forall i: nat :: i in duplicates[d] <==> i < |keys| && keys[i] == t.order[from[d]]
  {
    var key := t.order[from[d]];
    assert duplicates[d] == GroupOf(IndexItems(keys), key);
    GroupPair(keys, key, duplicates[d]);
  }

  lemma GroupPair<K(!new)>(keys: seq<K>, key: K, g: seq<nat>)
    requires g == GroupOf(IndexItems(keys), key)
    ensures |g| == 2 ==> DuplicatePair(keys, g)
    ensures forall i: nat :: i in g <==> i < |keys| && keys[i] == key
  {
    IndexGroup(keys, key);
    if |g| == 2 {
      assert g[0] in g && g[1] in g;
    }
  }

  lemma Grouped<K(!new)>(keys: seq<K>, t: Table<K, nat>, duplicates: seq<seq<nat>>, from: seq<nat>, i: nat)
    requires Groups(t, IndexItems(keys)) && Listed(t) && GatheredFrom(t, |t.order|, duplicates, from)
    requires Repeated(keys, i)
    ensures InSomePair(duplicates, i)
  {
    var j: nat :| j < |keys| && j != i && keys[j] == keys[i];
    IndexGroup(keys, keys[i]);
    var g := GroupOf(IndexItems(keys), keys[i]);
    assert i in g && j in g;
    assert keys[i] in t.lists && keys[i] in t.order;
    var k: nat :| k < |t.order| && t.order[k] == keys[i];
    assert |t.lists[t.order[k]]| > 1;
    var d :| 0 <= d < |from| && from[d] == k;
    assert i in duplicates[d];
  }

  /** No key is at three positions. */
  ghost predicate NoTriple<K(!new)>(keys: seq<K>) {
    forall i, j, k :: 0 <= i < j < k < |keys| ==> !(keys[i] == keys[j] && keys[j] == keys[k])
  }

  lemma TripleInGroup<K(!new)>(keys: seq<K>, key: K, g: seq<nat>)
    requires g == GroupOf(IndexItems(keys), key) && |g| > 2
    ensures !NoTriple(keys)
  {
    IndexGroup(keys, key);
    assert g[0] in g && g[1] in g && g[2] in g;
    assert g[0] < g[1] < g[2];
  }

  lemma NoTripleInPair<K(!new)>(keys: seq<K>, g: seq<nat>, i: nat, j: nat, k: nat)
    requires i < j < k < |keys| && keys[i] == keys[j] && g == GroupOf(IndexItems(keys), keys[j]) && |g| == 2
    ensures keys[j] != keys[k]
  {
    IndexGroup(keys, keys[j]);
    assert i in g && j in g;
    assert keys[j] == keys[k] ==> k in g;
  }

  /** The gathered groups hold exactly the repeated positions, none of them twice. */
  lemma GatheredExactly<K(!new)>(keys: seq<K>, t: Table<K, nat>, duplicates: seq<seq<nat>>, from: seq<nat>)
    requires Groups(t, IndexItems(keys)) && Listed(t) && GatheredFrom(t, |t.order|, duplicates, from)
    ensures forall i: nat :: InSomePair(duplicates, i) <==> Repeated(keys, i)
    ensures Disjoint(duplicates)
  {
    forall d, e, i | 0 <= d < e < |duplicates| && i in duplicates[d]
      ensures i !in duplicates[e]
    {
      Member(keys, t, duplicates, from, d);
      Member(keys, t, duplicates, from, e);
      assert t.order[from[d]] != t.order[from[e]];
    }
    forall i: nat
      ensures InSomePair(duplicates, i) <==> Repeated(keys, i)
    {
      if InSomePair(duplicates, i) {
        var d :| 0 <= d < |duplicates| && i in duplicates[d];
        Member(keys, t, duplicates, from, d);
        AnotherInGroup(keys, t.order[from[d]], duplicates[d], i);
      }
      if Repeated(keys, i) {
        Grouped(keys, t, duplicates, from, i);
      }
    }
  }

  lemma AnotherInGroup<K(!new)>(keys: seq<K>, key: K, g: seq<nat>, i: nat)
    requires g == GroupOf(IndexItems(keys), key) && |g| > 1 && i in g
    ensures Repeated(keys, i)
  {
    IndexGroup(keys, key);
    assert g[0] in g && g[1] in g;
    var j := if g[0] == i then g[1] else g[0];
    assert j != i && keys[j] == keys[i];
  }

  /** The gathered groups are pairs exactly when no key is at three positions; then they are all the duplicates. */
  lemma PairsFromGroups<K(!new)>(keys: seq<K>, t: Table<K, nat>, duplicates: seq<seq<nat>>, from: seq<nat>)
    requires Groups(t, IndexItems(keys)) && Listed(t) && GatheredFrom(t, |t.order|, duplicates, from)
    ensures (forall d :: 0 <= d < |duplicates| ==> |duplicates[d]| == 2) <==> NoTriple(keys)
    ensures NoTriple(keys) ==> AllDuplicates(keys, duplicates)
    ensures forall i: nat :: InSomePair(duplicates, i) <==> Repeated(keys, i)
  {
    GatheredExactly(keys, t, duplicates, from);
    forall d | 0 <= d < |duplicates|
      ensures NoTriple(keys) ==> |duplicates[d]| == 2 && DuplicatePair(keys, duplicates[d])
    {
      if |duplicates[d]| > 2 {
        TripleInGroup(keys, t.order[from[d]], duplicates[d]);
      }
      Member(keys, t, duplicates, from, d);
    }
    if forall d :: 0 <= d < |duplicates| ==> |duplicates[d]| == 2 {
      PairsLeaveNoTriple(keys, t, duplicates, from);
    }
  }

  lemma PairsLeaveNoTriple<K(!new)>(keys: seq<K>, t: Table<K, nat>, duplicates: seq<seq<nat>>, from: seq<nat>)
    requires Groups(t, IndexItems(keys)) && Listed(t) && GatheredFrom(t, |t.order|, duplicates, from)
    requires forall d :: 0 <= d < |duplicates| ==> |duplicates[d]| == 2
    ensures NoTriple(keys)
  {
    forall i: nat, j: nat, k: nat | i < j < k < |keys| && keys[i] == keys[j]
      ensures keys[j] != keys[k]
    {
      Grouped(keys, t, duplicates, from, i);
      var d :| 0 <= d < |duplicates| && i in duplicates[d];
      Member(keys, t, duplicates, from, d);
      NoTripleInPair(keys, duplicates[d], i, j, k);
    }
  }

  /** As many different keys as positions means no key is repeated. */
  lemma {:induction false} AllDifferent<K(!new)>(keys: seq<K>)
    ensures |set k | k in keys| <= |keys|
    ensures |set k | k in keys| == |keys| <==> DistinctKeys(keys)
  {
    if keys != [] {
      var front, last := keys[..|keys| - 1], keys[|keys| - 1];
      AllDifferent(front);
      assert keys == front + [last];
      assert (set k | k in keys) == (set k | k in front) + {last};
    }
  }
}
