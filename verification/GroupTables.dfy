/** Dictionaries of lists, as `defaultdict(list)` grows them: keys in the order they first appear. */
module GroupTables {

  datatype Item<K, V> = Item(key: K, value: V)

  datatype Table<K, V> = Table(order: seq<K>, lists: map<K, seq<V>>)

  /** The values stored under a key, in the order they were appended. */
  function GroupOf<K(==), V>(items: seq<Item<K, V>>, key: K): (r: seq<V>)
  {
    if items == [] then []
    else
      var rest, last := GroupOf(items[..|items| - 1], key), items[|items| - 1];
      if last.key == key then rest + [last.value] else rest
  }

  ghost predicate DistinctKeys<K(!new)>(order: seq<K>) {
    forall i, j :: 0 <= i < j < |order| ==> order[i] != order[j]
  }

  /** The table holds exactly the groups of the items. */
  ghost predicate Groups<K(!new), V>(t: Table<K, V>, items: seq<Item<K, V>>) {
    && DistinctKeys(t.order)
    && (forall k :: k in t.order <==> k in t.lists)
    && (forall k :: k in t.lists <==> GroupOf(items, k) != [])
    && (forall k :: k in t.lists ==> t.lists[k] == GroupOf(items, k))
  }

  function Appended<K(==), V>(t: Table<K, V>, key: K, value: V): Table<K, V> {
    if key in t.lists then Table(t.order, t.lists[key := t.lists[key] + [value]])
    else Table(t.order + [key], t.lists[key := [value]])
  }

  lemma GroupOfAppend<K(!new), V>(items: seq<Item<K, V>>, item: Item<K, V>, k: K)
    ensures GroupOf(items + [item], k) == GroupOf(items, k) + (if item.key == k then [item.value] else [])
  {
    assert (items + [item])[..|items|] == items;
  }

  lemma AppendedGroups<K(!new), V>(t: Table<K, V>, items: seq<Item<K, V>>, key: K, value: V)
    requires Groups(t, items)
    ensures Groups(Appended(t, key, value), items + [Item(key, value)])
  {
    var longer, u := items + [Item(key, value)], Appended(t, key, value);
    forall k
      ensures k in u.lists <==> GroupOf(longer, k) != []
      ensures k in u.lists ==> u.lists[k] == GroupOf(longer, k)
      ensures k in u.order <==> k in u.lists
    {
      GroupOfAppend(items, Item(key, value), k);
      assert k in t.lists <==> GroupOf(items, k) != [];
      assert k in t.order <==> k in t.lists;
    }
    assert key in t.order <==> key in t.lists;
  }

  lemma {:induction false} GroupOfConcat<K(!new), V>(a: seq<Item<K, V>>, b: seq<Item<K, V>>, k: K)
    ensures GroupOf(a + b, k) == GroupOf(a, k) + GroupOf(b, k)
  {
    if b == [] {
      assert a + b == a;
    } else {
      var front := b[..|b| - 1];
      assert b == front + [b[|b| - 1]] && a + b == (a + front) + [b[|b| - 1]];
      GroupOfAppend(a + front, b[|b| - 1], k);
      GroupOfAppend(front, b[|b| - 1], k);
      GroupOfConcat(a, front, k);
    }
  }

  /** A value is in a group exactly when it was appended under that key. */
  lemma {:induction false} InGroup<K(!new), V(!new)>(items: seq<Item<K, V>>, k: K, v: V)
    ensures v in GroupOf(items, k) <==> Item(k, v) in items
  {
    if items != [] {
      var front, last := items[..|items| - 1], items[|items| - 1];
      assert items == front + [last];
      InGroup(front, k, v);
    }
  }

  /** The groups of all keys together hold every item once. */
  lemma {:induction false} GroupsOfTwo<K(!new), V(!new)>(items: seq<Item<K, V>>, keys: set<K>)
    requires forall i :: 0 <= i < |items| ==> items[i].key in keys
    requires forall k :: k in keys ==> |GroupOf(items, k)| == 2
    ensures |items| == 2 * |keys|
    decreases |keys|
  {
    if items != [] {
      assert items[0].key in keys;
    }
    if keys != {} {
      var key :| key in keys;
      var others := Without(items, key);
      forall k | k in keys - {key}
        ensures |GroupOf(others, k)| == 2
      {
        WithoutGroups(items, key, k);
      }
      WithoutGroups(items, key, key);
      GroupsOfTwo(others, keys - {key});
    }
  }

  lemma KeysPresent<K(!new), V(!new)>(t: Table<K, V>, items: seq<Item<K, V>>, i: nat)
    requires Groups(t, items) && i < |items|
    ensures items[i].key in t.lists
  {
    var item := items[i];
    InGroup(items, item.key, item.value);
    assert Item(item.key, item.value) in items;
  }

  /** When every list has two entries, there are twice as many entries as keys. */
  lemma TableOfTwo<K(!new), V(!new)>(t: Table<K, V>, items: seq<Item<K, V>>)
    requires Groups(t, items) && forall k :: k in t.lists ==> |t.lists[k]| == 2
    ensures |items| == 2 * |t.lists|
  {
    forall i | 0 <= i < |items|
      ensures items[i].key in t.lists.Keys
    {
      KeysPresent(t, items, i);
    }
    GroupsOfTwo(items, t.lists.Keys);
  }

  function Without<K(==), V>(items: seq<Item<K, V>>, key: K): (r: seq<Item<K, V>>)
    ensures |items| == |r| + |GroupOf(items, key)|
    ensures forall i :: 0 <= i < |r| ==> r[i].key != key && r[i] in items
  {
    if items == [] then []
    else
      var rest, last := Without(items[..|items| - 1], key), items[|items| - 1];
      if last.key == key then rest else rest + [last]
  }

  lemma {:induction false} WithoutGroups<K(!new), V>(items: seq<Item<K, V>>, key: K, k: K)
    ensures k != key ==> GroupOf(Without(items, key), k) == GroupOf(items, k)
  {
    if items != [] {
      var front, last := items[..|items| - 1], items[|items| - 1];
      WithoutGroups(front, key, k);
      GroupOfAppend(Without(front, key), last, k);
    }
  }
}
