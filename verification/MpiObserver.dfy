/** The MPI call observer and its bounded open-addressing table. */
module MpiObserver {
  import Fnv
  import opened IndexSets
  import opened Options

  const CAPACITY: nat := 4096
  const WORD: nat := 0x1_0000_0000_0000_0000

  /** What a call is counted under: the step, the call site in its module, and the kind of call. */
  datatype Key = Key(step: nat, site: nat, kind: nat, module_: nat)

  datatype Total = Total(calls: nat, ns: nat)

  /** A table slot; no calls means empty. */
  datatype Entry = Entry(key: Key, calls: nat, ns: nat)

  const EMPTY := Entry(Key(0, 0, 0, 0), 0, 0)

  /** The first slot probed for a key: its words exclusive-ored, without the module. */
  function Bucket(k: Key): (b: nat)
    ensures b < CAPACITY
  {
    Fnv.Xor(Fnv.Xor(k.site, k.step, 64), k.kind, 64) % CAPACITY
  }

  /** The slot at a probing distance. */
  function Probe(k: Key, offset: nat): (i: nat)
    ensures i < CAPACITY
  {
    (Bucket(k) + offset) % CAPACITY
  }

  /** How many steps probing takes to reach a slot. */
  function Distance(k: Key, i: nat): (d: nat)
    requires i < CAPACITY
    ensures d < CAPACITY && Probe(k, d) == i
  {
    if i >= Bucket(k) then i - Bucket(k) else i + CAPACITY - Bucket(k)
  }

  lemma ProbeDistance(k: Key, offset: nat)
    requires offset < CAPACITY
    ensures Distance(k, Probe(k, offset)) == offset
  {
  }

  /** All calls recorded in the table. */
  function CallSum(entries: seq<Entry>): nat {
    if entries == [] then 0 else CallSum(entries[..|entries| - 1]) + entries[|entries| - 1].calls
  }

  lemma {:induction false} CallSumUpdate(entries: seq<Entry>, i: nat, e: Entry)
    requires i < |entries|
    ensures CallSum(entries[i := e]) == CallSum(entries) - entries[i].calls + e.calls
    ensures CallSum(entries) >= entries[i].calls
  {
    var n := |entries| - 1;
    if i == n {
      assert entries[i := e][..n] == entries[..n];
    } else {
      assert entries[i := e][..n] == entries[..n][i := e];
      CallSumUpdate(entries[..n], i, e);
    }
  }

  lemma {:induction false} CallSumEmpty(entries: seq<Entry>)
    requires forall i :: 0 <= i < |entries| ==> entries[i].calls == 0
    ensures CallSum(entries) == 0
  {
    if entries != [] {
      CallSumEmpty(entries[..|entries| - 1]);
    }
  }

  // ----- the table and the map

  ghost predicate Occupied(entries: seq<Entry>, i: nat) {
    i < |entries| && entries[i].calls > 0
  }

  /** Every key of the map has one slot, and every occupied slot is its key's. */
  ghost predicate Agrees(entries: seq<Entry>, table: map<Key, Total>, slot: map<Key, nat>) {
    && |entries| == CAPACITY && slot.Keys == table.Keys
    && (forall k :: k in slot ==> Occupied(entries, slot[k]) && entries[slot[k]].key == k)
    && (forall k :: k in slot ==> table[k] == Total(entries[slot[k]].calls, entries[slot[k]].ns))
    && (forall i: nat :: Occupied(entries, i) ==> entries[i].key in slot && slot[entries[i].key] == i)
  }

  /** No empty slot between a key's bucket and its slot. */
  ghost predicate NoGap(entries: seq<Entry>)
    requires |entries| == CAPACITY
  {
    forall i: nat, d: nat :: Occupied(entries, i) && d < Distance(entries[i].key, i) ==>
      Occupied(entries, Probe(entries[i].key, d))
  }

  /** The slots a probe has passed hold other keys. */
  ghost predicate Passed(entries: seq<Entry>, k: Key, offset: nat)
    requires |entries| == CAPACITY
  {
    forall d: nat :: d < offset ==> Occupied(entries, Probe(k, d)) && entries[Probe(k, d)].key != k
  }

  /** Probing for a key of the map meets no empty slot before the key. */
  lemma KeyAhead(entries: seq<Entry>, table: map<Key, Total>, slot: map<Key, nat>, k: Key, offset: nat)
    requires Agrees(entries, table, slot) && NoGap(entries) && offset < CAPACITY && Passed(entries, k, offset)
    requires k in table
    ensures Occupied(entries, Probe(k, offset))
  {
    var i := slot[k];
    var d := Distance(k, i);
    assert Occupied(entries, i) && entries[i].key == k;
    assert entries[Probe(k, d)].key == k;
    if offset < d {
      assert Occupied(entries, Probe(entries[i].key, offset));
    }
  }

  lemma EmptyMeansAbsent(entries: seq<Entry>, table: map<Key, Total>, slot: map<Key, nat>, k: Key, offset: nat)
    requires Agrees(entries, table, slot) && NoGap(entries) && offset < CAPACITY && Passed(entries, k, offset)
    requires !Occupied(entries, Probe(k, offset))
    ensures k !in table
  {
    if k in table {
      KeyAhead(entries, table, slot, k, offset);
    }
  }

  lemma KeyNotPassed(entries: seq<Entry>, table: map<Key, Total>, slot: map<Key, nat>, k: Key)
    requires Agrees(entries, table, slot) && k in table
    ensures !Passed(entries, k, CAPACITY)
  {
    var d := Distance(k, slot[k]);
    assert Occupied(entries, slot[k]) && entries[Probe(k, d)].key == k;
  }

  /** When every slot was passed, the key is not in the map and no slot is free. */
  lemma FullMeansAbsent(entries: seq<Entry>, table: map<Key, Total>, slot: map<Key, nat>, k: Key)
    requires Agrees(entries, table, slot) && Passed(entries, k, CAPACITY)
    ensures k !in table && AllOccupied(entries)
  {
    if k in table {
      KeyNotPassed(entries, table, slot, k);
    }
    forall i: nat | i < CAPACITY
      ensures Occupied(entries, i)
    {
      assert Occupied(entries, Probe(k, Distance(k, i)));
    }
  }

  ghost predicate AllOccupied(entries: seq<Entry>) {
    forall i: nat :: i < CAPACITY ==> Occupied(entries, i)
  }

  // ----- counting the slots

  /** The slots of some keys. */
  ghost function SlotsOf(keys: set<Key>, slot: map<Key, nat>): set<nat>
    requires keys <= slot.Keys
  {
    set k | k in keys :: slot[k]
  }

  ghost predicate Injective(slot: map<Key, nat>) {
    forall j, k :: j in slot && k in slot && slot[j] == slot[k] ==> j == k
  }

  lemma {:induction false} SlotsCount(keys: set<Key>, slot: map<Key, nat>)
    requires keys <= slot.Keys && Injective(slot)
    ensures |SlotsOf(keys, slot)| == |keys|
    decreases |keys|
  {
    if keys != {} {
      var k :| k in keys;
      var rest := keys - {k};
      SlotsCount(rest, slot);
      var all, less := SlotsOf(keys, slot), SlotsOf(rest, slot);
      forall i | i in all
        ensures i in less + {slot[k]}
      {
        var j :| j in keys && slot[j] == i;
        assert j == k || j in rest;
      }
      assert all == less + {slot[k]};
      assert slot[k] !in less;
    }
  }

  /** The map has as many keys as the table has slots exactly when no slot is free. */
  lemma FullExactly(entries: seq<Entry>, table: map<Key, Total>, slot: map<Key, nat>)
    requires Agrees(entries, table, slot)
    ensures |table.Keys| <= CAPACITY && (|table.Keys| == CAPACITY <==> AllOccupied(entries))
  {
    var used := SlotsOf(slot.Keys, slot);
    SlotsCount(slot.Keys, slot);
    BelowExactly(CAPACITY);
    forall i: nat
      ensures i in used <==> Occupied(entries, i)
    {
      UsedExactly(entries, table, slot, i);
    }
    SubsetCount(used, Below(CAPACITY));
  }

  lemma UsedExactly(entries: seq<Entry>, table: map<Key, Total>, slot: map<Key, nat>, i: nat)
    requires Agrees(entries, table, slot)
    ensures i in SlotsOf(slot.Keys, slot) <==> Occupied(entries, i)
  {
    if Occupied(entries, i) {
      assert entries[i].key in slot && slot[entries[i].key] == i;
    }
    if i in SlotsOf(slot.Keys, slot) {
      var k :| k in slot && slot[k] == i;
      assert Occupied(entries, slot[k]);
    }
  }

  // ----- what recording does to the map

  /** Where a call came from, if the dynamic linker can say. */
  datatype Place = Place(site: nat, module_: nat)

  /** The map and the number of dropped calls after one call: an unresolved call, or one that finds the map full of
      other keys, is dropped; any other is added to its key's total. */
  function Recorded(table: map<Key, Total>, dropped: nat, step: nat, kind: nat, place: Option<Place>, elapsed: nat):
    (map<Key, Total>, nat)
  {
    match place
    case None => (table, dropped + 1)
    case Some(at) => Counted(table, dropped, Key(step, at.site, kind, at.module_), elapsed)
  }

  function Counted(table: map<Key, Total>, dropped: nat, k: Key, elapsed: nat): (map<Key, Total>, nat) {
    if k in table then (table[k := Total(table[k].calls + 1, (table[k].ns + elapsed) % WORD)], dropped)
    else if |table.Keys| < CAPACITY then (table[k := Total(1, elapsed)], dropped)
    else (table, dropped + 1)
  }

  lemma CountedFull(entries: seq<Entry>, table: map<Key, Total>, slot: map<Key, nat>, k: Key, dropped: nat,
                    elapsed: nat)
    requires Agrees(entries, table, slot) && Passed(entries, k, CAPACITY)
    ensures Counted(table, dropped, k, elapsed) == (table, dropped + 1)
  {
    FullMeansAbsent(entries, table, slot, k);
    FullExactly(entries, table, slot);
  }

  lemma Inserted(entries: seq<Entry>, table: map<Key, Total>, slot: map<Key, nat>, k: Key, offset: nat, ns: nat)
    requires Agrees(entries, table, slot) && NoGap(entries) && offset < CAPACITY && Passed(entries, k, offset)
    requires !Occupied(entries, Probe(k, offset)) && k !in table
    ensures var i := Probe(k, offset);
            var after := entries[i := Entry(k, 1, ns)];
            Agrees(after, table[k := Total(1, ns)], slot[k := i]) && NoGap(after)
  {
    var i := Probe(k, offset);
    var after := entries[i := Entry(k, 1, ns)];
    ProbeDistance(k, offset);
    forall j: nat, d: nat | Occupied(after, j) && d < Distance(after[j].key, j)
      ensures Occupied(after, Probe(after[j].key, d))
    {
      if j == i {
        assert Occupied(entries, Probe(k, d));
      } else {
        assert Occupied(entries, Probe(entries[j].key, d));
      }
    }
  }

  /** Changing the counts of an occupied slot moves no key. */
  lemma StillNoGap(entries: seq<Entry>, i: nat, e: Entry)
    requires |entries| == CAPACITY && NoGap(entries) && Occupied(entries, i)
    requires e.key == entries[i].key && e.calls > 0
    ensures NoGap(entries[i := e])
  {
    var after := entries[i := e];
    forall j: nat, d: nat | Occupied(after, j) && d < Distance(after[j].key, j)
      ensures Occupied(after, Probe(after[j].key, d))
    {
      assert Occupied(entries, j) && entries[j].key == after[j].key;
      assert Occupied(entries, Probe(entries[j].key, d));
    }
  }

  lemma StillAgrees(entries: seq<Entry>, table: map<Key, Total>, slot: map<Key, nat>, i: nat, e: Entry)
    requires Agrees(entries, table, slot) && Occupied(entries, i) && e.key == entries[i].key && e.calls > 0
    ensures e.key in table && table[e.key] == Total(entries[i].calls, entries[i].ns)
    ensures Agrees(entries[i := e], table[e.key := Total(e.calls, e.ns)], slot)
  {
    assert e.key in slot && slot[e.key] == i;
    var after := entries[i := e];
    forall j: nat | Occupied(after, j)
      ensures after[j].key in slot && slot[after[j].key] == j
    {
      assert Occupied(entries, j) && entries[j].key == after[j].key;
    }
  }

  // ----- the observer

  /** What an intercepted call remembers between its beginning and its end. */
  datatype Frame = Frame(owned: bool, track: bool)

  class Observer {
    const entries: array<Entry>
    var dropped: nat
    var currentStep: nat
    var active: bool
    var owner: nat
    var depth: nat
    ghost var table: map<Key, Total>
    ghost var slot: map<Key, nat>
    ghost var open: multiset<Frame>
    ghost var finished: nat

    ghost predicate Valid()
      reads this, entries
    {
      && entries.Length == CAPACITY && Agrees(entries[..], table, slot) && NoGap(entries[..])
      && depth == open[Frame(true, true)] + open[Frame(true, false)] && open[Frame(false, true)] == 0
      && CallSum(entries[..]) + dropped == finished
    }

    constructor ()
      ensures Valid() && fresh(entries) && table == map[] && open == multiset{}
      ensures dropped == 0 && finished == 0 && !active
    {
      entries := new Entry[CAPACITY](_ => EMPTY);
      dropped, currentStep, active, owner, depth := 0, 0, false, 0, 0;
      table, slot, open, finished := map[], map[], multiset{}, 0;
      new;
      CallSumEmpty(entries[..]);
    }

    /** The step boundary: observation goes on for the calling thread, or off. */
    method ObserveStep(step: nat, begin: bool, enabled: bool, thread: nat)
      requires Valid()
      modifies this`active, this`owner, this`currentStep
      ensures Valid() && active == (begin && enabled)
      ensures active ==> owner == thread && currentStep == step
    {
      active := false;
      if begin && enabled {
        owner := thread;
        currentStep := step;
        active := true;
      }
    }

    /** Entering an intercepted call: it is tracked exactly when it is observed and no observed call is open. */
    method BeginCall(thread: nat) returns (frame: Frame)
      requires Valid()
      modifies this`depth, this`open
      ensures Valid() && open == old(open) + multiset{frame}
      ensures frame.owned == (active && owner == thread)
      ensures frame.track <==> frame.owned && Frame(true, true) !in old(open) && Frame(true, false) !in old(open)
    {
      var owned := active && owner == thread;
      var track := false;
      if owned {
        depth := depth + 1;
        track := depth == 1;
      }
      frame := Frame(owned, track);
      open := open + multiset{frame};
    }

    /** The probing loop: to the first slot that is empty or holds the key, if there is one. */
    method Search(k: Key) returns (offset: nat)
      requires entries.Length == CAPACITY
      ensures offset <= CAPACITY && Passed(entries[..], k, offset)
      ensures offset < CAPACITY ==> entries[Probe(k, offset)].calls == 0 || entries[Probe(k, offset)].key == k
    {
      offset := 0;
      while offset < CAPACITY
        invariant 0 <= offset <= CAPACITY && Passed(entries[..], k, offset)
      {
        var i := Probe(k, offset);
        if entries[i].calls == 0 || entries[i].key == k {
          return;
        }
        offset := offset + 1;
      }
    }

    /** Counting a resolved call: added to its key, or dropped when the map is full of other keys. */
    method Count(k: Key, elapsed: nat)
      requires entries.Length == CAPACITY && Agrees(entries[..], table, slot) && NoGap(entries[..])
      modifies this`dropped, this`table, this`slot, entries
      ensures Agrees(entries[..], table, slot) && NoGap(entries[..])
      ensures (table, dropped) == Counted(old(table), old(dropped), k, elapsed)
      ensures CallSum(entries[..]) + dropped == old(CallSum(entries[..]) + dropped) + 1
    {
      var offset := Search(k);
      if offset == CAPACITY {
        CountedFull(entries[..], table, slot, k, dropped, elapsed);
        dropped := dropped + 1;
      } else if entries[Probe(k, offset)].calls == 0 {
        Insert(k, offset, elapsed);
      } else {
        Bump(k, Probe(k, offset), elapsed);
      }
    }

    /** Recording a call. The table does what the plain map does. */
    method Record(kind: nat, place: Option<Place>, elapsed: nat)
      requires Valid() && elapsed < WORD
      modifies this`dropped, this`table, this`slot, this`finished, entries
      ensures Valid() && finished == old(finished) + 1
      ensures (table, dropped) == Recorded(old(table), old(dropped), currentStep, kind, place, elapsed)
    {
      finished := finished + 1;
      if place == None {
        dropped := dropped + 1;
      } else {
        Count(Key(currentStep, place.value.site, kind, place.value.module_), elapsed);
      }
    }

    method Insert(k: Key, offset: nat, elapsed: nat)
      requires entries.Length == CAPACITY && Agrees(entries[..], table, slot) && NoGap(entries[..])
      requires offset < CAPACITY && Passed(entries[..], k, offset) && !Occupied(entries[..], Probe(k, offset))
      modifies this`table, this`slot, entries
      ensures Agrees(entries[..], table, slot) && NoGap(entries[..])
      ensures (table, dropped) == Counted(old(table), dropped, k, elapsed)
      ensures CallSum(entries[..]) == old(CallSum(entries[..])) + 1
    {
      var i := Probe(k, offset);
      EmptyMeansAbsent(entries[..], table, slot, k, offset);
      FullExactly(entries[..], table, slot);
      Inserted(entries[..], table, slot, k, offset, elapsed);
      CallSumUpdate(entries[..], i, Entry(k, 1, elapsed));
      ghost var was := entries[..];
      entries[i] := Entry(k, 1, elapsed);
      assert entries[..] == was[i := Entry(k, 1, elapsed)];
      table, slot := table[k := Total(1, elapsed)], slot[k := i];
    }

    method Bump(k: Key, i: nat, elapsed: nat)
      requires entries.Length == CAPACITY && Agrees(entries[..], table, slot) && NoGap(entries[..])
      requires i < CAPACITY && Occupied(entries[..], i) && entries[i].key == k
      modifies this`table, entries
      ensures Agrees(entries[..], table, slot) && NoGap(entries[..])
      ensures (table, dropped) == Counted(old(table), dropped, k, elapsed)
      ensures CallSum(entries[..]) == old(CallSum(entries[..])) + 1
    {
      var e := entries[i];
      var next := Entry(e.key, e.calls + 1, (e.ns + elapsed) % WORD);
      StillNoGap(entries[..], i, next);
      StillAgrees(entries[..], table, slot, i, next);
      CallSumUpdate(entries[..], i, next);
      ghost var was := entries[..];
      entries[i] := next;
      assert entries[..] == was[i := next];
      table := table[e.key := Total(next.calls, next.ns)];
    }

    /** Leaving an intercepted call: a tracked one is recorded, and only that. */
    method EndCall(frame: Frame, kind: nat, place: Option<Place>, elapsed: nat)
      requires Valid() && frame in open && elapsed < WORD
      modifies this`dropped, this`table, this`slot, this`finished, this`depth, this`open, entries
      ensures Valid() && open == old(open) - multiset{frame}
      ensures finished == old(finished) + if frame.track then 1 else 0
      ensures (table, dropped) == if frame.track
                then Recorded(old(table), old(dropped), currentStep, kind, place, elapsed)
                else (old(table), old(dropped))
    {
      if frame.track {
        Record(kind, place, elapsed);
      }
      if frame.owned {
        depth := depth - 1;
      }
      open := open - multiset{frame};
    }
  }
}
