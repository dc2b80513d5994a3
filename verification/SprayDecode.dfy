/** Decoding a spray restart: the cell table and the pending children. */
module SprayDecode {
  import opened Bytes
  import opened Options
  import opened SprayFrames
  import opened SprayInventory
  import opened SprayLayout
  import opened SpraySlots

  function RetainedCount(l: Layout): nat
    requires l.npout <= l.npar
  {
    l.npar - l.npout
  }

  /** The cell table starts at one, never falls, and ends one past the retained slots. */
  predicate PointOk(point: seq<int>, retained: nat) {
    && |point| > 0 && point[0] == 1 && point[|point| - 1] == retained + 1
    && forall i :: 0 <= i < |point| - 1 ==> point[i] <= point[i + 1]
  }

  lemma {:induction false} PointMonotone(point: seq<int>, retained: nat, a: nat, b: nat)
    requires PointOk(point, retained) && a <= b < |point|
    ensures point[a] <= point[b]
    decreases b
  {
    if a < b {
      PointMonotone(point, retained, a, b - 1);
      assert point[b - 1] <= point[(b - 1) + 1];
    }
  }

  /** What the loops need to know of a layout: sizes, the cell table, and the retained slots' range. */
  ghost predicate Ready(l: Layout, cells: nat) {
    && Sized(l, cells) && PointOk(l.point, RetainedCount(l))
    && forall e :: 0 <= e < RetainedCount(l) ==> 1 <= l.index[e] <= l.npar
  }

  predicate InCell(l: Layout, cell: nat, e: int)
    requires cell + 1 < |l.point|
  {
    l.point[cell] - 1 <= e < l.point[cell + 1] - 1
  }

  /** An entry lies in the range of at most one cell. */
  lemma OneCell(l: Layout, cells: nat, a: nat, b: nat, e: int)
    requires Ready(l, cells) && a <= cells && b <= cells && InCell(l, a, e) && InCell(l, b, e)
    ensures a == b
  {
    if a < b {
      PointMonotone(l.point, RetainedCount(l), a + 1, b);
    } else if b < a {
      PointMonotone(l.point, RetainedCount(l), b + 1, a);
    }
  }

  function BinOf(s: Shape, cell: int): Bin
    requires ShapeOk(s)
  {
    var i, j, k := cell % s.x, cell / s.x % s.y, Layers(s, cell);
    if cell == Cells(s) then Dummy
    else if 0 < i < s.x - 1 && 0 < j < s.y - 1 && 0 < k < s.z - 1 then Interior
    else Halo
  }

  function Layers(s: Shape, cell: int): int
    requires ShapeOk(s)
  {
    assert s.x * s.y > 0;
    cell / (s.x * s.y)
  }

  function CellLabel(l: Layout, e: nat): int
    requires e < |l.index| && 1 <= l.index[e] <= |l.cellIndex|
  {
    l.cellIndex[l.index[e] - 1]
  }

  function RetainedVisit(l: Layout, s: Shape, e: nat): (v: Visit)
    requires ShapeOk(s) && e < |l.index| && 1 <= l.index[e] <= |l.cellIndex| == |l.parts|
    ensures v.kind == Retained && v.bin != Child && v.ordinal == l.index[e]
  {
    Visit(Retained, l.index[e], l.parts[l.index[e] - 1], CellLabel(l, e), BinOf(s, CellLabel(l, e) - 1))
  }

  /** The first n retained entries, in the order the index lists them. */
  ghost function RetainedVisits(l: Layout, s: Shape, n: nat): (r: seq<Visit>)
    requires ShapeOk(s) && Ready(l, Cells(s)) && n <= RetainedCount(l)
    ensures |r| == n && forall e :: 0 <= e < n ==> r[e] == RetainedVisit(l, s, e)
  {
    seq(n, e requires 0 <= e < n => RetainedVisit(l, s, e))
  }

  /** The slot's own cell label names the cell whose range lists it, and its parcel is admissible. */
  predicate EntryOk(l: Layout, cells: nat, e: nat)
    requires Sized(l, cells) && e < |l.index| && 1 <= l.index[e] <= l.npar
  {
    var c := CellLabel(l, e) - 1;
    0 <= c <= cells && InCell(l, c, e) && Admissible(l.parts[l.index[e] - 1])
  }

  ghost predicate EntriesOk(l: Layout, cells: nat, n: nat)
    requires Ready(l, cells) && n <= RetainedCount(l)
  {
    forall e: nat :: e < n ==> EntryOk(l, cells, e)
  }

  /** One turn of the inner loop. */
  method VisitEntry(l: Layout, s: Shape, cell: nat, e: nat, inventory: Inventory) returns (ok: bool)
    requires ShapeOk(s) && Ready(l, Cells(s)) && cell <= Cells(s) && e < RetainedCount(l) && InCell(l, cell, e)
    requires inventory.Holds(RetainedVisits(l, s, e))
    modifies inventory
    ensures ok <==> EntryOk(l, Cells(s), e)
    ensures ok ==> inventory.Holds(RetainedVisits(l, s, e + 1))
  {
    var slot := l.index[e];
    if l.cellIndex[slot - 1] != cell + 1 {
      if EntryOk(l, Cells(s), e) {
        OneCell(l, Cells(s), cell, CellLabel(l, e) - 1, e);
      }
      return false;
    }
    assert RetainedVisits(l, s, e + 1) == RetainedVisits(l, s, e) + [RetainedVisit(l, s, e)];
    ok := inventory.Append(Visit(Retained, slot, l.parts[slot - 1], cell + 1, BinOf(s, cell)), RetainedVisits(l, s, e));
  }

  /** The inner loop, over the entries of one cell. */
  method VisitCell(l: Layout, s: Shape, cell: nat, inventory: Inventory) returns (ok: bool)
    requires ShapeOk(s) && Ready(l, Cells(s)) && cell <= Cells(s)
    requires 1 <= l.point[cell] <= l.point[cell + 1] <= RetainedCount(l) + 1
    requires inventory.Holds(RetainedVisits(l, s, l.point[cell] - 1))
    requires EntriesOk(l, Cells(s), l.point[cell] - 1)
    modifies inventory
    ensures ok <==> EntriesOk(l, Cells(s), l.point[cell + 1] - 1)
    ensures ok ==> inventory.Holds(RetainedVisits(l, s, l.point[cell + 1] - 1))
  {
    var e := l.point[cell] - 1;
    while e < l.point[cell + 1] - 1
      invariant l.point[cell] - 1 <= e <= l.point[cell + 1] - 1
      invariant EntriesOk(l, Cells(s), e) && inventory.Holds(RetainedVisits(l, s, e))
    {
      var admitted := VisitEntry(l, s, cell, e, inventory);
      if !admitted {
        return false;
      }
      e := e + 1;
    }
    ok := true;
  }

  lemma TableBounds(l: Layout, cells: nat, cell: nat)
    requires Ready(l, cells) && cell <= cells
    ensures 1 <= l.point[cell] <= l.point[cell + 1] <= RetainedCount(l) + 1
  {
    PointMonotone(l.point, RetainedCount(l), 0, cell);
    PointMonotone(l.point, RetainedCount(l), cell, cell + 1);
    PointMonotone(l.point, RetainedCount(l), cell + 1, cells + 1);
  }

  /** The double loop visits every retained entry, once, in the order of the index. */
  method VisitRetained(l: Layout, s: Shape, inventory: Inventory) returns (ok: bool)
    requires ShapeOk(s) && Ready(l, Cells(s)) && inventory.Holds([])
    modifies inventory
    ensures ok <==> EntriesOk(l, Cells(s), RetainedCount(l))
    ensures ok ==> inventory.Holds(RetainedVisits(l, s, RetainedCount(l)))
  {
    assert RetainedVisits(l, s, 0) == [];
    if RetainedCount(l) > 0 {
      var cell := 0;
      while cell < Cells(s) + 1
        invariant 0 <= cell <= Cells(s) + 1 && 1 <= l.point[cell] <= RetainedCount(l) + 1
        invariant EntriesOk(l, Cells(s), l.point[cell] - 1)
        invariant inventory.Holds(RetainedVisits(l, s, l.point[cell] - 1))
      {
        TableBounds(l, Cells(s), cell);
        var admitted := VisitCell(l, s, cell, inventory);
        if !admitted {
          return false;
        }
        cell := cell + 1;
      }
    }
    ok := true;
  }

  // ----- pending children

  /** The label is a whole number that names a cell. */
  predicate LabelOk(number: Number, cells: nat) {
    number.Finite? && number.value.Floor as real == number.value && 1.0 <= number.value <= cells as real
  }

  predicate DaughterOk(d: Daughter, cells: nat) {
    LabelOk(d.cellLabel, cells) && Admissible(d.particle)
  }

  function DaughterVisit(d: Daughter, i: nat): (v: Visit)
    requires d.cellLabel.Finite?
  {
    Visit(Pending, i + 1, d.particle, d.cellLabel.value.Floor, Child)
  }

  ghost predicate DaughtersOk(l: Layout, cells: nat, n: nat)
    requires n <= |l.daughters|
  {
    forall i :: 0 <= i < n ==> DaughterOk(l.daughters[i], cells)
  }

  ghost function DaughterVisits(l: Layout, cells: nat, n: nat): (r: seq<Visit>)
    requires n <= |l.daughters| && DaughtersOk(l, cells, n)
    ensures |r| == n && forall i :: 0 <= i < n ==> r[i] == DaughterVisit(l.daughters[i], i)
  {
    seq(n, i requires 0 <= i < n => assert DaughterOk(l.daughters[i], cells); DaughterVisit(l.daughters[i], i))
  }

  /** One turn of the child loop. */
  method VisitDaughter(l: Layout, cells: nat, i: nat, inventory: Inventory, ghost retained: seq<Visit>)
    returns (ok: bool)
    requires i < |l.daughters| && DaughtersOk(l, cells, i)
    requires inventory.Holds(retained + DaughterVisits(l, cells, i))
    modifies inventory
    ensures ok <==> DaughterOk(l.daughters[i], cells)
    ensures ok ==> DaughtersOk(l, cells, i + 1) && inventory.Holds(retained + DaughterVisits(l, cells, i + 1))
  {
    var child := l.daughters[i];
    if !LabelOk(child.cellLabel, cells) {
      return false;
    }
    ghost var before := retained + DaughterVisits(l, cells, i);
    ok := inventory.Append(DaughterVisit(child, i), before);
    if ok {
      assert retained + DaughterVisits(l, cells, i + 1) == before + [DaughterVisit(child, i)];
    }
  }

  method VisitDaughters(l: Layout, cells: nat, inventory: Inventory, ghost retained: seq<Visit>) returns (ok: bool)
    requires inventory.Holds(retained)
    modifies inventory
    ensures ok <==> DaughtersOk(l, cells, |l.daughters|)
    ensures ok ==> inventory.Holds(retained + DaughterVisits(l, cells, |l.daughters|))
  {
    var i := 0;
    assert retained + DaughterVisits(l, cells, 0) == retained;
    while i < |l.daughters|
      invariant 0 <= i <= |l.daughters| && DaughtersOk(l, cells, i)
      invariant inventory.Holds(retained + DaughterVisits(l, cells, i))
    {
      var admitted := VisitDaughter(l, cells, i, inventory, retained);
      if !admitted {
        return false;
      }
      i := i + 1;
    }
    ok := true;
  }

  // ----- the whole decoder

  /** Everything the decoder demands of a layout. */
  ghost predicate Acceptable(l: Layout, s: Shape)
    requires ShapeOk(s) && Sized(l, Cells(s))
  {
    && PointOk(l.point, RetainedCount(l)) && Partition(l.npar, l.retired + l.index[..RetainedCount(l)])
    && Ready(l, Cells(s))
    && EntriesOk(l, Cells(s), RetainedCount(l)) && DaughtersOk(l, Cells(s), |l.daughters|)
  }

  /** All visits of an accepted layout. */
  ghost function AllVisits(l: Layout, s: Shape): seq<Visit>
    requires ShapeOk(s) && Sized(l, Cells(s)) && Acceptable(l, s)
  {
    RetainedVisits(l, s, RetainedCount(l)) + DaughterVisits(l, Cells(s), |l.daughters|)
  }

  lemma PartitionReady(l: Layout, cells: nat)
    requires Sized(l, cells) && PointOk(l.point, RetainedCount(l))
    requires Partition(l.npar, l.retired + l.index[..RetainedCount(l)])
    ensures Ready(l, cells)
  {
    var slots := l.retired + l.index[..RetainedCount(l)];
    forall e | 0 <= e < RetainedCount(l)
      ensures 1 <= l.index[e] <= l.npar
    {
      assert slots[|l.retired| + e] == l.index[e];
    }
  }

  ghost predicate AcceptableRecords(r: seq<seq<Byte>>, s: Shape, read: Reading) {
    && ShapeOk(s) && ReadLayout(r, Cells(s), read).Some? && Acceptable(ReadLayout(r, Cells(s), read).value, s)
  }

  /** Decoding the records: accepted exactly when acceptable, and then the books of all visits. */
  method DecodeRecords(r: seq<seq<Byte>>, s: Shape, origin: Origin, read: Reading)
    returns (ok: bool, layout: Option<Layout>, inventory: Inventory)
    ensures fresh(inventory) && inventory.origin == origin
    ensures ok <==> AcceptableRecords(r, s, read)
    ensures ok ==> layout == ReadLayout(r, Cells(s), read)
    ensures ok ==> inventory.Holds(AllVisits(layout.value, s))
  {
    inventory := new Inventory(origin);
    layout := None;
    if !ShapeOk(s) {
      return false, layout, inventory;
    }
    layout := ReadLayout(r, Cells(s), read);
    if layout == None {
      return false, layout, inventory;
    }
    ok := DecodeLayout(layout.value, s, inventory);
  }

  method DecodeLayout(l: Layout, s: Shape, inventory: Inventory) returns (ok: bool)
    requires ShapeOk(s) && Sized(l, Cells(s)) && inventory.Holds([])
    modifies inventory
    ensures ok <==> Acceptable(l, s)
    ensures ok ==> inventory.Holds(AllVisits(l, s))
  {
    if !PointOk(l.point, RetainedCount(l)) {
      return false;
    }
    var partitioned := CheckPartition(l.npar, l.retired, l.index[..RetainedCount(l)]);
    if !partitioned {
      return false;
    }
    PartitionReady(l, Cells(s));
    var visited := VisitRetained(l, s, inventory);
    if !visited {
      return false;
    }
    ok := VisitDaughters(l, Cells(s), inventory, RetainedVisits(l, s, RetainedCount(l)));
  }

  /** The file is the framing of these records, and they are acceptable. */
  ghost predicate DecodesFrom(data: seq<Byte>, r: seq<seq<Byte>>, s: Shape, read: Reading) {
    Framable(r) && |r| >= MINIMUM_RECORDS && data == FrameAll(r) && AcceptableRecords(r, s, read)
  }

  /** Reading the framed file and decoding it: accepted exactly when it frames acceptable records. */
  method Decode(data: seq<Byte>, s: Shape, origin: Origin, read: Reading)
    returns (ok: bool, layout: Option<Layout>, inventory: Inventory)
    ensures fresh(inventory) && inventory.origin == origin
    ensures ok <==> exists r :: DecodesFrom(data, r, s, read)
    ensures ok ==> ShapeOk(s) && layout.Some? && Sized(layout.value, Cells(s)) && Acceptable(layout.value, s)
                   && inventory.Holds(AllVisits(layout.value, s))
    ensures forall r :: DecodesFrom(data, r, s, read) ==> layout == ReadLayout(r, Cells(s), read)
  {
    var records := Records(data);
    if records == None {
      inventory := new Inventory(origin);
      return false, None, inventory;
    }
    ok, layout, inventory := DecodeRecords(records.value, s, origin, read);
    assert ok ==> DecodesFrom(data, records.value, s, read);
  }

  // ----- what an accepted file says

  lemma {:induction false} KindsCount(visits: seq<Visit>, n: nat)
    requires n <= |visits|
    requires forall i :: 0 <= i < n ==> visits[i].kind == Retained
    requires forall i :: n <= i < |visits| ==> visits[i].kind == Pending
    ensures OfKind(visits, Retained) == n && OfKind(visits, Pending) == |visits| - n
  {
    if visits != [] {
      var last := |visits| - 1;
      KindsCount(visits[..last], if n <= last then n else last);
    }
  }

  /** The report's counters: positive and zero add to the indexed slots, the bins to the positive ones, the child
      counters to the pending children, and the parcel list to both positive counters. */
  lemma CountersAddUp(l: Layout, s: Shape, origin: Origin)
    requires ShapeOk(s) && Sized(l, Cells(s)) && Acceptable(l, s)
    ensures var v := AllVisits(l, s);
            && Count(v, Retained, true) + Count(v, Retained, false) == RetainedCount(l)
            && Count(v, Retained, true) == InBin(v, Interior) + InBin(v, Halo) + InBin(v, Dummy)
            && Count(v, Pending, true) + Count(v, Pending, false) == |l.daughters|
            && |Parcels(origin, v)| == Count(v, Retained, true) + Count(v, Pending, true)
  {
    var v := AllVisits(l, s);
    KindsCount(v, RetainedCount(l));
    BooksBalance(v, origin);
  }

  /** Every slot is either retired or visited by exactly one entry. */
  lemma SlotsVisitedOnce(l: Layout, s: Shape, slot: int)
    requires ShapeOk(s) && Sized(l, Cells(s)) && Acceptable(l, s) && 1 <= slot <= l.npar
    ensures slot !in l.retired <==> exists e :: 0 <= e < RetainedCount(l) && l.index[e] == slot
    ensures forall d, e :: 0 <= d < RetainedCount(l) && 0 <= e < RetainedCount(l) && l.index[d] == slot
                           && l.index[e] == slot ==>
              d == e
  {
    var kept := l.index[..RetainedCount(l)];
    var slots := l.retired + kept;
    PartitionCovers(l.npar, slots);
    assert slot in slots;
    if slot !in l.retired {
      assert slot in kept;
      var e :| 0 <= e < |kept| && kept[e] == slot;
      assert l.index[e] == slot;
    }
    forall e | 0 <= e < RetainedCount(l)
      ensures slots[|l.retired| + e] == l.index[e]
    {
    }
    if slot in l.retired {
      var i :| 0 <= i < |l.retired| && l.retired[i] == slot;
      assert slots[i] == slot;
    }
  }

  /** A retained parcel of a slot. */
  ghost predicate HasParcel(l: Layout, s: Shape, origin: Origin, slot: int)
    requires ShapeOk(s) && Sized(l, Cells(s)) && Acceptable(l, s)
  {
    exists q :: q in Parcels(origin, AllVisits(l, s)) && q.kind == Retained && q.ordinal == slot
  }

  lemma ParcelFromEntry(l: Layout, s: Shape, origin: Origin, slot: int) returns (e: nat)
    requires ShapeOk(s) && Sized(l, Cells(s)) && Acceptable(l, s) && HasParcel(l, s, origin, slot)
    ensures e < RetainedCount(l) && l.index[e] == slot && 1 <= slot <= l.npar && Positive(l.parts[slot - 1])
  {
    var v := AllVisits(l, s);
    var q :| q in Parcels(origin, v) && q.kind == Retained && q.ordinal == slot;
    ParcelsExactly(origin, v, q);
    var i :| 0 <= i < |v| && Positive(v[i].particle) && q == ParcelOf(origin, v[i]);
    assert i < RetainedCount(l) && v[i] == RetainedVisit(l, s, i);
    e := i;
  }

  lemma EntryHasParcel(l: Layout, s: Shape, origin: Origin, e: nat)
    requires ShapeOk(s) && Sized(l, Cells(s)) && Acceptable(l, s) && e < RetainedCount(l)
    requires Positive(l.parts[l.index[e] - 1])
    ensures HasParcel(l, s, origin, l.index[e])
  {
    var v := AllVisits(l, s);
    assert v[e] == RetainedVisit(l, s, e);
    ParcelsExactly(origin, v, ParcelOf(origin, v[e]));
  }

  /** A slot has a parcel exactly when it is not retired and carries anything. */
  lemma SlotHasParcel(l: Layout, s: Shape, origin: Origin, slot: int)
    requires ShapeOk(s) && Sized(l, Cells(s)) && Acceptable(l, s) && 1 <= slot <= l.npar
    ensures HasParcel(l, s, origin, slot) <==> slot !in l.retired && Positive(l.parts[slot - 1])
  {
    SlotsVisitedOnce(l, s, slot);
    if HasParcel(l, s, origin, slot) {
      var e := ParcelFromEntry(l, s, origin, slot);
    }
    if slot !in l.retired && Positive(l.parts[slot - 1]) {
      var e :| 0 <= e < RetainedCount(l) && l.index[e] == slot;
      EntryHasParcel(l, s, origin, e);
    }
  }
}
