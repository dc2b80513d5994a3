/** The slot partition of a spray restart: retired and retained slots, marked one by one. */
module SpraySlots {
  import opened IndexSets

  /** Slots from 1 to the count, none twice. */
  ghost predicate Partition(npar: nat, slots: seq<int>) {
    && (forall i :: 0 <= i < |slots| ==> 1 <= slots[i] <= npar)
    && (forall i, j :: 0 <= i < j < |slots| ==> slots[i] != slots[j])
  }

  lemma {:induction false} DistinctCount(slots: seq<int>)
    requires forall i, j :: 0 <= i < j < |slots| ==> slots[i] != slots[j]
    ensures |set s | s in slots| == |slots|
  {
    if slots != [] {
      var front, last := slots[..|slots| - 1], slots[|slots| - 1];
      DistinctCount(front);
      assert slots == front + [last];
      assert (set s | s in slots) == (set s | s in front) + {last};
    }
  }

  /** As many distinct slots as there are leaves none out. */
  lemma PartitionCovers(npar: nat, slots: seq<int>)
    requires Partition(npar, slots) && |slots| == npar
    ensures forall s :: 1 <= s <= npar ==> s in slots
  {
    var used := set s | s in slots;
    DistinctCount(slots);
    BelowExactly(npar + 1);
    SubsetCount<int>(used, Below(npar + 1) - {0});
    forall s | 1 <= s <= npar
      ensures s in slots
    {
      assert s in used;
    }
  }

  /** The marks after some slots have been seen. */
  ghost predicate Marks(seen: seq<bool>, slots: seq<int>) {
    forall k :: 0 <= k < |seen| ==> (seen[k] <==> k + 1 in slots)
  }

  /** The marking loop over a list of slots; it refuses the first slot that is out of range or already marked. */
  method MarkSlots(npar: nat, seen: array<bool>, ghost before: seq<int>, slots: seq<int>) returns (ok: bool)
    requires seen.Length == npar && Partition(npar, before) && Marks(seen[..], before)
    modifies seen
    ensures ok <==> Partition(npar, before + slots)
    ensures ok ==> Marks(seen[..], before + slots)
  {
    var i := 0;
    assert before + slots[..0] == before;
    while i < |slots|
      invariant 0 <= i <= |slots|
      invariant Partition(npar, before + slots[..i]) && Marks(seen[..], before + slots[..i])
    {
      var slot := slots[i];
      ghost var marked := before + slots[..i];
      assert before + slots[..i + 1] == marked + [slot];
      if !(1 <= slot <= npar) || seen[slot - 1] {
        assert 1 <= slot <= npar ==> seen[..][slot - 1];
        Refused(npar, before, slots, i);
        return false;
      }
      ghost var unmarked := seen[..];
      assert unmarked[slot - 1] == seen[slot - 1];
      Fresh(npar, unmarked, marked, slot);
      seen[slot - 1] := true;
      assert seen[..] == unmarked[slot - 1 := true];
      i := i + 1;
    }
    assert before + slots[..i] == before + slots;
    ok := true;
  }

  lemma Fresh(npar: nat, seen: seq<bool>, slots: seq<int>, slot: int)
    requires |seen| == npar && Partition(npar, slots) && Marks(seen, slots)
    requires 1 <= slot <= npar && !seen[slot - 1]
    ensures Partition(npar, slots + [slot]) && Marks(seen[slot - 1 := true], slots + [slot])
  {
    assert slot !in slots;
  }

  lemma Refused(npar: nat, before: seq<int>, slots: seq<int>, i: nat)
    requires i < |slots| && (!(1 <= slots[i] <= npar) || slots[i] in before + slots[..i])
    ensures !Partition(npar, before + slots)
  {
    var all := before + slots;
    assert all[|before| + i] == slots[i];
    if slots[i] in before + slots[..i] {
      var j :| 0 <= j < |before| + i && (before + slots[..i])[j] == slots[i];
      assert all[j] == slots[i];
    }
  }

  /** Both marking loops and the coverage check, which can never fail. */
  method CheckPartition(npar: nat, retired: seq<int>, retained: seq<int>) returns (ok: bool)
    requires |retired| + |retained| == npar
    ensures ok <==> Partition(npar, retired + retained)
    ensures ok ==> forall s :: 1 <= s <= npar ==> s in retired + retained
  {
    var seen := new bool[npar](_ => false);
    var first := MarkSlots(npar, seen, [], retired);
    assert [] + retired == retired;
    if !first {
      FrontPartition(npar, retired, retained);
      return false;
    }
    ok := MarkSlots(npar, seen, retired, retained);
    if ok {
      PartitionCovers(npar, retired + retained);
      forall k | 0 <= k < npar
        ensures seen[k]
      {
        assert seen[..][k] == seen[k];
      }
      ok := forall k :: 0 <= k < npar ==> seen[k];
    }
  }

  lemma FrontPartition(npar: nat, retired: seq<int>, retained: seq<int>)
    ensures Partition(npar, retired + retained) ==> Partition(npar, retired)
  {
    if Partition(npar, retired + retained) {
      var all := retired + retained;
      assert forall i :: 0 <= i < |retired| ==> all[i] == retired[i];
    }
  }
}
