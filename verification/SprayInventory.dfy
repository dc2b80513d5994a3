/** The inventory: what happens to one parcel, and what the counters and the parcel list are after any number. */
module SprayInventory {
  import opened SprayLayout

  datatype Kind = Retained | Pending

  datatype Bin = Interior | Halo | Dummy | Child

  /** The file a parcel comes from. */
  datatype Origin = Origin(digest: nat, rank: nat)

  datatype Parcel = Parcel(origin: Origin, ordinal: int, kind: Kind, cell: int, bin: Bin, position: seq<Number>,
                           velocity: seq<Number>, diameter: real, multiplicity: real, temperature: real,
                           history: seq<Number>)

  /** One call to append. */
  datatype Visit = Visit(kind: Kind, ordinal: int, particle: Particle, cell: int, bin: Bin)

  predicate AllFinite(s: seq<Number>) {
    forall i :: 0 <= i < |s| ==> s[i].Finite?
  }

  predicate FiniteState(p: Particle) {
    && AllFinite(p.position) && AllFinite(p.velocity) && AllFinite(p.history)
    && p.diameter.Finite? && p.weight.Finite? && p.temperature.Finite?
  }

  predicate Empty(p: Particle)
    requires FiniteState(p)
  {
    p.diameter.value == 0.0 || p.weight.value == 0.0
  }

  /** The state a parcel must have. */
  predicate Admissible(p: Particle) {
    && FiniteState(p) && p.diameter.value >= 0.0 && p.weight.value >= 0.0
    && (Empty(p) || p.temperature.value > 0.0)
  }

  /** A parcel that carries anything. */
  predicate Positive(p: Particle) {
    Admissible(p) && !Empty(p)
  }

  function ParcelOf(origin: Origin, v: Visit): Parcel
    requires Positive(v.particle)
  {
    Parcel(origin, v.ordinal, v.kind, v.cell, v.bin, v.particle.position, v.particle.velocity,
           v.particle.diameter.value / 1000000.0, v.particle.weight.value, v.particle.temperature.value,
           v.particle.history)
  }

  /** The positive visits' parcels, in order. */
  function Parcels(origin: Origin, visits: seq<Visit>): seq<Parcel> {
    if visits == [] then []
    else
      var v, front := visits[|visits| - 1], Parcels(origin, visits[..|visits| - 1]);
      if Positive(v.particle) then front + [ParcelOf(origin, v)] else front
  }

  /** How many visits are of a kind, positive or not, and in a bin. */
  function Count(visits: seq<Visit>, kind: Kind, positive: bool): nat {
    if visits == [] then 0
    else
      var v := visits[|visits| - 1];
      Count(visits[..|visits| - 1], kind, positive)
      + if v.kind == kind && Positive(v.particle) == positive then 1 else 0
  }

  function InBin(visits: seq<Visit>, bin: Bin): nat {
    if visits == [] then 0
    else
      var v := visits[|visits| - 1];
      InBin(visits[..|visits| - 1], bin)
      + if v.kind == Retained && v.bin == bin && Positive(v.particle) then 1 else 0
  }

  /** The counters and the parcel list that `append` changes in place. */
  class Inventory {
    const origin: Origin
    var positive: nat
    var zero: nat
    var interior: nat
    var halo: nat
    var dummy: nat
    var positiveChildren: nat
    var zeroChildren: nat
    var parcels: seq<Parcel>

    constructor (origin: Origin)
      ensures this.origin == origin && Holds([])
    {
      this.origin := origin;
      positive, zero, interior, halo, dummy, positiveChildren, zeroChildren := 0, 0, 0, 0, 0, 0, 0;
      parcels := [];
    }

    /** The books after these visits: every counter counts, and the list holds the positive visits in order. */
    ghost predicate Holds(visits: seq<Visit>)
      reads this
    {
      && positive == Count(visits, Retained, true) && zero == Count(visits, Retained, false)
      && positiveChildren == Count(visits, Pending, true) && zeroChildren == Count(visits, Pending, false)
      && interior == InBin(visits, Interior) && halo == InBin(visits, Halo) && dummy == InBin(visits, Dummy)
      && parcels == Parcels(origin, visits)
    }

    /** The nested append of the source; a retained parcel's bin is interior, halo or dummy. */
    method Append(v: Visit, ghost visits: seq<Visit>) returns (ok: bool)
      requires Holds(visits) && (v.kind == Retained ==> v.bin != Child)
      modifies this
      ensures ok <==> Admissible(v.particle)
      ensures ok ==> Holds(visits + [v])
    {
      var p := v.particle;
      assert (visits + [v])[..|visits|] == visits;
      if !FiniteState(p) {
        return false;
      }
      if p.diameter.value < 0.0 || p.weight.value < 0.0 {
        return false;
      }
      if p.diameter.value == 0.0 || p.weight.value == 0.0 {
        if v.kind == Pending {
          zeroChildren := zeroChildren + 1;
        } else {
          zero := zero + 1;
        }
        return true;
      }
      if p.temperature.value <= 0.0 {
        return false;
      }
      if v.kind == Pending {
        positiveChildren := positiveChildren + 1;
      } else {
        positive := positive + 1;
        match v.bin
        case Interior => interior := interior + 1;
        case Halo => halo := halo + 1;
        case Dummy => dummy := dummy + 1;
      }
      parcels := parcels + [ParcelOf(origin, v)];
      ok := true;
    }
  }

  function OfKind(visits: seq<Visit>, kind: Kind): nat {
    if visits == [] then 0
    else OfKind(visits[..|visits| - 1], kind) + if visits[|visits| - 1].kind == kind then 1 else 0
  }

  /** The balances between the counters: every retained visit is positive or zero, every positive one is in one bin,
      every child is positive or zero, and the list has one parcel for each positive visit. */
  lemma {:induction false} BooksBalance(visits: seq<Visit>, origin: Origin)
    requires forall i :: 0 <= i < |visits| && visits[i].kind == Retained ==> visits[i].bin != Child
    ensures Count(visits, Retained, true) + Count(visits, Retained, false) == OfKind(visits, Retained)
    ensures Count(visits, Retained, true) == InBin(visits, Interior) + InBin(visits, Halo) + InBin(visits, Dummy)
    ensures Count(visits, Pending, true) + Count(visits, Pending, false) == OfKind(visits, Pending)
    ensures |Parcels(origin, visits)| == Count(visits, Retained, true) + Count(visits, Pending, true)
    ensures OfKind(visits, Retained) + OfKind(visits, Pending) == |visits|
  {
    if visits != [] {
      BooksBalance(visits[..|visits| - 1], origin);
      assert visits[|visits| - 1].kind == Retained ==> visits[|visits| - 1].bin != Child;
    }
  }

  /** The parcels are the positive visits: nothing is invented and nothing positive is lost. */
  lemma {:induction false} ParcelsExactly(origin: Origin, visits: seq<Visit>, q: Parcel)
    ensures q in Parcels(origin, visits) <==> exists i :: 0 <= i < |visits| && Positive(visits[i].particle)
                                                          && q == ParcelOf(origin, visits[i])
  {
    if visits != [] {
      var n := |visits| - 1;
      var front := visits[..n];
      ParcelsExactly(origin, front, q);
      if q in Parcels(origin, front) {
        var i :| 0 <= i < |front| && Positive(front[i].particle) && q == ParcelOf(origin, front[i]);
        assert visits[i] == front[i];
      }
      if i :| 0 <= i < |visits| && Positive(visits[i].particle) && q == ParcelOf(origin, visits[i]) {
        if i < n {
          assert front[i] == visits[i];
        }
      }
    }
  }
}
