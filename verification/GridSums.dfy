/** Sums over boxes of cells, and the one fact about tilings: what the ranks sum over their boxes is the whole sum. */
module GridSums {
  import opened GridTypes
  import opened Sums

  function Extent(n: int): nat {
    if n < 0 then 0 else n
  }

  ghost function XLine(b: Int3, f: Int3 -> real, y: int, z: int): int -> real {
    x => f(Int3(b.x + x, b.y + y, b.z + z))
  }

  ghost function YLine(p: Patch, f: Int3 -> real, z: int): int -> real {
    y => Sum(Extent(p.cells.x), XLine(p.begin, f, y, z))
  }

  ghost function ZLine(p: Patch, f: Int3 -> real): int -> real {
    z => Sum(Extent(p.cells.y), YLine(p, f, z))
  }

  /** The sum over the cells of a box. */
  ghost function BoxSum(p: Patch, f: Int3 -> real): real {
    Sum(Extent(p.cells.z), ZLine(p, f))
  }

  // ----- rules

  lemma BoxCongruent(p: Patch, q: Patch, f: Int3 -> real, g: Int3 -> real)
    requires p.cells == q.cells
    requires forall x, y, z :: 0 <= x < p.cells.x && 0 <= y < p.cells.y && 0 <= z < p.cells.z ==>
               XLine(p.begin, f, y, z)(x) == XLine(q.begin, g, y, z)(x)
    ensures BoxSum(p, f) == BoxSum(q, g)
  {
    forall z | 0 <= z < Extent(p.cells.z)
      ensures ZLine(p, f)(z) == ZLine(q, g)(z)
    {
      forall y | 0 <= y < Extent(p.cells.y)
        ensures YLine(p, f, z)(y) == YLine(q, g, z)(y)
      {
        SumCongruent(Extent(p.cells.x), XLine(p.begin, f, y, z), XLine(q.begin, g, y, z));
      }
      SumCongruent(Extent(p.cells.y), YLine(p, f, z), YLine(q, g, z));
    }
    SumCongruent(Extent(p.cells.z), ZLine(p, f), ZLine(q, g));
  }

  ghost function Added(f: Int3 -> real, g: Int3 -> real): Int3 -> real {
    c => f(c) + g(c)
  }

  lemma BoxPlus(p: Patch, f: Int3 -> real, g: Int3 -> real)
    ensures BoxSum(p, Added(f, g)) == BoxSum(p, f) + BoxSum(p, g)
  {
    var h := Added(f, g);
    forall z | 0 <= z < Extent(p.cells.z)
      ensures ZLine(p, h)(z) == ZLine(p, f)(z) + ZLine(p, g)(z)
    {
      forall y | 0 <= y < Extent(p.cells.y)
        ensures YLine(p, h, z)(y) == YLine(p, f, z)(y) + YLine(p, g, z)(y)
      {
        SumGains(Extent(p.cells.x), XLine(p.begin, f, y, z), XLine(p.begin, g, y, z), XLine(p.begin, h, y, z));
      }
      SumGains(Extent(p.cells.y), YLine(p, f, z), YLine(p, g, z), YLine(p, h, z));
    }
    SumGains(Extent(p.cells.z), ZLine(p, f), ZLine(p, g), ZLine(p, h));
  }

  ghost function Zero(): Int3 -> real {
    (c: Int3) => 0.0
  }

  lemma BoxZero(p: Patch)
    ensures BoxSum(p, Zero()) == 0.0
  {
    forall z | 0 <= z < Extent(p.cells.z)
      ensures ZLine(p, Zero())(z) == 0.0
    {
      forall y | 0 <= y < Extent(p.cells.y)
        ensures YLine(p, Zero(), z)(y) == 0.0
      {
        SumZero(Extent(p.cells.x), XLine(p.begin, Zero(), y, z));
      }
      SumZero(Extent(p.cells.y), YLine(p, Zero(), z));
    }
    SumZero(Extent(p.cells.z), ZLine(p, Zero()));
  }

  // ----- a box inside the grid

  lemma {:induction false} Window(n: nat, b: nat, c: nat, whole: int -> real, part: int -> real)
    requires b + c <= n
    requires forall i :: 0 <= i < c ==> whole(b + i) == part(i)
    requires forall i :: 0 <= i < n && !(b <= i < b + c) ==> whole(i) == 0.0
    ensures Sum(n, whole) == Sum(c, part)
    decreases n
  {
    if n > b + c {
      Window(n - 1, b, c, whole, part);
      assert whole(n - 1) == 0.0;
    } else if c > 0 {
      forall i | 0 <= i < n - 1 && !(b <= i < b + (c - 1))
        ensures whole(i) == 0.0
      {
      }
      Window(n - 1, b, c - 1, whole, part);
      assert whole(b + (c - 1)) == part(c - 1);
    } else {
      SumZero(n, whole);
    }
  }

  /** The quantity on a box, zero elsewhere. */
  ghost function Masked(p: Patch, f: Int3 -> real): Int3 -> real {
    c => if OwnsCell(p, c) then f(c) else 0.0
  }

  lemma MaskedLine(n: Int3, p: Patch, f: Int3 -> real, y: int, z: int)
    requires Inside(n, p) && 0 <= y < p.cells.y && 0 <= z < p.cells.z
    ensures Sum(Extent(n.x), XLine(Int3(0, 0, 0), Masked(p, f), p.begin.y + y, p.begin.z + z))
            == Sum(Extent(p.cells.x), XLine(p.begin, f, y, z))
  {
    var whole := XLine(Int3(0, 0, 0), Masked(p, f), p.begin.y + y, p.begin.z + z);
    var part := XLine(p.begin, f, y, z);
    forall i | 0 <= i < p.cells.x
      ensures whole(p.begin.x + i) == part(i)
    {
      assert OwnsCell(p, Int3(p.begin.x + i, p.begin.y + y, p.begin.z + z));
    }
    forall i | 0 <= i < n.x && !(p.begin.x <= i < p.begin.x + p.cells.x)
      ensures whole(i) == 0.0
    {
      MaskedAt(p, f, i, p.begin.y + y, p.begin.z + z);
    }
    Window(n.x, p.begin.x, p.cells.x, whole, part);
  }

  lemma MaskedAt(p: Patch, f: Int3 -> real, x: int, y: int, z: int)
    ensures XLine(Int3(0, 0, 0), Masked(p, f), y, z)(x)
            == if OwnsCell(p, Int3(x, y, z)) then f(Int3(x, y, z)) else 0.0
  {
    assert Int3(0 + x, 0 + y, 0 + z) == Int3(x, y, z);
  }

  lemma EmptyLine(n: Int3, p: Patch, f: Int3 -> real, y: int, z: int)
    requires !Owns(y, p.begin.y, p.cells.y) || !Owns(z, p.begin.z, p.cells.z)
    ensures Sum(Extent(n.x), XLine(Int3(0, 0, 0), Masked(p, f), y, z)) == 0.0
  {
    forall x | 0 <= x < Extent(n.x)
      ensures XLine(Int3(0, 0, 0), Masked(p, f), y, z)(x) == 0.0
    {
      MaskedAt(p, f, x, y, z);
    }
    SumZero(Extent(n.x), XLine(Int3(0, 0, 0), Masked(p, f), y, z));
  }

  lemma MaskedSheet(n: Int3, p: Patch, f: Int3 -> real, z: int)
    requires Inside(n, p) && 0 <= z < p.cells.z
    ensures ZLine(Whole(n), Masked(p, f))(p.begin.z + z) == ZLine(p, f)(z)
  {
    var whole, part := YLine(Whole(n), Masked(p, f), p.begin.z + z), YLine(p, f, z);
    forall y | 0 <= y < p.cells.y
      ensures whole(p.begin.y + y) == part(y)
    {
      MaskedLine(n, p, f, y, z);
    }
    forall y | 0 <= y < n.y && !(p.begin.y <= y < p.begin.y + p.cells.y)
      ensures whole(y) == 0.0
    {
      EmptyLine(n, p, f, y, p.begin.z + z);
    }
    Window(n.y, p.begin.y, p.cells.y, whole, part);
  }

  /** Summing over a box is summing the masked quantity over the grid. */
  lemma MaskedBox(n: Int3, p: Patch, f: Int3 -> real)
    requires Inside(n, p)
    ensures BoxSum(Whole(n), Masked(p, f)) == BoxSum(p, f)
  {
    var whole, part := ZLine(Whole(n), Masked(p, f)), ZLine(p, f);
    forall z | 0 <= z < p.cells.z
      ensures whole(p.begin.z + z) == part(z)
    {
      MaskedSheet(n, p, f, z);
    }
    forall z | 0 <= z < n.z && !(p.begin.z <= z < p.begin.z + p.cells.z)
      ensures whole(z) == 0.0
    {
      forall y | 0 <= y < Extent(n.y)
        ensures YLine(Whole(n), Masked(p, f), z)(y) == 0.0
      {
        EmptyLine(n, p, f, y, z);
      }
      SumZero(Extent(n.y), YLine(Whole(n), Masked(p, f), z));
    }
    Window(n.z, p.begin.z, p.cells.z, whole, part);
  }

  // ----- the ranks together

  /** The masked quantities of the first ranks, added cell by cell. */
  ghost function MaskedFirst(tiling: seq<Patch>, k: nat, f: Int3 -> real): Int3 -> real
    requires k <= |tiling|
  {
    if k == 0 then Zero() else Added(MaskedFirst(tiling, k - 1, f), Masked(tiling[k - 1], f))
  }

  ghost function RankSums(tiling: seq<Patch>, f: Int3 -> real): int -> real {
    r => if 0 <= r < |tiling| then BoxSum(tiling[r], f) else 0.0
  }

  lemma {:induction false} MaskedFirstSum(n: Int3, tiling: seq<Patch>, k: nat, f: Int3 -> real)
    requires k <= |tiling| && forall r :: 0 <= r < |tiling| ==> Inside(n, tiling[r])
    ensures BoxSum(Whole(n), MaskedFirst(tiling, k, f)) == Sum(k, RankSums(tiling, f))
  {
    if k == 0 {
      BoxZero(Whole(n));
    } else {
      MaskedFirstSum(n, tiling, k - 1, f);
      BoxPlus(Whole(n), MaskedFirst(tiling, k - 1, f), Masked(tiling[k - 1], f));
      MaskedBox(n, tiling[k - 1], f);
    }
  }

  lemma {:induction false} MaskedFirstAt(n: Int3, tiling: seq<Patch>, k: nat, f: Int3 -> real, c: Int3, owner: nat)
    requires Tiles(n, tiling) && k <= |tiling| && owner < |tiling| && OwnsCell(tiling[owner], c)
    ensures MaskedFirst(tiling, k, f)(c) == if owner < k then f(c) else 0.0
  {
    if k > 0 {
      MaskedFirstAt(n, tiling, k - 1, f, c, owner);
      assert OwnsCell(tiling[k - 1], c) ==> k - 1 == owner;
    }
  }

  /** Whatever the tiling, the ranks' sums over their own boxes add up to the sum over the grid. */
  lemma RanksSum(n: Int3, tiling: seq<Patch>, f: Int3 -> real)
    requires Tiles(n, tiling)
    ensures Sum(|tiling|, RankSums(tiling, f)) == BoxSum(Whole(n), f)
  {
    MaskedFirstSum(n, tiling, |tiling|, f);
    var g := MaskedFirst(tiling, |tiling|, f);
    forall x, y, z | 0 <= x < n.x && 0 <= y < n.y && 0 <= z < n.z
      ensures XLine(Int3(0, 0, 0), g, y, z)(x) == XLine(Int3(0, 0, 0), f, y, z)(x)
    {
      var c := Int3(x, y, z);
      assert InGrid(n, c);
      var owner :| 0 <= owner < |tiling| && OwnsCell(tiling[owner], c);
      MaskedFirstAt(n, tiling, |tiling|, f, c, owner);
    }
    BoxCongruent(Whole(n), Whole(n), g, f);
  }

  // ----- the sum so far, in loop order

  /** Whole sheets below z, whole rows below y, and the first x cells of the row. */
  ghost function Partial(p: Patch, f: Int3 -> real, x: nat, y: nat, z: nat): real {
    Sum(z, ZLine(p, f)) + Sum(y, YLine(p, f, z)) + Sum(x, XLine(p.begin, f, y, z))
  }

  lemma PartialNext(p: Patch, f: Int3 -> real, x: nat, y: nat, z: nat)
    ensures Partial(p, f, x + 1, y, z)
            == Partial(p, f, x, y, z) + f(Int3(p.begin.x + x, p.begin.y + y, p.begin.z + z))
  {
  }

  lemma PartialEnds(p: Patch, f: Int3 -> real, y: nat, z: nat)
    ensures Partial(p, f, Extent(p.cells.x), y, z) == Partial(p, f, 0, y + 1, z)
    ensures Partial(p, f, 0, Extent(p.cells.y), z) == Partial(p, f, 0, 0, z + 1)
    ensures Partial(p, f, 0, 0, 0) == 0.0
    ensures Partial(p, f, 0, 0, Extent(p.cells.z)) == BoxSum(p, f)
  {
  }
}
