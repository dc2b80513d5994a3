/** The generated linear system as a graph of weighted edges. */
module IccgMatrix {
  import opened GridOffsets
  import opened IndexSets
  import opened Options
  import opened Reals
  import opened Sums

  /** Cells 0 to n - 1, at most one edge up and one down each axis, a weight per upward edge, a surplus per cell. */
  datatype Wiring = Wiring(n: nat, next: (nat, Axis) -> Option<nat>, prev: (nat, Axis) -> Option<nat>,
                           weight: (nat, Axis) -> real, surplus: nat -> real)

  /** Up and down are inverse to each other. */
  ghost predicate Wired(w: Wiring) {
    && (forall i: nat, a :: i < w.n && w.next(i, a).Some? ==> w.next(i, a).value < w.n)
    && (forall i: nat, j: nat, a :: i < w.n && j < w.n ==> (w.next(i, a) == Some(j) <==> w.prev(j, a) == Some(i)))
    && (forall j: nat, a :: j < w.n && w.prev(j, a).Some? ==> w.prev(j, a).value < w.n)
  }

  /** The coefficient in the upper slot of an axis. */
  function High(w: Wiring, i: nat, a: Axis): real {
    if w.next(i, a).Some? then w.weight(i, a) else 0.0
  }

  /** The coefficient in the lower slot: the weight of the edge that comes from below. */
  function Low(w: Wiring, i: nat, a: Axis): real {
    if w.prev(i, a).Some? then w.weight(w.prev(i, a).value, a) else 0.0
  }

  function Diagonal(w: Wiring, i: nat): real {
    Low(w, i, X) + High(w, i, X) + Low(w, i, Y) + High(w, i, Y) + Low(w, i, Z) + High(w, i, Z) + w.surplus(i)
  }

  /** The value at the end of a slot's edge, zero where there is none. */
  function NextValue(w: Wiring, x: nat -> real, i: nat, a: Axis): real {
    if w.next(i, a).Some? then x(w.next(i, a).value) else 0.0
  }

  function PrevValue(w: Wiring, x: nat -> real, i: nat, a: Axis): real {
    if w.prev(i, a).Some? then x(w.prev(i, a).value) else 0.0
  }

  /** What the two slots of an axis contribute to the off-diagonal sum. */
  function Coupled(w: Wiring, x: nat -> real, i: nat, a: Axis): real {
    Low(w, i, a) * PrevValue(w, x, i, a) + High(w, i, a) * NextValue(w, x, i, a)
  }

  /** Row i of the unscaled matrix applied to x. */
  function Apply(w: Wiring, x: nat -> real, i: nat): real {
    Diagonal(w, i) * x(i) - (Coupled(w, x, i, X) + Coupled(w, x, i, Y) + Coupled(w, x, i, Z))
  }

  // ----- symmetry

  /** How much a cell is coupled to another along an axis; an axis of length two couples them twice. */
  function Link(w: Wiring, i: nat, j: nat, a: Axis): real {
    (if w.prev(i, a) == Some(j) then Low(w, i, a) else 0.0) + (if w.next(i, a) == Some(j) then High(w, i, a) else 0.0)
  }

  function Element(w: Wiring, i: nat, j: nat): real {
    (if i == j then Diagonal(w, i) else 0.0) - (Link(w, i, j, X) + Link(w, i, j, Y) + Link(w, i, j, Z))
  }

  lemma LinkSymmetric(w: Wiring, i: nat, j: nat, a: Axis)
    requires Wired(w) && i < w.n && j < w.n
    ensures Link(w, i, j, a) == Link(w, j, i, a)
  {
    assert w.next(i, a) == Some(j) <==> w.prev(j, a) == Some(i);
    assert w.next(j, a) == Some(i) <==> w.prev(i, a) == Some(j);
  }

  /** The unscaled matrix is symmetric. */
  lemma MatrixSymmetric(w: Wiring, i: nat, j: nat)
    requires Wired(w) && i < w.n && j < w.n
    ensures Element(w, i, j) == Element(w, j, i)
  {
    LinkSymmetric(w, i, j, X);
    LinkSymmetric(w, i, j, Y);
    LinkSymmetric(w, i, j, Z);
  }

  // ----- energy

  /** The share of a slot in a row of the form: its coefficient, the difference across its edge, and the value here. */
  function Share(k: real, u: real, v: real): real {
    k * (u - v) * u
  }

  ghost function UpTerm(w: Wiring, x: nat -> real, a: Axis): int -> real {
    i => if 0 <= i < w.n then Share(High(w, i, a), x(i), NextValue(w, x, i, a)) else 0.0
  }

  ghost function DownTerm(w: Wiring, x: nat -> real, a: Axis): int -> real {
    i => if 0 <= i < w.n then Share(Low(w, i, a), x(i), PrevValue(w, x, i, a)) else 0.0
  }

  /** The energy of an edge: its weight times the squared difference across it. */
  function Spring(k: real, u: real, v: real): real {
    k * ((u - v) * (u - v))
  }

  ghost function EdgeEnergy(w: Wiring, x: nat -> real, a: Axis): int -> real {
    i => if 0 <= i < w.n && w.next(i, a).Some? then Spring(w.weight(i, a), x(i), x(w.next(i, a).value)) else 0.0
  }

  ghost function SurplusEnergy(w: Wiring, x: nat -> real): int -> real {
    i => if 0 <= i < w.n then w.surplus(i) * (x(i) * x(i)) else 0.0
  }

  ghost function Energy(w: Wiring, x: nat -> real): real {
    Sum(w.n, SurplusEnergy(w, x)) + Sum(w.n, EdgeEnergy(w, x, X)) + Sum(w.n, EdgeEnergy(w, x, Y))
    + Sum(w.n, EdgeEnergy(w, x, Z))
  }

  /** A quantity of edges, filed under both its ends; under its lower end; under its upper end. */
  ghost function Filed(w: Wiring, a: Axis, h: (int, int) -> real): (int, int) -> real {
    (i, j) => if 0 <= i < w.n && 0 <= j < w.n && w.next(i, a) == Some(j) then h(i, j) else 0.0
  }

  ghost function ByNext(w: Wiring, a: Axis, h: (int, int) -> real): int -> real {
    i => if 0 <= i < w.n && w.next(i, a).Some? then h(i, w.next(i, a).value) else 0.0
  }

  ghost function ByPrev(w: Wiring, a: Axis, h: (int, int) -> real): int -> real {
    j => if 0 <= j < w.n && w.prev(j, a).Some? then h(w.prev(j, a).value, j) else 0.0
  }

  ghost function FiledRow(f: (int, int) -> real, i: int): int -> real {
    j => f(i, j)
  }

  ghost function FiledColumn(f: (int, int) -> real, j: int): int -> real {
    i => f(i, j)
  }

  lemma RowOfFiled(w: Wiring, a: Axis, h: (int, int) -> real, i: nat)
    requires Wired(w) && i < w.n
    ensures Sum(w.n, FiledRow(Filed(w, a, h), i)) == ByNext(w, a, h)(i)
  {
    var row := FiledRow(Filed(w, a, h), i);
    if w.next(i, a).Some? {
      SumSingle(w.n, w.next(i, a).value, row);
    } else {
      SumZero(w.n, row);
    }
  }

  lemma ColumnOfFiled(w: Wiring, a: Axis, h: (int, int) -> real, j: nat)
    requires Wired(w) && j < w.n
    ensures Sum(w.n, FiledColumn(Filed(w, a, h), j)) == ByPrev(w, a, h)(j)
  {
    var column := FiledColumn(Filed(w, a, h), j);
    forall i | 0 <= i < w.n && w.prev(j, a) != Some(i)
      ensures column(i) == 0.0
    {
      assert w.next(i, a) == Some(j) <==> w.prev(j, a) == Some(i);
    }
    if w.prev(j, a).Some? {
      assert w.next(w.prev(j, a).value, a) == Some(j);
      SumSingle(w.n, w.prev(j, a).value, column);
    } else {
      SumZero(w.n, column);
    }
  }

  /** The lower slots hold the same edges as the upper ones. */
  lemma SameEdges(w: Wiring, a: Axis, h: (int, int) -> real)
    requires Wired(w)
    ensures Sum(w.n, ByPrev(w, a, h)) == Sum(w.n, ByNext(w, a, h))
  {
    var f := Filed(w, a, h);
    forall i | 0 <= i < w.n
      ensures ByNext(w, a, h)(i) == Sum(w.n, j => f(i, j))
    {
      RowOfFiled(w, a, h, i);
      SumCongruent(w.n, j => f(i, j), FiledRow(f, i));
    }
    forall j | 0 <= j < w.n
      ensures Sum(w.n, i => f(i, j)) == ByPrev(w, a, h)(j)
    {
      ColumnOfFiled(w, a, h, j);
      SumCongruent(w.n, i => f(i, j), FiledColumn(f, j));
    }
    SumOfParts(w.n, w.n, f, ByNext(w, a, h), ByPrev(w, a, h));
  }

  /** The upper end's share of an edge. */
  ghost function UpperShare(w: Wiring, x: nat -> real, a: Axis): (int, int) -> real {
    (i, j) => if i >= 0 && j >= 0 then Share(w.weight(i, a), x(j), x(i)) else 0.0
  }

  lemma NoShare(u: real, v: real)
    ensures Share(0.0, u, v) == 0.0
  {
  }

  lemma DownIsByPrev(w: Wiring, x: nat -> real, a: Axis)
    ensures Sum(w.n, DownTerm(w, x, a)) == Sum(w.n, ByPrev(w, a, UpperShare(w, x, a)))
  {
    forall j | 0 <= j < w.n
      ensures DownTerm(w, x, a)(j) == ByPrev(w, a, UpperShare(w, x, a))(j)
    {
      NoShare(x(j), PrevValue(w, x, j, a));
      assert DownTerm(w, x, a)(j) == Share(Low(w, j, a), x(j), PrevValue(w, x, j, a));
    }
    SumCongruent(w.n, DownTerm(w, x, a), ByPrev(w, a, UpperShare(w, x, a)));
  }

  lemma TwoEnds(k: real, u: real, v: real)
    ensures Share(k, u, v) + Share(k, v, u) == Spring(k, u, v)
  {
    assert k * (u - v) * u + k * (v - u) * v == k * ((u - v) * (u - v));
  }

  lemma EdgeOfEnds(w: Wiring, x: nat -> real, a: Axis, i: nat)
    requires i < w.n
    ensures EdgeEnergy(w, x, a)(i) == UpTerm(w, x, a)(i) + ByNext(w, a, UpperShare(w, x, a))(i)
  {
    NoShare(x(i), NextValue(w, x, i, a));
    if w.next(i, a).Some? {
      TwoEnds(w.weight(i, a), x(i), x(w.next(i, a).value));
    }
  }

  /** Both ends' shares of an axis make up the energy of its edges. */
  lemma AxisEnergy(w: Wiring, x: nat -> real, a: Axis)
    requires Wired(w)
    ensures Sum(w.n, UpTerm(w, x, a)) + Sum(w.n, DownTerm(w, x, a)) == Sum(w.n, EdgeEnergy(w, x, a))
  {
    var h := UpperShare(w, x, a);
    DownIsByPrev(w, x, a);
    SameEdges(w, a, h);
    forall i | 0 <= i < w.n
      ensures EdgeEnergy(w, x, a)(i) == UpTerm(w, x, a)(i) + ByNext(w, a, h)(i)
    {
      EdgeOfEnds(w, x, a, i);
    }
    SumGains(w.n, UpTerm(w, x, a), ByNext(w, a, h), EdgeEnergy(w, x, a));
  }

  ghost function RowForm(w: Wiring, x: nat -> real): int -> real {
    i => if 0 <= i < w.n then x(i) * Apply(w, x, i) else 0.0
  }

  /** x transposed, times the matrix, times x. */
  ghost function QuadraticForm(w: Wiring, x: nat -> real): real {
    Sum(w.n, RowForm(w, x))
  }

  ghost function AxisTerm(w: Wiring, x: nat -> real, a: Axis): int -> real {
    i => UpTerm(w, x, a)(i) + DownTerm(w, x, a)(i)
  }

  lemma AxisAlgebra(l: real, h: real, u: real, t: real, v: real)
    ensures Share(h, u, v) + Share(l, u, t) == u * ((l + h) * u - (l * t + h * v))
  {
    assert h * (u - v) * u == u * (h * u) - u * (h * v);
    assert l * (u - t) * u == u * (l * u) - u * (l * t);
    assert (l + h) * u == l * u + h * u;
    assert u * (l * u + h * u - (l * t + h * v)) == u * (l * u) + u * (h * u) - u * (l * t) - u * (h * v);
  }

  lemma SumOfRow(l0: real, l1: real, l2: real, s: real, c0: real, c1: real, c2: real, u: real)
    ensures u * ((l0 + l1 + l2 + s) * u - (c0 + c1 + c2))
            == s * (u * u) + u * (l0 * u - c0) + u * (l1 * u - c1) + u * (l2 * u - c2)
  {
    assert (l0 + l1 + l2 + s) * u == l0 * u + l1 * u + l2 * u + s * u;
    assert u * (l0 * u + l1 * u + l2 * u + s * u - (c0 + c1 + c2))
        == u * (l0 * u - c0) + u * (l1 * u - c1) + u * (l2 * u - c2) + u * (s * u);
    assert u * (s * u) == s * (u * u);
  }

  /** A row of the form, over plain numbers: coefficients below and above on each axis, and the values they meet. */
  lemma RowAlgebra(u: real, s: real, l0: real, h0: real, t0: real, v0: real, l1: real, h1: real, t1: real, v1: real,
                   l2: real, h2: real, t2: real, v2: real, diagonal: real, c0: real, c1: real, c2: real, row: real)
    requires diagonal == l0 + h0 + l1 + h1 + l2 + h2 + s && row == diagonal * u - (c0 + c1 + c2)
    requires c0 == l0 * t0 + h0 * v0 && c1 == l1 * t1 + h1 * v1 && c2 == l2 * t2 + h2 * v2
    ensures u * row == s * (u * u) + (Share(h0, u, v0) + Share(l0, u, t0)) + (Share(h1, u, v1) + Share(l1, u, t1))
                       + (Share(h2, u, v2) + Share(l2, u, t2))
  {
    assert row == ((l0 + h0) + (l1 + h1) + (l2 + h2) + s) * u - (c0 + c1 + c2);
    SumOfRow(l0 + h0, l1 + h1, l2 + h2, s, c0, c1, c2, u);
    AxisAlgebra(l0, h0, u, t0, v0);
    AxisAlgebra(l1, h1, u, t1, v1);
    AxisAlgebra(l2, h2, u, t2, v2);
  }

  lemma AxisTermAt(w: Wiring, x: nat -> real, i: nat, a: Axis)
    requires i < w.n
    ensures AxisTerm(w, x, a)(i) == Shares(w, x, i, a)
  {
    assert UpTerm(w, x, a)(i) == Share(High(w, i, a), x(i), NextValue(w, x, i, a));
    assert DownTerm(w, x, a)(i) == Share(Low(w, i, a), x(i), PrevValue(w, x, i, a));
  }

  function Shares(w: Wiring, x: nat -> real, i: nat, a: Axis): real {
    Share(High(w, i, a), x(i), NextValue(w, x, i, a)) + Share(Low(w, i, a), x(i), PrevValue(w, x, i, a))
  }

  lemma RowShares(w: Wiring, x: nat -> real, i: nat)
    ensures x(i) * Apply(w, x, i)
            == w.surplus(i) * (x(i) * x(i)) + Shares(w, x, i, X) + Shares(w, x, i, Y) + Shares(w, x, i, Z)
  {
    RowAlgebra(x(i), w.surplus(i),
               Low(w, i, X), High(w, i, X), PrevValue(w, x, i, X), NextValue(w, x, i, X),
               Low(w, i, Y), High(w, i, Y), PrevValue(w, x, i, Y), NextValue(w, x, i, Y),
               Low(w, i, Z), High(w, i, Z), PrevValue(w, x, i, Z), NextValue(w, x, i, Z),
               Diagonal(w, i), Coupled(w, x, i, X), Coupled(w, x, i, Y), Coupled(w, x, i, Z), Apply(w, x, i));
  }

  lemma RowOfForm(w: Wiring, x: nat -> real, i: nat)
    requires i < w.n
    ensures RowForm(w, x)(i)
            == SurplusEnergy(w, x)(i) + AxisTerm(w, x, X)(i) + AxisTerm(w, x, Y)(i) + AxisTerm(w, x, Z)(i)
  {
    RowShares(w, x, i);
    RowFrom(w, x, i, Shares(w, x, i, X), Shares(w, x, i, Y), Shares(w, x, i, Z));
    AxisTermAt(w, x, i, X);
    AxisTermAt(w, x, i, Y);
    AxisTermAt(w, x, i, Z);
  }

  lemma RowFrom(w: Wiring, x: nat -> real, i: nat, p: real, q: real, r: real)
    requires i < w.n && x(i) * Apply(w, x, i) == w.surplus(i) * (x(i) * x(i)) + p + q + r
    ensures RowForm(w, x)(i) == SurplusEnergy(w, x)(i) + p + q + r
  {
  }

  /** The quadratic form is the sum of weight times squared difference over the edges, plus surplus times square. */
  lemma FormIsEnergy(w: Wiring, x: nat -> real)
    requires Wired(w)
    ensures QuadraticForm(w, x) == Energy(w, x)
  {
    var s, tx, ty, tz := SurplusEnergy(w, x), AxisTerm(w, x, X), AxisTerm(w, x, Y), AxisTerm(w, x, Z);
    var sx, sxy := (i: int) => s(i) + tx(i), (i: int) => (s(i) + tx(i)) + ty(i);
    forall i | 0 <= i < w.n
      ensures RowForm(w, x)(i) == sxy(i) + tz(i)
    {
      RowOfForm(w, x, i);
    }
    SumGains(w.n, s, tx, sx);
    SumGains(w.n, sx, ty, sxy);
    SumGains(w.n, sxy, tz, RowForm(w, x));
    AxisSum(w, x, X);
    AxisSum(w, x, Y);
    AxisSum(w, x, Z);
  }

  lemma AxisSum(w: Wiring, x: nat -> real, a: Axis)
    requires Wired(w)
    ensures Sum(w.n, AxisTerm(w, x, a)) == Sum(w.n, EdgeEnergy(w, x, a))
  {
    SumGains(w.n, UpTerm(w, x, a), DownTerm(w, x, a), AxisTerm(w, x, a));
    AxisEnergy(w, x, a);
  }

  // ----- positive definiteness

  ghost predicate NonNegative(w: Wiring) {
    && (forall i: nat, a :: i < w.n && w.next(i, a).Some? ==> w.weight(i, a) >= 0.0)
    && (forall i: nat :: i < w.n ==> w.surplus(i) >= 0.0)
  }

  ghost predicate Vanishes(w: Wiring, x: nat -> real) {
    forall i: nat :: i < w.n ==> x(i) == 0.0
  }

  ghost predicate PositiveDefinite(w: Wiring) {
    forall x :: !Vanishes(w, x) ==> QuadraticForm(w, x) > 0.0
  }

  /** No edge of positive weight leaves the set, and nothing in it has surplus. */
  ghost predicate Floating(w: Wiring, cells: set<nat>) {
    && (forall i :: i in cells ==> i < w.n && w.surplus(i) == 0.0)
    && (forall i: nat, a :: i < w.n && w.next(i, a).Some? && w.weight(i, a) > 0.0 ==>
          (i in cells <==> w.next(i, a).value in cells))
  }

  /** No nonempty set of cells floats: every cell is tied, through positive weights, to some surplus. */
  ghost predicate Anchored(w: Wiring) {
    forall cells :: Floating(w, cells) ==> cells == {}
  }

  lemma SquareSign(k: real, u: real)
    ensures u * u >= 0.0 && (k >= 0.0 ==> k * (u * u) >= 0.0)
    ensures k * (u * u) == 0.0 ==> k == 0.0 || u == 0.0
  {
    NoZeroDivisors(k, u * u);
    NoZeroDivisors(u, u);
    Square(u);
    if k >= 0.0 {
      ProductSign(k, u * u);
    }
  }

  lemma ProductSign(a: real, b: real)
    requires a >= 0.0 && b >= 0.0
    ensures a * b >= 0.0
  {
  }

  lemma TermsNonNegative(w: Wiring, x: nat -> real, i: int, a: Axis)
    requires NonNegative(w) && 0 <= i < w.n
    ensures SurplusEnergy(w, x)(i) >= 0.0 && EdgeEnergy(w, x, a)(i) >= 0.0
  {
    SquareSign(w.surplus(i), x(i));
    if w.next(i, a).Some? {
      SquareSign(w.weight(i, a), x(i) - x(w.next(i, a).value));
    }
  }

  lemma {:induction false} ZeroTerms(n: nat, f: int -> real, k: nat)
    requires k < n && (forall i :: 0 <= i < n ==> f(i) >= 0.0)
    ensures Sum(n, f) >= f(k) >= 0.0
  {
    SumNonNegative(n - 1, f);
    if k < n - 1 {
      ZeroTerms(n - 1, f, k);
      assert f(n - 1) >= 0.0;
    }
  }

  lemma EnergyBounds(w: Wiring, x: nat -> real, i: nat, a: Axis)
    requires NonNegative(w) && i < w.n
    ensures Energy(w, x) >= SurplusEnergy(w, x)(i) >= 0.0 && Energy(w, x) >= EdgeEnergy(w, x, a)(i) >= 0.0
  {
    forall j | 0 <= j < w.n
      ensures SurplusEnergy(w, x)(j) >= 0.0 && EdgeEnergy(w, x, X)(j) >= 0.0
      ensures EdgeEnergy(w, x, Y)(j) >= 0.0 && EdgeEnergy(w, x, Z)(j) >= 0.0
    {
      TermsNonNegative(w, x, j, X);
      TermsNonNegative(w, x, j, Y);
      TermsNonNegative(w, x, j, Z);
    }
    ZeroTerms(w.n, SurplusEnergy(w, x), i);
    ZeroTerms(w.n, EdgeEnergy(w, x, X), i);
    ZeroTerms(w.n, EdgeEnergy(w, x, Y), i);
    ZeroTerms(w.n, EdgeEnergy(w, x, Z), i);
  }

  /** Where the energy vanishes, x is zero at surplus and equal across positive edges. */
  lemma ZeroEnergy(w: Wiring, x: nat -> real, i: nat, a: Axis)
    requires NonNegative(w) && i < w.n && Energy(w, x) <= 0.0
    ensures w.surplus(i) > 0.0 ==> x(i) == 0.0
    ensures w.next(i, a).Some? && w.weight(i, a) > 0.0 ==> x(i) == x(w.next(i, a).value)
  {
    EnergyBounds(w, x, i, a);
    SquareSign(w.surplus(i), x(i));
    if w.next(i, a).Some? {
      SquareSign(w.weight(i, a), x(i) - x(w.next(i, a).value));
    }
  }

  /** The cells where x has the same value as at k. */
  ghost function SameValue(w: Wiring, x: nat -> real, k: nat): set<nat> {
    set i: nat | i in Below(w.n) && x(i) == x(k)
  }

  lemma ZeroEnergyFloats(w: Wiring, x: nat -> real, k: nat)
    requires Wired(w) && NonNegative(w) && k < w.n && x(k) != 0.0 && Energy(w, x) <= 0.0
    ensures Floating(w, SameValue(w, x, k)) && k in SameValue(w, x, k)
  {
    var cells := SameValue(w, x, k);
    forall i | i in cells
      ensures i < w.n && w.surplus(i) == 0.0
    {
      BelowExactly(w.n);
      ZeroEnergy(w, x, i, X);
    }
    forall i: nat, a | i < w.n && w.next(i, a).Some? && w.weight(i, a) > 0.0
      ensures i in cells <==> w.next(i, a).value in cells
    {
      ZeroEnergy(w, x, i, a);
      BelowExactly(w.n);
    }
    BelowExactly(w.n);
  }

  ghost function Indicator(cells: set<nat>): nat -> real {
    (i: nat) => if i in cells then 1.0 else 0.0
  }

  lemma FloatingHasNoEnergy(w: Wiring, cells: set<nat>)
    requires Wired(w) && NonNegative(w) && Floating(w, cells)
    ensures Energy(w, Indicator(cells)) == 0.0
  {
    var x := Indicator(cells);
    forall i | 0 <= i < w.n
      ensures SurplusEnergy(w, x)(i) == 0.0 && EdgeEnergy(w, x, X)(i) == 0.0
      ensures EdgeEnergy(w, x, Y)(i) == 0.0 && EdgeEnergy(w, x, Z)(i) == 0.0
    {
      FloatingTerms(w, cells, i, X);
      FloatingTerms(w, cells, i, Y);
      FloatingTerms(w, cells, i, Z);
    }
    SumZero(w.n, SurplusEnergy(w, x));
    SumZero(w.n, EdgeEnergy(w, x, X));
    SumZero(w.n, EdgeEnergy(w, x, Y));
    SumZero(w.n, EdgeEnergy(w, x, Z));
  }

  lemma ZeroFactor(k: real, u: real)
    requires k == 0.0 || u == 0.0
    ensures k * (u * u) == 0.0
  {
  }

  lemma SurplusZero(w: Wiring, x: nat -> real, i: nat)
    requires i < w.n && (w.surplus(i) == 0.0 || x(i) == 0.0)
    ensures SurplusEnergy(w, x)(i) == 0.0
  {
    ZeroFactor(w.surplus(i), x(i));
  }

  lemma EdgeZero(w: Wiring, x: nat -> real, i: nat, a: Axis)
    requires i < w.n
    requires w.next(i, a).Some? ==> w.weight(i, a) == 0.0 || x(i) == x(w.next(i, a).value)
    ensures EdgeEnergy(w, x, a)(i) == 0.0
  {
    if w.next(i, a).Some? {
      ZeroFactor(w.weight(i, a), x(i) - x(w.next(i, a).value));
    }
  }

  lemma FloatingTerms(w: Wiring, cells: set<nat>, i: nat, a: Axis)
    requires Wired(w) && NonNegative(w) && Floating(w, cells) && i < w.n
    ensures SurplusEnergy(w, Indicator(cells))(i) == 0.0 && EdgeEnergy(w, Indicator(cells), a)(i) == 0.0
  {
    assert i in cells ==> w.surplus(i) == 0.0;
    SurplusZero(w, Indicator(cells), i);
    if w.next(i, a).Some? {
      assert w.weight(i, a) > 0.0 ==> (i in cells <==> w.next(i, a).value in cells);
    }
    EdgeZero(w, Indicator(cells), i, a);
  }

  /** Exactly when the system is positive definite: no nonempty set of cells floats. */
  lemma DefiniteExactly(w: Wiring)
    requires Wired(w) && NonNegative(w)
    ensures PositiveDefinite(w) <==> Anchored(w)
  {
    if PositiveDefinite(w) {
      forall cells | Floating(w, cells)
        ensures cells == {}
      {
        DefiniteAnchors(w, cells);
      }
    }
    if Anchored(w) {
      forall x | !Vanishes(w, x)
        ensures QuadraticForm(w, x) > 0.0
      {
        AnchoredDefinite(w, x);
      }
    }
  }

  lemma IndicatorNonzero(w: Wiring, cells: set<nat>)
    requires Floating(w, cells) && cells != {}
    ensures !Vanishes(w, Indicator(cells))
  {
    var i :| i in cells;
    assert Indicator(cells)(i) == 1.0;
  }

  lemma DefiniteAnchors(w: Wiring, cells: set<nat>)
    requires Wired(w) && NonNegative(w) && PositiveDefinite(w) && Floating(w, cells)
    ensures cells == {}
  {
    var x := Indicator(cells);
    FloatingHasNoEnergy(w, cells);
    FormIsEnergy(w, x);
    if cells != {} {
      IndicatorNonzero(w, cells);
    }
  }

  lemma AnchoredDefinite(w: Wiring, x: nat -> real)
    requires Wired(w) && NonNegative(w) && Anchored(w) && !Vanishes(w, x)
    ensures QuadraticForm(w, x) > 0.0
  {
    var k: nat :| k < w.n && x(k) != 0.0;
    FormIsEnergy(w, x);
    if Energy(w, x) <= 0.0 {
      ZeroEnergyFloats(w, x, k);
    }
  }

  // ----- the solution

  function Difference(x: nat -> real, y: nat -> real): nat -> real {
    (i: nat) => x(i) - y(i)
  }

  lemma DifferenceScaled(k: real, u: real, v: real)
    ensures k * (u - v) == k * u - k * v
  {
  }

  lemma CoupledDifference(w: Wiring, x: nat -> real, y: nat -> real, i: nat, a: Axis)
    ensures Coupled(w, Difference(x, y), i, a) == Coupled(w, x, i, a) - Coupled(w, y, i, a)
  {
    DifferenceScaled(Low(w, i, a), PrevValue(w, x, i, a), PrevValue(w, y, i, a));
    DifferenceScaled(High(w, i, a), NextValue(w, x, i, a), NextValue(w, y, i, a));
    assert PrevValue(w, Difference(x, y), i, a) == PrevValue(w, x, i, a) - PrevValue(w, y, i, a);
    assert NextValue(w, Difference(x, y), i, a) == NextValue(w, x, i, a) - NextValue(w, y, i, a);
  }

  lemma ApplyDifference(w: Wiring, x: nat -> real, y: nat -> real, i: nat)
    ensures Apply(w, Difference(x, y), i) == Apply(w, x, i) - Apply(w, y, i)
  {
    CoupledDifference(w, x, y, i, X);
    CoupledDifference(w, x, y, i, Y);
    CoupledDifference(w, x, y, i, Z);
    DifferenceScaled(Diagonal(w, i), x(i), y(i));
    assert Difference(x, y)(i) == x(i) - y(i);
  }

  /** A positive definite system has one solution: whatever agrees with the right-hand side of `exact` is `exact`. */
  lemma SolutionUnique(w: Wiring, exact: nat -> real, x: nat -> real)
    requires PositiveDefinite(w)
    requires forall i: nat :: i < w.n ==> Apply(w, x, i) == Apply(w, exact, i)
    ensures forall i: nat :: i < w.n ==> x(i) == exact(i)
  {
    var d := Difference(x, exact);
    forall i | 0 <= i < w.n
      ensures RowForm(w, d)(i) == 0.0
    {
      ApplyDifference(w, x, exact, i);
      assert RowForm(w, d)(i) == d(i) * Apply(w, d, i);
    }
    SumZero(w.n, RowForm(w, d));
    forall i: nat | i < w.n
      ensures x(i) == exact(i)
    {
      assert Vanishes(w, d);
      assert d(i) == 0.0;
    }
  }
}
