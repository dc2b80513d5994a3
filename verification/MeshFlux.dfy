/** Mass flux through the faces of the imported mesh. */
module MeshFlux {
  import opened GridOffsets
  import opened GridSums
  import opened GridTypes
  import opened MeshBlocks
  import opened MeshFaces
  import opened Options
  import opened Sums

  /** What the block holds of one cell; the density is reconstructed cell by cell. */
  datatype Sample = Sample(u: real, v: real, w: real, density: real, fluid: bool)

  const SOLID := Sample(0.0, 0.0, 0.0, 0.0, false)

  datatype Metrics = Metrics(centres: seq<real>, faces: seq<real>, widths: seq<real>)

  datatype Geometry = Geometry(x: Metrics, y: Metrics, z: Metrics)

  predicate MetricsOk(m: Metrics, n: int) {
    && |m.centres| == n && |m.faces| == n + 1 && |m.widths| == n
    && forall i :: 0 <= i < n ==> m.faces[i] < m.centres[i] < m.faces[i + 1]
  }

  predicate GeometryOk(g: Geometry, n: Int3) {
    MetricsOk(g.x, n.x) && MetricsOk(g.y, n.y) && MetricsOk(g.z, n.z)
  }

  function MetricsOf(g: Geometry, a: Axis): Metrics {
    match a
    case X => g.x
    case Y => g.y
    case Z => g.z
  }

  /** The velocity along an axis; a solid cell has none. */
  function Velocity(s: Sample, a: Axis): real {
    if !s.fluid then 0.0
    else
      match a
      case X => s.u
      case Y => s.v
      case Z => s.w
  }

  function Momentum(s: Sample, a: Axis): real {
    s.density * Velocity(s, a)
  }

  /** Momentum at an interior face: interpolated to the face between the two centres. */
  function Between(m: Metrics, face: int, left: real, right: real): real
    requires 0 < face < |m.centres| && MetricsOk(m, |m.centres|)
  {
    var leftDistance := m.faces[face] - m.centres[face - 1];
    var rightDistance := m.centres[face] - m.faces[face];
    assert m.faces[face - 1] < m.centres[face - 1] < m.faces[(face - 1) + 1];
    (rightDistance * left + leftDistance * right) / (leftDistance + rightDistance)
  }

  function Area(g: Geometry, n: Int3, a: Axis, f: Int3): real
    requires GeometryOk(g, n) && InGrid(FaceGrid(n, a), f)
  {
    match a
    case X => g.y.widths[f.y] * g.z.widths[f.z]
    case Y => g.x.widths[f.x] * g.z.widths[f.z]
    case Z => g.x.widths[f.x] * g.y.widths[f.y]
  }

  /** The flux through a face between two samples: one-sided at the two ends of the grid, none at a solid cell, and
      interpolated momentum elsewhere. */
  function FluxRule(g: Geometry, n: Int3, a: Axis, f: Int3, left: Sample, right: Sample): real
    requires GeometryOk(g, n) && InGrid(FaceGrid(n, a), f)
  {
    var face, area := Along(a, f), Area(g, n, a, f);
    if face == 0 then if !right.fluid then 0.0 else Momentum(right, a) * area
    else if face == Along(a, n) then if !left.fluid then 0.0 else Momentum(left, a) * area
    else if !left.fluid || !right.fluid then 0.0
    else Between(MetricsOf(g, a), face, Momentum(left, a), Momentum(right, a)) * area
  }

  lemma OneSided(g: Geometry, n: Int3, a: Axis, f: Int3, left: Sample, right: Sample, other: Sample)
    requires GeometryOk(g, n) && InGrid(FaceGrid(n, a), f) && Along(a, n) > 0
    ensures Along(a, f) == 0 ==> FluxRule(g, n, a, f, other, right) == FluxRule(g, n, a, f, left, right)
    ensures Along(a, f) == Along(a, n) ==> FluxRule(g, n, a, f, left, other) == FluxRule(g, n, a, f, left, right)
  {
  }

  // ----- the reference: the flux as a function of the global field

  function GlobalFlux(field: Int3 -> Sample, g: Geometry, n: Int3, a: Axis, f: Int3): real
    requires GeometryOk(g, n) && InGrid(FaceGrid(n, a), f)
  {
    FluxRule(g, n, a, f, field(Step(a, f, -1)), field(f))
  }

  ghost function GlobalFluxes(field: Int3 -> Sample, g: Geometry, n: Int3, a: Axis): Int3 -> real
    requires GeometryOk(g, n)
  {
    f => if InGrid(FaceGrid(n, a), f) then GlobalFlux(field, g, n, a, f) else 0.0
  }

  // ----- the rank's own computation

  datatype Block = Block(box: Patch, samples: seq<Sample>)

  predicate BlockSized(b: Block) {
    NonEmpty(b.box) && |b.samples| == Volume(b.box.cells)
  }

  function At(b: Block, c: Int3): Sample
    requires BlockSized(b) && OwnsCell(b.box, c)
  {
    OffsetInRange(b.box.cells, Minus(c, b.box.begin));
    b.samples[Offset(b.box.cells, Minus(c, b.box.begin))]
  }

  /** The block holds the global field. */
  ghost predicate Holds(b: Block, field: Int3 -> Sample) {
    BlockSized(b) && forall c :: OwnsCell(b.box, c) ==> At(b, c) == field(c)
  }

  /** A cell as stored, with the byte that says whether it is fluid. */
  datatype Stored = Stored(u: real, v: real, w: real, density: real, marker: nat)

  const NOTHING := Stored(0.0, 0.0, 0.0, 0.0, 0)

  function SampleOf(s: Stored): Sample {
    Sample(s.u, s.v, s.w, s.density, s.marker == 1)
  }

  /** The field a file of the grid's size stores. */
  ghost function StoredField(file: seq<Stored>, n: Int3): Int3 -> Sample
    requires |file| == Volume(n)
  {
    c => SampleOf(FileValue(file, n, NOTHING, c))
  }

  /** The file has the grid's size, and every cell of the block is marked solid or fluid. */
  ghost predicate Readable(file: seq<Stored>, n: Int3, p: Patch) {
    |file| == Volume(n) && forall c :: OwnsCell(BlockBox(n, p), c) ==> FileValue(file, n, NOTHING, c).marker <= 1
  }

  /** Reading the block from the global file. */
  method ReadSource(file: seq<Stored>, n: Int3, p: Patch) returns (b: Option<Block>)
    requires Inside(n, p) && NonEmpty(p)
    ensures b.Some? <==> Readable(file, n, p)
    ensures b.Some? ==> b.value.box == BlockBox(n, p) && Holds(b.value, StoredField(file, n))
  {
    if |file| != Volume(n) {
      return None;
    }
    BlockInside(n, p);
    var box := BlockBox(n, p);
    var values := FillBox(box.cells, box.begin, FileField(file, n, NOTHING));
    forall c | OwnsCell(box, c)
      ensures StoredBy(values[..], box, FileField(file, n, NOTHING), c)
    {
      FilledAt(values[..], box.cells, box.begin, FileField(file, n, NOTHING), Minus(c, box.begin));
      assert Plus(box.begin, Minus(c, box.begin)) == c;
    }
    var samples: seq<Sample> := [];
    var k := 0;
    while k < values.Length
      invariant 0 <= k <= values.Length && |samples| == k
      invariant forall j :: 0 <= j < k ==> values[j].marker <= 1 && samples[j] == SampleOf(values[j])
    {
      if values[k].marker > 1 {
        MarkerOfCell(values[..], box, file, n, k);
        return None;
      }
      samples := samples + [SampleOf(values[k])];
      k := k + 1;
    }
    b := Some(Block(box, samples));
    forall c | OwnsCell(box, c)
      ensures FileValue(file, n, NOTHING, c).marker <= 1 && At(b.value, c) == StoredField(file, n)(c)
    {
      assert StoredBy(values[..], box, FileField(file, n, NOTHING), c);
    }
  }

  ghost predicate StoredBy(values: seq<Stored>, box: Patch, f: Int3 -> Stored, c: Int3) {
    && 0 <= Offset(box.cells, Minus(c, box.begin)) < |values|
    && values[Offset(box.cells, Minus(c, box.begin))] == f(c)
  }

  /** A value of the block that is not a marker shows a cell of the block that is not marked. */
  lemma MarkerOfCell(values: seq<Stored>, box: Patch, file: seq<Stored>, n: Int3, k: nat)
    requires NonEmpty(box) && k < |values| == Volume(box.cells) && |file| == Volume(n)
    requires FilledTo(values, box.cells, box.begin, FileField(file, n, NOTHING), Volume(box.cells))
    ensures exists c :: OwnsCell(box, c) && FileValue(file, n, NOTHING, c) == values[k]
  {
    OffsetCellAt(box.cells, k);
    var c := Plus(box.begin, CellAt(box.cells, k));
    assert OwnsCell(box, c);
  }

  /** The faces whose flux a rank computes: those of its own cells, on both sides. */
  function RankFaces(p: Patch, a: Axis): Patch {
    Patch(p.begin, Step(a, p.cells, 1))
  }

  /** The source's face flux, from the block. All the cells it reads are in the block. */
  function FaceFlux(b: Block, g: Geometry, n: Int3, p: Patch, a: Axis, f: Int3): real
    requires Inside(n, p) && NonEmpty(p) && GeometryOk(g, n) && BlockSized(b) && b.box == BlockBox(n, p)
    requires OwnsCell(RankFaces(p, a), f)
  {
    FaceCellsInBlock(n, p, a, f);
    var left := if Along(a, f) == 0 then SOLID else At(b, Step(a, f, -1));
    var right := if Along(a, f) == Along(a, n) then SOLID else At(b, f);
    FluxRule(g, n, a, f, left, right)
  }

  /** Whichever rank computes it, from whatever block, the flux through a face is the global one. */
  lemma FluxIsGlobal(b: Block, field: Int3 -> Sample, g: Geometry, n: Int3, p: Patch, a: Axis, f: Int3)
    requires Inside(n, p) && NonEmpty(p) && GeometryOk(g, n) && b.box == BlockBox(n, p) && Holds(b, field)
    requires OwnsCell(RankFaces(p, a), f)
    ensures InGrid(FaceGrid(n, a), f) && FaceFlux(b, g, n, p, a, f) == GlobalFlux(field, g, n, a, f)
  {
    FaceCellsInBlock(n, p, a, f);
    var left, right := field(Step(a, f, -1)), field(f);
    OneSided(g, n, a, f, left, right, SOLID);
  }

  /** Two ranks that share a face compute the same flux through it. */
  lemma SharedFacesAgree(b: Block, b': Block, field: Int3 -> Sample, g: Geometry, n: Int3, p: Patch, p': Patch, a: Axis,
                         f: Int3)
    requires Inside(n, p) && NonEmpty(p) && Inside(n, p') && NonEmpty(p') && GeometryOk(g, n)
    requires b.box == BlockBox(n, p) && b'.box == BlockBox(n, p') && Holds(b, field) && Holds(b', field)
    requires OwnsCell(RankFaces(p, a), f) && OwnsCell(RankFaces(p', a), f)
    ensures FaceFlux(b, g, n, p, a, f) == FaceFlux(b', g, n, p', a, f)
  {
    FluxIsGlobal(b, field, g, n, p, a, f);
    FluxIsGlobal(b', field, g, n, p', a, f);
  }

  /** No flux crosses a face of a solid cell. */
  lemma SolidFacesClosed(field: Int3 -> Sample, g: Geometry, n: Int3, a: Axis, f: Int3)
    requires GeometryOk(g, n) && InGrid(FaceGrid(n, a), f)
    ensures InGrid(n, f) && !field(f).fluid ==> GlobalFlux(field, g, n, a, f) == 0.0
    ensures InGrid(n, Step(a, f, -1)) && !field(Step(a, f, -1)).fluid ==> GlobalFlux(field, g, n, a, f) == 0.0
  {
  }

  function RankFluxes(b: Block, g: Geometry, n: Int3, p: Patch, a: Axis): Int3 -> real
    requires Inside(n, p) && NonEmpty(p) && GeometryOk(g, n) && BlockSized(b) && b.box == BlockBox(n, p)
  {
    f => if OwnsCell(RankFaces(p, a), f) then FaceFlux(b, g, n, p, a, f) else 0.0
  }

  /** The values a rank stores for an axis, by global face. */
  ghost predicate Stores(values: seq<real>, p: Patch, a: Axis, flux: Int3 -> real) {
    && |values| == Volume(Step(a, p.cells, 1)) && NonEmpty(p)
    && forall l :: InGrid(Step(a, p.cells, 1), l) ==> StoredAt(values, p, a, l) == flux(Plus(p.begin, l))
  }

  function StoredAt(values: seq<real>, p: Patch, a: Axis, l: Int3): real
    requires |values| == Volume(Step(a, p.cells, 1)) && InGrid(Step(a, p.cells, 1), l)
  {
    OffsetInRange(Step(a, p.cells, 1), l);
    values[Offset(Step(a, p.cells, 1), l)]
  }

  /** The face loop of one axis: every face of the rank's cells gets the global flux. */
  method FillFlux(b: Block, ghost field: Int3 -> Sample, g: Geometry, n: Int3, p: Patch, a: Axis)
    returns (values: array<real>)
    requires Inside(n, p) && NonEmpty(p) && GeometryOk(g, n) && b.box == BlockBox(n, p) && Holds(b, field)
    ensures fresh(values) && Stores(values[..], p, a, GlobalFluxes(field, g, n, a))
  {
    var extents := Step(a, p.cells, 1);
    values := FillBox(extents, p.begin, RankFluxes(b, g, n, p, a));
    forall l | InGrid(extents, l)
      ensures StoredAt(values[..], p, a, l) == GlobalFluxes(field, g, n, a)(Plus(p.begin, l))
    {
      FilledAt(values[..], extents, p.begin, RankFluxes(b, g, n, p, a), l);
      FluxIsGlobal(b, field, g, n, p, a, Plus(p.begin, l));
    }
  }

  // ----- the divergence of what the ranks store

  predicate Sized(values: seq<real>, p: Patch, a: Axis) {
    |values| == Volume(Step(a, p.cells, 1))
  }

  /** What a rank finds leaving one of its cells along an axis, from its stored values. */
  ghost function StoredOutflow(values: seq<real>, p: Patch, a: Axis): Int3 -> real {
    c => if Sized(values, p, a) && OwnsCell(p, c)
         then StoredAt(values, p, a, Minus(Step(a, c, 1), p.begin)) - StoredAt(values, p, a, Minus(c, p.begin))
         else 0.0
  }

  lemma StoredIsOutflow(values: seq<real>, p: Patch, a: Axis, flux: Int3 -> real, c: Int3)
    requires Stores(values, p, a, flux) && OwnsCell(p, c)
    ensures StoredOutflow(values, p, a)(c) == AxisOutflow(flux, a)(c)
  {
    var low, high := Minus(c, p.begin), Minus(Step(a, c, 1), p.begin);
    assert StoredAt(values, p, a, low) == flux(Plus(p.begin, low)) && Plus(p.begin, low) == c;
    assert StoredAt(values, p, a, high) == flux(Plus(p.begin, high)) && Plus(p.begin, high) == Step(a, c, 1);
  }

  /** One stored array per axis. */
  datatype Image = Image(x: seq<real>, y: seq<real>, z: seq<real>)

  ghost predicate StoresAll(i: Image, p: Patch, flux: Axis -> Int3 -> real) {
    Stores(i.x, p, X, flux(X)) && Stores(i.y, p, Y, flux(Y)) && Stores(i.z, p, Z, flux(Z))
  }

  /** The divergence a rank computes from its own stored faces. */
  ghost function StoredDivergence(i: Image, p: Patch): Int3 -> real {
    c => StoredOutflow(i.x, p, X)(c) + StoredOutflow(i.y, p, Y)(c) + StoredOutflow(i.z, p, Z)(c)
  }

  lemma StoredDivergenceAt(i: Image, p: Patch, flux: Axis -> Int3 -> real, c: Int3)
    requires StoresAll(i, p, flux) && OwnsCell(p, c)
    ensures StoredDivergence(i, p)(c) == Divergence(flux)(c)
  {
    StoredIsOutflow(i.x, p, X, flux(X), c);
    StoredIsOutflow(i.y, p, Y, flux(Y), c);
    StoredIsOutflow(i.z, p, Z, flux(Z), c);
  }

  lemma BoxPointwise(p: Patch, f: Int3 -> real, h: Int3 -> real)
    requires forall c :: OwnsCell(p, c) ==> f(c) == h(c)
    ensures BoxSum(p, f) == BoxSum(p, h)
  {
    BoxCongruent(p, p, f, h);
  }

  lemma StoredBoxSum(i: Image, p: Patch, flux: Axis -> Int3 -> real)
    requires StoresAll(i, p, flux)
    ensures BoxSum(p, StoredDivergence(i, p)) == BoxSum(p, Divergence(flux))
  {
    var f, h := StoredDivergence(i, p), Divergence(flux);
    forall c | OwnsCell(p, c)
      ensures f(c) == h(c)
    {
      StoredDivergenceAt(i, p, flux, c);
    }
    BoxPointwise(p, f, h);
  }

  ghost function StoredSums(tiling: seq<Patch>, images: seq<Image>): int -> real {
    r => if 0 <= r < |tiling| && r < |images| then BoxSum(tiling[r], StoredDivergence(images[r], tiling[r])) else 0.0
  }

  /** The divergences the ranks compute from their own arrays add up, over all ranks, to the flux through the outer
      boundary of the domain. */
  lemma ImportedMassBalance(n: Int3, tiling: seq<Patch>, images: seq<Image>, flux: Axis -> Int3 -> real)
    requires Tiles(n, tiling) && n.x >= 0 && n.y >= 0 && n.z >= 0 && |images| == |tiling|
    requires forall r :: 0 <= r < |tiling| ==> StoresAll(images[r], tiling[r], flux)
    ensures Sum(|tiling|, StoredSums(tiling, images))
            == ThroughBoundary(n, flux(X), X) + ThroughBoundary(n, flux(Y), Y) + ThroughBoundary(n, flux(Z), Z)
  {
    forall r | 0 <= r < |tiling|
      ensures StoredSums(tiling, images)(r) == RankSums(tiling, Divergence(flux))(r)
    {
      StoredBoxSum(images[r], tiling[r], flux);
    }
    SumCongruent(|tiling|, StoredSums(tiling, images), RankSums(tiling, Divergence(flux)));
    DivergenceIsBoundaryFlux(n, tiling, flux);
  }
}
