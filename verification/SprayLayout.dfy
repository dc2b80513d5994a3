/** The records of a spray restart as counters, tables and particles. */
module SprayLayout {
  import opened Bytes
  import opened Options

  /** A binary32 value; its rounding is not modelled. */
  datatype Number = Finite(value: real) | NonFinite

  /** How a 32-bit word is read as a number. */
  type Reading = nat -> Number

  datatype Shape = Shape(x: int, y: int, z: int)

  predicate ShapeOk(s: Shape) {
    s.x >= 3 && s.y >= 3 && s.z >= 3
  }

  function Cells(s: Shape): (n: nat)
    requires ShapeOk(s)
    ensures n > 0
  {
    CellsPositive(s);
    s.x * s.y * s.z
  }

  lemma CellsPositive(s: Shape)
    requires ShapeOk(s)
    ensures s.x * s.y * s.z > 0
  {
    assert s.x * s.y > 0;
  }

  datatype Particle = Particle(position: seq<Number>, velocity: seq<Number>, diameter: Number, weight: Number,
                               temperature: Number, history: seq<Number>)

  /** A pending child and the cell label it stores as a real. */
  datatype Daughter = Daughter(particle: Particle, cellLabel: Number)

  datatype Layout = Layout(npar: nat, npout: nat, step: nat, injected: nat, added: nat, excess: real,
                           point: seq<int>, index: seq<int>, cellIndex: seq<int>, retired: seq<int>,
                           parts: seq<Particle>, daughters: seq<Daughter>)

  function Signed(word: nat): int {
    if word < 0x8000_0000 then word else word - 0x1_0000_0000
  }

  function Words(record: seq<Byte>): (r: seq<nat>)
    ensures |r| == |record| / 4
  {
    seq(|record| / 4, i requires 0 <= i < |record| / 4 => ValueAt(record, 4 * i, 4))
  }

  function Ints(record: seq<Byte>): (r: seq<int>)
    ensures |r| == |record| / 4
  {
    var words := Words(record);
    seq(|words|, i requires 0 <= i < |words| => Signed(words[i]))
  }

  function Numbers(record: seq<Byte>, read: Reading): (r: seq<Number>)
    ensures |r| == |record| / 4
  {
    var words := Words(record);
    seq(|words|, i requires 0 <= i < |words| => read(words[i]))
  }

  /** Slot s, counted from zero: 22 numbers of state and 3 of position. */
  function PartAt(state: seq<Number>, place: seq<Number>, s: nat): Particle
    requires 22 * s + 22 <= |state| && 3 * s + 3 <= |place|
  {
    var part := state[22 * s..22 * s + 22];
    Particle(place[3 * s..3 * s + 3], part[..3], part[3], part[4], part[5], part)
  }

  function DaughterOf(child: seq<Number>): Daughter
    requires |child| == 10
  {
    Daughter(Particle(child[..3], child[3..6], child[6], child[7], child[8], child), child[9])
  }

  predicate DaughterSize(r: seq<seq<Byte>>, i: nat) {
    8 + i < |r| && |r[8 + i]| == 40
  }

  /** The lengths the records must have, in bytes. */
  predicate LengthsOk(r: seq<seq<Byte>>, cells: nat, npar: nat, npout: nat, children: nat) {
    && |r| == 14 + children
    && (forall i: nat :: i < children ==> DaughterSize(r, i))
    && |r[8 + children]| == (cells + 2) * 4 && |r[9 + children]| == npar * 88 && |r[10 + children]| == npar * 4
    && |r[11 + children]| == npar * 4 && |r[12 + children]| == npar * 12 && |r[13 + children]| == npout * 4
  }

  predicate HeaderOk(r: seq<seq<Byte>>, cells: nat) {
    && |r| >= 14 && (forall i :: 0 <= i < 5 ==> |r[i]| == 4 * cells)
    && |r[5]| == 8 && |r[6]| == 16 && |r[7]| == 4
  }

  datatype Counters = Counters(npar: int, step: int, injected: int, added: int, npout: int, children: int,
                               excess: Number)

  function ReadCounters(r: seq<seq<Byte>>, cells: nat, read: Reading): Counters
    requires HeaderOk(r, cells)
  {
    var five, six := Ints(r[5]), Ints(r[6]);
    Counters(five[0], five[1], six[0], six[1], six[2], six[3], Numbers(r[7], read)[0])
  }

  predicate CountersOk(c: Counters) {
    && c.npar >= 0 && c.step >= 0 && c.injected >= 0 && c.added >= 0 && c.npout >= 0 && c.children >= 0
    && c.npout <= c.npar && c.excess.Finite?
  }

  function PartsOf(state: seq<Number>, place: seq<Number>, npar: nat): (r: seq<Particle>)
    requires |state| == 22 * npar && |place| == 3 * npar
    ensures |r| == npar
  {
    seq(npar, s requires 0 <= s < npar => PartAt(state, place, s))
  }

  function DaughtersOf(r: seq<seq<Byte>>, children: nat, read: Reading): (d: seq<Daughter>)
    requires forall i: nat :: i < children ==> DaughterSize(r, i)
    ensures |d| == children
  {
    seq(children, i requires 0 <= i < children => DaughterAt(r, i, read))
  }

  function DaughterAt(r: seq<seq<Byte>>, i: nat, read: Reading): Daughter
    requires DaughterSize(r, i)
  {
    DaughterOf(Numbers(r[8 + i], read))
  }

  function Tables(r: seq<seq<Byte>>, cells: nat, c: Counters, read: Reading): (l: Layout)
    requires CountersOk(c) && LengthsOk(r, cells, c.npar, c.npout, c.children)
    ensures Sized(l, cells) && l.npar == c.npar && l.npout == c.npout && |l.daughters| == c.children
  {
    var n := c.children;
    Layout(c.npar, c.npout, c.step, c.injected, c.added, c.excess.value,
           Ints(r[8 + n]), Ints(r[10 + n]), Ints(r[11 + n]), Ints(r[13 + n]),
           PartsOf(Numbers(r[9 + n], read), Numbers(r[12 + n], read), c.npar), DaughtersOf(r, n, read))
  }

  /** The sizes every layout has. */
  predicate Sized(l: Layout, cells: nat) {
    && l.npout <= l.npar && |l.point| == cells + 2 && |l.index| == l.npar && |l.cellIndex| == l.npar
    && |l.retired| == l.npout && |l.parts| == l.npar
  }

  /** The counters and tables of the records, if their sizes and counters are consistent. */
  function ReadLayout(r: seq<seq<Byte>>, cells: nat, read: Reading): (l: Option<Layout>)
    ensures l.Some? ==> Sized(l.value, cells)
  {
    if !HeaderOk(r, cells) then None
    else
      var c := ReadCounters(r, cells, read);
      if !CountersOk(c) || !LengthsOk(r, cells, c.npar, c.npout, c.children) then None
      else Some(Tables(r, cells, c, read))
  }

  // ----- what the tables hold, word by word

  function WordAt(record: seq<Byte>, i: nat): nat
    requires 4 * i + 4 <= |record|
  {
    ValueAt(record, 4 * i, 4)
  }

  /** A table of signed words. */
  ghost predicate IsTable(table: seq<int>, record: seq<Byte>) {
    |record| == 4 * |table| && forall k: nat :: k < |table| ==> table[k] == Signed(WordAt(record, k))
  }

  /** A particle's history is a run of numbers, and its named quantities are the first of them. */
  ghost predicate IsPart(p: Particle, state: seq<Byte>, place: seq<Byte>, s: nat, read: Reading) {
    && 88 * s + 88 <= |state| && 12 * s + 12 <= |place|
    && |p.history| == 22 && (forall k: nat :: k < 22 ==> p.history[k] == read(WordAt(state, 22 * s + k)))
    && |p.position| == 3 && (forall k: nat :: k < 3 ==> p.position[k] == read(WordAt(place, 3 * s + k)))
    && p.velocity == p.history[..3] && p.diameter == p.history[3] && p.weight == p.history[4]
    && p.temperature == p.history[5]
  }

  ghost predicate IsDaughter(d: Daughter, record: seq<Byte>, read: Reading) {
    var h := d.particle.history;
    && |record| == 40 && |h| == 10 && (forall k: nat :: k < 10 ==> h[k] == read(WordAt(record, k)))
    && d.particle.position == h[..3] && d.particle.velocity == h[3..6] && d.particle.diameter == h[6]
    && d.particle.weight == h[7] && d.particle.temperature == h[8] && d.cellLabel == h[9]
  }

  lemma IntsTable(record: seq<Byte>, count: nat)
    requires |record| == 4 * count
    ensures |Ints(record)| == count && IsTable(Ints(record), record)
  {
  }

  lemma PartRead(state: seq<Byte>, place: seq<Byte>, npar: nat, s: nat, read: Reading)
    requires |state| == npar * 88 && |place| == npar * 12 && s < npar
    ensures |Numbers(state, read)| == 22 * npar && |Numbers(place, read)| == 3 * npar
    ensures IsPart(PartAt(Numbers(state, read), Numbers(place, read), s), state, place, s, read)
  {
  }

  lemma DaughterRead(r: seq<seq<Byte>>, i: nat, read: Reading)
    requires DaughterSize(r, i)
    ensures IsDaughter(DaughterAt(r, i, read), r[8 + i], read)
  {
  }

  /** The header's words say how many records there are and how long each is. */
  ghost predicate Announced(r: seq<seq<Byte>>, cells: nat, l: Layout) {
    var n := |l.daughters|;
    && |r| == 14 + n && (forall i :: 0 <= i < 5 ==> |r[i]| == 4 * cells) && |r[5]| == 8 && |r[6]| == 16 && |r[7]| == 4
    && l.npar == Signed(WordAt(r[5], 0)) && l.step == Signed(WordAt(r[5], 1))
    && l.injected == Signed(WordAt(r[6], 0)) && l.added == Signed(WordAt(r[6], 1))
    && l.npout == Signed(WordAt(r[6], 2)) && n == Signed(WordAt(r[6], 3))
  }

  /** Every table of the layout, at its place in the records. */
  ghost predicate Holds(r: seq<seq<Byte>>, cells: nat, l: Layout, read: Reading) {
    var n := |l.daughters|;
    && Sized(l, cells) && Announced(r, cells, l) && read(WordAt(r[7], 0)) == Finite(l.excess)
    && IsTable(l.point, r[8 + n]) && IsTable(l.index, r[10 + n]) && IsTable(l.cellIndex, r[11 + n])
    && IsTable(l.retired, r[13 + n])
    && (forall s: nat :: s < l.npar ==> IsPart(l.parts[s], r[9 + n], r[12 + n], s, read))
    && |r[9 + n]| == 88 * l.npar && |r[12 + n]| == 12 * l.npar
    && (forall i: nat :: i < n ==> IsDaughter(l.daughters[i], r[8 + i], read))
  }

  /** A layout is read exactly if it is what the records hold; records that hold none are refused. */
  lemma LayoutExactly(r: seq<seq<Byte>>, cells: nat, read: Reading)
    ensures ReadLayout(r, cells, read).Some? ==> Holds(r, cells, ReadLayout(r, cells, read).value, read)
    ensures forall l :: Holds(r, cells, l, read) ==> ReadLayout(r, cells, read) == Some(l)
  {
    if ReadLayout(r, cells, read).Some? {
      TablesHold(r, cells, ReadCounters(r, cells, read), read);
    }
    forall l | Holds(r, cells, l, read)
      ensures ReadLayout(r, cells, read) == Some(l)
    {
      HeldIsRead(r, cells, l, read);
    }
  }

  lemma CountersAnnounced(r: seq<seq<Byte>>, cells: nat, c: Counters, read: Reading)
    requires HeaderOk(r, cells) && c == ReadCounters(r, cells, read) && CountersOk(c)
    requires LengthsOk(r, cells, c.npar, c.npout, c.children)
    ensures Announced(r, cells, Tables(r, cells, c, read))
    ensures read(WordAt(r[7], 0)) == Finite(Tables(r, cells, c, read).excess)
  {
    IntsTable(r[5], 2);
    IntsTable(r[6], 4);
  }

  lemma PartsHold(state: seq<Byte>, place: seq<Byte>, npar: nat, read: Reading)
    requires |state| == npar * 88 && |place| == npar * 12
    ensures |Numbers(state, read)| == 22 * npar && |Numbers(place, read)| == 3 * npar
    ensures var parts := PartsOf(Numbers(state, read), Numbers(place, read), npar);
            forall s: nat :: s < npar ==> IsPart(parts[s], state, place, s, read)
  {
    if npar > 0 {
      PartRead(state, place, npar, 0, read);
    }
    forall s: nat | s < npar
      ensures IsPart(PartAt(Numbers(state, read), Numbers(place, read), s), state, place, s, read)
    {
      PartRead(state, place, npar, s, read);
    }
  }

  lemma DaughtersHold(r: seq<seq<Byte>>, children: nat, read: Reading)
    requires |r| >= 8 + children
    requires forall i: nat :: i < children ==> DaughterSize(r, i)
    ensures forall i: nat :: i < children ==> IsDaughter(DaughtersOf(r, children, read)[i], r[8 + i], read)
  {
    forall i: nat | i < children
      ensures IsDaughter(DaughtersOf(r, children, read)[i], r[8 + i], read)
    {
      DaughterRead(r, i, read);
    }
  }

  lemma TablesHold(r: seq<seq<Byte>>, cells: nat, c: Counters, read: Reading)
    requires HeaderOk(r, cells) && c == ReadCounters(r, cells, read) && CountersOk(c)
    requires LengthsOk(r, cells, c.npar, c.npout, c.children)
    ensures Holds(r, cells, Tables(r, cells, c, read), read)
  {
    var n := c.children;
    CountersAnnounced(r, cells, c, read);
    IntsTable(r[8 + n], cells + 2);
    IntsTable(r[10 + n], c.npar);
    IntsTable(r[11 + n], c.npar);
    IntsTable(r[13 + n], c.npout);
    PartsHold(r[9 + n], r[12 + n], c.npar, read);
    DaughtersHold(r, n, read);
  }

  /** What the records hold at a place is settled by their bytes. */
  lemma HeldIsRead(r: seq<seq<Byte>>, cells: nat, l: Layout, read: Reading)
    requires Holds(r, cells, l, read)
    ensures ReadLayout(r, cells, read) == Some(l)
  {
    var n := |l.daughters|;
    var c := ReadCounters(r, cells, read);
    assert c.npar == l.npar && c.npout == l.npout && c.children == n;
    forall i: nat | i < n
      ensures DaughterSize(r, i)
    {
      assert IsDaughter(l.daughters[i], r[8 + i], read);
    }
    TablesHold(r, cells, c, read);
    SameHeld(r, cells, l, Tables(r, cells, c, read), read);
  }

  lemma SameTable(t: seq<int>, u: seq<int>, record: seq<Byte>)
    requires IsTable(t, record) && IsTable(u, record)
    ensures t == u
  {
  }

  lemma SamePart(p: Particle, q: Particle, state: seq<Byte>, place: seq<Byte>, s: nat, read: Reading)
    requires IsPart(p, state, place, s, read) && IsPart(q, state, place, s, read)
    ensures p == q
  {
    assert p.history == q.history && p.position == q.position;
  }

  lemma SameDaughter(d: Daughter, e: Daughter, record: seq<Byte>, read: Reading)
    requires IsDaughter(d, record, read) && IsDaughter(e, record, read)
    ensures d == e
  {
    assert d.particle.history == e.particle.history;
  }

  lemma SameHeld(r: seq<seq<Byte>>, cells: nat, l: Layout, m: Layout, read: Reading)
    requires Holds(r, cells, l, read) && Holds(r, cells, m, read)
    ensures l == m
  {
    var n := |l.daughters|;
    SameTable(l.point, m.point, r[8 + n]);
    SameTable(l.index, m.index, r[10 + n]);
    SameTable(l.cellIndex, m.cellIndex, r[11 + n]);
    SameTable(l.retired, m.retired, r[13 + n]);
    forall s: nat | s < l.npar
      ensures l.parts[s] == m.parts[s]
    {
      SamePart(l.parts[s], m.parts[s], r[9 + n], r[12 + n], s, read);
    }
    forall i: nat | i < n
      ensures l.daughters[i] == m.daughters[i]
    {
      SameDaughter(l.daughters[i], m.daughters[i], r[8 + i], read);
    }
    assert l.parts == m.parts && l.daughters == m.daughters;
  }
}
