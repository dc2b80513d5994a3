/** The six versions of the binary restart manifest. */
module RestartManifest {
  import opened Options
  import opened Bytes
  import opened Fnv

  const MAGIC: seq<Byte> := [0x48, 0x34, 0x4D, 0x41, 0x4E, 0x49, 0x30, 0x31]

  // ----- fixed-layout records of little-endian numbers

  /** The bytes taken by the fields from the i-th on. */
  function TotalFrom(widths: seq<nat>, i: nat): nat
    requires i <= |widths|
    decreases |widths| - i
  {
    if i == |widths| then 0 else widths[i] + TotalFrom(widths, i + 1)
  }

  function Total(widths: seq<nat>): nat {
    TotalFrom(widths, 0)
  }

  predicate Fits(widths: seq<nat>, values: seq<nat>) {
    |widths| == |values| && forall i :: 0 <= i < |widths| ==> values[i] < Pow256(widths[i])
  }

  function PutFrom(widths: seq<nat>, values: seq<nat>, i: nat): (r: seq<Byte>)
    requires |widths| == |values| && i <= |widths|
    ensures |r| == TotalFrom(widths, i)
    decreases |widths| - i
  {
    if i == |widths| then [] else Le(values[i], widths[i]) + PutFrom(widths, values, i + 1)
  }

  function Put(widths: seq<nat>, values: seq<nat>): (r: seq<Byte>)
    requires |widths| == |values|
    ensures |r| == Total(widths)
  {
    PutFrom(widths, values, 0)
  }

  function GetFrom(data: seq<Byte>, at: nat, widths: seq<nat>, i: nat): (r: seq<nat>)
    requires i <= |widths| && at + TotalFrom(widths, i) <= |data|
    ensures |r| == |widths| - i
    decreases |widths| - i
  {
    if i == |widths| then []
    else [ValueAt(data, at, widths[i])] + GetFrom(data, at + widths[i], widths, i + 1)
  }

  function Get(data: seq<Byte>, at: nat, widths: seq<nat>): (r: seq<nat>)
    requires at + Total(widths) <= |data|
    ensures |r| == |widths|
  {
    GetFrom(data, at, widths, 0)
  }

  lemma {:induction false} GetFromFits(data: seq<Byte>, at: nat, widths: seq<nat>, i: nat)
    requires i <= |widths| && at + TotalFrom(widths, i) <= |data|
    ensures var v := GetFrom(data, at, widths, i);
            forall j :: i <= j < |widths| ==> v[j - i] < Pow256(widths[j])
    decreases |widths| - i
  {
    if i < |widths| {
      ValueBound(data, at, widths[i]);
      GetFromFits(data, at + widths[i], widths, i + 1);
      var v, rest := GetFrom(data, at, widths, i), GetFrom(data, at + widths[i], widths, i + 1);
      forall j | i < j < |widths|
        ensures v[j - i] < Pow256(widths[j])
      {
        assert v[j - i] == rest[j - (i + 1)];
      }
    }
  }

  lemma GetFits(data: seq<Byte>, at: nat, widths: seq<nat>)
    requires at + Total(widths) <= |data|
    ensures Fits(widths, Get(data, at, widths))
  {
    GetFromFits(data, at, widths, 0);
    var v := Get(data, at, widths);
    forall j | 0 <= j < |widths|
      ensures v[j] < Pow256(widths[j])
    {
      assert v[j - 0] < Pow256(widths[j]);
    }
  }

  lemma {:induction false} PutFromGet(data: seq<Byte>, at: nat, widths: seq<nat>, values: seq<nat>, i: nat)
    requires |values| == |widths| && i <= |widths| && at + TotalFrom(widths, i) <= |data|
    requires values[i..] == GetFrom(data, at, widths, i)
    ensures PutFrom(widths, values, i) == data[at..at + TotalFrom(widths, i)]
    decreases |widths| - i
  {
    if i < |widths| {
      var middle, rest := at + widths[i], GetFrom(data, at + widths[i], widths, i + 1);
      assert values[i] == ValueAt(data, at, widths[i]) && values[i + 1..] == rest by {
        NextValues(values, i, ValueAt(data, at, widths[i]), rest);
      }
      assert Le(values[i], widths[i]) == data[at..middle] by {
        LeOfValue(data, at, widths[i]);
      }
      PutFromGet(data, middle, widths, values, i + 1);
      var end := middle + TotalFrom(widths, i + 1);
      assert PutFrom(widths, values, i) == data[at..middle] + data[middle..end];
      Join(data, at, middle, end);
    }
  }

  lemma NextValues(values: seq<nat>, i: nat, head: nat, rest: seq<nat>)
    requires i < |values| && values[i..] == [head] + rest
    ensures values[i] == head && values[i + 1..] == rest
  {
    assert values[i] == values[i..][0];
    assert values[i + 1..] == values[i..][1..];
  }

  lemma Join(data: seq<Byte>, from: nat, middle: nat, to: nat)
    requires from <= middle <= to <= |data|
    ensures data[from..middle] + data[middle..to] == data[from..to]
  {
  }

  lemma PutGet(data: seq<Byte>, at: nat, widths: seq<nat>)
    requires at + Total(widths) <= |data|
    ensures Put(widths, Get(data, at, widths)) == data[at..at + Total(widths)]
  {
    var values := Get(data, at, widths);
    assert values[0..] == values;
    PutFromGet(data, at, widths, values, 0);
  }

  lemma {:induction false} GetFromPut(data: seq<Byte>, at: nat, widths: seq<nat>, values: seq<nat>, i: nat)
    requires Fits(widths, values) && i <= |widths| && at + TotalFrom(widths, i) <= |data|
    requires data[at..at + TotalFrom(widths, i)] == PutFrom(widths, values, i)
    ensures GetFrom(data, at, widths, i) == values[i..]
    decreases |widths| - i
  {
    if i < |widths| {
      var first, rest := Le(values[i], widths[i]), PutFrom(widths, values, i + 1);
      var part := data[at..at + TotalFrom(widths, i)];
      var middle, end := at + widths[i], at + TotalFrom(widths, i);
      assert data[at..middle] == part[..widths[i]] == first;
      assert data[middle..end] == part[widths[i]..] == rest;
      ValueOfLe(data, at, values[i], widths[i]);
      GetFromPut(data, middle, widths, values, i + 1);
    }
  }

  lemma GetPut(data: seq<Byte>, at: nat, widths: seq<nat>, values: seq<nat>)
    requires Fits(widths, values) && at + Total(widths) <= |data|
    requires data[at..at + Total(widths)] == Put(widths, values)
    ensures Get(data, at, widths) == values
  {
    GetFromPut(data, at, widths, values, 0);
    assert values[0..] == values;
  }

  // ----- IEEE binary64 values by their bits

  predicate Finite64(bits: nat) {
    bits / 0x10_0000_0000_0000 % 2048 != 2047
  }

  predicate Positive64(bits: nat) {
    0 < bits < 0x8000_0000_0000_0000
  }

  /** Below zero; the negative zero is not. */
  predicate Negative64(bits: nat) {
    bits > 0x8000_0000_0000_0000
  }

  predicate Positive32(word: nat) {
    0 < word < 0x8000_0000
  }

  // ----- the layout

  /** The field widths of the four fixed records, in bytes. */
  datatype Layout = Layout(header: seq<nat>, history: seq<nat>, signature: seq<nat>, records: seq<nat>)

  const LAYOUT := Layout([4, 4, 4, 4, 4, 8, 8, 8, 8, 8, 8, 8, 8, 4], [8, 8, 8, 8, 4], [8], [8, 4])

  /** All that parsing depends on; the proofs use nothing else of the widths. */
  predicate Standard(l: Layout) {
    && |l.header| == 14 && Total(l.header) == 88
    && |l.history| == 5 && Total(l.history) == 36
    && |l.signature| == 1 && Total(l.signature) == 8 && l.signature[0] == 8
    && |l.records| == 2 && Total(l.records) == 12
  }

  lemma LayoutStandard()
    ensures Standard(LAYOUT)
  {
    var h := LAYOUT.header;
    assert TotalFrom(h, 12) == 12 && TotalFrom(h, 10) == 28 && TotalFrom(h, 8) == 44;
    assert TotalFrom(h, 6) == 60 && TotalFrom(h, 4) == 72 && TotalFrom(h, 2) == 80;
  }

  datatype Header = Header(version: nat, rankCount: nat, cellsX: nat, cellsY: nat, cellsZ: nat,
                           plan: nat, schema: nat, geometry: nat, time: nat, dt: nat, pressureReference: nat,
                           step: nat, controller: nat, fieldCount: nat)

  function HeaderValues(h: Header): (r: seq<nat>)
    ensures |r| == 14
  {
    [h.version, h.rankCount, h.cellsX, h.cellsY, h.cellsZ, h.plan, h.schema, h.geometry, h.time, h.dt,
     h.pressureReference, h.step, h.controller, h.fieldCount]
  }

  function HeaderOf(v: seq<nat>): Header
    requires |v| == 14
  {
    Header(v[0], v[1], v[2], v[3], v[4], v[5], v[6], v[7], v[8], v[9], v[10], v[11], v[12], v[13])
  }

  datatype History = History(previousPressure: nat, closedMass: nat, finalRevision: nat, previousRevision: nat,
                             rateCount: nat)

  function HistoryValues(h: History): (r: seq<nat>)
    ensures |r| == 5
  {
    [h.previousPressure, h.closedMass, h.finalRevision, h.previousRevision, h.rateCount]
  }

  function HistoryOf(v: seq<nat>): History
    requires |v| == 5
  {
    History(v[0], v[1], v[2], v[3], v[4])
  }

  predicate HasHistory(version: nat) { 2 <= version <= 5 }
  predicate HasSignature(version: nat) { 3 <= version <= 5 }
  predicate HasRecords(version: nat) { 4 <= version <= 6 }

  /** A manifest; the field, rate and rank tables are kept as the bytes they occupy. Parts that the version does not
      have are absent. */
  datatype Manifest = Manifest(header: Header, fields: seq<Byte>, history: Option<History>, rates: seq<Byte>,
                               signature: Option<nat>, identity: Option<nat>, recordBytes: nat, ranks: seq<Byte>)

  predicate Shaped(l: Layout, m: Manifest)
    requires Standard(l)
  {
    var v := m.header.version;
    && Fits(l.header, HeaderValues(m.header)) && 1 <= v <= 6
    && |m.fields| == 4 * m.header.fieldCount && |m.ranks| == 40 * m.header.rankCount
    && m.history.Some? == HasHistory(v) && m.signature.Some? == HasSignature(v) && m.identity.Some? == HasRecords(v)
    && (m.history.Some? ==>
          Fits(l.history, HistoryValues(m.history.value)) && |m.rates| == 4 * m.history.value.rateCount)
    && (m.history.None? ==> m.rates == [])
    && (m.signature.Some? ==> Fits(l.signature, [m.signature.value]))
    && (m.identity.Some? ==> Fits(l.records, [m.identity.value, m.recordBytes]))
    && (m.identity.None? ==> m.recordBytes == 0)
  }

  predicate HistoryOk(h: History, controller: nat) {
    && controller != 0
    && Finite64(h.previousPressure) && Positive64(h.previousPressure)
    && Finite64(h.closedMass) && Positive64(h.closedMass)
    && 0 < h.previousRevision < h.finalRevision < 0xFFFF_FFFF_FFFF_FFFF
    && 1 <= h.rateCount <= 64
  }

  predicate HeaderOk(h: Header) {
    && 1 <= h.version <= 6 && h.rankCount != 0
    && Positive32(h.cellsX) && Positive32(h.cellsY) && Positive32(h.cellsZ)
    && h.plan != 0 && h.schema != 0 && h.geometry != 0
    && Finite64(h.time) && !Negative64(h.time)
    && Finite64(h.dt) && Positive64(h.dt)
    && Finite64(h.pressureReference) && h.step != 0 && 3 <= h.fieldCount <= 64
  }

  predicate RecordsOk(version: nat, identity: nat, recordBytes: nat) {
    identity != 0 && (if version == 5 then recordBytes == 0 else recordBytes != 0)
  }

  /** What the reader demands of a manifest's contents. */
  predicate WellFormed(l: Layout, m: Manifest)
    requires Standard(l)
  {
    && Shaped(l, m) && HeaderOk(m.header)
    && (m.history.Some? ==> HistoryOk(m.history.value, m.header.controller))
    && (m.signature.Some? ==> m.signature.value != 0)
    && (m.identity.Some? ==> RecordsOk(m.header.version, m.identity.value, m.recordBytes))
  }

  // ----- the writer's layout

  function HistoryBytes(l: Layout, m: Manifest): seq<Byte>
    requires Standard(l)
  {
    if m.history.Some? then Put(l.history, HistoryValues(m.history.value)) + m.rates else []
  }

  function SignatureBytes(l: Layout, m: Manifest): seq<Byte>
    requires Standard(l)
  {
    if m.signature.Some? then Put(l.signature, [m.signature.value]) else []
  }

  function RecordBytes(l: Layout, m: Manifest): seq<Byte>
    requires Standard(l)
  {
    if m.identity.Some? then Put(l.records, [m.identity.value, m.recordBytes]) else []
  }

  function HeaderBytes(l: Layout, h: Header): (r: seq<Byte>)
    requires Standard(l)
  {
    Put(l.header, HeaderValues(h))
  }

  function Tail4(l: Layout, m: Manifest): seq<Byte>
    requires Standard(l)
  {
    RecordBytes(l, m) + m.ranks
  }

  function Tail3(l: Layout, m: Manifest): seq<Byte>
    requires Standard(l)
  {
    SignatureBytes(l, m) + Tail4(l, m)
  }

  function Tail2(l: Layout, m: Manifest): seq<Byte>
    requires Standard(l)
  {
    HistoryBytes(l, m) + Tail3(l, m)
  }

  function Tail1(l: Layout, m: Manifest): seq<Byte>
    requires Standard(l)
  {
    m.fields + Tail2(l, m)
  }


  /** Everything the integrity word covers. */
  function Body(l: Layout, m: Manifest): seq<Byte>
    requires Standard(l)
  {
    MAGIC + (HeaderBytes(l, m.header) + Tail1(l, m))
  }

  function Print(l: Layout, m: Manifest): seq<Byte>
    requires Standard(l)
  {
    Body(l, m) + Le(Checksum(Body(l, m)), 8)
  }

  /** The native writer never stores a zero integrity word. */
  function NativePrint(l: Layout, m: Manifest): seq<Byte>
    requires Standard(l)
  {
    Body(l, m) + Le(if Checksum(Body(l, m)) == 0 then 1 else Checksum(Body(l, m)), 8)
  }

  // ----- the reader

  datatype Summary = Summary(step: nat, time: nat, backwardEulerRecovery: bool, version: nat, signature: nat)

  function SummaryOf(m: Manifest): Summary {
    Summary(m.header.step, m.header.time, m.header.version == 1 || m.header.version == 6, m.header.version,
            if m.signature.Some? then m.signature.value else 0)
  }

  /** What the moving cursor finds: where the rank table starts, whether the optional parts are valid. */
  datatype Found = Found(cursor: nat, validExact: bool, signature: nat)

  function FindHistory(l: Layout, data: seq<Byte>, h: Header): Found
    requires Standard(l)
  {
    var cursor := 96 + 4 * h.fieldCount;
    if !HasHistory(h.version) then Found(cursor, true, 0)
    else if |data| < cursor + 36 + 8 then Found(cursor, false, 0)
    else
      var history := HistoryOf(Get(data, cursor, l.history));
      Found(cursor + 36 + 4 * history.rateCount, HistoryOk(history, h.controller), 0)
  }

  function FindSignature(l: Layout, data: seq<Byte>, h: Header, f: Found): Found
    requires Standard(l)
  {
    if !HasSignature(h.version) then f
    else if |data| < f.cursor + 8 then Found(f.cursor + 8, false, 0)
    else
      var signature := Get(data, f.cursor, l.signature)[0];
      Found(f.cursor + 8, f.validExact && signature != 0, signature)
  }

  function FindRecords(l: Layout, data: seq<Byte>, h: Header, f: Found): Found
    requires Standard(l)
  {
    if !HasRecords(h.version) then f
    else if |data| < f.cursor + 12 then Found(f.cursor + 12, false, f.signature)
    else
      var records := Get(data, f.cursor, l.records);
      Found(f.cursor + 12, f.validExact && RecordsOk(h.version, records[0], records[1]), f.signature)
  }

  /** The header checks: everything the reader demands but the integrity word. */
  function Structure(l: Layout, data: seq<Byte>): Option<Summary>
    requires Standard(l)
  {
    if |data| < 96 + 8 then None
    else
      var h := HeaderOf(Get(data, 8, l.header));
      var f := FindRecords(l, data, h, FindSignature(l, data, h, FindHistory(l, data, h)));
      if data[..8] != MAGIC || !HeaderOk(h) || !f.validExact || |data| != f.cursor + 40 * h.rankCount + 8 then None
      else Some(Summary(h.step, h.time, h.version == 1 || h.version == 6, h.version, f.signature))
  }

  /** The last eight bytes are the checksum of all before them. */
  predicate Integral(data: seq<Byte>) {
    |data| >= 8 && Checksum(data[..|data| - 8]) == ValueAt(data, |data| - 8, 8)
  }

  function Admitted(l: Layout, data: seq<Byte>): Option<Summary>
    requires Standard(l)
  {
    if Structure(l, data).Some? && Integral(data) then Structure(l, data) else None
  }

  /** The exact-history section. */
  method ScanHistory(l: Layout, data: seq<Byte>, h: Header) returns (cursor: nat, validExact: bool)
    requires Standard(l)
    ensures Found(cursor, validExact, 0) == FindHistory(l, data, h)
  {
    cursor, validExact := 96 + 4 * h.fieldCount, true;
    var exactHistory := HasHistory(h.version);
    if exactHistory && |data| >= cursor + 36 + 8 {
      var history := HistoryOf(Get(data, cursor, l.history));
      cursor := cursor + 36;
      validExact := HistoryOk(history, h.controller);
      cursor := cursor + 4 * history.rateCount;
    } else if exactHistory {
      validExact := false;
    }
  }

  /** The method-history signature. */
  method ScanSignature(l: Layout, data: seq<Byte>, h: Header, cursor: nat, validExact: bool)
    returns (next: nat, valid: bool, signature: nat)
    requires Standard(l)
    ensures Found(next, valid, signature) == FindSignature(l, data, h, Found(cursor, validExact, 0))
  {
    next, valid, signature := cursor, validExact, 0;
    if HasSignature(h.version) {
      if |data| < cursor + 8 {
        valid := false;
      } else {
        signature := Get(data, cursor, l.signature)[0];
        valid := valid && signature != 0;
      }
      next := cursor + 8;
    }
  }

  /** The cell-record identity and size. */
  method ScanRecords(l: Layout, data: seq<Byte>, h: Header, cursor: nat, validExact: bool, ghost signature: nat)
    returns (next: nat, valid: bool)
    requires Standard(l)
    ensures Found(next, valid, signature) == FindRecords(l, data, h, Found(cursor, validExact, signature))
  {
    next, valid := cursor, validExact;
    if HasRecords(h.version) {
      if |data| < cursor + 12 {
        valid := false;
      } else {
        var records := Get(data, cursor, l.records);
        valid := valid && RecordsOk(h.version, records[0], records[1]);
      }
      next := cursor + 12;
    }
  }

  /** The header checks of the source: a moving cursor, a running validity flag, then all conditions at once. */
  method ReadHeader(l: Layout, data: seq<Byte>) returns (r: Option<Summary>)
    requires Standard(l)
    ensures r == Structure(l, data)
  {
    if |data| < 96 + 8 {
      return None;
    }
    var h := HeaderOf(Get(data, 8, l.header));
    var cursor, validExact := ScanHistory(l, data, h);
    var signature;
    cursor, validExact, signature := ScanSignature(l, data, h, cursor, validExact);
    cursor, validExact := ScanRecords(l, data, h, cursor, validExact, signature);
    if data[..8] != MAGIC || !HeaderOk(h) || !validExact || |data| != cursor + 40 * h.rankCount + 8 {
      return None;
    }
    r := Some(Summary(h.step, h.time, h.version == 1 || h.version == 6, h.version, signature));
  }

  /** The whole reader; AdmittedExactly says which byte strings it accepts and what it returns. */
  method Load(l: Layout, data: seq<Byte>) returns (r: Option<Summary>)
    requires Standard(l)
    ensures r == Admitted(l, data)
  {
    r := ReadHeader(l, data);
    if r.Some? {
      StructureLong(l, data);
      var checksum := ComputeChecksum(data[..|data| - 8]);
      if checksum != ValueAt(data, |data| - 8, 8) {
        r := None;
      }
    }
  }

  lemma StructureLong(l: Layout, data: seq<Byte>)
    requires Standard(l) && Structure(l, data).Some?
    ensures |data| >= 104
  {
  }

  // ----- printing is read back

  /** The next part of a byte string, and what is left after it. */
  lemma Peel(data: seq<Byte>, at: nat, part: seq<Byte>, rest: seq<Byte>)
    requires at <= |data| && data[at..] == part + rest
    ensures at + |part| + |rest| == |data|
    ensures data[at..at + |part|] == part && data[at + |part|..] == rest
  {
    assert data[at..at + |part|] == data[at..][..|part|];
    assert data[at + |part|..] == data[at..][|part|..];
  }

  /** Reading back numbers that were put at a position. */
  lemma GetPeeled(data: seq<Byte>, at: nat, widths: seq<nat>, values: seq<nat>, rest: seq<Byte>)
    requires Fits(widths, values) && at <= |data| && data[at..] == Put(widths, values) + rest
    ensures at + Total(widths) + |rest| == |data|
    ensures Get(data, at, widths) == values && data[at + Total(widths)..] == rest
  {
    Peel(data, at, Put(widths, values), rest);
    GetPut(data, at, widths, values);
  }

  lemma Tails(l: Layout, m: Manifest, word: seq<Byte>)
    requires Standard(l)
    ensures Body(l, m) + word == MAGIC + (HeaderBytes(l, m.header) + (m.fields + (Tail2(l, m) + word)))
    ensures Tail2(l, m) + word == HistoryBytes(l, m) + (Tail3(l, m) + word)
    ensures Tail3(l, m) + word == SignatureBytes(l, m) + (Tail4(l, m) + word)
    ensures Tail4(l, m) + word == RecordBytes(l, m) + (m.ranks + word)
  {
    Associate(m.fields, Tail2(l, m), word);
    Associate(HeaderBytes(l, m.header), Tail1(l, m), word);
    Associate(MAGIC, HeaderBytes(l, m.header) + Tail1(l, m), word);
    Associate(HistoryBytes(l, m), Tail3(l, m), word);
    Associate(SignatureBytes(l, m), Tail4(l, m), word);
    Associate(RecordBytes(l, m), m.ranks, word);
  }

  lemma Associate(a: seq<Byte>, b: seq<Byte>, c: seq<Byte>)
    ensures (a + b) + c == a + (b + c)
  {
  }

  lemma HeaderRead(l: Layout, m: Manifest, word: seq<Byte>, data: seq<Byte>)
    requires Standard(l) && Shaped(l, m) && data == Body(l, m) + word
    ensures |data| >= 96 + 4 * m.header.fieldCount
    ensures data[..8] == MAGIC && HeaderOf(Get(data, 8, l.header)) == m.header
    ensures data[96 + 4 * m.header.fieldCount..] == Tail2(l, m) + word
  {
    Tails(l, m, word);
    Peel(data, 0, MAGIC, HeaderBytes(l, m.header) + (m.fields + (Tail2(l, m) + word)));
    GetPeeled(data, 8, l.header, HeaderValues(m.header), m.fields + (Tail2(l, m) + word));
    Peel(data, 96, m.fields, Tail2(l, m) + word);
  }

  lemma HistoryRead(l: Layout, m: Manifest, word: seq<Byte>, data: seq<Byte>)
    requires Standard(l) && Shaped(l, m) && |word| == 8
    requires |data| >= 96 + 4 * m.header.fieldCount && data[96 + 4 * m.header.fieldCount..] == Tail2(l, m) + word
    ensures var f := FindHistory(l, data, m.header);
            && f.signature == 0 && f.cursor <= |data| && data[f.cursor..] == Tail3(l, m) + word
            && f.validExact == (m.history.Some? ==> HistoryOk(m.history.value, m.header.controller))
  {
    Tails(l, m, word);
    var c0 := 96 + 4 * m.header.fieldCount;
    if m.history.Some? {
      var h := m.history.value;
      Associate(Put(l.history, HistoryValues(h)), m.rates, Tail3(l, m) + word);
      GetPeeled(data, c0, l.history, HistoryValues(h), m.rates + (Tail3(l, m) + word));
      Peel(data, c0 + 36, m.rates, Tail3(l, m) + word);
    } else {
      assert HistoryBytes(l, m) + (Tail3(l, m) + word) == Tail3(l, m) + word;
    }
  }

  lemma SignatureRead(l: Layout, m: Manifest, word: seq<Byte>, data: seq<Byte>, f: Found)
    requires Standard(l) && Shaped(l, m)
    requires f.cursor <= |data| && data[f.cursor..] == Tail3(l, m) + word && f.signature == 0
    ensures var g := FindSignature(l, data, m.header, f);
            && g.cursor <= |data| && data[g.cursor..] == Tail4(l, m) + word
            && g.signature == (if m.signature.Some? then m.signature.value else 0)
            && g.validExact == (f.validExact && (m.signature.Some? ==> m.signature.value != 0))
  {
    Tails(l, m, word);
    if m.signature.Some? {
      GetPeeled(data, f.cursor, l.signature, [m.signature.value], Tail4(l, m) + word);
    } else {
      assert SignatureBytes(l, m) + (Tail4(l, m) + word) == Tail4(l, m) + word;
    }
  }

  lemma RecordsRead(l: Layout, m: Manifest, word: seq<Byte>, data: seq<Byte>, f: Found)
    requires Standard(l) && Shaped(l, m)
    requires f.cursor <= |data| && data[f.cursor..] == Tail4(l, m) + word
    ensures var g := FindRecords(l, data, m.header, f);
            && g.cursor <= |data| && data[g.cursor..] == m.ranks + word && g.signature == f.signature
            && g.validExact == (f.validExact
                 && (m.identity.Some? ==> RecordsOk(m.header.version, m.identity.value, m.recordBytes)))
  {
    Tails(l, m, word);
    if m.identity.Some? {
      GetPeeled(data, f.cursor, l.records, [m.identity.value, m.recordBytes], m.ranks + word);
    } else {
      assert RecordBytes(l, m) + (m.ranks + word) == m.ranks + word;
    }
  }

  /** Whatever word ends the file, the header checks pass exactly on well-formed contents, and find them. */
  lemma StructureRead(l: Layout, m: Manifest, word: seq<Byte>, data: seq<Byte>)
    requires Standard(l) && Shaped(l, m) && |word| == 8 && data == Body(l, m) + word
    ensures Structure(l, data) == if WellFormed(l, m) then Some(SummaryOf(m)) else None
  {
    HeaderRead(l, m, word, data);
    HistoryRead(l, m, word, data);
    var f := FindHistory(l, data, m.header);
    SignatureRead(l, m, word, data, f);
    var g := FindSignature(l, data, m.header, f);
    RecordsRead(l, m, word, data, g);
    Peel(data, FindRecords(l, data, m.header, g).cursor, m.ranks, word);
  }

  lemma IntegrityRead(body: seq<Byte>, value: nat, data: seq<Byte>)
    requires value < MODULUS && data == body + Le(value, 8)
    ensures data[..|data| - 8] == body && Integral(data) == (value == Checksum(body))
  {
    assert data[|data| - 8..|data| - 8 + 8] == Le(value, 8);
    Widths();
    ValueOfLe(data, |data| - 8, value, 8);
  }

  lemma PrintedAdmitted(l: Layout, m: Manifest, data: seq<Byte>)
    requires Standard(l)
    requires Shaped(l, m) && data == Print(l, m)
    ensures Admitted(l, data) == if WellFormed(l, m) then Some(SummaryOf(m)) else None
  {
    var body := Body(l, m);
    FromBound(OFFSET, body);
    StructureRead(l, m, Le(Checksum(body), 8), data);
    IntegrityRead(body, Checksum(body), data);
  }

  // ----- whatever is admitted was printed

  function Cut(data: seq<Byte>, from: int, to: int): seq<Byte> {
    if 0 <= from <= to <= |data| then data[from..to] else []
  }

  /** The manifest whose printing a byte string that passes the header checks is. */
  function Rebuilt(l: Layout, data: seq<Byte>): Manifest
    requires Standard(l)
    requires Structure(l, data).Some?
  {
    var h := HeaderOf(Get(data, 8, l.header));
    var c0 := 96 + 4 * h.fieldCount;
    var f1 := FindHistory(l, data, h);
    var f2 := FindSignature(l, data, h, f1);
    var f3 := FindRecords(l, data, h, f2);
    Manifest(h, Cut(data, 96, c0),
             if HasHistory(h.version) then Some(HistoryOf(Get(data, c0, l.history))) else None,
             if HasHistory(h.version) then Cut(data, c0 + 36, f1.cursor) else [],
             if HasSignature(h.version) then Some(Get(data, f1.cursor, l.signature)[0]) else None,
             if HasRecords(h.version) then Some(Get(data, f2.cursor, l.records)[0]) else None,
             if HasRecords(h.version) then Get(data, f2.cursor, l.records)[1] else 0,
             Cut(data, f3.cursor, |data| - 8))
  }

  lemma HeaderValuesOf(v: seq<nat>)
    requires |v| == 14
    ensures HeaderValues(HeaderOf(v)) == v
  {
  }

  lemma Glue(data: seq<Byte>, from: nat, to: nat)
    requires from <= to <= |data|
    ensures data[from..to] + data[to..] == data[from..]
  {
  }

  lemma RebuiltHeader(l: Layout, data: seq<Byte>)
    requires Standard(l) && Structure(l, data).Some?
    ensures var m := Rebuilt(l, data);
            Fits(l.header, HeaderValues(m.header)) && HeaderBytes(l, m.header) == data[8..96]
            && |data| >= 96 + 4 * m.header.fieldCount && m.fields == data[96..96 + 4 * m.header.fieldCount]
  {
    HeaderValuesOf(Get(data, 8, l.header));
    GetFits(data, 8, l.header);
    PutGet(data, 8, l.header);
  }

  lemma HistorySlice(l: Layout, data: seq<Byte>, c0: nat, c1: nat)
    requires Standard(l) && c0 + 36 <= c1 <= |data|
    ensures var h := HistoryOf(Get(data, c0, l.history));
            Fits(l.history, HistoryValues(h)) && Put(l.history, HistoryValues(h)) + data[c0 + 36..c1] == data[c0..c1]
  {
    GetFits(data, c0, l.history);
    PutGet(data, c0, l.history);
    HistoryValuesOf(Get(data, c0, l.history));
    Glue(data[..c1], c0, c0 + 36);
    assert data[..c1][c0..c0 + 36] == data[c0..c0 + 36];
  }

  lemma RebuiltHistory(l: Layout, data: seq<Byte>)
    requires Standard(l) && Structure(l, data).Some?
    ensures var m := Rebuilt(l, data);
            var c0, f1 := 96 + 4 * m.header.fieldCount, FindHistory(l, data, m.header);
            && c0 <= f1.cursor <= |data| && HistoryBytes(l, m) == data[c0..f1.cursor]
            && (m.history.Some? ==> Fits(l.history, HistoryValues(m.history.value))
                                    && |m.rates| == 4 * m.history.value.rateCount)
  {
    var h := HeaderOf(Get(data, 8, l.header));
    CursorsInside(l, data);
    HistoryPart(l, data, h);
  }

  /** Under the header checks every section lies inside the data. */
  lemma CursorsInside(l: Layout, data: seq<Byte>)
    requires Standard(l) && Structure(l, data).Some?
    ensures var h := HeaderOf(Get(data, 8, l.header));
            var f1 := FindHistory(l, data, h);
            f1.validExact && 96 + 4 * h.fieldCount <= f1.cursor <= |data| - 8
  {
  }

  lemma HistoryPart(l: Layout, data: seq<Byte>, h: Header)
    requires Standard(l) && FindHistory(l, data, h).validExact
    requires 96 + 4 * h.fieldCount <= FindHistory(l, data, h).cursor <= |data| - 8
    ensures var c0, c1 := 96 + 4 * h.fieldCount, FindHistory(l, data, h).cursor;
            if HasHistory(h.version) then
              var v := HistoryOf(Get(data, c0, l.history));
              c1 == c0 + 36 + 4 * v.rateCount && Fits(l.history, HistoryValues(v))
              && Put(l.history, HistoryValues(v)) + Cut(data, c0 + 36, c1) == data[c0..c1]
            else c1 == c0
  {
    if HasHistory(h.version) {
      HistorySlice(l, data, 96 + 4 * h.fieldCount, FindHistory(l, data, h).cursor);
    }
  }

  lemma HistoryValuesOf(v: seq<nat>)
    requires |v| == 5
    ensures HistoryValues(HistoryOf(v)) == v
  {
  }

  lemma RebuiltSignature(l: Layout, data: seq<Byte>)
    requires Standard(l) && Structure(l, data).Some?
    ensures var m := Rebuilt(l, data);
            var f1 := FindHistory(l, data, m.header);
            var f2 := FindSignature(l, data, m.header, f1);
            && f1.cursor <= f2.cursor <= |data| && SignatureBytes(l, m) == data[f1.cursor..f2.cursor]
            && (m.signature.Some? ==> Fits(l.signature, [m.signature.value]))
  {
    var m := Rebuilt(l, data);
    var f1 := FindHistory(l, data, m.header);
    if HasSignature(m.header.version) {
      GetFits(data, f1.cursor, l.signature);
      PutGet(data, f1.cursor, l.signature);
      assert [m.signature.value] == Get(data, f1.cursor, l.signature);
    }
  }

  lemma RebuiltRecords(l: Layout, data: seq<Byte>)
    requires Standard(l) && Structure(l, data).Some?
    ensures var m := Rebuilt(l, data);
            var f2 := FindSignature(l, data, m.header, FindHistory(l, data, m.header));
            var f3 := FindRecords(l, data, m.header, f2);
            && f2.cursor <= f3.cursor <= |data| - 8 && RecordBytes(l, m) == data[f2.cursor..f3.cursor]
            && (m.identity.Some? ==> Fits(l.records, [m.identity.value, m.recordBytes]))
            && m.ranks == data[f3.cursor..|data| - 8] && |m.ranks| == 40 * m.header.rankCount
  {
    var m := Rebuilt(l, data);
    var f2 := FindSignature(l, data, m.header, FindHistory(l, data, m.header));
    if HasRecords(m.header.version) {
      GetFits(data, f2.cursor, l.records);
      PutGet(data, f2.cursor, l.records);
      assert [m.identity.value, m.recordBytes] == Get(data, f2.cursor, l.records);
    }
  }

  lemma RebuiltBody(l: Layout, data: seq<Byte>)
    requires Standard(l) && Structure(l, data).Some?
    ensures Body(l, Rebuilt(l, data)) == data[..|data| - 8]
  {
    var m := Rebuilt(l, data);
    RebuiltHeader(l, data);
    RebuiltHistory(l, data);
    RebuiltSignature(l, data);
    RebuiltRecords(l, data);
    var body := data[..|data| - 8];
    var c0, f1 := 96 + 4 * m.header.fieldCount, FindHistory(l, data, m.header);
    var f2 := FindSignature(l, data, m.header, f1);
    var f3 := FindRecords(l, data, m.header, f2);
    Glue(body, f2.cursor, f3.cursor);
    Glue(body, f1.cursor, f2.cursor);
    Glue(body, c0, f1.cursor);
    Glue(body, 96, c0);
    Glue(body, 8, 96);
    Glue(body, 0, 8);
    Rejoin(l, m, data, body, c0, f1.cursor, f2.cursor, f3.cursor);
  }

  lemma Rejoin(l: Layout, m: Manifest, data: seq<Byte>, body: seq<Byte>, c0: nat, c1: nat, c2: nat, c3: nat)
    requires Standard(l) && 96 <= c0 <= c1 <= c2 <= c3 <= |body| && body <= data
    requires MAGIC == data[..8] && HeaderBytes(l, m.header) == data[8..96] && m.fields == data[96..c0]
    requires HistoryBytes(l, m) == data[c0..c1] && SignatureBytes(l, m) == data[c1..c2]
    requires RecordBytes(l, m) == data[c2..c3] && m.ranks == data[c3..|body|]
    ensures Body(l, m) == body
  {
    assert Tail4(l, m) == body[c2..];
    assert Tail3(l, m) == body[c1..];
    assert Tail2(l, m) == body[c0..];
    assert Tail1(l, m) == body[96..];
    assert HeaderBytes(l, m.header) + Tail1(l, m) == body[8..];
  }

  lemma RebuiltShaped(l: Layout, data: seq<Byte>)
    requires Standard(l) && Structure(l, data).Some?
    ensures WellFormed(l, Rebuilt(l, data)) && SummaryOf(Rebuilt(l, data)) == Structure(l, data).value
  {
    RebuiltHeader(l, data);
    RebuiltHistory(l, data);
    RebuiltSignature(l, data);
    RebuiltRecords(l, data);
  }

  lemma RebuiltPrints(l: Layout, data: seq<Byte>)
    requires Standard(l) && Structure(l, data).Some? && Integral(data)
    ensures Print(l, Rebuilt(l, data)) == data
  {
    RebuiltBody(l, data);
    LeOfValue(data, |data| - 8, 8);
    Glue(data, 0, |data| - 8);
  }

  /** The accepted byte strings are exactly the printed well-formed manifests. */
  lemma AdmittedExactly(l: Layout, data: seq<Byte>)
    requires Standard(l)
    ensures Admitted(l, data).Some? ==>
              exists m :: WellFormed(l, m) && data == Print(l, m) && Admitted(l, data).value == SummaryOf(m)
    ensures forall m :: WellFormed(l, m) && data == Print(l, m) ==> Admitted(l, data) == Some(SummaryOf(m))
  {
    if Admitted(l, data).Some? {
      RebuiltShaped(l, data);
      RebuiltPrints(l, data);
    }
    forall m | WellFormed(l, m) && data == Print(l, m)
      ensures Admitted(l, data) == Some(SummaryOf(m))
    {
      PrintedAdmitted(l, m, data);
    }
  }

  // ----- tampering, and the native writer

  lemma IntegrityBroken(data: seq<Byte>, i: nat, b: Byte)
    requires Integral(data) && i < |data| && b != data[i]
    ensures !Integral(data[i := b])
  {
    var n, other := |data| - 8, data[i := b];
    if i < n {
      assert other[..n] == data[..n][i := b];
      OneByteChanges(data[..n], i, b);
      ValueFrame(other, data, n, 8);
    } else {
      assert other[..n] == data[..n];
      if ValueAt(other, n, 8) == ValueAt(data, n, 8) {
        SameAt(other, data, n, 8, i);
      }
    }
  }

  lemma SameAt(s: seq<Byte>, t: seq<Byte>, at: nat, width: nat, i: nat)
    requires at + width <= |s| && at + width <= |t| && ValueAt(s, at, width) == ValueAt(t, at, width)
    requires at <= i < at + width
    ensures s[i] == t[i]
  {
    ValueInjective(s, t, at, width);
    assert s[i] == s[at..at + width][i - at];
    assert t[i] == t[at..at + width][i - at];
  }

  /** Altering exactly one byte of an accepted manifest, anywhere, makes it rejected. */
  lemma OneByteAlteredRejected(l: Layout, data: seq<Byte>, i: nat, b: Byte)
    requires Standard(l)
    requires Admitted(l, data).Some? && i < |data| && b != data[i]
    ensures Admitted(l, data[i := b]) == None
  {
    IntegrityBroken(data, i, b);
  }

  /** The native writer's checks on a snapshot do not bound the sign of the time or of the previous pressure
      reference. */
  predicate NativeHistoryOk(h: History, controller: nat) {
    && controller != 0 && Finite64(h.previousPressure) && Finite64(h.closedMass) && Positive64(h.closedMass)
    && 0 < h.previousRevision < h.finalRevision < 0xFFFF_FFFF_FFFF_FFFF && 1 <= h.rateCount <= 64
  }

  predicate NativeHeaderOk(h: Header) {
    && 1 <= h.version <= 6 && h.rankCount != 0
    && Positive32(h.cellsX) && Positive32(h.cellsY) && Positive32(h.cellsZ)
    && h.plan != 0 && h.schema != 0 && h.geometry != 0 && Finite64(h.time)
    && Finite64(h.dt) && Positive64(h.dt) && Finite64(h.pressureReference) && h.step != 0 && 3 <= h.fieldCount <= 64
  }

  predicate NativeWellFormed(l: Layout, m: Manifest)
    requires Standard(l)
  {
    && Shaped(l, m) && NativeHeaderOk(m.header)
    && (m.history.Some? ==> NativeHistoryOk(m.history.value, m.header.controller))
    && (m.signature.Some? ==> m.signature.value != 0)
    && (m.identity.Some? ==> RecordsOk(m.header.version, m.identity.value, m.recordBytes))
  }

  /** A manifest the native writer publishes is read by the evidence tool exactly when its time is not negative, its
      previous pressure reference is positive, and its checksum is not zero. */
  lemma NativeManifestAdmittedExactly(l: Layout, m: Manifest)
    requires Standard(l)
    requires NativeWellFormed(l, m)
    ensures Admitted(l, NativePrint(l, m)).Some? <==>
              && !Negative64(m.header.time)
              && (m.history.Some? ==> Positive64(m.history.value.previousPressure))
              && Checksum(Body(l, m)) != 0
    ensures Admitted(l, NativePrint(l, m)).Some? ==> Admitted(l, NativePrint(l, m)) == Some(SummaryOf(m))
  {
    var body, data := Body(l, m), NativePrint(l, m);
    FromBound(OFFSET, body);
    var value := if Checksum(body) == 0 then 1 else Checksum(body);
    StructureRead(l, m, Le(value, 8), data);
    IntegrityRead(body, value, data);
  }
}
