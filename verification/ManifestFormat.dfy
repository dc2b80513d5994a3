/** The restart manifest in the program's own layout. */
module ManifestFormat {
  import opened Options
  import opened Bytes
  import opened Fnv
  import opened RestartManifest

  function Read(data: seq<Byte>): Option<Summary> {
    LayoutStandard();
    Admitted(LAYOUT, data)
  }

  function Written(m: Manifest): seq<Byte> {
    LayoutStandard();
    Print(LAYOUT, m)
  }

  function NativeWritten(m: Manifest): seq<Byte> {
    LayoutStandard();
    NativePrint(LAYOUT, m)
  }

  predicate Sized(m: Manifest) {
    LayoutStandard();
    Shaped(LAYOUT, m)
  }

  predicate Acceptable(m: Manifest) {
    LayoutStandard();
    WellFormed(LAYOUT, m)
  }

  predicate Publishable(m: Manifest) {
    LayoutStandard();
    NativeWellFormed(LAYOUT, m)
  }

  function BodyChecksum(m: Manifest): nat {
    LayoutStandard();
    Checksum(Body(LAYOUT, m))
  }

  /** Loading a manifest file. */
  method LoadManifest(data: seq<Byte>) returns (r: Option<Summary>)
    ensures r == Read(data)
  {
    LayoutStandard();
    r := Load(LAYOUT, data);
  }

  /** A field's place is what the fields before it take up. */
  lemma {:induction false} FieldAt(data: seq<Byte>, at: nat, widths: seq<nat>, i: nat, k: nat, place: nat)
    requires i <= k < |widths| && at + TotalFrom(widths, i) <= |data|
    requires place + TotalFrom(widths, k) == at + TotalFrom(widths, i)
    ensures place + widths[k] <= |data| && GetFrom(data, at, widths, i)[k - i] == ValueAt(data, place, widths[k])
    decreases k - i
  {
    assert TotalFrom(widths, k) == widths[k] + TotalFrom(widths, k + 1);
    if i < k {
      var rest := GetFrom(data, at + widths[i], widths, i + 1);
      FieldAt(data, at + widths[i], widths, i + 1, k, place);
      assert GetFrom(data, at, widths, i) == [ValueAt(data, at, widths[i])] + rest;
    }
  }

  lemma HeaderTotals()
    ensures var h := LAYOUT.header;
            && TotalFrom(h, 0) == 88 && TotalFrom(h, 1) == 84 && TotalFrom(h, 2) == 80 && TotalFrom(h, 3) == 76
            && TotalFrom(h, 4) == 72 && TotalFrom(h, 5) == 68 && TotalFrom(h, 6) == 60 && TotalFrom(h, 7) == 52
            && TotalFrom(h, 8) == 44 && TotalFrom(h, 9) == 36 && TotalFrom(h, 10) == 28 && TotalFrom(h, 11) == 20
            && TotalFrom(h, 12) == 12 && TotalFrom(h, 13) == 4
  {
    var h := LAYOUT.header;
    assert TotalFrom(h, 14) == 0;
    assert TotalFrom(h, 13) == h[13] + TotalFrom(h, 14);
    assert TotalFrom(h, 12) == h[12] + TotalFrom(h, 13);
    assert TotalFrom(h, 11) == h[11] + TotalFrom(h, 12);
    assert TotalFrom(h, 10) == h[10] + TotalFrom(h, 11);
    assert TotalFrom(h, 9) == h[9] + TotalFrom(h, 10);
    assert TotalFrom(h, 8) == h[8] + TotalFrom(h, 9);
    assert TotalFrom(h, 7) == h[7] + TotalFrom(h, 8);
    assert TotalFrom(h, 6) == h[6] + TotalFrom(h, 7);
    assert TotalFrom(h, 5) == h[5] + TotalFrom(h, 6);
    assert TotalFrom(h, 4) == h[4] + TotalFrom(h, 5);
    assert TotalFrom(h, 3) == h[3] + TotalFrom(h, 4);
    assert TotalFrom(h, 2) == h[2] + TotalFrom(h, 3);
    assert TotalFrom(h, 1) == h[1] + TotalFrom(h, 2);
    assert TotalFrom(h, 0) == h[0] + TotalFrom(h, 1);
  }

  /** All the proofs of the places use of the header's widths. */
  predicate HeaderShape(h: seq<nat>) {
    && |h| == 14 && (forall k :: 0 <= k < 14 ==> h[k] == if 5 <= k < 13 then 8 else 4)
    && (forall k :: 0 <= k < 14 ==> TotalFrom(h, k) == if k <= 5 then 88 - 4 * k else if k < 13 then 108 - 8 * k else 4)
  }

  function Place(k: nat): nat {
    if k <= 5 then 8 + 4 * k else if k <= 13 then 8 * k - 12 else 0
  }

  lemma HeaderShaped()
    ensures HeaderShape(LAYOUT.header)
  {
    HeaderTotals();
  }

  lemma PlacesOf(data: seq<Byte>, h: seq<nat>, k: nat)
    requires |data| >= 96 && HeaderShape(h) && k < 14
    ensures Total(h) == 88 && Place(k) + h[k] <= |data| && Get(data, 8, h)[k] == ValueAt(data, Place(k), h[k])
  {
    assert TotalFrom(h, 0) == 88;
    FieldAt(data, 8, h, 0, k, Place(k));
  }

  lemma AllFields(data: seq<Byte>, v: seq<nat>, h: seq<nat>)
    requires |data| >= 96 && |v| == 14 && HeaderShape(h)
    requires forall k: nat :: k < 14 ==> Place(k) + h[k] <= |data| && v[k] == ValueAt(data, Place(k), h[k])
    ensures v == [ValueAt(data, 8, 4), ValueAt(data, 12, 4), ValueAt(data, 16, 4), ValueAt(data, 20, 4),
                  ValueAt(data, 24, 4), ValueAt(data, 28, 8), ValueAt(data, 36, 8), ValueAt(data, 44, 8),
                  ValueAt(data, 52, 8), ValueAt(data, 60, 8), ValueAt(data, 68, 8), ValueAt(data, 76, 8),
                  ValueAt(data, 84, 8), ValueAt(data, 92, 4)]
  {
  }

  /** Where the header's fields stand in the file, and how wide they are. */
  lemma HeaderPlaces(data: seq<Byte>)
    requires |data| >= 96
    ensures Total(LAYOUT.header) == 88
    ensures HeaderOf(Get(data, 8, LAYOUT.header))
            == Header(ValueAt(data, 8, 4), ValueAt(data, 12, 4), ValueAt(data, 16, 4), ValueAt(data, 20, 4),
                      ValueAt(data, 24, 4), ValueAt(data, 28, 8), ValueAt(data, 36, 8), ValueAt(data, 44, 8),
                      ValueAt(data, 52, 8), ValueAt(data, 60, 8), ValueAt(data, 68, 8), ValueAt(data, 76, 8),
                      ValueAt(data, 84, 8), ValueAt(data, 92, 4))
  {
    HeaderShaped();
    var h := LAYOUT.header;
    PlacesOf(data, h, 0);
    var v := Get(data, 8, h);
    forall k: nat | k < 14
      ensures Place(k) + h[k] <= |data| && v[k] == ValueAt(data, Place(k), h[k])
    {
      PlacesOf(data, h, k);
    }
    AllFields(data, v, h);
  }

  /** A printed manifest of any version is accepted exactly if it is well formed, and then read with its own fields. */
  lemma WrittenRead(m: Manifest)
    requires Sized(m)
    ensures Read(Written(m)) == if Acceptable(m) then Some(SummaryOf(m)) else None
  {
    LayoutStandard();
    PrintedAdmitted(LAYOUT, m, Written(m));
  }

  /** Bytes are accepted exactly if they are the print of an acceptable manifest, which is the only one. */
  lemma ReadExactly(data: seq<Byte>)
    ensures Read(data).Some? <==> exists m :: Acceptable(m) && data == Written(m)
    ensures forall m :: Acceptable(m) && data == Written(m) ==> Read(data) == Some(SummaryOf(m))
  {
    LayoutStandard();
    AdmittedExactly(LAYOUT, data);
    if Read(data).Some? {
      var m :| WellFormed(LAYOUT, m) && data == Print(LAYOUT, m) && Admitted(LAYOUT, data).value == SummaryOf(m);
      assert Acceptable(m) && data == Written(m);
    }
  }

  /** Altering exactly one byte of an accepted file always makes it refused. */
  lemma OneByteRefused(data: seq<Byte>, i: nat, b: Byte)
    requires Read(data).Some? && i < |data| && b != data[i]
    ensures Read(data[i := b]) == None
  {
    LayoutStandard();
    OneByteAlteredRejected(LAYOUT, data, i, b);
  }

  /** What the native writer publishes is read exactly when its time is not negative, its previous pressure reference is
      positive, and its checksum is not zero. */
  lemma NativeReadExactly(m: Manifest)
    requires Publishable(m)
    ensures Read(NativeWritten(m)).Some? <==>
              && !Negative64(m.header.time)
              && (m.history.Some? ==> Positive64(m.history.value.previousPressure))
              && BodyChecksum(m) != 0
    ensures Read(NativeWritten(m)).Some? ==> Read(NativeWritten(m)) == Some(SummaryOf(m))
  {
    LayoutStandard();
    NativeManifestAdmittedExactly(LAYOUT, m);
  }

  // ----- a manifest with a negative time

  const ONE: nat := 0x3FF0_0000_0000_0000
  const MINUS_ONE: nat := 0xBFF0_0000_0000_0000

  /** Version 1, one rank, one cell, three fields, at time minus one. */
  function EarlyManifest(): Manifest {
    Manifest(Header(1, 1, 1, 1, 1, 1, 1, 1, MINUS_ONE, ONE, ONE, 1, 0, 3), seq(12, _ => 0), None, [], None, None, 0,
             seq(40, _ => 0))
  }

  lemma EarlyFits()
    ensures Fits(LAYOUT.header, HeaderValues(EarlyManifest().header))
  {
    Widths();
    var values := HeaderValues(EarlyManifest().header);
    forall i | 0 <= i < 14
      ensures values[i] < Pow256(LAYOUT.header[i])
    {
      assert LAYOUT.header[i] == 4 || LAYOUT.header[i] == 8;
    }
  }

  /** The native writer publishes it, and the reader refuses it. */
  lemma EarlyManifestRefused()
    ensures Publishable(EarlyManifest()) && Read(NativeWritten(EarlyManifest())) == None
  {
    LayoutStandard();
    EarlyFits();
    NativeReadExactly(EarlyManifest());
  }
}
