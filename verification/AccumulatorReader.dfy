/** Reading an accumulator file in place, as the restarting rank 0 does. */
module AccumulatorReader {
  import opened Options
  import opened StatisticsTypes
  import opened TextLines
  import opened AccumulatorCodec
  import opened RunAccumulator

  /** One identity or size row. */
  method ReadIdentityRow(b: Binding, key: Key, value: Token, flags: Flags, accumulator: Accumulator, ghost d: Draft)
    returns (ok: bool, next: Flags)
    requires d.acc == accumulator.Value() && d.flags == flags
    modifies accumulator`sampleSteps
    ensures ok == ReadIdentityField(b, d, key, value).Some?
    ensures ok ==> ReadIdentityField(b, d, key, value) == Some(d.(acc := accumulator.Value(), flags := next))
  {
    ok, next := false, flags;
    match key {
      case SpecFingerprint => ok, next := !flags.spec && NumberIs(value, b.fingerprint), flags.(spec := true);
      case Plan => ok, next := !flags.plan && NumberIs(value, b.plan), flags.(plan := true);
      case Schema => ok, next := !flags.schema && NumberIs(value, b.schema), flags.(schema := true);
      case Step => ok, next := !flags.step && NumberIs(value, b.step), flags.(step := true);
      case Time => ok, next := !flags.time && value == Real(b.time), flags.(time := true);
      case SampleSteps =>
        ok, next := !flags.samples && Number(value), flags.(samples := true);
        if ok { accumulator.sampleSteps := value.n; }
      case ProfileSize =>
        ok, next := !flags.profileSize && NumberIs(value, accumulator.profile.Length), flags.(profileSize := true);
      case CenterlineSize =>
        ok := !flags.centerlineSize && NumberIs(value, accumulator.centerline.Length);
        next := flags.(centerlineSize := true);
      case _ =>
    }
  }

  /** One epoch row. */
  method ReadEpochRow(key: Key, value: Token, flags: Flags, accumulator: Accumulator, ghost d: Draft)
    returns (ok: bool, next: Flags)
    requires d.acc == accumulator.Value() && d.flags == flags
    modifies accumulator`epoch
    ensures ok == ReadEpochField(d, key, value).Some?
    ensures ok ==> ReadEpochField(d, key, value) == Some(d.(acc := accumulator.Value(), flags := next))
  {
    var e := accumulator.epoch;
    ok, next := false, flags;
    match key {
      case EpochStartStep =>
        if flags.epochStart || !Number(value) { return; }
        e, next := e.(startStep := value.n), flags.(epochStart := true);
      case EpochDevelopmentSteps =>
        if flags.epochDevelopment || !Number(value) { return; }
        e, next := e.(developmentSteps := value.n), flags.(epochDevelopment := true);
      case EpochSamplingStartStep =>
        if flags.epochSampling || !Number(value) { return; }
        e, next := e.(samplingStartStep := value.n), flags.(epochSampling := true);
      case EpochDiscardedSamples =>
        if flags.epochDiscarded || !Number(value) { return; }
        e, next := e.(discardedSamples := value.n), flags.(epochDiscarded := true);
      case EpochResetReason =>
        if flags.epochReason || !value.Reason? { return; }
        e, next := e.(reason := value.r), flags.(epochReason := true);
      case EpochSourceManifest =>
        if flags.epochSource || !(value.NoneWord? || (value.Text? && ValidDigest(value.s))) { return; }
        e := e.(sourceManifest := if value.NoneWord? then "" else value.s);
        next := flags.(epochSource := true);
      case _ => return;
    }
    accumulator.epoch := e;
    ok := true;
  }

  /** One nonempty line, stored into the accumulator and the marks of what was seen. */
  method ReadRow(hasEpoch: bool, b: Binding, line: Line, flags: Flags, accumulator: Accumulator,
                 profileSeen: array<bool>, centerlineSeen: array<bool>, ghost d: Draft)
    returns (ok: bool, next: Flags, ended: bool)
    requires accumulator.Valid() && profileSeen != centerlineSeen && line != []
    requires profileSeen.Length == accumulator.profile.Length && centerlineSeen.Length == accumulator.centerline.Length
    requires d == Draft(accumulator.Value(), flags, profileSeen[..], centerlineSeen[..], false)
    modifies accumulator`sampleSteps, accumulator`epoch, accumulator.profile, accumulator.centerline
    modifies profileSeen, centerlineSeen
    ensures ok == ReadLine(hasEpoch, b, d, line).Some?
    ensures ok ==>
      ReadLine(hasEpoch, b, d, line) == Some(Draft(accumulator.Value(), next, profileSeen[..], centerlineSeen[..],
                                                   ended))
  {
    ok, next, ended := false, flags, false;
    if !line[0].Keyword? {
      return;
    }
    var key := line[0].key;
    if key.End? {
      ok, ended := |line| == 1, true;
    } else if key.ProfileEntry? {
      if |line| != 3 || !Number(line[1]) || !line[2].Real? || line[1].n >= accumulator.profile.Length
         || profileSeen[line[1].n] {
        return;
      }
      accumulator.profile[line[1].n] := line[2].v;
      profileSeen[line[1].n] := true;
      ok := true;
    } else if key.CenterlineEntry? {
      if |line| != 3 || !Number(line[1]) || !line[2].Real? || line[1].n >= accumulator.centerline.Length
         || centerlineSeen[line[1].n] {
        return;
      }
      accumulator.centerline[line[1].n] := line[2].v;
      centerlineSeen[line[1].n] := true;
      ok := true;
    } else if |line| == 2 {
      if EpochKey(key) {
        if hasEpoch {
          ok, next := ReadEpochRow(key, line[1], flags, accumulator, d);
        }
      } else {
        ok, next := ReadIdentityRow(b, key, line[1], flags, accumulator, d);
      }
    }
  }

  method AllSeen(flags: array<bool>) returns (all: bool)
    ensures all == AllTrue(flags[..])
  {
    var i := 0;
    while i < flags.Length
      invariant 0 <= i <= flags.Length
      invariant AllTrue(flags[..i])
    {
      if !flags[i] {
        assert !flags[..][i];
        return false;
      }
      assert flags[..i + 1] == flags[..i] + [flags[i]];
      i := i + 1;
    }
    assert flags[..i] == flags[..];
    all := true;
  }

  lemma ReadLinesStep(hasEpoch: bool, b: Binding, d: Draft, lines: seq<Line>, i: nat)
    requires i < |lines|
    ensures ReadLines(hasEpoch, b, d, lines[..i + 1])
         == match ReadLines(hasEpoch, b, d, lines[..i])
            case None => None
            case Some(next) => ReadLine(hasEpoch, b, next, lines[i])
    ensures ReadLines(hasEpoch, b, d, lines[..i + 1]) == None ==> ReadLines(hasEpoch, b, d, lines) == None
  {
    assert lines[..i + 1] == lines[..i] + [lines[i]];
    ReadLinesAppend(hasEpoch, b, d, lines[..i], [lines[i]]);
    assert lines == lines[..i + 1] + lines[i + 1..];
    ReadLinesAppend(hasEpoch, b, d, lines[..i + 1], lines[i + 1..]);
  }

  /** The reader: accepts exactly the files that Decode accepts, and then holds exactly what Decode returns. */
  method DecodeAccumulator(b: Binding, file: seq<Line>, accumulator: Accumulator) returns (ok: bool)
    requires accumulator.Valid()
    modifies accumulator`sampleSteps, accumulator`epoch, accumulator.profile, accumulator.centerline
    ensures ok == Decode(b, file, old(accumulator.Value())).Some?
    ensures ok ==> Some(accumulator.Value()) == Decode(b, file, old(accumulator.Value()))
  {
    ok := false;
    if file == [] || !MagicLine(file[0]) {
      return;
    }
    var legacyWeights := file[0] != [Keyword(MagicV3)];
    var hasEpoch := file[0] != [Keyword(MagicV1)];
    ghost var start := Start(hasEpoch, accumulator.Value());
    if !hasEpoch {
      accumulator.epoch := accumulator.epoch.(reason := LegacyStatistics);
    }
    var flags, ended := NothingRead(), false;
    var profileSeen := new bool[accumulator.profile.Length](_ => false);
    var centerlineSeen := new bool[accumulator.centerline.Length](_ => false);
    assert profileSeen[..] == start.profileSeen && centerlineSeen[..] == start.centerlineSeen;
    var lines := file[1..];
    var i := 0;
    while i < |lines|
      invariant 0 <= i <= |lines|
      invariant fresh(profileSeen) && fresh(centerlineSeen) && profileSeen != centerlineSeen
      invariant profileSeen.Length == accumulator.profile.Length
      invariant centerlineSeen.Length == accumulator.centerline.Length
      invariant ReadLines(hasEpoch, b, start, lines[..i])
             == Some(Draft(accumulator.Value(), flags, profileSeen[..], centerlineSeen[..], ended))
    {
      ReadLinesStep(hasEpoch, b, start, lines, i);
      ghost var d := Draft(accumulator.Value(), flags, profileSeen[..], centerlineSeen[..], ended);
      var line := lines[i];
      i := i + 1;
      if line != [] {
        if ended {
          return;
        }
        var row: bool;
        row, flags, ended := ReadRow(hasEpoch, b, line, flags, accumulator, profileSeen, centerlineSeen, d);
        if !row {
          return;
        }
      }
    }
    assert lines[..i] == lines;
    var profileAll := AllSeen(profileSeen);
    var centerlineAll := AllSeen(centerlineSeen);
    if (hasEpoch && !(EpochRead(flags) && Admissible(accumulator.epoch, accumulator.sampleSteps, b.step)))
       || !ended || !IdentityRead(flags) || !profileAll || !centerlineAll {
      return;
    }
    if legacyWeights {
      accumulator.epoch := accumulator.epoch.(reason := LegacyStatistics);
    }
    ok := true;
  }
}
