/** The accumulator file: its writer and its reader. */
module AccumulatorCodec {
  import opened Options
  import opened StatisticsTypes
  import opened TextLines

  /** What a reader expects a file to be bound to. */
  datatype Binding = Binding(fingerprint: nat, plan: nat, schema: nat, step: nat, time: real)

  predicate HexDigit(c: char) {
    '0' <= c <= '9' || 'a' <= c <= 'f'
  }

  predicate ValidDigest(s: string) {
    |s| == 64 && forall i :: 0 <= i < |s| ==> HexDigit(s[i])
  }

  predicate NonzeroDigest(s: string) {
    exists i :: 0 <= i < |s| && s[i] != '0'
  }

  /** The reader's admission test on the epoch and the sample count. */
  predicate Admissible(e: Epoch, sampleSteps: nat, step: nat) {
    var development := AtLeastOne(e.developmentSteps);
    var possible := if step >= e.samplingStartStep then step - e.samplingStartStep + 1 else 0;
    && e.startStep <= step
    && development < UINT64_MAX - e.startStep
    && e.samplingStartStep == e.startStep + development + 1
    && sampleSteps <= possible
    && (if e.reason.Fresh? then e.startStep == 0 && e.discardedSamples == 0 && e.sourceManifest == ""
        else ValidDigest(e.sourceManifest) && NonzeroDigest(e.sourceManifest) && e.startStep > 0)
  }

  // ----- writer

  function IdentityLines(b: Binding, acc: Acc): seq<Line> {
    [[Keyword(SpecFingerprint), Count(b.fingerprint)],
     [Keyword(Plan), Count(b.plan)],
     [Keyword(Schema), Count(b.schema)],
     [Keyword(Step), Count(b.step)],
     [Keyword(Time), Real(b.time)],
     [Keyword(SampleSteps), Count(acc.sampleSteps)]]
  }

  function EpochStepLines(e: Epoch): seq<Line> {
    [[Keyword(EpochStartStep), Count(e.startStep)],
     [Keyword(EpochDevelopmentSteps), Count(e.developmentSteps)]]
  }

  function EpochSampleLines(e: Epoch): seq<Line> {
    [[Keyword(EpochSamplingStartStep), Count(e.samplingStartStep)],
     [Keyword(EpochDiscardedSamples), Count(e.discardedSamples)]]
  }

  function EpochCauseLines(e: Epoch): seq<Line> {
    [[Keyword(EpochResetReason), Reason(e.reason)],
     [Keyword(EpochSourceManifest), if ValidDigest(e.sourceManifest) then Text(e.sourceManifest) else NoneWord]]
  }

  function SizeLines(acc: Acc): seq<Line> {
    [[Keyword(ProfileSize), Count(|acc.profile|)],
     [Keyword(CenterlineSize), Count(|acc.centerline|)]]
  }

  function Header(b: Binding, acc: Acc): seq<Line> {
    IdentityLines(b, acc) + EpochStepLines(acc.epoch) + EpochSampleLines(acc.epoch) + EpochCauseLines(acc.epoch)
    + SizeLines(acc)
  }

  function Entries(key: Key, values: seq<real>, count: nat): (lines: seq<Line>)
    requires count <= |values|
    ensures |lines| == count
  {
    if count == 0 then []
    else Entries(key, values, count - 1) + [[Keyword(key), Count(count - 1), Real(values[count - 1])]]
  }

  function Encode(b: Binding, acc: Acc): seq<Line> {
    [[Keyword(MagicV3)]] + Header(b, acc)
    + Entries(ProfileEntry, acc.profile, |acc.profile|)
    + Entries(CenterlineEntry, acc.centerline, |acc.centerline|)
    + [[Keyword(End)]]
  }

  // ----- reader

  /** Which single-value rows have been read. */
  datatype Flags = Flags(spec: bool, plan: bool, schema: bool, step: bool, time: bool, samples: bool,
                         profileSize: bool, centerlineSize: bool,
                         epochStart: bool, epochDevelopment: bool, epochSampling: bool, epochDiscarded: bool,
                         epochReason: bool, epochSource: bool)

  datatype Draft = Draft(acc: Acc, flags: Flags, profileSeen: seq<bool>, centerlineSeen: seq<bool>, ended: bool)

  predicate Number(t: Token) {
    t.Count? && t.n <= UINT64_MAX
  }

  predicate NumberIs(t: Token, n: nat) {
    Number(t) && t.n == n
  }

  /** The identity and size rows: each at most once, and compared on the spot. */
  function ReadIdentityField(b: Binding, d: Draft, key: Key, value: Token): Option<Draft> {
    var a, f := d.acc, d.flags;
    match key
    case SpecFingerprint =>
      if !f.spec && NumberIs(value, b.fingerprint) then Some(d.(flags := f.(spec := true))) else None
    case Plan => if !f.plan && NumberIs(value, b.plan) then Some(d.(flags := f.(plan := true))) else None
    case Schema => if !f.schema && NumberIs(value, b.schema) then Some(d.(flags := f.(schema := true))) else None
    case Step => if !f.step && NumberIs(value, b.step) then Some(d.(flags := f.(step := true))) else None
    case Time => if !f.time && value == Real(b.time) then Some(d.(flags := f.(time := true))) else None
    case SampleSteps =>
      if !f.samples && Number(value) then Some(d.(flags := f.(samples := true), acc := a.(sampleSteps := value.n)))
          else None
    case ProfileSize =>
      if !f.profileSize && NumberIs(value, |a.profile|) then Some(d.(flags := f.(profileSize := true))) else None
    case CenterlineSize =>
      if !f.centerlineSize && NumberIs(value, |a.centerline|)
          then Some(d.(flags := f.(centerlineSize := true))) else None
    case _ => None
  }

  /** The epoch rows, which the oldest format does not have. */
  function ReadEpochField(d: Draft, key: Key, value: Token): Option<Draft> {
    var a, e, f := d.acc, d.acc.epoch, d.flags;
    match key
    case EpochStartStep =>
      if !f.epochStart && Number(value)
      then Some(d.(flags := f.(epochStart := true), acc := a.(epoch := e.(startStep := value.n)))) else None
    case EpochDevelopmentSteps =>
      if !f.epochDevelopment && Number(value)
      then Some(d.(flags := f.(epochDevelopment := true), acc := a.(epoch := e.(developmentSteps := value.n))))
          else None
    case EpochSamplingStartStep =>
      if !f.epochSampling && Number(value)
      then Some(d.(flags := f.(epochSampling := true), acc := a.(epoch := e.(samplingStartStep := value.n)))) else None
    case EpochDiscardedSamples =>
      if !f.epochDiscarded && Number(value)
      then Some(d.(flags := f.(epochDiscarded := true), acc := a.(epoch := e.(discardedSamples := value.n)))) else None
    case EpochResetReason =>
      if !f.epochReason && value.Reason?
      then Some(d.(flags := f.(epochReason := true), acc := a.(epoch := e.(reason := value.r)))) else None
    case EpochSourceManifest =>
      if f.epochSource || !(value.NoneWord? || (value.Text? && ValidDigest(value.s))) then None
      else Some(d.(flags := f.(epochSource := true),
                   acc := a.(epoch := e.(sourceManifest := if value.NoneWord? then "" else value.s))))
    case _ => None
  }

  predicate EpochKey(key: Key) {
    key.EpochStartStep? || key.EpochDevelopmentSteps? || key.EpochSamplingStartStep? || key.EpochDiscardedSamples?
    || key.EpochResetReason? || key.EpochSourceManifest?
  }

  function ReadField(hasEpoch: bool, b: Binding, d: Draft, key: Key, value: Token): Option<Draft> {
    if EpochKey(key) then if hasEpoch then ReadEpochField(d, key, value) else None
    else ReadIdentityField(b, d, key, value)
  }

  function ReadProfileEntry(d: Draft, index: Token, value: Token): Option<Draft> {
    if !Number(index) || !value.Real? || index.n >= |d.acc.profile| || index.n >= |d.profileSeen| then None
    else if d.profileSeen[index.n] then None
    else Some(d.(acc := d.acc.(profile := d.acc.profile[index.n := value.v]),
                 profileSeen := d.profileSeen[index.n := true]))
  }

  function ReadCenterlineEntry(d: Draft, index: Token, value: Token): Option<Draft> {
    if !Number(index) || !value.Real? || index.n >= |d.acc.centerline| || index.n >= |d.centerlineSeen| then None
    else if d.centerlineSeen[index.n] then None
    else Some(d.(acc := d.acc.(centerline := d.acc.centerline[index.n := value.v]),
                 centerlineSeen := d.centerlineSeen[index.n := true]))
  }

  function ReadLine(hasEpoch: bool, b: Binding, d: Draft, line: Line): Option<Draft> {
    if line == [] then Some(d)
    else if d.ended || !line[0].Keyword? then None
    else match line[0].key
      case End => if |line| == 1 then Some(d.(ended := true)) else None
      case ProfileEntry => if |line| == 3 then ReadProfileEntry(d, line[1], line[2]) else None
      case CenterlineEntry => if |line| == 3 then ReadCenterlineEntry(d, line[1], line[2]) else None
      case key => if |line| == 2 then ReadField(hasEpoch, b, d, key, line[1]) else None
  }

  function ReadLines(hasEpoch: bool, b: Binding, d: Draft, lines: seq<Line>): Option<Draft>
    decreases |lines|
  {
    if lines == [] then Some(d)
    else match ReadLine(hasEpoch, b, d, lines[0])
      case None => None
      case Some(next) => ReadLines(hasEpoch, b, next, lines[1..])
  }

  predicate IdentityRead(f: Flags) {
    f.spec && f.plan && f.schema && f.step && f.time && f.samples && f.profileSize && f.centerlineSize
  }

  predicate EpochRead(f: Flags) {
    f.epochStart && f.epochDevelopment && f.epochSampling && f.epochDiscarded && f.epochReason && f.epochSource
  }

  predicate AllTrue(flags: seq<bool>) {
    forall i :: 0 <= i < |flags| ==> flags[i]
  }

  predicate Complete(hasEpoch: bool, b: Binding, d: Draft) {
    && (hasEpoch ==> EpochRead(d.flags) && Admissible(d.acc.epoch, d.acc.sampleSteps, b.step))
    && d.ended && IdentityRead(d.flags) && AllTrue(d.profileSeen) && AllTrue(d.centerlineSeen)
  }

  predicate MagicLine(line: Line) {
    line == [Keyword(MagicV1)] || line == [Keyword(MagicV2)] || line == [Keyword(MagicV3)]
  }

  function NothingRead(): Flags {
    Flags(false, false, false, false, false, false, false, false, false, false, false, false, false, false)
  }

  function AllRead(): Flags {
    Flags(true, true, true, true, true, true, true, true, true, true, true, true, true, true)
  }

  function Start(hasEpoch: bool, target: Acc): Draft {
    Draft(if hasEpoch then target else target.(epoch := target.epoch.(reason := LegacyStatistics)), NothingRead(),
          seq(|target.profile|, _ => false), seq(|target.centerline|, _ => false), false)
  }

  /** Reading a file into a target whose vectors have the expected sizes; older weights are marked legacy. */
  function Decode(b: Binding, file: seq<Line>, target: Acc): Option<Acc> {
    if file == [] || !MagicLine(file[0]) then None
    else
      var hasEpoch := file[0] != [Keyword(MagicV1)];
      match ReadLines(hasEpoch, b, Start(hasEpoch, target), file[1..])
      case None => None
      case Some(d) =>
        if !Complete(hasEpoch, b, d) then None
        else if file[0] != [Keyword(MagicV3)] then
          Some(d.acc.(epoch := d.acc.epoch.(reason := LegacyStatistics)))
        else Some(d.acc)
  }

  // ----- the reader undoes the writer

  lemma {:induction false} ReadLinesAppend(hasEpoch: bool, b: Binding, d: Draft, first: seq<Line>, rest: seq<Line>)
    ensures ReadLines(hasEpoch, b, d, first + rest)
         == match ReadLines(hasEpoch, b, d, first)
            case None => None
            case Some(next) => ReadLines(hasEpoch, b, next, rest)
    decreases |first|
  {
    if first == [] {
      assert first + rest == rest;
    } else {
      assert (first + rest)[1..] == first[1..] + rest;
      match ReadLine(hasEpoch, b, d, first[0])
      case None =>
      case Some(next) => ReadLinesAppend(hasEpoch, b, next, first[1..], rest);
    }
  }

  lemma {:induction false} ReadThrough(hasEpoch: bool, b: Binding, lines: seq<Line>, states: seq<Draft>)
    requires |states| == |lines| + 1
    requires forall i :: 0 <= i < |lines| ==> ReadLine(hasEpoch, b, states[i], lines[i]) == Some(states[i + 1])
    ensures ReadLines(hasEpoch, b, states[0], lines) == Some(states[|lines|])
    decreases |lines|
  {
    if lines != [] {
      ReadThrough(hasEpoch, b, lines[1..], states[1..]);
    }
  }

  predicate Counters(b: Binding, acc: Acc) {
    && b.fingerprint <= UINT64_MAX && b.plan <= UINT64_MAX && b.schema <= UINT64_MAX && b.step <= UINT64_MAX
    && acc.sampleSteps <= UINT64_MAX && acc.epoch.startStep <= UINT64_MAX && acc.epoch.developmentSteps <= UINT64_MAX
    && acc.epoch.samplingStartStep <= UINT64_MAX && acc.epoch.discardedSamples <= UINT64_MAX
    && |acc.profile| <= UINT64_MAX && |acc.centerline| <= UINT64_MAX
  }

  function StoredSource(e: Epoch): string {
    if ValidDigest(e.sourceManifest) then e.sourceManifest else ""
  }

  lemma ReadIdentity(b: Binding, acc: Acc, d: Draft)
    requires Counters(b, acc) && !d.ended && d.flags == NothingRead()
    ensures ReadLines(true, b, d, IdentityLines(b, acc))
         == Some(d.(flags := d.flags.(spec := true, plan := true, schema := true, step := true, time := true,
                                      samples := true),
                    acc := d.acc.(sampleSteps := acc.sampleSteps)))
  {
    var d1 := d.(flags := d.flags.(spec := true));
    var d2 := d1.(flags := d1.flags.(plan := true));
    var d3 := d2.(flags := d2.flags.(schema := true));
    var d4 := d3.(flags := d3.flags.(step := true));
    var d5 := d4.(flags := d4.flags.(time := true));
    var d6 := d5.(flags := d5.flags.(samples := true), acc := d5.acc.(sampleSteps := acc.sampleSteps));
    ReadThrough(true, b, IdentityLines(b, acc), [d, d1, d2, d3, d4, d5, d6]);
  }

  lemma ReadEpochSteps(b: Binding, d: Draft, e: Epoch)
    requires e.startStep <= UINT64_MAX && e.developmentSteps <= UINT64_MAX && !d.ended
    requires !d.flags.epochStart && !d.flags.epochDevelopment
    ensures ReadLines(true, b, d, EpochStepLines(e))
         == Some(d.(flags := d.flags.(epochStart := true, epochDevelopment := true),
                    acc := d.acc.(epoch := d.acc.epoch.(startStep := e.startStep,
                                                        developmentSteps := e.developmentSteps))))
  {
    var d1 := d.(flags := d.flags.(epochStart := true),
                 acc := d.acc.(epoch := d.acc.epoch.(startStep := e.startStep)));
    var d2 := d1.(flags := d1.flags.(epochDevelopment := true),
                  acc := d1.acc.(epoch := d1.acc.epoch.(developmentSteps := e.developmentSteps)));
    ReadThrough(true, b, EpochStepLines(e), [d, d1, d2]);
  }

  lemma ReadEpochSamples(b: Binding, d: Draft, e: Epoch)
    requires e.samplingStartStep <= UINT64_MAX && e.discardedSamples <= UINT64_MAX && !d.ended
    requires !d.flags.epochSampling && !d.flags.epochDiscarded
    ensures ReadLines(true, b, d, EpochSampleLines(e))
         == Some(d.(flags := d.flags.(epochSampling := true, epochDiscarded := true),
                    acc := d.acc.(epoch := d.acc.epoch.(samplingStartStep := e.samplingStartStep,
                                                        discardedSamples := e.discardedSamples))))
  {
    var d1 := d.(flags := d.flags.(epochSampling := true),
                 acc := d.acc.(epoch := d.acc.epoch.(samplingStartStep := e.samplingStartStep)));
    var d2 := d1.(flags := d1.flags.(epochDiscarded := true),
                  acc := d1.acc.(epoch := d1.acc.epoch.(discardedSamples := e.discardedSamples)));
    ReadThrough(true, b, EpochSampleLines(e), [d, d1, d2]);
  }

  lemma ReadEpochCause(b: Binding, d: Draft, e: Epoch)
    requires !d.ended && !d.flags.epochReason && !d.flags.epochSource
    ensures ReadLines(true, b, d, EpochCauseLines(e))
         == Some(d.(flags := d.flags.(epochReason := true, epochSource := true),
                    acc := d.acc.(epoch := d.acc.epoch.(reason := e.reason, sourceManifest := StoredSource(e)))))
  {
    var d1 := d.(flags := d.flags.(epochReason := true), acc := d.acc.(epoch := d.acc.epoch.(reason := e.reason)));
    var d2 := d1.(flags := d1.flags.(epochSource := true),
                  acc := d1.acc.(epoch := d1.acc.epoch.(sourceManifest := StoredSource(e))));
    ReadThrough(true, b, EpochCauseLines(e), [d, d1, d2]);
  }

  lemma ReadSizes(b: Binding, acc: Acc, d: Draft)
    requires Counters(b, acc) && !d.ended && !d.flags.profileSize && !d.flags.centerlineSize
    requires |d.acc.profile| == |acc.profile| && |d.acc.centerline| == |acc.centerline|
    ensures ReadLines(true, b, d, SizeLines(acc))
         == Some(d.(flags := d.flags.(profileSize := true, centerlineSize := true)))
  {
    var d1 := d.(flags := d.flags.(profileSize := true));
    var d2 := d1.(flags := d1.flags.(centerlineSize := true));
    ReadThrough(true, b, SizeLines(acc), [d, d1, d2]);
  }

  lemma ReadFive(b: Binding, d: Draft, l1: seq<Line>, l2: seq<Line>, l3: seq<Line>, l4: seq<Line>, l5: seq<Line>,
                 d1: Draft, d2: Draft, d3: Draft, d4: Draft, d5: Draft)
    requires ReadLines(true, b, d, l1) == Some(d1) && ReadLines(true, b, d1, l2) == Some(d2)
    requires ReadLines(true, b, d2, l3) == Some(d3) && ReadLines(true, b, d3, l4) == Some(d4)
    requires ReadLines(true, b, d4, l5) == Some(d5)
    ensures ReadLines(true, b, d, l1 + l2 + l3 + l4 + l5) == Some(d5)
  {
    ReadLinesAppend(true, b, d, l1, l2);
    ReadLinesAppend(true, b, d, l1 + l2, l3);
    ReadLinesAppend(true, b, d, l1 + l2 + l3, l4);
    ReadLinesAppend(true, b, d, l1 + l2 + l3 + l4, l5);
  }

  lemma ReadHeader(b: Binding, acc: Acc, d: Draft)
    requires Counters(b, acc) && !d.ended && d.flags == NothingRead()
    requires |d.acc.profile| == |acc.profile| && |d.acc.centerline| == |acc.centerline|
    ensures ReadLines(true, b, d, Header(b, acc))
         == Some(d.(flags := AllRead(),
                    acc := d.acc.(sampleSteps := acc.sampleSteps,
                                  epoch := acc.epoch.(sourceManifest := StoredSource(acc.epoch)))))
  {
    var e := acc.epoch;
    var d1 := d.(flags := d.flags.(spec := true, plan := true, schema := true, step := true, time := true,
                                   samples := true),
                 acc := d.acc.(sampleSteps := acc.sampleSteps));
    var d2 := d1.(flags := d1.flags.(epochStart := true, epochDevelopment := true),
                  acc := d1.acc.(epoch := d1.acc.epoch.(startStep := e.startStep,
                                                        developmentSteps := e.developmentSteps)));
    var d3 := d2.(flags := d2.flags.(epochSampling := true, epochDiscarded := true),
                  acc := d2.acc.(epoch := d2.acc.epoch.(samplingStartStep := e.samplingStartStep,
                                                        discardedSamples := e.discardedSamples)));
    var d4 := d3.(flags := d3.flags.(epochReason := true, epochSource := true),
                  acc := d3.acc.(epoch := d3.acc.epoch.(reason := e.reason, sourceManifest := StoredSource(e))));
    var d5 := d4.(flags := d4.flags.(profileSize := true, centerlineSize := true));
    ReadIdentity(b, acc, d);
    ReadEpochSteps(b, d1, e);
    ReadEpochSamples(b, d2, e);
    ReadEpochCause(b, d3, e);
    ReadSizes(b, acc, d4);
    ReadFive(b, d, IdentityLines(b, acc), EpochStepLines(e), EpochSampleLines(e), EpochCauseLines(e), SizeLines(acc),
             d1, d2, d3, d4, d5);
  }

  lemma ReadOne(b: Binding, d: Draft, line: Line)
    ensures ReadLines(true, b, d, [line]) == ReadLine(true, b, d, line)
  {
  }

  function WithProfile(d: Draft, values: seq<real>, count: nat): Draft
    requires count <= |values| == |d.acc.profile| == |d.profileSeen|
  {
    d.(acc := d.acc.(profile := values[..count] + d.acc.profile[count..]),
       profileSeen := seq(count, _ => true) + d.profileSeen[count..])
  }

  function WithCenterline(d: Draft, values: seq<real>, count: nat): Draft
    requires count <= |values| == |d.acc.centerline| == |d.centerlineSeen|
  {
    d.(acc := d.acc.(centerline := values[..count] + d.acc.centerline[count..]),
       centerlineSeen := seq(count, _ => true) + d.centerlineSeen[count..])
  }

  lemma ReadProfileStep(b: Binding, d: Draft, values: seq<real>, i: nat)
    requires i < |values| == |d.acc.profile| == |d.profileSeen| <= UINT64_MAX && !d.ended && !d.profileSeen[i]
    ensures ReadLine(true, b, WithProfile(d, values, i), [Keyword(ProfileEntry), Count(i), Real(values[i])])
         == Some(WithProfile(d, values, i + 1))
  {
    var before, after := WithProfile(d, values, i), WithProfile(d, values, i + 1);
    assert before.acc.profile[i := values[i]] == after.acc.profile;
    assert before.profileSeen[i := true] == after.profileSeen;
  }

  lemma ReadCenterlineStep(b: Binding, d: Draft, values: seq<real>, i: nat)
    requires i < |values| == |d.acc.centerline| == |d.centerlineSeen| <= UINT64_MAX && !d.ended && !d.centerlineSeen[i]
    ensures ReadLine(true, b, WithCenterline(d, values, i), [Keyword(CenterlineEntry), Count(i), Real(values[i])])
         == Some(WithCenterline(d, values, i + 1))
  {
    var before, after := WithCenterline(d, values, i), WithCenterline(d, values, i + 1);
    assert before.acc.centerline[i := values[i]] == after.acc.centerline;
    assert before.centerlineSeen[i := true] == after.centerlineSeen;
  }

  lemma {:induction false} ReadProfile(b: Binding, d: Draft, values: seq<real>, count: nat)
    requires count <= |values| == |d.acc.profile| == |d.profileSeen| <= UINT64_MAX && !d.ended
    requires forall i :: 0 <= i < |d.profileSeen| ==> !d.profileSeen[i]
    ensures ReadLines(true, b, d, Entries(ProfileEntry, values, count)) == Some(WithProfile(d, values, count))
  {
    if count > 0 {
      ReadProfile(b, d, values, count - 1);
      var line := [Keyword(ProfileEntry), Count(count - 1), Real(values[count - 1])];
      ReadLinesAppend(true, b, d, Entries(ProfileEntry, values, count - 1), [line]);
      ReadOne(b, WithProfile(d, values, count - 1), line);
      ReadProfileStep(b, d, values, count - 1);
    } else {
      assert WithProfile(d, values, 0).acc.profile == d.acc.profile;
      assert WithProfile(d, values, 0).profileSeen == d.profileSeen;
    }
  }

  lemma {:induction false} ReadCenterline(b: Binding, d: Draft, values: seq<real>, count: nat)
    requires count <= |values| == |d.acc.centerline| == |d.centerlineSeen| <= UINT64_MAX && !d.ended
    requires forall i :: 0 <= i < |d.centerlineSeen| ==> !d.centerlineSeen[i]
    ensures ReadLines(true, b, d, Entries(CenterlineEntry, values, count)) == Some(WithCenterline(d, values, count))
  {
    if count > 0 {
      ReadCenterline(b, d, values, count - 1);
      var line := [Keyword(CenterlineEntry), Count(count - 1), Real(values[count - 1])];
      ReadLinesAppend(true, b, d, Entries(CenterlineEntry, values, count - 1), [line]);
      ReadOne(b, WithCenterline(d, values, count - 1), line);
      ReadCenterlineStep(b, d, values, count - 1);
    } else {
      assert WithCenterline(d, values, 0).acc.centerline == d.acc.centerline;
      assert WithCenterline(d, values, 0).centerlineSeen == d.centerlineSeen;
    }
  }

  lemma WithAll(d: Draft, acc: Acc)
    requires |acc.profile| == |d.acc.profile| == |d.profileSeen|
    requires |acc.centerline| == |d.acc.centerline| == |d.centerlineSeen|
    ensures WithCenterline(WithProfile(d, acc.profile, |acc.profile|), acc.centerline, |acc.centerline|)
         == d.(acc := d.acc.(profile := acc.profile, centerline := acc.centerline),
               profileSeen := seq(|acc.profile|, _ => true), centerlineSeen := seq(|acc.centerline|, _ => true))
  {
    var p := WithProfile(d, acc.profile, |acc.profile|);
    assert p.acc.profile == acc.profile && p.profileSeen == seq(|acc.profile|, _ => true);
    var c := WithCenterline(p, acc.centerline, |acc.centerline|);
    assert c.acc.centerline == acc.centerline && c.centerlineSeen == seq(|acc.centerline|, _ => true);
  }

  lemma ReadFour(b: Binding, d: Draft, l1: seq<Line>, l2: seq<Line>, l3: seq<Line>, l4: seq<Line>,
                 d1: Draft, d2: Draft, d3: Draft, d4: Draft)
    requires ReadLines(true, b, d, l1) == Some(d1) && ReadLines(true, b, d1, l2) == Some(d2)
    requires ReadLines(true, b, d2, l3) == Some(d3) && ReadLines(true, b, d3, l4) == Some(d4)
    ensures ReadLines(true, b, d, l1 + l2 + l3 + l4) == Some(d4)
  {
    ReadLinesAppend(true, b, d, l1, l2);
    ReadLinesAppend(true, b, d, l1 + l2, l3);
    ReadLinesAppend(true, b, d, l1 + l2 + l3, l4);
  }

  /** Everything up to the admission test: the reader's draft after a whole written file. */
  lemma ReadWritten(b: Binding, acc: Acc, target: Acc)
    requires Counters(b, acc)
    requires |target.profile| == |acc.profile| && |target.centerline| == |acc.centerline|
    ensures ReadLines(true, b, Start(true, target), Encode(b, acc)[1..])
         == Some(Draft(acc.(epoch := acc.epoch.(sourceManifest := StoredSource(acc.epoch))), AllRead(),
                       seq(|acc.profile|, _ => true), seq(|acc.centerline|, _ => true), true))
  {
    var h, p, c := Header(b, acc), Entries(ProfileEntry, acc.profile, |acc.profile|),
                   Entries(CenterlineEntry, acc.centerline, |acc.centerline|);
    var end := [Keyword(End)];
    assert Encode(b, acc)[1..] == h + p + c + [end];
    var d0 := Start(true, target);
    var d1 := d0.(flags := AllRead(),
                  acc := d0.acc.(sampleSteps := acc.sampleSteps,
                                 epoch := acc.epoch.(sourceManifest := StoredSource(acc.epoch))));
    var d2 := WithProfile(d1, acc.profile, |acc.profile|);
    var d3 := WithCenterline(d2, acc.centerline, |acc.centerline|);
    ReadHeader(b, acc, d0);
    ReadProfile(b, d1, acc.profile, |acc.profile|);
    ReadCenterline(b, d2, acc.centerline, |acc.centerline|);
    ReadOne(b, d3, end);
    WithAll(d1, acc);
    ReadFour(b, d0, h, p, c, [end], d1, d2, d3, d3.(ended := true));
  }

  /** Decoding an encoded accumulator returns it unchanged exactly when it passes the admission test. */
  lemma DecodeEncode(b: Binding, acc: Acc, target: Acc)
    requires Counters(b, acc)
    requires |target.profile| == |acc.profile| && |target.centerline| == |acc.centerline|
    ensures Decode(b, Encode(b, acc), target) == Some(acc) <==> Admissible(acc.epoch, acc.sampleSteps, b.step)
  {
    ReadWritten(b, acc, target);
    assert Encode(b, acc)[0] == [Keyword(MagicV3)];
    if Admissible(acc.epoch, acc.sampleSteps, b.step) {
      assert !ValidDigest("");
      assert StoredSource(acc.epoch) == acc.epoch.sourceManifest;
      assert acc.epoch.(sourceManifest := StoredSource(acc.epoch)) == acc.epoch;
    }
  }

  // ----- a file cut short is refused

  lemma {:induction false} EndedNeedsEnd(hasEpoch: bool, b: Binding, d: Draft, lines: seq<Line>)
    requires !d.ended && NoEndLine(lines)
    ensures var r := ReadLines(hasEpoch, b, d, lines); r.Some? ==> !r.value.ended
    decreases |lines|
  {
    if lines != [] {
      assert NoEndLine(lines[1..]);
      match ReadLine(hasEpoch, b, d, lines[0])
      case None =>
      case Some(next) => EndedNeedsEnd(hasEpoch, b, next, lines[1..]);
    }
  }

  lemma {:induction false} EntriesKeys(key: Key, values: seq<real>, count: nat)
    requires count <= |values|
    ensures forall i :: 0 <= i < count ==> Entries(key, values, count)[i] == [Keyword(key), Count(i), Real(values[i])]
  {
    if count > 0 {
      EntriesKeys(key, values, count - 1);
    }
  }

  /** Only the last line of a written file opens with the end mark. */
  lemma EncodeEndsOnce(b: Binding, acc: Acc)
    ensures var whole := Encode(b, acc); EndsOnce(whole)
  {
    EntriesKeys(ProfileEntry, acc.profile, |acc.profile|);
    EntriesKeys(CenterlineEntry, acc.centerline, |acc.centerline|);
    var whole := Encode(b, acc);
    var h, p := 1 + |Header(b, acc)|, |acc.profile|;
    forall i | 0 <= i < |whole| - 1
      ensures |whole[i]| > 0 && whole[i][0] != Keyword(End)
    {
      if h <= i < h + p {
        assert whole[i] == Entries(ProfileEntry, acc.profile, p)[i - h];
      } else if h + p <= i {
        assert whole[i] == Entries(CenterlineEntry, acc.centerline, |acc.centerline|)[i - h - p];
      }
    }
  }

  /** Whatever a crash leaves of an accumulator file is refused. */
  lemma TornRefused(b: Binding, acc: Acc, other: Binding, target: Acc, torn: seq<Line>)
    requires Torn(Encode(b, acc), torn)
    ensures Decode(other, torn, target) == None
  {
    EncodeEndsOnce(b, acc);
    TornHasNoEnd(Encode(b, acc), torn);
    if torn != [] && MagicLine(torn[0]) {
      var hasEpoch := torn[0] != [Keyword(MagicV1)];
      assert NoEndLine(torn[1..]);
      EndedNeedsEnd(hasEpoch, other, Start(hasEpoch, target), torn[1..]);
    }
  }
}
