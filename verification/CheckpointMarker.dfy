/** The marker that binds an accumulator to a generation. */
module CheckpointMarker {
  import opened Options
  import opened StatisticsTypes
  import opened TextLines
  import opened AccumulatorCodec

  /** What a checkpoint binds together; the marker names the step's two files. */
  datatype Mark = Mark(fingerprint: nat, step: nat, time: real, plan: nat, schema: nat, generation: string)

  function MarkerLines(m: Mark): seq<Line> {
    [[Keyword(CheckpointMagic)],
     [Keyword(SpecFingerprint), Count(m.fingerprint)],
     [Keyword(Step), Count(m.step)],
     [Keyword(Time), Real(m.time)],
     [Keyword(Plan), Count(m.plan)],
     [Keyword(Schema), Count(m.schema)],
     [Keyword(RestartGeneration), Text(m.generation)],
     [Keyword(StatisticsFile), File(StatisticsOf(m.step))],
     [Keyword(AccumulatorFile), File(AccumulatorOf(m.step))],
     [Keyword(End)]]
  }

  /** What has been read of a marker, in the reader's own flags; file names are kept once accepted. */
  datatype MarkRead = MarkRead(spec: bool, step: bool, time: bool, plan: bool, schema: bool, generation: bool,
                               statistics: Option<FileName>, accumulator: Option<FileName>, ended: bool)

  function NoMark(): MarkRead {
    MarkRead(false, false, false, false, false, false, None, None, false)
  }

  /** Files present in the run directory. */
  datatype Present = Present(statistics: set<nat>, accumulators: set<nat>, others: set<nat>)

  predicate IsFile(files: Present, name: FileName) {
    match name
    case StatisticsOf(s) => s in files.statistics
    case AccumulatorOf(s) => s in files.accumulators
    case OtherFile(n) => n in files.others
  }

  function ReadMarkField(m: Mark, files: Present, r: MarkRead, key: Key, value: Token): Option<MarkRead> {
    match key
    case SpecFingerprint => if !r.spec && NumberIs(value, m.fingerprint) then Some(r.(spec := true)) else None
    case Step => if !r.step && NumberIs(value, m.step) then Some(r.(step := true)) else None
    case Time => if !r.time && value == Real(m.time) then Some(r.(time := true)) else None
    case Plan => if !r.plan && NumberIs(value, m.plan) then Some(r.(plan := true)) else None
    case Schema => if !r.schema && NumberIs(value, m.schema) then Some(r.(schema := true)) else None
    case RestartGeneration =>
      if !r.generation && value == Text(m.generation) then Some(r.(generation := true)) else None
    case StatisticsFile =>
      if r.statistics.None? && value.File? && IsFile(files, value.name)
      then Some(r.(statistics := Some(value.name))) else None
    case AccumulatorFile =>
      if r.accumulator.None? && value.File? && IsFile(files, value.name)
      then Some(r.(accumulator := Some(value.name))) else None
    case _ => None
  }

  function ReadMarkLine(m: Mark, files: Present, r: MarkRead, line: Line): Option<MarkRead> {
    if line == [] then Some(r)
    else if r.ended || !line[0].Keyword? then None
    else if line[0].key.End? then if |line| == 1 then Some(r.(ended := true)) else None
    else if |line| != 2 then None
    else ReadMarkField(m, files, r, line[0].key, line[1])
  }

  function ReadMarkLines(m: Mark, files: Present, r: MarkRead, lines: seq<Line>): Option<MarkRead>
    decreases |lines|
  {
    if lines == [] then Some(r)
    else match ReadMarkLine(m, files, r, lines[0])
      case None => None
      case Some(next) => ReadMarkLines(m, files, next, lines[1..])
  }

  predicate MarkComplete(r: MarkRead) {
    r.ended && r.spec && r.step && r.time && r.plan && r.schema && r.generation
    && r.statistics.Some? && r.accumulator.Some?
  }

  /** The file an accepted marker names as its accumulator; None when the marker is refused. */
  function ReadBinding(m: Mark, files: Present, file: seq<Line>): Option<FileName> {
    if file == [] || file[0] != [Keyword(CheckpointMagic)] then None
    else match ReadMarkLines(m, files, NoMark(), file[1..])
      case None => None
      case Some(r) => if MarkComplete(r) then r.accumulator else None
  }

  lemma {:induction false} ReadMarkAppend(m: Mark, files: Present, r: MarkRead, first: seq<Line>, rest: seq<Line>)
    ensures ReadMarkLines(m, files, r, first + rest)
         == match ReadMarkLines(m, files, r, first)
            case None => None
            case Some(next) => ReadMarkLines(m, files, next, rest)
    decreases |first|
  {
    if first == [] {
      assert first + rest == rest;
    } else {
      assert (first + rest)[1..] == first[1..] + rest;
      match ReadMarkLine(m, files, r, first[0])
      case None =>
      case Some(next) => ReadMarkAppend(m, files, next, first[1..], rest);
    }
  }

  /** The marker reader's loop. */
  method ReadRestartBinding(m: Mark, files: Present, file: seq<Line>) returns (accumulator: Option<FileName>)
    ensures accumulator == ReadBinding(m, files, file)
  {
    if file == [] || file[0] != [Keyword(CheckpointMagic)] {
      return None;
    }
    var lines := file[1..];
    var read := NoMark();
    var i := 0;
    while i < |lines|
      invariant 0 <= i <= |lines|
      invariant ReadMarkLines(m, files, NoMark(), lines[..i]) == Some(read)
    {
      assert lines[..i + 1] == lines[..i] + [lines[i]];
      ReadMarkAppend(m, files, NoMark(), lines[..i], [lines[i]]);
      assert lines == lines[..i + 1] + lines[i + 1..];
      ReadMarkAppend(m, files, NoMark(), lines[..i + 1], lines[i + 1..]);
      var next := ReadMarkLine(m, files, read, lines[i]);
      if next.None? {
        return None;
      }
      read := next.value;
      i := i + 1;
    }
    assert lines[..i] == lines;
    return if MarkComplete(read) then read.accumulator else None;
  }

  lemma {:induction false} ReadMarkThrough(m: Mark, files: Present, lines: seq<Line>, states: seq<MarkRead>)
    requires |states| == |lines| + 1
    requires forall i :: 0 <= i < |lines| ==> ReadMarkLine(m, files, states[i], lines[i]) == Some(states[i + 1])
    ensures ReadMarkLines(m, files, states[0], lines) == Some(states[|lines|])
    decreases |lines|
  {
    if lines != [] {
      ReadMarkThrough(m, files, lines[1..], states[1..]);
    }
  }

  predicate SmallMark(m: Mark) {
    m.fingerprint <= UINT64_MAX && m.step <= UINT64_MAX && m.plan <= UINT64_MAX && m.schema <= UINT64_MAX
  }

  lemma {:induction false} EndedNeedsEnd(m: Mark, files: Present, r: MarkRead, lines: seq<Line>)
    requires !r.ended && NoEndLine(lines)
    ensures var t := ReadMarkLines(m, files, r, lines); t.Some? ==> !t.value.ended
    decreases |lines|
  {
    if lines != [] {
      assert NoEndLine(lines[1..]);
      match ReadMarkLine(m, files, r, lines[0])
      case None =>
      case Some(next) => EndedNeedsEnd(m, files, next, lines[1..]);
    }
  }

  /** Whatever a crash leaves of a marker is refused. */
  lemma TornMarkerRefused(written: Mark, m: Mark, files: Present, torn: seq<Line>)
    requires Torn(MarkerLines(written), torn)
    ensures ReadBinding(m, files, torn) == None
  {
    TornHasNoEnd(MarkerLines(written), torn);
    if torn != [] {
      assert NoEndLine(torn[1..]);
      EndedNeedsEnd(m, files, NoMark(), torn[1..]);
    }
  }

  function IdentityMarks(m: Mark): seq<Line> {
    [[Keyword(SpecFingerprint), Count(m.fingerprint)],
     [Keyword(Step), Count(m.step)],
     [Keyword(Time), Real(m.time)],
     [Keyword(Plan), Count(m.plan)]]
  }

  function BindingMarks(m: Mark): seq<Line> {
    [[Keyword(Schema), Count(m.schema)],
     [Keyword(RestartGeneration), Text(m.generation)],
     [Keyword(StatisticsFile), File(StatisticsOf(m.step))],
     [Keyword(AccumulatorFile), File(AccumulatorOf(m.step))],
     [Keyword(End)]]
  }

  function IdentityMarked(): MarkRead {
    NoMark().(spec := true, step := true, time := true, plan := true)
  }

  lemma ReadIdentityMarks(m: Mark, files: Present)
    requires SmallMark(m)
    ensures ReadMarkLines(m, files, NoMark(), IdentityMarks(m)) == Some(IdentityMarked())
  {
    var r1 := NoMark().(spec := true);
    var r2 := r1.(step := true);
    var r3 := r2.(time := true);
    ReadMarkThrough(m, files, IdentityMarks(m), [NoMark(), r1, r2, r3, IdentityMarked()]);
  }

  lemma ReadBindingMarks(m: Mark, files: Present)
    requires SmallMark(m) && m.step in files.statistics && m.step in files.accumulators
    ensures ReadMarkLines(m, files, IdentityMarked(), BindingMarks(m))
         == Some(MarkRead(true, true, true, true, true, true, Some(StatisticsOf(m.step)), Some(AccumulatorOf(m.step)),
                          true))
  {
    var r5 := IdentityMarked().(schema := true);
    var r6 := r5.(generation := true);
    var r7 := r6.(statistics := Some(StatisticsOf(m.step)));
    var r8 := r7.(accumulator := Some(AccumulatorOf(m.step)));
    ReadMarkThrough(m, files, BindingMarks(m), [IdentityMarked(), r5, r6, r7, r8, r8.(ended := true)]);
  }

  lemma RefusedMark(written: Mark, m: Mark, files: Present) returns (k: nat)
    requires m != written || m.step !in files.statistics || m.step !in files.accumulators
    ensures k < |MarkerLines(written)[1..]|
    ensures forall r: MarkRead :: ReadMarkLine(m, files, r, MarkerLines(written)[1..][k]) == None
  {
    if m.fingerprint != written.fingerprint {
      k := 0;
    } else if m.step != written.step {
      k := 1;
    } else if m.time != written.time {
      k := 2;
    } else if m.plan != written.plan {
      k := 3;
    } else if m.schema != written.schema {
      k := 4;
    } else if m.generation != written.generation {
      k := 5;
    } else if m.step !in files.statistics {
      k := 6;
    } else {
      k := 7;
    }
  }

  /** A written marker is accepted exactly for its own identity, with both named files present. */
  lemma WrittenMarker(written: Mark, m: Mark, files: Present)
    requires SmallMark(written)
    ensures ReadBinding(m, files, MarkerLines(written))
         == if m == written && m.step in files.statistics && m.step in files.accumulators
            then Some(AccumulatorOf(m.step)) else None
  {
    var lines := MarkerLines(written)[1..];
    if m == written && m.step in files.statistics && m.step in files.accumulators {
      ReadIdentityMarks(m, files);
      ReadBindingMarks(m, files);
      ReadMarkAppend(m, files, NoMark(), IdentityMarks(m), BindingMarks(m));
      assert lines == IdentityMarks(m) + BindingMarks(m);
    } else {
      var k := RefusedMark(written, m, files);
      RefusedLine(m, files, NoMark(), lines, k);
    }
  }

  lemma {:induction false} RefusedLine(m: Mark, files: Present, r: MarkRead, lines: seq<Line>, k: nat)
    requires k < |lines|
    requires forall r: MarkRead :: ReadMarkLine(m, files, r, lines[k]) == None
    ensures ReadMarkLines(m, files, r, lines) == None
    decreases k
  {
    if k > 0 {
      match ReadMarkLine(m, files, r, lines[0])
      case None =>
      case Some(next) =>
        assert lines[1..][k - 1] == lines[k];
        RefusedLine(m, files, next, lines[1..], k - 1);
    }
  }
}
