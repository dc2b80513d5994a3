/** Runs that show what can happen: progress of the steps, and two concrete runs. */
module CheckpointWitness {
  import opened Options
  import opened GridTypes
  import opened SamplingKernel
  import opened StatisticsTypes
  import opened TextLines
  import opened AccumulatorCodec
  import opened CheckpointMarker
  import opened RunAccumulator
  import opened StatisticsEpochs
  import opened CheckpointRuns
  import opened CheckpointProofs
  import opened CheckpointRestarts

  // ----- steps that are always possible

  /** A run so far: the worlds passed and the steps between them. */
  datatype Run = Run(worlds: seq<World>, actions: seq<Action>)

  ghost predicate IsRun(cfg: Config, run: Run)
    requires ValidConfig(cfg)
  {
    Behaviour(cfg, run.worlds, run.actions)
  }

  function Now(run: Run): World
    requires |run.worlds| > 0
  {
    run.worlds[|run.worlds| - 1]
  }

  function Then(run: Run, a: Action, w: World): Run {
    Run(run.worlds + [w], run.actions + [a])
  }

  /** A run that goes on from another. */
  ghost predicate Continues(run: Run, more: Run) {
    run.worlds <= more.worlds && run.actions <= more.actions
  }

  lemma OneStepMore(cfg: Config, run: Run, a: Action, w: World)
    requires ValidConfig(cfg) && IsRun(cfg, run) && Next(cfg, Now(run), w, a)
    ensures IsRun(cfg, Then(run, a, w)) && Now(Then(run, a, w)) == w
    ensures |Then(run, a, w).actions| == |run.actions| + 1
  {
    var more := Then(run, a, w);
    forall i | 0 <= i < |more.actions|
      ensures Next(cfg, more.worlds[i], more.worlds[i + 1], more.actions[i])
    {
      if i < |run.actions| {
        assert Next(cfg, run.worlds[i], run.worlds[i + 1], run.actions[i]);
      }
    }
  }

  /** A step whose cells are all finite is accepted. */
  lemma CanAccept(cfg: Config, run: Run, r: Report) returns (more: Run)
    requires ValidConfig(cfg) && IsRun(cfg, run) && Now(run).process.Some? && Now(run).process.value.phase.Running?
    requires var p := Now(run).process.value;
             r.step == p.step + 1 && r.step <= cfg.collectionEnd && r.dt > 0.0 && r.recovery == p.recoveryPending
    requires forall x, y, z :: Readable(r.field(x, y, z))
    ensures RanksAgree(cfg, Now(run).process.value.ranks)
    ensures |Now(run).process.value.ranks| == |Now(run).process.value.tiling| > 0
    ensures var p := Now(run).process.value;
            IsRun(cfg, more) && more == Then(run, DoAccept(r), Now(run).(process := Some(p.(
              ranks := AcceptedRanks(cfg, p.ranks, p.tiling, r), step := r.step, time := p.time + r.dt,
              history := p.history + [r], recoveryPending := false))))
  {
    RunsKeep(cfg, run.worlds, run.actions, |run.worlds| - 1);
    var w, p := Now(run), Now(run).process.value;
    assert RanksOk(cfg, p);
    var w' := w.(process := Some(p.(ranks := AcceptedRanks(cfg, p.ranks, p.tiling, r), step := r.step,
                                    time := p.time + r.dt, history := p.history + [r], recoveryPending := false)));
    assert AcceptedRanks(cfg, p.ranks, p.tiling, r)
           == seq(|p.ranks|, i requires 0 <= i < |p.ranks| => Accepted(cfg, p.ranks[i], p.tiling[i], r));
    assert Accept(cfg, w, w', r);
    OneStepMore(cfg, run, DoAccept(r), w');
    more := Then(run, DoAccept(r), w');
  }

  function Files(p: Process, cfg: Config): Binding {
    Binding(cfg.fingerprint, p.plan, p.schema, p.step, p.time)
  }

  /** What the first three writes of a checkpoint put into a directory. */
  ghost function Checkpointed(cfg: Config, p: Process, root: Root, generation: string, digest: string): Root
    requires |p.ranks| > 0
  {
    root.(statistics := root.statistics + {p.step},
          accumulators := root.accumulators[p.step := Encode(Files(p, cfg), Reduced(p.ranks))],
          images := root.images[generation := Image(p.step, p.time, p.plan, p.schema, digest, false, p.history)],
          current := Some(generation))
  }

  lemma CanWriteStatistics(cfg: Config, run: Run) returns (more: Run)
    requires ValidConfig(cfg) && IsRun(cfg, run) && Now(run).process.Some? && Now(run).process.value.phase.Running?
    requires Now(run).process.value.root in Now(run).disk
    requires Now(run).process.value.step !in Now(run).disk[Now(run).process.value.root].statistics
    ensures var p, root := Now(run).process.value, Now(run).disk[Now(run).process.value.root];
            && IsRun(cfg, more) && Continues(run, more) && |more.actions| == |run.actions| + 1
            && Now(more) == World(Now(run).disk[p.root := root.(statistics := root.statistics + {p.step})],
                                  Some(p.(phase := StatisticsWritten)))
  {
    var w, p, root := Now(run), Now(run).process.value, Now(run).disk[Now(run).process.value.root];
    var w' := World(w.disk[p.root := root.(statistics := root.statistics + {p.step})],
                    Some(p.(phase := StatisticsWritten)));
    OneStepMore(cfg, run, DoWriteStatistics, w');
    more := Then(run, DoWriteStatistics, w');
  }

  lemma CanWriteAccumulator(cfg: Config, run: Run) returns (more: Run)
    requires ValidConfig(cfg) && IsRun(cfg, run) && Now(run).process.Some?
    requires Now(run).process.value.phase.StatisticsWritten? && Now(run).process.value.root in Now(run).disk
    requires |Now(run).process.value.ranks| > 0
    requires Now(run).process.value.step !in Now(run).disk[Now(run).process.value.root].accumulators
    ensures var p, root := Now(run).process.value, Now(run).disk[Now(run).process.value.root];
            var files := root.accumulators[p.step := Encode(Files(p, cfg), Reduced(p.ranks))];
            && IsRun(cfg, more) && Continues(run, more) && |more.actions| == |run.actions| + 1
            && Now(more) == World(Now(run).disk[p.root := root.(accumulators := files)],
                                  Some(p.(phase := AccumulatorWritten)))
  {
    var w, p, root := Now(run), Now(run).process.value, Now(run).disk[Now(run).process.value.root];
    var files := root.accumulators[p.step := Encode(Files(p, cfg), Reduced(p.ranks))];
    var w' := World(w.disk[p.root := root.(accumulators := files)], Some(p.(phase := AccumulatorWritten)));
    assert WriteAccumulator(cfg, w, w', None);
    OneStepMore(cfg, run, DoWriteAccumulator(None), w');
    more := Then(run, DoWriteAccumulator(None), w');
  }

  /** Every running process can write a checkpoint of a step it has not written yet, up to its marker. */
  lemma CanPublish(cfg: Config, run: Run, generation: string, digest: string) returns (more: Run)
    requires ValidConfig(cfg) && IsRun(cfg, run) && ValidDigest(digest) && NonzeroDigest(digest)
    requires Now(run).process.Some? && Now(run).process.value.phase.Running? && Now(run).process.value.step > 0
    requires Now(run).process.value.root in Now(run).disk && |Now(run).process.value.ranks| > 0
    requires var p, root := Now(run).process.value, Now(run).disk[Now(run).process.value.root];
             p.step !in root.statistics && p.step !in root.accumulators && generation !in root.images
    ensures var p, root := Now(run).process.value, Now(run).disk[Now(run).process.value.root];
            && IsRun(cfg, more) && Continues(run, more) && |more.actions| == |run.actions| + 3
            && Now(more) == World(Now(run).disk[p.root := Checkpointed(cfg, p, root, generation, digest)],
                                  Some(p.(phase := Published(generation))))
  {
    var disk, p, root := Now(run).disk, Now(run).process.value, Now(run).disk[Now(run).process.value.root];
    more := CanWriteStatistics(cfg, run);
    more := CanWriteAccumulator(cfg, more);
    var w := Now(more);
    var w' := World(w.disk[p.root := Checkpointed(cfg, p, root, generation, digest)],
                    Some(p.(phase := Published(generation))));
    assert Publish(w, w', generation, digest, false);
    OneStepMore(cfg, more, DoPublish(generation, digest, false), w');
    more := Then(more, DoPublish(generation, digest, false), w');
    assert w'.disk == disk[p.root := Checkpointed(cfg, p, root, generation, digest)];
  }

  /** And then its marker, after which the run may end. */
  lemma CanMarkAndStop(cfg: Config, run: Run) returns (more: Run)
    requires ValidConfig(cfg) && IsRun(cfg, run) && Now(run).process.Some? && Now(run).process.value.phase.Published?
    requires Now(run).process.value.root in Now(run).disk
    requires Now(run).process.value.step !in Now(run).disk[Now(run).process.value.root].markers
    ensures Now(run).disk[Now(run).process.value.root].current.Some?
    ensures var p, root := Now(run).process.value, Now(run).disk[Now(run).process.value.root];
            var mark := Mark(cfg.fingerprint, p.step, p.time, p.plan, p.schema, root.current.value);
            && IsRun(cfg, more) && Continues(run, more) && |more.actions| == |run.actions| + 2
            && Now(more).disk == Now(run).disk[p.root := root.(markers := root.markers[p.step := MarkerLines(mark)])]
            && Now(more).process == None
  {
    RunsKeep(cfg, run.worlds, run.actions, |run.worlds| - 1);
    var w, p, root := Now(run), Now(run).process.value, Now(run).disk[Now(run).process.value.root];
    var mark := Mark(cfg.fingerprint, p.step, p.time, p.plan, p.schema, root.current.value);
    var disk := w.disk[p.root := root.(markers := root.markers[p.step := MarkerLines(mark)])];
    var w1 := World(disk, Some(p.(phase := Running)));
    assert WriteMarker(cfg, w, w1, None);
    OneStepMore(cfg, run, DoWriteMarker(None), w1);
    more := Then(run, DoWriteMarker(None), w1);
    OneStepMore(cfg, more, DoStop, World(disk, None));
    more := Then(more, DoStop, World(disk, None));
  }

  /** The process a restart begins with. */
  ghost function Restarted(cfg: Config, from: Root, root: nat, tiling: seq<Patch>): Process
    requires ValidConfig(cfg) && RestartAcc(cfg, from).Some?
  {
    var acc, image := RestartAcc(cfg, from).value, from.images[from.current.value];
    var start := if MustReset(acc, image.needsRecovery, false)
                 then ResetAcc(acc, image.step, 0, ResetCause(image.needsRecovery, false), image.digest) else acc;
    Process(root, 1, 1, tiling, Restored(cfg, start, |tiling|), image.step, image.time, image.history,
            image.needsRecovery, Running)
  }

  /** From an admitted directory a restart is possible into a new one. */
  lemma CanRestart(cfg: Config, run: Run, source: nat, root: nat, tiling: seq<Patch>) returns (more: Run)
    requires ValidConfig(cfg) && IsRun(cfg, run) && Now(run).process.None? && source in Now(run).disk
    requires root !in Now(run).disk && Tiles(cfg.n, tiling) && RestartAcc(cfg, Now(run).disk[source]).Some?
    requires var from := Now(run).disk[source]; from.images[from.current.value].step + 1 < cfg.collectionEnd
    ensures var from := Now(run).disk[source];
            && IsRun(cfg, more)
            && more == Then(run, DoRestart(source, root, 1, 1, tiling, false, 0),
                            World(Now(run).disk[root := EmptyRoot], Some(Restarted(cfg, from, root, tiling))))
  {
    var w, from := Now(run), Now(run).disk[source];
    var w' := World(w.disk[root := EmptyRoot], Some(Restarted(cfg, from, root, tiling)));
    assert Restart(cfg, w, w', source, root, 1, 1, tiling, false, 0);
    OneStepMore(cfg, run, DoRestart(source, root, 1, 1, tiling, false, 0), w');
    more := Then(run, DoRestart(source, root, 1, 1, tiling, false, 0), w');
  }

  // ----- one cell, one rank

  function OneCell(): Config {
    Config(Int3(1, 1, 1), Geometry([], Bracket(0, 0, 0.0)), 1, 10, 7)
  }

  function Tiling(): seq<Patch> {
    [Whole(Int3(1, 1, 1))]
  }

  lemma OneCellValid()
    ensures ValidConfig(OneCell()) && Tiles(OneCell().n, Tiling())
  {
    forall c | InGrid(OneCell().n, c)
      ensures exists r :: 0 <= r < |Tiling()| && OwnsCell(Tiling()[r], c)
    {
      assert OwnsCell(Tiling()[0], c);
    }
  }

  function Still(step: nat): Report {
    Report(step, 1.0, (x, y, z) => Velocity(Finite(0.0), Finite(0.0)), 1, false, false)
  }

  function Digest(): string {
    seq(64, _ => '1')
  }

  lemma DigestValid()
    ensures ValidDigest(Digest()) && NonzeroDigest(Digest())
  {
    assert Digest()[0] != '0';
  }

  /** A fresh run of one step, published and not yet marked: its directory admits no restart. */
  lemma UnmarkedRun() returns (run: Run)
    ensures ValidConfig(OneCell()) && IsRun(OneCell(), run) && Now(run).process.Some?
    ensures var p := Now(run).process.value;
            && p.phase.Published? && p.step == 1 && p.root in Now(run).disk && Now(run).disk[p.root].current.Some?
            && p.step !in Now(run).disk[p.root].markers && RestartAcc(OneCell(), Now(run).disk[p.root]) == None
  {
    var cfg := OneCell();
    OneCellValid();
    DigestValid();
    run := Run([World(map[], None)], []);
    var p := Process(0, 1, 1, Tiling(), seq(|Tiling()|, _ => ZeroAcc(cfg, FreshEpoch(cfg), 0)), 0, 0.0, [], false,
                     Running);
    var w := World(map[][0 := EmptyRoot], Some(p));
    assert StartFresh(cfg, Now(run), w, 0, 1, 1, Tiling());
    OneStepMore(cfg, run, DoStart(0, 1, 1, Tiling()), w);
    run := Then(run, DoStart(0, 1, 1, Tiling()), w);
    run := CanAccept(cfg, run, Still(1));
    run := CanPublish(cfg, run, "a", Digest());
    UnmarkedGenerationRefused(cfg, run.worlds, run.actions, |run.worlds| - 1);
  }

  // ----- a directory of the first format, and two restarts

  function LegacyImage(): Image {
    Image(1, 1.0, 1, 1, Digest(), false, [Still(1)])
  }

  function LegacyBinding(): Binding {
    Binding(7, 1, 1, 1, 1.0)
  }

  /** An accumulator file of the first format: no epoch. */
  function LegacyLines(): seq<Line> {
    [[Keyword(SpecFingerprint), Count(7)],
     [Keyword(Plan), Count(1)],
     [Keyword(Schema), Count(1)],
     [Keyword(Step), Count(1)],
     [Keyword(Time), Real(1.0)],
     [Keyword(SampleSteps), Count(0)],
     [Keyword(ProfileSize), Count(0)],
     [Keyword(CenterlineSize), Count(3)],
     [Keyword(CenterlineEntry), Count(0), Real(0.0)],
     [Keyword(CenterlineEntry), Count(1), Real(0.0)],
     [Keyword(CenterlineEntry), Count(2), Real(0.0)],
     [Keyword(End)]]
  }

  function LegacyFile(): seq<Line> {
    [[Keyword(MagicV1)]] + LegacyLines()
  }

  function LegacyMark(): Mark {
    Mark(7, 1, 1.0, 1, 1, "a")
  }

  function OldRoot(): Root {
    Root({1}, map[1 := LegacyFile()], map[1 := MarkerLines(LegacyMark())], map["a" := LegacyImage()], Some("a"), map[])
  }

  function FourRead(): Flags {
    NothingRead().(spec := true, plan := true, schema := true, step := true)
  }

  function EightRead(): Flags {
    FourRead().(time := true, samples := true, profileSize := true, centerlineSize := true)
  }

  lemma LegacyIdentityRead(d: Draft)
    requires d.flags == NothingRead() && !d.ended
    ensures ReadLines(false, LegacyBinding(), d, LegacyLines()[..4]) == Some(d.(flags := FourRead()))
  {
    var f1 := d.flags.(spec := true);
    var f2 := f1.(plan := true);
    var f3 := f2.(schema := true);
    ReadThrough(false, LegacyBinding(), LegacyLines()[..4],
                [d, d.(flags := f1), d.(flags := f2), d.(flags := f3), d.(flags := FourRead())]);
  }

  lemma LegacySizesRead(d: Draft)
    requires d.flags == FourRead() && !d.ended && |d.acc.profile| == 0 && |d.acc.centerline| == 3
    requires d.acc.sampleSteps == 0
    ensures ReadLines(false, LegacyBinding(), d, LegacyLines()[4..8]) == Some(d.(flags := EightRead()))
  {
    var f1 := d.flags.(time := true);
    var f2 := f1.(samples := true);
    var f3 := f2.(profileSize := true);
    ReadThrough(false, LegacyBinding(), LegacyLines()[4..8],
                [d, d.(flags := f1), d.(flags := f2), d.(flags := f3), d.(flags := EightRead())]);
  }

  lemma LegacyEntriesRead(d: Draft)
    requires !d.ended && d.acc.centerline == [0.0, 0.0, 0.0] && d.centerlineSeen == [false, false, false]
    ensures ReadLines(false, LegacyBinding(), d, LegacyLines()[8..])
            == Some(d.(centerlineSeen := [true, true, true], ended := true))
  {
    var d1 := d.(centerlineSeen := [true, false, false]);
    var d2 := d.(centerlineSeen := [true, true, false]);
    var d3 := d.(centerlineSeen := [true, true, true]);
    assert d.acc.centerline[0 := 0.0] == d.acc.centerline[1 := 0.0] == d.acc.centerline[2 := 0.0] == d.acc.centerline;
    assert d.centerlineSeen[0 := true] == d1.centerlineSeen && d1.centerlineSeen[1 := true] == d2.centerlineSeen;
    assert d2.centerlineSeen[2 := true] == d3.centerlineSeen;
    ReadThrough(false, LegacyBinding(), LegacyLines()[8..], [d, d1, d2, d3, d3.(ended := true)]);
  }

  lemma LegacyDecodes(target: Acc)
    requires target.profile == [] && target.centerline == [0.0, 0.0, 0.0] && target.sampleSteps == 0
    ensures Decode(LegacyBinding(), LegacyFile(), target)
            == Some(target.(epoch := target.epoch.(reason := LegacyStatistics)))
  {
    var d := Start(false, target);
    assert d.centerlineSeen == [false, false, false] && d.profileSeen == [];
    var lines := LegacyLines();
    LegacyIdentityRead(d);
    LegacySizesRead(d.(flags := FourRead()));
    LegacyEntriesRead(d.(flags := EightRead()));
    ReadLinesAppend(false, LegacyBinding(), d, lines[..4], lines[4..8]);
    ReadLinesAppend(false, LegacyBinding(), d, lines[..4] + lines[4..8], lines[8..]);
    assert lines == lines[..4] + lines[4..8] + lines[8..];
    assert LegacyFile()[1..] == LegacyLines();
  }

  lemma OldRootAdmitted()
    ensures ValidConfig(OneCell()) && LegacyRoot(OldRoot()) && ImageOk(LegacyImage())
    ensures RestartAcc(OneCell(), OldRoot()).Some?
    ensures RestartAcc(OneCell(), OldRoot()).value.epoch.reason.LegacyStatistics?
  {
    OneCellValid();
    DigestValid();
    WrittenMarker(LegacyMark(), LegacyMark(), PresentIn(OldRoot()));
    var target := ZeroAcc(OneCell(), FreshEpoch(OneCell()), 0);
    assert target.centerline == [0.0, 0.0, 0.0] && target.profile == [];
    LegacyDecodes(target);
  }

  lemma RestartedFromOld()
    ensures ValidConfig(OneCell()) && RestartAcc(OneCell(), OldRoot()).Some?
    ensures var p := Restarted(OneCell(), OldRoot(), 1, Tiling());
            && p.step == 1 && p.phase.Running? && !p.recoveryPending && |p.ranks| == 1 && p.root == 1
            && p.ranks[0].epoch.reason.LegacyStatistics? && p.ranks[0].epoch.samplingStartStep == 3
            && p.ranks[0].sampleSteps == 0
  {
    OldRootAdmitted();
  }

  lemma OldAdopted() returns (run: Run)
    ensures ValidConfig(OneCell()) && IsRun(OneCell(), run) && Now(run) == World(map[0 := OldRoot()], None)
  {
    OldRootAdmitted();
    run := Run([World(map[], None)], []);
    var w := World(map[0 := OldRoot()], None);
    assert w.disk == Now(run).disk[0 := OldRoot()];
    assert AdoptLegacy(Now(run), w, 0, OldRoot());
    OneStepMore(OneCell(), run, DoAdopt(0, OldRoot()), w);
    run := Then(run, DoAdopt(0, OldRoot()), w);
  }

  /** A restart from the old directory, at step one. */
  lemma FirstRestart() returns (run: Run)
    ensures ValidConfig(OneCell()) && IsRun(OneCell(), run) && RestartAcc(OneCell(), OldRoot()).Some?
    ensures Now(run) == World(map[0 := OldRoot(), 1 := EmptyRoot], Some(Restarted(OneCell(), OldRoot(), 1, Tiling())))
  {
    OneCellValid();
    RestartedFromOld();
    run := OldAdopted();
    run := CanRestart(OneCell(), run, 0, 1, Tiling());
    assert map[0 := OldRoot()][1 := EmptyRoot] == map[0 := OldRoot(), 1 := EmptyRoot];
  }

  /** A step whose sampling is decided by its number alone. */
  lemma AcceptStill(run: Run, step: nat) returns (more: Run)
    requires ValidConfig(OneCell()) && IsRun(OneCell(), run) && Now(run).process.Some?
    requires Now(run).process.value.phase.Running? && !Now(run).process.value.recoveryPending
    requires 1 < step == Now(run).process.value.step + 1 <= 10 && |Now(run).process.value.ranks| > 0
    ensures IsRun(OneCell(), more) && Now(more).process.Some? && Now(more).disk == Now(run).disk
    ensures var p, q := Now(run).process.value, Now(more).process.value;
            && q.root == p.root && q.step == step && q.phase.Running? && !q.recoveryPending && |q.ranks| > 0
            && q.ranks[0].epoch == p.ranks[0].epoch
            && q.ranks[0].sampleSteps
               == p.ranks[0].sampleSteps + if step >= p.ranks[0].epoch.samplingStartStep then 1 else 0
  {
    more := CanAccept(OneCell(), run, Still(step));
  }

  /** Two more steps, of which the second is sampled. */
  lemma OneSampled() returns (run: Run)
    ensures ValidConfig(OneCell()) && IsRun(OneCell(), run) && Now(run).process.Some?
    ensures Now(run).disk == map[0 := OldRoot(), 1 := EmptyRoot]
    ensures var p := Now(run).process.value;
            && p.root == 1 && p.step == 3 && p.phase.Running? && |p.ranks| > 0
            && p.ranks[0].epoch.reason.LegacyStatistics? && p.ranks[0].sampleSteps == 1
  {
    RestartedFromOld();
    run := FirstRestart();
    run := AcceptStill(run, 2);
    run := AcceptStill(run, 3);
  }

  /** Then a whole checkpoint, and the end of the process. */
  lemma SampledAndStopped() returns (run: Run, j: nat)
    ensures ValidConfig(OneCell()) && IsRun(OneCell(), run) && Now(run).process.None? && j < |run.worlds|
    ensures run.worlds[j].process.Some? && 1 in Now(run).disk && 2 !in Now(run).disk
    ensures var p, root := run.worlds[j].process.value, Now(run).disk[1];
            && p.root == 1 && |p.ranks| > 0 && p.ranks[0].epoch.reason.LegacyStatistics? && p.ranks[0].sampleSteps == 1
            && Marked(OneCell(), root) && root.images[root.current.value].step == 3
            && !root.images[root.current.value].needsRecovery && 3 in root.accumulators
            && root.accumulators[3] == Encode(BindingOf(OneCell(), root.images[root.current.value]), Reduced(p.ranks))
  {
    DigestValid();
    run := OneSampled();
    var p := Now(run).process.value;
    j := |run.worlds| - 1;
    var published := CanPublish(OneCell(), run, "b", Digest());
    var stopped := CanMarkAndStop(OneCell(), published);
    assert stopped.worlds[j] == run.worlds[j];
    run := stopped;
  }

  /** The directory it leaves admits a restart with the one sample. */
  lemma SampleDecoded() returns (run: Run)
    ensures ValidConfig(OneCell()) && IsRun(OneCell(), run) && Now(run).process.None?
    ensures 1 in Now(run).disk && 2 !in Now(run).disk && RestartAcc(OneCell(), Now(run).disk[1]).Some?
    ensures var root := Now(run).disk[1];
            && Marked(OneCell(), root) && root.images[root.current.value].step == 3
            && !root.images[root.current.value].needsRecovery
            && RestartAcc(OneCell(), root).value.sampleSteps == 1
            && RestartAcc(OneCell(), root).value.epoch.reason.LegacyStatistics?
  {
    var j;
    run, j := SampledAndStopped();
    var p, root := run.worlds[j].process.value, Now(run).disk[1];
    var image := root.images[root.current.value];
    RestartExactly(OneCell(), run.worlds, run.actions, j, |run.worlds| - 1);
    var acc := RestartAcc(OneCell(), root).value;
    EncodeReason(BindingOf(OneCell(), image), acc);
    EncodeReason(BindingOf(OneCell(), image), Reduced(p.ranks));
  }

  lemma RestartedEmpty(from: Root)
    requires ValidConfig(OneCell()) && Marked(OneCell(), from) && RestartAcc(OneCell(), from).Some?
    requires !from.images[from.current.value].needsRecovery
    requires RestartAcc(OneCell(), from).value.epoch.reason.LegacyStatistics?
    ensures var p := Restarted(OneCell(), from, 2, Tiling());
            && |p.ranks| > 0 && p.ranks[0].sampleSteps == 0 && p.ranks[0].epoch.reason.LegacyStatistics?
            && p.ranks[0].epoch.discardedSamples == RestartAcc(OneCell(), from).value.sampleSteps
  {
  }

  /** The samples of an epoch reset because of older statistics are lost at the next restart: a directory of the first
      format is adopted, a restart from it takes a sample under the current format and writes a whole checkpoint, and
      the restart from that one begins with none. */
  lemma NewSamplesLost() returns (run: Run)
    ensures ValidConfig(OneCell()) && IsRun(OneCell(), run) && Now(run).process.Some? && 1 in Now(run).disk
    ensures RestartAcc(OneCell(), Now(run).disk[1]).Some?
    ensures RestartAcc(OneCell(), Now(run).disk[1]).value.sampleSteps == 1
    ensures var p := Now(run).process.value;
            && |p.ranks| > 0 && p.ranks[0].sampleSteps == 0 && p.ranks[0].epoch.discardedSamples == 1
            && p.ranks[0].epoch.reason.LegacyStatistics?
  {
    OneCellValid();
    var stopped := SampleDecoded();
    RestartedEmpty(Now(stopped).disk[1]);
    run := CanRestart(OneCell(), stopped, 1, 2, Tiling());
  }
}
