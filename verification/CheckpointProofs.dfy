/** The invariant of CheckpointRuns holds over every run, and what it means. */
module CheckpointProofs {
  import opened Options
  import opened Sums
  import opened GridTypes
  import opened SamplingKernel
  import opened StatisticsTypes
  import opened TextLines
  import opened AccumulatorCodec
  import opened CheckpointMarker
  import opened RunAccumulator
  import opened StatisticsEpochs
  import opened Moments
  import opened CheckpointRuns

  // ----- sampling keeps the rank sum serial

  ghost function AcceptedRanks(cfg: Config, ranks: seq<Acc>, tiling: seq<Patch>, r: Report): seq<Acc>
    requires ValidConfig(cfg) && |ranks| == |tiling| && RanksAgree(cfg, ranks)
  {
    seq(|ranks|, i requires 0 <= i < |ranks| => Accepted(cfg, ranks[i], tiling[i], r))
  }

  lemma SlotAfterAccept(cfg: Config, ranks: seq<Acc>, tiling: seq<Patch>, r: Report, i: int)
    requires ValidConfig(cfg) && |ranks| == |tiling| && RanksAgree(cfg, ranks) && 0 <= i < |ranks|
    requires Included(cfg, ranks[0].epoch, r)
    ensures Sized(ranks[i], cfg.geometry, cfg.n)
    ensures AcceptedRanks(cfg, ranks, tiling, r)[i]
         == Sampled(ranks[i], cfg.geometry, cfg.n, tiling[i], r.field, r.dt)
  {
    assert Sized(ranks[i], cfg.geometry, cfg.n) && ranks[i].epoch == ranks[0].epoch;
  }

  lemma ProfileSlotSampled(cfg: Config, ranks: seq<Acc>, tiling: seq<Patch>, r: Report, k: int)
    requires ValidConfig(cfg) && Tiles(cfg.n, tiling) && |ranks| == |tiling| && RanksAgree(cfg, ranks)
    requires Included(cfg, ranks[0].epoch, r) && 0 <= k < ProfileSlotCount(cfg.geometry, cfg.n)
    ensures Sum(|ranks|, ProfileSlots(AcceptedRanks(cfg, ranks, tiling, r), k))
         == Sum(|ranks|, ProfileSlots(ranks, k))
            + Sum(|tiling|, ProfileGains(cfg.geometry, cfg.n, tiling, r.field, r.dt, k))
  {
    var before, gains := ProfileSlots(ranks, k), ProfileGains(cfg.geometry, cfg.n, tiling, r.field, r.dt, k);
    var after := ProfileSlots(AcceptedRanks(cfg, ranks, tiling, r), k);
    forall i | 0 <= i < |ranks|
      ensures after(i) == before(i) + gains(i)
    {
      SlotAfterAccept(cfg, ranks, tiling, r, i);
    }
    SumGains(|ranks|, before, gains, after);
  }

  lemma CenterSlotSampled(cfg: Config, ranks: seq<Acc>, tiling: seq<Patch>, r: Report, k: int)
    requires ValidConfig(cfg) && Tiles(cfg.n, tiling) && |ranks| == |tiling| && RanksAgree(cfg, ranks)
    requires Included(cfg, ranks[0].epoch, r) && 0 <= k < cfg.n.x * 3
    ensures Sum(|ranks|, CenterSlots(AcceptedRanks(cfg, ranks, tiling, r), k))
         == Sum(|ranks|, CenterSlots(ranks, k))
            + Sum(|tiling|, CenterGains(cfg.geometry, tiling, r.field, r.dt, k))
  {
    var before, gains := CenterSlots(ranks, k), CenterGains(cfg.geometry, tiling, r.field, r.dt, k);
    var after := CenterSlots(AcceptedRanks(cfg, ranks, tiling, r), k);
    forall i | 0 <= i < |ranks|
      ensures after(i) == before(i) + gains(i)
    {
      SlotAfterAccept(cfg, ranks, tiling, r, i);
    }
    SumGains(|ranks|, before, gains, after);
  }

  lemma ReducedProfile(cfg: Config, ranks: seq<Acc>, tiling: seq<Patch>, r: Report)
    requires ValidConfig(cfg) && Tiles(cfg.n, tiling) && |ranks| == |tiling| && RanksAgree(cfg, ranks)
    requires Included(cfg, ranks[0].epoch, r) && Sized(ranks[0], cfg.geometry, cfg.n)
    ensures Reduced(AcceptedRanks(cfg, ranks, tiling, r)).profile
         == Sampled(Reduced(ranks), cfg.geometry, cfg.n, Whole(cfg.n), r.field, r.dt).profile
  {
    var next := AcceptedRanks(cfg, ranks, tiling, r);
    forall k | 0 <= k < ProfileSlotCount(cfg.geometry, cfg.n)
      ensures Sum(|ranks|, ProfileSlots(next, k))
           == Sum(|ranks|, ProfileSlots(ranks, k)) + ProfileGain(cfg.geometry, cfg.n, Whole(cfg.n), r.field, r.dt, k)
    {
      ProfileSlotSampled(cfg, ranks, tiling, r, k);
      ProfileGainPartition(cfg.geometry, cfg.n, tiling, r.field, r.dt, k);
    }
  }

  lemma ReducedCenter(cfg: Config, ranks: seq<Acc>, tiling: seq<Patch>, r: Report)
    requires ValidConfig(cfg) && Tiles(cfg.n, tiling) && |ranks| == |tiling| && RanksAgree(cfg, ranks)
    requires Included(cfg, ranks[0].epoch, r) && Sized(ranks[0], cfg.geometry, cfg.n)
    ensures Reduced(AcceptedRanks(cfg, ranks, tiling, r)).centerline
         == Sampled(Reduced(ranks), cfg.geometry, cfg.n, Whole(cfg.n), r.field, r.dt).centerline
  {
    var next := AcceptedRanks(cfg, ranks, tiling, r);
    forall k | 0 <= k < cfg.n.x * 3
      ensures Sum(|ranks|, CenterSlots(next, k))
           == Sum(|ranks|, CenterSlots(ranks, k)) + CenterGain(cfg.geometry, Whole(cfg.n), r.field, r.dt, k)
    {
      CenterSlotSampled(cfg, ranks, tiling, r, k);
      CenterGainPartition(cfg.geometry, cfg.n, tiling, r.field, r.dt, k);
    }
  }

  /** Sampling on every rank and then reducing is reducing and then sampling on the whole grid. */
  lemma ReducedSampled(cfg: Config, ranks: seq<Acc>, tiling: seq<Patch>, r: Report)
    requires ValidConfig(cfg) && Tiles(cfg.n, tiling) && |ranks| == |tiling| && RanksAgree(cfg, ranks)
    requires Included(cfg, ranks[0].epoch, r)
    ensures Sized(Reduced(ranks), cfg.geometry, cfg.n)
    ensures Reduced(AcceptedRanks(cfg, ranks, tiling, r))
         == Sampled(Reduced(ranks), cfg.geometry, cfg.n, Whole(cfg.n), r.field, r.dt)
  {
    assert Sized(ranks[0], cfg.geometry, cfg.n);
    ReducedProfile(cfg, ranks, tiling, r);
    ReducedCenter(cfg, ranks, tiling, r);
    SlotAfterAccept(cfg, ranks, tiling, r, 0);
  }

  lemma AgreeAfterAccept(cfg: Config, ranks: seq<Acc>, tiling: seq<Patch>, r: Report)
    requires ValidConfig(cfg) && |ranks| == |tiling| && RanksAgree(cfg, ranks) && r.dt > 0.0
    ensures RanksAgree(cfg, AcceptedRanks(cfg, ranks, tiling, r))
  {
    forall i | 0 <= i < |ranks|
      ensures Realizable(AcceptedRanks(cfg, ranks, tiling, r)[i])
    {
      if Included(cfg, ranks[i].epoch, r) {
        SampledRealizable(ranks[i], cfg.geometry, cfg.n, tiling[i], r.field, r.dt);
      }
    }
  }

  lemma SerialProfileStep(cfg: Config, acc: Acc, history: seq<Report>, r: Report, k: nat)
    requires ValidConfig(cfg) && Serial(cfg, acc, history) && k < |acc.profile|
    ensures |Accepted(cfg, acc, Whole(cfg.n), r).profile| == |acc.profile|
    ensures Accepted(cfg, acc, Whole(cfg.n), r).profile[k] == SerialProfile(cfg, acc.epoch, history + [r], k)
  {
    var next := history + [r];
    assert next[..|next| - 1] == history && next[|next| - 1] == r;
    assert acc.profile[k] == SerialProfile(cfg, acc.epoch, history, k);
  }

  lemma SerialCenterStep(cfg: Config, acc: Acc, history: seq<Report>, r: Report, k: nat)
    requires ValidConfig(cfg) && Serial(cfg, acc, history) && k < |acc.centerline|
    ensures |Accepted(cfg, acc, Whole(cfg.n), r).centerline| == |acc.centerline|
    ensures Accepted(cfg, acc, Whole(cfg.n), r).centerline[k] == SerialCenter(cfg, acc.epoch, history + [r], k)
  {
    var next := history + [r];
    assert next[..|next| - 1] == history && next[|next| - 1] == r;
    assert acc.centerline[k] == SerialCenter(cfg, acc.epoch, history, k);
  }

  lemma SerialProfiles(cfg: Config, acc: Acc, history: seq<Report>, r: Report)
    requires ValidConfig(cfg) && Serial(cfg, acc, history)
    ensures var a := Accepted(cfg, acc, Whole(cfg.n), r);
            |a.profile| == |acc.profile|
            && forall k :: 0 <= k < |a.profile| ==> a.profile[k] == SerialProfile(cfg, acc.epoch, history + [r], k)
  {
    var a, next := Accepted(cfg, acc, Whole(cfg.n), r), history + [r];
    forall k | 0 <= k < |acc.profile|
      ensures |a.profile| == |acc.profile| && a.profile[k] == SerialProfile(cfg, acc.epoch, next, k)
    {
      SerialProfileStep(cfg, acc, history, r, k);
    }
  }

  lemma SerialCenters(cfg: Config, acc: Acc, history: seq<Report>, r: Report)
    requires ValidConfig(cfg) && Serial(cfg, acc, history)
    ensures var a := Accepted(cfg, acc, Whole(cfg.n), r);
            |a.centerline| == |acc.centerline|
            && forall k :: 0 <= k < |a.centerline| ==> a.centerline[k] == SerialCenter(cfg, acc.epoch, history + [r], k)
  {
    var a, next := Accepted(cfg, acc, Whole(cfg.n), r), history + [r];
    forall k | 0 <= k < |acc.centerline|
      ensures |a.centerline| == |acc.centerline| && a.centerline[k] == SerialCenter(cfg, acc.epoch, next, k)
    {
      SerialCenterStep(cfg, acc, history, r, k);
    }
  }

  lemma SerialSteps(cfg: Config, acc: Acc, history: seq<Report>, r: Report)
    requires ValidConfig(cfg) && Serial(cfg, acc, history)
    ensures var a := Accepted(cfg, acc, Whole(cfg.n), r);
            a.epoch == acc.epoch && a.sampleSteps == SerialCount(cfg, acc.epoch, history + [r])
  {
    var next := history + [r];
    assert next[..|next| - 1] == history && next[|next| - 1] == r;
  }

  lemma SerialAccepted(cfg: Config, acc: Acc, history: seq<Report>, r: Report)
    requires ValidConfig(cfg) && Serial(cfg, acc, history)
    ensures Serial(cfg, Accepted(cfg, acc, Whole(cfg.n), r), history + [r])
  {
    SerialSteps(cfg, acc, history, r);
    SerialProfiles(cfg, acc, history, r);
    SerialCenters(cfg, acc, history, r);
  }

  lemma ReducedUnchanged(cfg: Config, ranks: seq<Acc>, tiling: seq<Patch>, r: Report)
    requires ValidConfig(cfg) && |ranks| == |tiling| && |ranks| > 0 && RanksAgree(cfg, ranks)
    requires !Included(cfg, ranks[0].epoch, r)
    ensures AcceptedRanks(cfg, ranks, tiling, r) == ranks
  {
  }

  lemma AcceptKeepsRanks(cfg: Config, p: Process, r: Report)
    requires ValidConfig(cfg) && RanksOk(cfg, p)
    requires r.step == p.step + 1 && r.step <= cfg.collectionEnd && r.dt > 0.0
    ensures RanksOk(cfg, p.(ranks := AcceptedRanks(cfg, p.ranks, p.tiling, r), step := r.step, time := p.time + r.dt,
                            history := p.history + [r], recoveryPending := false))
  {
    AgreeAfterAccept(cfg, p.ranks, p.tiling, r);
    SerialAccepted(cfg, Reduced(p.ranks), p.history, r);
    if Included(cfg, p.ranks[0].epoch, r) {
      ReducedSampled(cfg, p.ranks, p.tiling, r);
      SampledRealizable(Reduced(p.ranks), cfg.geometry, cfg.n, Whole(cfg.n), r.field, r.dt);
    } else {
      ReducedUnchanged(cfg, p.ranks, p.tiling, r);
    }
  }

  // ----- a fresh start and a restored accumulator

  lemma ZerosRealizable(acc: Acc)
    requires forall k :: 0 <= k < |acc.profile| ==> acc.profile[k] == 0.0
    requires forall k :: 0 <= k < |acc.centerline| ==> acc.centerline[k] == 0.0
    ensures Realizable(acc)
  {
    forall row | 0 <= row < |acc.profile| / 6
      ensures Psd(Row(acc.profile, row))
    {
      PsdZero(Row(acc.profile, row));
    }
    forall x | 0 <= x < |acc.centerline| / 3
      ensures CenterPsd(CenterRow(acc.centerline, x))
    {
      CenterPsdZero(CenterRow(acc.centerline, x));
    }
  }

  /** Only rank 0 carries restored values: the reduction of the restored ranks is what was restored. */
  lemma ReducedRestored(cfg: Config, acc: Acc, count: nat)
    requires ValidConfig(cfg) && Sized(acc, cfg.geometry, cfg.n) && count > 0
    ensures Reduced(Restored(cfg, acc, count)) == acc
  {
    var ranks := Restored(cfg, acc, count);
    forall k | 0 <= k < |acc.profile|
      ensures Sum(count, ProfileSlots(ranks, k)) == acc.profile[k]
    {
      var slots := ProfileSlots(ranks, k);
      forall i | 0 <= i < count && i != 0
        ensures slots(i) == 0.0
      {
        assert ranks[i] == ZeroAcc(cfg, acc.epoch, acc.sampleSteps);
      }
      SumSingle(count, 0, slots);
    }
    forall k | 0 <= k < |acc.centerline|
      ensures Sum(count, CenterSlots(ranks, k)) == acc.centerline[k]
    {
      var slots := CenterSlots(ranks, k);
      forall i | 0 <= i < count && i != 0
        ensures slots(i) == 0.0
      {
        assert ranks[i] == ZeroAcc(cfg, acc.epoch, acc.sampleSteps);
      }
      SumSingle(count, 0, slots);
    }
    assert Reduced(ranks).profile == acc.profile && Reduced(ranks).centerline == acc.centerline;
  }

  lemma RestoredAgree(cfg: Config, acc: Acc, count: nat)
    requires ValidConfig(cfg) && Sized(acc, cfg.geometry, cfg.n) && count > 0 && Realizable(acc)
    ensures RanksAgree(cfg, Restored(cfg, acc, count))
  {
    ZerosRealizable(ZeroAcc(cfg, acc.epoch, acc.sampleSteps));
  }

  lemma ZeroSerial(cfg: Config, acc: Acc, history: seq<Report>)
    requires ValidConfig(cfg) && Sized(acc, cfg.geometry, cfg.n) && acc.sampleSteps == 0
    requires forall k :: 0 <= k < |acc.profile| ==> acc.profile[k] == 0.0
    requires forall k :: 0 <= k < |acc.centerline| ==> acc.centerline[k] == 0.0
    requires forall i :: 0 <= i < |history| ==> history[i].step < acc.epoch.samplingStartStep
    ensures Serial(cfg, acc, history)
  {
    BeforeWindow(cfg, acc.epoch, history);
  }

  lemma EpochSteps(e: Epoch, step: nat)
    requires EpochOk(e, step)
    ensures e.samplingStartStep == e.startStep + AtLeastOne(e.developmentSteps) + 1 <= UINT64_MAX
    ensures e.startStep <= step && e.developmentSteps <= UINT64_MAX
  {
  }

  lemma StartKeeps(cfg: Config, w: World, w': World, root: nat, plan: nat, schema: nat, tiling: seq<Patch>)
    requires ValidConfig(cfg) && Inv(cfg, w) && StartFresh(cfg, w, w', root, plan, schema, tiling)
    ensures Inv(cfg, w')
  {
    var acc := ZeroAcc(cfg, FreshEpoch(cfg), 0);
    var p := w'.process.value;
    assert p.ranks == Restored(cfg, acc, |tiling|);
    ZerosRealizable(acc);
    ReducedRestored(cfg, acc, |tiling|);
    RestoredAgree(cfg, acc, |tiling|);
    ZeroSerial(cfg, acc, []);
    assert RootOk(cfg, EmptyRoot);
  }

  lemma AcceptKeeps(cfg: Config, w: World, w': World, r: Report)
    requires ValidConfig(cfg) && Inv(cfg, w) && Accept(cfg, w, w', r)
    ensures Inv(cfg, w')
  {
    var p := w.process.value;
    AcceptKeepsRanks(cfg, p, r);
    assert w'.process.value == p.(ranks := AcceptedRanks(cfg, p.ranks, p.tiling, r), step := r.step,
                                  time := p.time + r.dt, history := p.history + [r], recoveryPending := false);
    var root := w.disk[p.root];
    forall s | s in root.markers
      ensures MarkerOk(cfg, root, s)
    {
    }
  }

  // ----- the checkpoint's writes

  ghost predicate Extends(root: Root, root': Root) {
    && root.statistics <= root'.statistics
    && (forall g :: g in root.images ==> g in root'.images && root'.images[g] == root.images[g])
    && (forall s :: s in root.accumulators ==> s in root'.accumulators && root'.accumulators[s] == root.accumulators[s])
  }

  /** Adding files never changes what an existing marker binds. */
  lemma MarkerFrame(cfg: Config, root: Root, root': Root, s: nat)
    requires ValidConfig(cfg) && Extends(root, root')
    requires s in root.markers && s in root'.markers && root'.markers[s] == root.markers[s]
    requires MarkerOk(cfg, root, s)
    ensures MarkerOk(cfg, root', s)
  {
    if !NoEndLine(root.markers[s]) {
      var g :| g in root.images && root.images[g].step == s && s in root.accumulators && s in root.statistics
               && root.markers[s] == MarkerLines(MarkOf(cfg, root.images[g], g))
               && FileMatches(cfg, root.accumulators[s], root.images[g]);
      assert g in root'.images && root'.images[g] == root.images[g];
    }
  }

  lemma MarkersFrame(cfg: Config, root: Root, root': Root)
    requires ValidConfig(cfg) && Extends(root, root') && root'.markers == root.markers
    requires forall s :: s in root.markers ==> MarkerOk(cfg, root, s)
    ensures forall s :: s in root'.markers ==> MarkerOk(cfg, root', s)
  {
    forall s | s in root'.markers {
      MarkerFrame(cfg, root, root', s);
    }
  }

  lemma StopKeeps(cfg: Config, w: World, w': World)
    requires ValidConfig(cfg) && Inv(cfg, w) && Stop(w, w')
    ensures Inv(cfg, w')
  {
  }

  lemma WriteStatisticsKeeps(cfg: Config, w: World, w': World)
    requires ValidConfig(cfg) && Inv(cfg, w) && WriteStatistics(w, w')
    ensures Inv(cfg, w')
  {
    var p := w.process.value;
    MarkersFrame(cfg, w.disk[p.root], w'.disk[p.root]);
    assert RootOk(cfg, w'.disk[p.root]);
    assert RanksOk(cfg, w'.process.value);
  }

  lemma WriteAccumulatorKeeps(cfg: Config, w: World, w': World, torn: Option<seq<Line>>)
    requires ValidConfig(cfg) && Inv(cfg, w) && WriteAccumulator(cfg, w, w', torn)
    ensures Inv(cfg, w') && OwnRoot(cfg, w'.disk[w.process.value.root])
  {
    var p := w.process.value;
    MarkersFrame(cfg, w.disk[p.root], w'.disk[p.root]);
    assert RootOk(cfg, w'.disk[p.root]);
    if torn.None? {
      assert RanksOk(cfg, w'.process.value);
    }
  }

  lemma PublishKeeps(cfg: Config, w: World, w': World, generation: string, digest: string, needsRecovery: bool)
    requires ValidConfig(cfg) && Inv(cfg, w) && Publish(w, w', generation, digest, needsRecovery)
    ensures Inv(cfg, w')
  {
    var p := w.process.value;
    MarkersFrame(cfg, w.disk[p.root], w'.disk[p.root]);
    assert ImageOk(w'.disk[p.root].images[generation]);
    assert RootOk(cfg, w'.disk[p.root]);
    assert RanksOk(cfg, w'.process.value);
  }

  lemma TornMarkerOk(cfg: Config, root: Root, mark: Mark, s: nat)
    requires ValidConfig(cfg) && s in root.markers && Torn(MarkerLines(mark), root.markers[s])
    ensures MarkerOk(cfg, root, s)
  {
    TornHasNoEnd(MarkerLines(mark), root.markers[s]);
  }

  /** Adding one good marker keeps the others good. */
  lemma OneMarkerMore(cfg: Config, root: Root, root': Root, s: nat)
    requires ValidConfig(cfg) && RootOk(cfg, root) && (forall t :: t in root.markers ==> MarkerOk(cfg, root, t))
    requires s !in root.markers && s in root'.markers && MarkerOk(cfg, root', s)
    requires root' == root.(markers := root.markers[s := root'.markers[s]])
    ensures RootOk(cfg, root') && forall t :: t in root'.markers ==> MarkerOk(cfg, root', t)
  {
    forall t | t in root'.markers
      ensures MarkerOk(cfg, root', t)
    {
      if t != s {
        MarkerFrame(cfg, root, root', t);
      }
    }
  }

  lemma WriteMarkerKeeps(cfg: Config, w: World, w': World, torn: Option<seq<Line>>)
    requires ValidConfig(cfg) && Inv(cfg, w) && WriteMarker(cfg, w, w', torn)
    ensures Inv(cfg, w') && OwnRoot(cfg, w'.disk[w.process.value.root])
  {
    var p := w.process.value;
    var root, root' := w.disk[p.root], w'.disk[p.root];
    if torn.Some? {
      TornMarkerOk(cfg, root', Mark(cfg.fingerprint, p.step, p.time, p.plan, p.schema, root.current.value), p.step);
    } else {
      OwnMarker(cfg, p, root, root');
    }
    OneMarkerMore(cfg, root, root', p.step);
    if torn.None? {
      assert RanksOk(cfg, w'.process.value);
    }
  }

  lemma OwnMarker(cfg: Config, p: Process, root: Root, root': Root)
    requires ValidConfig(cfg) && RanksOk(cfg, p) && p.phase.Published? && PhaseOk(cfg, p, root)
    requires root' == root.(markers := root.markers[p.step :=
      MarkerLines(Mark(cfg.fingerprint, p.step, p.time, p.plan, p.schema, p.phase.generation))])
    ensures MarkerOk(cfg, root', p.step)
  {
    var g := p.phase.generation;
    var image := root.images[g];
    assert root.accumulators[p.step] == Encode(BindingOf(cfg, image), Reduced(p.ranks));
    assert FileMatches(cfg, root.accumulators[p.step], image);
    assert root'.markers[p.step] == MarkerLines(MarkOf(cfg, root'.images[g], g));
  }

  lemma AdoptKeeps(cfg: Config, w: World, w': World, name: nat, root: Root)
    requires ValidConfig(cfg) && Inv(cfg, w) && AdoptLegacy(w, w', name, root)
    ensures Inv(cfg, w')
  {
    assert RootOk(cfg, root);
  }

  // ----- restart

  lemma CountersOk(cfg: Config, acc: Acc, image: Image)
    requires ValidConfig(cfg) && ImageOk(image) && AccOk(cfg, acc, image.history, image.step)
    ensures Counters(BindingOf(cfg, image), acc) && Admissible(acc.epoch, acc.sampleSteps, image.step)
  {
    CountBound(cfg, acc.epoch, image.history, image.step);
    EpochSteps(acc.epoch, image.step);
  }

  /** Reading a file never changes the vector sizes, and keeps counts within range. */
  lemma {:induction false} ReadLinesSizes(hasEpoch: bool, b: Binding, d: Draft, lines: seq<Line>)
    requires d.acc.sampleSteps <= UINT64_MAX
    ensures var r := ReadLines(hasEpoch, b, d, lines);
            r.Some? ==> |r.value.acc.profile| == |d.acc.profile| && |r.value.acc.centerline| == |d.acc.centerline|
                        && r.value.acc.sampleSteps <= UINT64_MAX
    decreases |lines|
  {
    if lines != [] {
      match ReadLine(hasEpoch, b, d, lines[0])
      case None =>
      case Some(next) => ReadLinesSizes(hasEpoch, b, next, lines[1..]);
    }
  }

  lemma DecodeSizes(b: Binding, file: seq<Line>, target: Acc)
    requires target.sampleSteps <= UINT64_MAX
    ensures var r := Decode(b, file, target);
            r.Some? ==> |r.value.profile| == |target.profile| && |r.value.centerline| == |target.centerline|
                        && r.value.sampleSteps <= UINT64_MAX
                        && (file[0] != [Keyword(MagicV3)] ==> r.value.epoch.reason.LegacyStatistics?)
  {
    if file != [] && MagicLine(file[0]) {
      var hasEpoch := file[0] != [Keyword(MagicV1)];
      ReadLinesSizes(hasEpoch, b, Start(hasEpoch, target), file[1..]);
    }
  }

  lemma ReadBindingPresent(m: Mark, files: Present, file: seq<Line>)
    ensures var r := ReadBinding(m, files, file); r.Some? ==> IsFile(files, r.value) && !NoEndLine(file)
  {
    if file != [] && file[0] == [Keyword(CheckpointMagic)] {
      BindingPresent(m, files, NoMark(), file[1..]);
      if NoEndLine(file) {
        assert NoEndLine(file[1..]);
        CheckpointMarker.EndedNeedsEnd(m, files, NoMark(), file[1..]);
      }
    }
  }

  lemma {:induction false} BindingPresent(m: Mark, files: Present, r: MarkRead, lines: seq<Line>)
    requires r.accumulator.Some? ==> IsFile(files, r.accumulator.value)
    ensures var t := ReadMarkLines(m, files, r, lines);
            t.Some? && t.value.accumulator.Some? ==> IsFile(files, t.value.accumulator.value)
    decreases |lines|
  {
    if lines != [] {
      match ReadMarkLine(m, files, r, lines[0])
      case None =>
      case Some(next) => BindingPresent(m, files, next, lines[1..]);
    }
  }

  /** The generation a whole marker was written for. */
  lemma MarkedGeneration(cfg: Config, root: Root, s: nat) returns (h: string)
    requires ValidConfig(cfg) && OwnRoot(cfg, root) && s in root.markers && !NoEndLine(root.markers[s])
    ensures h in root.images && root.images[h].step == s && ImageOk(root.images[h])
    ensures s in root.accumulators && s in root.statistics
    ensures root.markers[s] == MarkerLines(MarkOf(cfg, root.images[h], h))
    ensures FileMatches(cfg, root.accumulators[s], root.images[h])
  {
    assert MarkerOk(cfg, root, s);
    h :| h in root.images && root.images[h].step == s && s in root.accumulators && s in root.statistics
         && root.markers[s] == MarkerLines(MarkOf(cfg, root.images[h], h))
         && FileMatches(cfg, root.accumulators[s], root.images[h]);
  }

  lemma FileDecodes(cfg: Config, image: Image, file: seq<Line>)
    requires ValidConfig(cfg) && ImageOk(image) && FileMatches(cfg, file, image)
    ensures var r := Decode(BindingOf(cfg, image), file, ZeroAcc(cfg, FreshEpoch(cfg), 0));
            r.Some? && AccOk(cfg, r.value, image.history, image.step) && file == Encode(BindingOf(cfg, image), r.value)
  {
    var acc :| file == Encode(BindingOf(cfg, image), acc) && AccOk(cfg, acc, image.history, image.step);
    CountersOk(cfg, acc, image);
    DecodeEncode(BindingOf(cfg, image), acc, ZeroAcc(cfg, FreshEpoch(cfg), 0));
  }

  /** What an admitted restart continues with is either dropped for its older format, or is the serial
      accumulator of exactly the history of the flow image it is paired with. */
  lemma RestartPairs(cfg: Config, root: Root)
    requires ValidConfig(cfg) && RootOk(cfg, root) && RestartAcc(cfg, root).Some?
    ensures root.current.Some? && root.current.value in root.images
    ensures var acc, image := RestartAcc(cfg, root).value, root.images[root.current.value];
            && ImageOk(image) && Sized(acc, cfg.geometry, cfg.n) && acc.sampleSteps <= UINT64_MAX
            && (acc.epoch.reason.LegacyStatistics? || AccOk(cfg, acc, image.history, image.step))
  {
    var g := root.current.value;
    var image := root.images[g];
    var file := root.markers[image.step];
    ReadBindingPresent(MarkOf(cfg, image, g), PresentIn(root), file);
    var named := ReadBinding(MarkOf(cfg, image, g), PresentIn(root), file).value;
    DecodeSizes(BindingOf(cfg, image), ContentOf(root, named), ZeroAcc(cfg, FreshEpoch(cfg), 0));
    if !LegacyRoot(root) {
      var h := MarkedGeneration(cfg, root, image.step);
      WrittenMarker(MarkOf(cfg, root.images[h], h), MarkOf(cfg, image, g), PresentIn(root));
      FileDecodes(cfg, image, root.accumulators[image.step]);
    }
  }

  lemma ResetOk(cfg: Config, acc: Acc, image: Image, development: nat, reason: ResetReason)
    requires ValidConfig(cfg) && ImageOk(image) && Sized(acc, cfg.geometry, cfg.n) && acc.sampleSteps <= UINT64_MAX
    requires !reason.Fresh? && AtLeastOne(development) < UINT64_MAX - image.step && development <= UINT64_MAX
    ensures AccOk(cfg, ResetAcc(acc, image.step, development, reason, image.digest), image.history, image.step)
  {
    var reset := ResetAcc(acc, image.step, development, reason, image.digest);
    ZerosRealizable(reset);
    ZeroSerial(cfg, reset, image.history);
  }

  lemma RestartKeeps(cfg: Config, w: World, w': World, source: nat, root: nat, plan: nat, schema: nat,
                     tiling: seq<Patch>, methodRecovery: bool, development: nat)
    requires ValidConfig(cfg) && Inv(cfg, w)
    requires Restart(cfg, w, w', source, root, plan, schema, tiling, methodRecovery, development)
    ensures Inv(cfg, w')
  {
    RestartPairs(cfg, w.disk[source]);
    var acc := RestartAcc(cfg, w.disk[source]).value;
    var image := w.disk[source].images[w.disk[source].current.value];
    var reset := MustReset(acc, image.needsRecovery, methodRecovery);
    var start := if reset then ResetAcc(acc, image.step, development, ResetCause(image.needsRecovery, methodRecovery),
                                        image.digest)
                 else acc;
    if reset {
      ResetOk(cfg, acc, image, development, ResetCause(image.needsRecovery, methodRecovery));
    }
    assert AccOk(cfg, start, image.history, image.step);
    ReducedRestored(cfg, start, |tiling|);
    RestoredAgree(cfg, start, |tiling|);
    assert RootOk(cfg, EmptyRoot);
    var p := w'.process.value;
    assert RanksOk(cfg, p);
  }

  // ----- every run

  lemma NextKeeps(cfg: Config, w: World, w': World, a: Action)
    requires ValidConfig(cfg) && Inv(cfg, w) && Next(cfg, w, w', a)
    ensures Inv(cfg, w')
  {
    match a
    case DoStart(root, plan, schema, tiling) => StartKeeps(cfg, w, w', root, plan, schema, tiling);
    case DoAccept(r) => AcceptKeeps(cfg, w, w', r);
    case DoStop => StopKeeps(cfg, w, w');
    case DoWriteStatistics => WriteStatisticsKeeps(cfg, w, w');
    case DoWriteAccumulator(torn) => WriteAccumulatorKeeps(cfg, w, w', torn);
    case DoPublish(g, digest, needs) => PublishKeeps(cfg, w, w', g, digest, needs);
    case DoWriteMarker(torn) => WriteMarkerKeeps(cfg, w, w', torn);
    case DoRestart(source, root, plan, schema, tiling, recovery, development) =>
      RestartKeeps(cfg, w, w', source, root, plan, schema, tiling, recovery, development);
    case DoAdopt(name, root) => AdoptKeeps(cfg, w, w', name, root);
  }

  lemma {:induction false} RunsKeep(cfg: Config, worlds: seq<World>, actions: seq<Action>, i: nat)
    requires ValidConfig(cfg) && Behaviour(cfg, worlds, actions) && i < |worlds|
    ensures Inv(cfg, worlds[i])
  {
    if i > 0 {
      RunsKeep(cfg, worlds, actions, i - 1);
      NextKeeps(cfg, worlds[i - 1], worlds[i], actions[i - 1]);
    }
  }

  // ----- what the invariant says

  /** Conservation: at every point of every run, whatever the tilings before and after restarts, the rank sums are the
      serial sums over exactly the steps of the current epoch that count. */
  lemma RankSumIsSerial(cfg: Config, worlds: seq<World>, actions: seq<Action>, i: nat)
    requires ValidConfig(cfg) && Behaviour(cfg, worlds, actions) && i < |worlds| && worlds[i].process.Some?
    ensures var p := worlds[i].process.value;
            && |p.ranks| == |p.tiling| > 0
            && p.ranks[0].sampleSteps == SerialCount(cfg, p.ranks[0].epoch, p.history)
            && (forall k :: 0 <= k < ProfileSlotCount(cfg.geometry, cfg.n) ==>
                  Sum(|p.ranks|, ProfileSlots(p.ranks, k)) == SerialProfile(cfg, p.ranks[0].epoch, p.history, k))
            && (forall k :: 0 <= k < cfg.n.x * 3 ==>
                  Sum(|p.ranks|, CenterSlots(p.ranks, k)) == SerialCenter(cfg, p.ranks[0].epoch, p.history, k))
  {
    RunsKeep(cfg, worlds, actions, i);
    var p := worlds[i].process.value;
    assert Sized(p.ranks[0], cfg.geometry, cfg.n);
    var total := Reduced(p.ranks);
    forall k | 0 <= k < ProfileSlotCount(cfg.geometry, cfg.n)
      ensures Sum(|p.ranks|, ProfileSlots(p.ranks, k)) == SerialProfile(cfg, p.ranks[0].epoch, p.history, k)
    {
      assert total.profile[k] == SerialProfile(cfg, total.epoch, p.history, k);
    }
    forall k | 0 <= k < cfg.n.x * 3
      ensures Sum(|p.ranks|, CenterSlots(p.ranks, k)) == SerialCenter(cfg, p.ranks[0].epoch, p.history, k)
    {
      assert total.centerline[k] == SerialCenter(cfg, total.epoch, p.history, k);
    }
  }

  /** The six moments of a row are those of some weighted sample: the two variances are not negative, and the covariance
      obeys the Cauchy-Schwarz inequality. */
  ghost predicate VariancesOk(s: int -> real) {
    var uu, vv, uv := s(0) * s(3) - s(1) * s(1), s(0) * s(4) - s(2) * s(2), s(0) * s(5) - s(1) * s(2);
    uu >= 0.0 && vv >= 0.0 && uv * uv <= uu * vv
  }

  lemma PsdVariances(s: int -> real)
    requires Psd(s)
    ensures VariancesOk(s)
  {
    RowInequalities(s);
  }

  /** So are the three moments of a centreline row. */
  ghost predicate CenterVarianceOk(s: int -> real) {
    s(0) * s(2) - s(1) * s(1) >= 0.0
  }

  lemma CenterPsdVariance(s: int -> real)
    requires CenterPsd(s)
    ensures CenterVarianceOk(s)
  {
    CenterInequality(s);
  }

  ghost predicate VariancesEverywhere(cfg: Config, acc: Acc) {
    && (forall row :: 0 <= row < ProfileSlotCount(cfg.geometry, cfg.n) / 6 ==> VariancesOk(Row(acc.profile, row)))
    && (forall x :: 0 <= x < cfg.n.x ==> CenterVarianceOk(CenterRow(acc.centerline, x)))
  }

  lemma RealizableVariances(cfg: Config, acc: Acc)
    requires ValidConfig(cfg) && Sized(acc, cfg.geometry, cfg.n) && Realizable(acc)
    ensures VariancesEverywhere(cfg, acc)
  {
    forall row | 0 <= row < ProfileSlotCount(cfg.geometry, cfg.n) / 6
      ensures VariancesOk(Row(acc.profile, row))
    {
      PsdVariances(Row(acc.profile, row));
    }
    forall x | 0 <= x < cfg.n.x
      ensures CenterVarianceOk(CenterRow(acc.centerline, x))
    {
      CenterPsdVariance(CenterRow(acc.centerline, x));
    }
  }

  /** Realizability: every local accumulator and every reduced one has nonnegative variances in every row of the profile
      and of the centreline, and an admissible covariance in every row of the profile. */
  lemma ReachableMomentsRealizable(cfg: Config, worlds: seq<World>, actions: seq<Action>, i: nat)
    requires ValidConfig(cfg) && Behaviour(cfg, worlds, actions) && i < |worlds| && worlds[i].process.Some?
    ensures |worlds[i].process.value.ranks| > 0
    ensures var p := worlds[i].process.value;
            VariancesEverywhere(cfg, Reduced(p.ranks))
            && forall r :: 0 <= r < |p.ranks| ==> VariancesEverywhere(cfg, p.ranks[r])
  {
    RunsKeep(cfg, worlds, actions, i);
    var p := worlds[i].process.value;
    RealizableVariances(cfg, Reduced(p.ranks));
    forall r | 0 <= r < |p.ranks|
      ensures VariancesEverywhere(cfg, p.ranks[r])
    {
      RealizableVariances(cfg, p.ranks[r]);
    }
  }

  /** Closure: whatever a reachable process writes, the reader admits and returns unchanged. */
  lemma WriterReaderClosure(cfg: Config, worlds: seq<World>, actions: seq<Action>, i: nat)
    requires ValidConfig(cfg) && Behaviour(cfg, worlds, actions) && i < |worlds| && worlds[i].process.Some?
    requires worlds[i].process.value.step > 0
    ensures var p := worlds[i].process.value;
            var b := Binding(cfg.fingerprint, p.plan, p.schema, p.step, p.time);
            |p.ranks| > 0
            && Decode(b, Encode(b, Reduced(p.ranks)), ZeroAcc(cfg, FreshEpoch(cfg), 0)) == Some(Reduced(p.ranks))
  {
    RunsKeep(cfg, worlds, actions, i);
    var p := worlds[i].process.value;
    var acc := Reduced(p.ranks);
    var b := Binding(cfg.fingerprint, p.plan, p.schema, p.step, p.time);
    CountBound(cfg, acc.epoch, p.history, p.step);
    EpochSteps(acc.epoch, p.step);
    assert Counters(b, acc);
    DecodeEncode(b, acc, ZeroAcc(cfg, FreshEpoch(cfg), 0));
  }

  /** The startup step and a recovery step lie before the sampling window of any reachable epoch. */
  lemma TransientsNeverSampled(cfg: Config, worlds: seq<World>, actions: seq<Action>, i: nat, r: Report)
    requires ValidConfig(cfg) && Behaviour(cfg, worlds, actions) && i < |actions| && actions[i] == DoAccept(r)
    ensures worlds[i].process.Some? && |worlds[i].process.value.ranks| > 0
    ensures var e := worlds[i].process.value.ranks[0].epoch;
            && (r.step == 1 || r.recovery ==> r.step < e.samplingStartStep)
            && (Included(cfg, e, r)
                <==> e.samplingStartStep <= r.step <= cfg.collectionEnd && r.attempts == 1 && !r.fallback)
  {
    RunsKeep(cfg, worlds, actions, i);
    assert Next(cfg, worlds[i], worlds[i + 1], actions[i]);
    var p := worlds[i].process.value;
    EpochSteps(p.ranks[0].epoch, p.step);
    TransientsPrecedeWindow(cfg, p.ranks[0].epoch, r);
  }
}
