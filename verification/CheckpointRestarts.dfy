/** Which restarts are admitted, and what they keep. */
module CheckpointRestarts {
  import opened Options
  import opened GridTypes
  import opened StatisticsTypes
  import opened TextLines
  import opened AccumulatorCodec
  import opened CheckpointMarker
  import opened RunAccumulator
  import opened StatisticsEpochs
  import opened CheckpointRuns
  import opened CheckpointProofs

  // ----- what admits a restart

  /** The marker of the directory's current generation is whole. */
  ghost predicate Marked(cfg: Config, root: Root) {
    && root.current.Some? && root.current.value in root.images
    && var g, image := root.current.value, root.images[root.current.value];
       image.step in root.markers && root.markers[image.step] == MarkerLines(MarkOf(cfg, image, g))
  }

  /** What a restart continues with was written for the very image it is paired with, and is serial over its history. */
  ghost predicate Paired(cfg: Config, root: Root)
    requires ValidConfig(cfg) && RestartAcc(cfg, root).Some?
  {
    && root.current.Some? && root.current.value in root.images
    && var acc, image := RestartAcc(cfg, root).value, root.images[root.current.value];
       && AccOk(cfg, acc, image.history, image.step) && image.step in root.accumulators
       && root.accumulators[image.step] == Encode(BindingOf(cfg, image), acc)
  }

  lemma RestartNeedsMarker(cfg: Config, root: Root)
    requires ValidConfig(cfg) && OwnRoot(cfg, root) && RestartAcc(cfg, root).Some?
    ensures var g, image := root.current.value, root.images[root.current.value];
            image.step in root.markers && root.markers[image.step] == MarkerLines(MarkOf(cfg, image, g))
  {
    var g := root.current.value;
    var image := root.images[g];
    ReadBindingPresent(MarkOf(cfg, image, g), PresentIn(root), root.markers[image.step]);
    var h := MarkedGeneration(cfg, root, image.step);
    WrittenMarker(MarkOf(cfg, root.images[h], h), MarkOf(cfg, image, g), PresentIn(root));
  }

  lemma MarkerLinesInjective(m: Mark, m': Mark)
    requires MarkerLines(m) == MarkerLines(m')
    ensures m.generation == m'.generation && !NoEndLine(MarkerLines(m))
  {
    assert MarkerLines(m)[6] == MarkerLines(m')[6];
    assert MarkerLines(m)[9][0] == Keyword(End);
  }

  lemma WholeMarkerAdmits(cfg: Config, root: Root)
    requires ValidConfig(cfg) && OwnRoot(cfg, root)
    requires root.current.Some? && root.current.value in root.images
    requires var g, image := root.current.value, root.images[root.current.value];
             image.step in root.markers && root.markers[image.step] == MarkerLines(MarkOf(cfg, image, g))
    ensures RestartAcc(cfg, root).Some?
    ensures var image := root.images[root.current.value];
            && AccOk(cfg, RestartAcc(cfg, root).value, image.history, image.step) && image.step in root.accumulators
            && root.accumulators[image.step] == Encode(BindingOf(cfg, image), RestartAcc(cfg, root).value)
  {
    var g := root.current.value;
    var image := root.images[g];
    var m := MarkOf(cfg, image, g);
    MarkerLinesInjective(m, m);
    var h := MarkedGeneration(cfg, root, image.step);
    MarkerLinesInjective(m, MarkOf(cfg, root.images[h], h));
    WrittenMarker(m, m, PresentIn(root));
    FileDecodes(cfg, image, root.accumulators[image.step]);
  }

  /** A crash after publication but before the marker is whole leaves a directory no restart is admitted from. */
  lemma UnmarkedGenerationRefused(cfg: Config, worlds: seq<World>, actions: seq<Action>, i: nat)
    requires ValidConfig(cfg) && Behaviour(cfg, worlds, actions) && i < |worlds|
    requires worlds[i].process.Some? && worlds[i].process.value.phase.Published?
    requires worlds[i].process.value.root in worlds[i].disk
    requires worlds[i].process.value.step !in worlds[i].disk[worlds[i].process.value.root].markers
    ensures RestartAcc(cfg, worlds[i].disk[worlds[i].process.value.root]) == None
  {
    RunsKeep(cfg, worlds, actions, i);
  }

  /** A directory only this version wrote into admits a restart exactly when the marker of its current generation is
      whole, and then image and accumulator belong to the same checkpoint. */
  lemma OwnRestartExactly(cfg: Config, root: Root)
    requires ValidConfig(cfg) && OwnRoot(cfg, root)
    ensures RestartAcc(cfg, root).Some? <==> Marked(cfg, root)
    ensures RestartAcc(cfg, root).Some? ==> Paired(cfg, root)
  {
    if RestartAcc(cfg, root).Some? {
      RestartNeedsMarker(cfg, root);
    }
    if Marked(cfg, root) {
      WholeMarkerAdmits(cfg, root);
    }
  }

  // ----- a directory after its process

  /** A whole accumulator file carries its epoch's reason in its own line. */
  ghost predicate FileReason(file: seq<Line>, reason: ResetReason) {
    |file| > 11 && file[11] == [Keyword(EpochResetReason), Reason(reason)]
  }

  lemma EncodeReason(b: Binding, acc: Acc)
    ensures FileReason(Encode(b, acc), acc.epoch.reason)
    ensures |Encode(b, acc)| > 6 && Encode(b, acc)[6] == [Keyword(SampleSteps), Count(acc.sampleSteps)]
  {
    assert Header(b, acc)[5] == [Keyword(SampleSteps), Count(acc.sampleSteps)];
    assert Header(b, acc)[10] == [Keyword(EpochResetReason), Reason(acc.epoch.reason)];
  }

  /** A directory that one process of this version writes or wrote, under an epoch of this reason. */
  ghost predicate WrittenUnder(cfg: Config, w: World, name: nat, reason: ResetReason)
    requires ValidConfig(cfg)
  {
    && name in w.disk && OwnRoot(cfg, w.disk[name])
    && (forall s :: s in w.disk[name].accumulators ==>
          NoEndLine(w.disk[name].accumulators[s]) || FileReason(w.disk[name].accumulators[s], reason))
    && (w.process.Some? && w.process.value.root == name ==>
          |w.process.value.ranks| > 0 && w.process.value.ranks[0].epoch.reason == reason)
  }

  lemma AcceptKeepsReason(cfg: Config, w: World, w': World, r: Report, name: nat, reason: ResetReason)
    requires ValidConfig(cfg) && Inv(cfg, w) && Accept(cfg, w, w', r) && WrittenUnder(cfg, w, name, reason)
    ensures WrittenUnder(cfg, w', name, reason)
  {
    assert RanksOk(cfg, w.process.value);
    assert Sized(w.process.value.ranks[0], cfg.geometry, cfg.n);
  }

  lemma WriteKeepsReason(cfg: Config, w: World, w': World, torn: Option<seq<Line>>, name: nat, reason: ResetReason)
    requires ValidConfig(cfg) && Inv(cfg, w) && WriteAccumulator(cfg, w, w', torn) && WrittenUnder(cfg, w, name, reason)
    ensures WrittenUnder(cfg, w', name, reason)
  {
    WriteAccumulatorKeeps(cfg, w, w', torn);
    var p := w.process.value;
    if p.root == name {
      var b, acc := Binding(cfg.fingerprint, p.plan, p.schema, p.step, p.time), Reduced(p.ranks);
      EncodeReason(b, acc);
      if torn.Some? {
        EncodeEndsOnce(b, acc);
        TornHasNoEnd(Encode(b, acc), torn.value);
      }
    }
  }

  /** A step that leaves the directory alone, and does not put a process in it. */
  lemma OthersKeepReason(cfg: Config, w: World, w': World, name: nat, reason: ResetReason)
    requires ValidConfig(cfg) && WrittenUnder(cfg, w, name, reason) && name in w'.disk && w'.disk[name] == w.disk[name]
    requires w'.process.Some? ==> w'.process.value.root != name
    ensures WrittenUnder(cfg, w', name, reason)
  {
  }

  /** A write that adds no accumulator. */
  lemma OtherWriteKeepsReason(cfg: Config, w: World, w': World, name: nat, reason: ResetReason)
    requires ValidConfig(cfg) && WrittenUnder(cfg, w, name, reason) && w.process.Some?
    requires w.process.value.root in w.disk && w.process.value.root in w'.disk
    requires w'.disk == w.disk[w.process.value.root := w'.disk[w.process.value.root]]
    requires OwnRoot(cfg, w'.disk[w.process.value.root])
    requires w'.disk[w.process.value.root].accumulators == w.disk[w.process.value.root].accumulators
    requires w'.process.Some? ==>
               w'.process.value.root == w.process.value.root && w'.process.value.ranks == w.process.value.ranks
    ensures WrittenUnder(cfg, w', name, reason)
  {
  }

  lemma StatisticsKeepsReason(cfg: Config, w: World, w': World, name: nat, reason: ResetReason)
    requires ValidConfig(cfg) && Inv(cfg, w') && WriteStatistics(w, w') && WrittenUnder(cfg, w, name, reason)
    ensures WrittenUnder(cfg, w', name, reason)
  {
    OtherWriteKeepsReason(cfg, w, w', name, reason);
  }

  lemma PublishKeepsReason(cfg: Config, w: World, w': World, generation: string, digest: string, needsRecovery: bool,
                           name: nat, reason: ResetReason)
    requires ValidConfig(cfg) && Inv(cfg, w') && Publish(w, w', generation, digest, needsRecovery)
    requires WrittenUnder(cfg, w, name, reason)
    ensures WrittenUnder(cfg, w', name, reason)
  {
    OtherWriteKeepsReason(cfg, w, w', name, reason);
  }

  lemma MarkerKeepsReason(cfg: Config, w: World, w': World, torn: Option<seq<Line>>, name: nat, reason: ResetReason)
    requires ValidConfig(cfg) && Inv(cfg, w) && WriteMarker(cfg, w, w', torn) && WrittenUnder(cfg, w, name, reason)
    ensures WrittenUnder(cfg, w', name, reason)
  {
    WriteMarkerKeeps(cfg, w, w', torn);
    OtherWriteKeepsReason(cfg, w, w', name, reason);
  }

  lemma StartKeepsReason(cfg: Config, w: World, w': World, root: nat, plan: nat, schema: nat, tiling: seq<Patch>,
                         name: nat, reason: ResetReason)
    requires ValidConfig(cfg) && StartFresh(cfg, w, w', root, plan, schema, tiling)
    requires WrittenUnder(cfg, w, name, reason)
    ensures WrittenUnder(cfg, w', name, reason)
  {
    OthersKeepReason(cfg, w, w', name, reason);
  }

  lemma AdoptKeepsReason(cfg: Config, w: World, w': World, other: nat, root: Root, name: nat, reason: ResetReason)
    requires ValidConfig(cfg) && AdoptLegacy(w, w', other, root) && WrittenUnder(cfg, w, name, reason)
    ensures WrittenUnder(cfg, w', name, reason)
  {
  }

  lemma RestartKeepsReason(cfg: Config, w: World, w': World, source: nat, root: nat, plan: nat, schema: nat,
                           tiling: seq<Patch>, methodRecovery: bool, development: nat, name: nat, reason: ResetReason)
    requires ValidConfig(cfg) && WrittenUnder(cfg, w, name, reason)
    requires Restart(cfg, w, w', source, root, plan, schema, tiling, methodRecovery, development)
    ensures WrittenUnder(cfg, w', name, reason)
  {
    assert root !in w.disk && w'.disk == w.disk[root := EmptyRoot] && w'.process.Some? && w'.process.value.root == root;
    OthersKeepReason(cfg, w, w', name, reason);
  }

  /** Whatever happens next, a directory stays written under its reason: only its own process writes into it, and a
      process keeps its epoch. */
  lemma NextKeepsReason(cfg: Config, w: World, w': World, a: Action, name: nat, reason: ResetReason)
    requires ValidConfig(cfg) && Inv(cfg, w) && Inv(cfg, w') && Next(cfg, w, w', a)
    requires WrittenUnder(cfg, w, name, reason)
    ensures WrittenUnder(cfg, w', name, reason)
  {
    match a
    case DoStart(root, plan, schema, tiling) => StartKeepsReason(cfg, w, w', root, plan, schema, tiling, name, reason);
    case DoAccept(r) => AcceptKeepsReason(cfg, w, w', r, name, reason);
    case DoStop => OthersKeepReason(cfg, w, w', name, reason);
    case DoWriteStatistics => StatisticsKeepsReason(cfg, w, w', name, reason);
    case DoWriteAccumulator(torn) => WriteKeepsReason(cfg, w, w', torn, name, reason);
    case DoPublish(g, digest, needs) => PublishKeepsReason(cfg, w, w', g, digest, needs, name, reason);
    case DoWriteMarker(torn) => MarkerKeepsReason(cfg, w, w', torn, name, reason);
    case DoRestart(source, root, plan, schema, tiling, recovery, development) =>
      RestartKeepsReason(cfg, w, w', source, root, plan, schema, tiling, recovery, development, name, reason);
    case DoAdopt(other, root) => AdoptKeepsReason(cfg, w, w', other, root, name, reason);
  }

  lemma StepKeepsReason(cfg: Config, worlds: seq<World>, actions: seq<Action>, i: nat, name: nat, reason: ResetReason)
    requires ValidConfig(cfg) && Behaviour(cfg, worlds, actions) && i < |actions|
    requires WrittenUnder(cfg, worlds[i], name, reason)
    ensures WrittenUnder(cfg, worlds[i + 1], name, reason)
  {
    RunsKeep(cfg, worlds, actions, i);
    RunsKeep(cfg, worlds, actions, i + 1);
    NextKeepsReason(cfg, worlds[i], worlds[i + 1], actions[i], name, reason);
  }

  lemma {:induction false} StaysWrittenUnder(cfg: Config, worlds: seq<World>, actions: seq<Action>, i: nat, j: nat,
                                             name: nat, reason: ResetReason)
    requires ValidConfig(cfg) && Behaviour(cfg, worlds, actions) && i <= j < |worlds|
    requires WrittenUnder(cfg, worlds[i], name, reason)
    ensures WrittenUnder(cfg, worlds[j], name, reason)
  {
    if i < j {
      StaysWrittenUnder(cfg, worlds, actions, i, j - 1, name, reason);
      StepKeepsReason(cfg, worlds, actions, j - 1, name, reason);
    }
  }

  /** A process writes under its own epoch. */
  lemma {:induction false} ProcessWritesUnder(cfg: Config, worlds: seq<World>, actions: seq<Action>, i: nat)
    requires ValidConfig(cfg) && Behaviour(cfg, worlds, actions) && i < |worlds| && worlds[i].process.Some?
    ensures var p := worlds[i].process.value;
            |p.ranks| > 0 && WrittenUnder(cfg, worlds[i], p.root, p.ranks[0].epoch.reason)
  {
    RunsKeep(cfg, worlds, actions, i);
    var w, w' := worlds[i - 1], worlds[i];
    RunsKeep(cfg, worlds, actions, i - 1);
    if w.process.Some? {
      ProcessWritesUnder(cfg, worlds, actions, i - 1);
      NextKeepsReason(cfg, w, w', actions[i - 1], w.process.value.root, w.process.value.ranks[0].epoch.reason);
      SameProcess(cfg, w, w', actions[i - 1]);
    } else {
      NewDirectory(cfg, w, w', actions[i - 1]);
    }
  }

  lemma SameProcess(cfg: Config, w: World, w': World, a: Action)
    requires ValidConfig(cfg) && Next(cfg, w, w', a) && w.process.Some? && w'.process.Some?
    ensures w'.process.value.root == w.process.value.root
  {
  }

  lemma NewDirectory(cfg: Config, w: World, w': World, a: Action)
    requires ValidConfig(cfg) && Inv(cfg, w') && Next(cfg, w, w', a) && w.process.None? && w'.process.Some?
    ensures var p := w'.process.value; |p.ranks| > 0 && WrittenUnder(cfg, w', p.root, p.ranks[0].epoch.reason)
  {
    assert w'.disk[w'.process.value.root] == EmptyRoot;
  }

  // ----- over whole runs

  /** Crash safety: from the moment a process runs in a directory, and at every later point of the run, that directory
      admits a restart exactly when the marker of its current generation is whole; then image and accumulator belong to
      the same checkpoint, and the epoch's reason is that of the process. */
  lemma RestartExactly(cfg: Config, worlds: seq<World>, actions: seq<Action>, j: nat, i: nat)
    requires ValidConfig(cfg) && Behaviour(cfg, worlds, actions) && j <= i < |worlds| && worlds[j].process.Some?
    ensures |worlds[j].process.value.ranks| > 0 && worlds[j].process.value.root in worlds[i].disk
    ensures var p, root := worlds[j].process.value, worlds[i].disk[worlds[j].process.value.root];
            && (RestartAcc(cfg, root).Some? <==> Marked(cfg, root))
            && (RestartAcc(cfg, root).Some? ==>
                  Paired(cfg, root) && RestartAcc(cfg, root).value.epoch.reason == p.ranks[0].epoch.reason)
  {
    var p := worlds[j].process.value;
    ProcessWritesUnder(cfg, worlds, actions, j);
    StaysWrittenUnder(cfg, worlds, actions, j, i, p.root, p.ranks[0].epoch.reason);
    var root := worlds[i].disk[p.root];
    OwnRestartExactly(cfg, root);
    if RestartAcc(cfg, root).Some? {
      var image, acc := root.images[root.current.value], RestartAcc(cfg, root).value;
      EncodeReason(BindingOf(cfg, image), acc);
      EncodeEndsOnce(BindingOf(cfg, image), acc);
    }
  }

  /** The same for any directory that holds an accumulator of the current format. */
  lemma CurrentRestartExactly(cfg: Config, worlds: seq<World>, actions: seq<Action>, i: nat, name: nat)
    requires ValidConfig(cfg) && Behaviour(cfg, worlds, actions) && i < |worlds| && name in worlds[i].disk
    requires !LegacyRoot(worlds[i].disk[name])
    ensures var root := worlds[i].disk[name];
            (RestartAcc(cfg, root).Some? <==> Marked(cfg, root)) && (RestartAcc(cfg, root).Some? ==> Paired(cfg, root))
  {
    RunsKeep(cfg, worlds, actions, i);
    OwnRestartExactly(cfg, worlds[i].disk[name]);
  }

  // ----- what a restart keeps

  /** What a restart continues with: the decoded statistics, or an empty epoch that remembers how many were dropped. */
  ghost predicate Dropped(acc: Acc, p: Process) {
    && |p.ranks| > 0 && p.ranks[0].sampleSteps == 0 && p.ranks[0].epoch.discardedSamples == acc.sampleSteps
    && forall r :: 0 <= r < |p.ranks| ==> AllZero(p.ranks[r].profile) && AllZero(p.ranks[r].centerline)
  }

  ghost predicate AllZero(values: seq<real>) {
    forall k :: 0 <= k < |values| ==> values[k] == 0.0
  }

  lemma RestoredZero(cfg: Config, acc: Acc, count: nat)
    requires ValidConfig(cfg) && AllZero(acc.profile) && AllZero(acc.centerline)
    ensures var ranks := Restored(cfg, acc, count);
            forall r :: 0 <= r < |ranks| ==> AllZero(ranks[r].profile) && AllZero(ranks[r].centerline)
  {
    var zero := ZeroAcc(cfg, acc.epoch, acc.sampleSteps);
    assert AllZero(zero.profile) && AllZero(zero.centerline);
  }

  lemma ResetZero(acc: Acc, start: nat, development: nat, reason: ResetReason, source: string)
    ensures var reset := ResetAcc(acc, start, development, reason, source);
            AllZero(reset.profile) && AllZero(reset.centerline)
  {
  }

  /** A restart drops the samples it decoded exactly when the image needs recovery, recovery is asked for, or the
      decoded epoch carries the older-statistics reason; otherwise it keeps them all. */
  lemma RestartDropsExactly(cfg: Config, w: World, w': World, source: nat, root: nat, plan: nat, schema: nat,
                            tiling: seq<Patch>, methodRecovery: bool, development: nat)
    requires ValidConfig(cfg) && Inv(cfg, w)
    requires Restart(cfg, w, w', source, root, plan, schema, tiling, methodRecovery, development)
    ensures |w'.process.value.ranks| > 0
    ensures var acc, p := RestartAcc(cfg, w.disk[source]).value, w'.process.value;
            var image := w.disk[source].images[w.disk[source].current.value];
            var dropped := image.needsRecovery || methodRecovery || acc.epoch.reason.LegacyStatistics?;
            && (!dropped ==> Reduced(p.ranks) == acc)
            && (dropped ==> Dropped(acc, p))
            && (acc.sampleSteps > 0 ==> (Reduced(p.ranks) == acc <==> !dropped) && (Dropped(acc, p) <==> dropped))
  {
    RestartPairs(cfg, w.disk[source]);
    var acc, image := RestartAcc(cfg, w.disk[source]).value, w.disk[source].images[w.disk[source].current.value];
    if MustReset(acc, image.needsRecovery, methodRecovery) {
      var cause := ResetCause(image.needsRecovery, methodRecovery);
      var reset := ResetAcc(acc, image.step, development, cause, image.digest);
      ResetZero(acc, image.step, development, cause, image.digest);
      RestoredZero(cfg, reset, |tiling|);
      ReducedRestored(cfg, reset, |tiling|);
    } else {
      ReducedRestored(cfg, acc, |tiling|);
    }
  }

  /** An epoch reset because of older statistics: whatever its process samples and writes, every restart from its
      directory drops all of it again, and unless recovery is the cause the new epoch has the same reason, so this
      goes on for ever. */
  lemma LegacyEpochDroppedAgain(cfg: Config, worlds: seq<World>, actions: seq<Action>, j: nat, k: nat, root: nat,
                                plan: nat, schema: nat, tiling: seq<Patch>, methodRecovery: bool, development: nat)
    requires ValidConfig(cfg) && Behaviour(cfg, worlds, actions) && j <= k < |actions| && worlds[j].process.Some?
    requires |worlds[j].process.value.ranks| > 0 && worlds[j].process.value.ranks[0].epoch.reason == LegacyStatistics
    requires actions[k] == DoRestart(worlds[j].process.value.root, root, plan, schema, tiling, methodRecovery,
                                     development)
    ensures worlds[j].process.value.root in worlds[k].disk && worlds[k + 1].process.Some?
    ensures var from := worlds[k].disk[worlds[j].process.value.root];
            && RestartAcc(cfg, from).Some? && Paired(cfg, from)
            && RestartAcc(cfg, from).value.epoch.reason == LegacyStatistics
            && Dropped(RestartAcc(cfg, from).value, worlds[k + 1].process.value)
            && (!methodRecovery && !from.images[from.current.value].needsRecovery ==>
                  worlds[k + 1].process.value.ranks[0].epoch.reason == LegacyStatistics)
  {
    RunsKeep(cfg, worlds, actions, k);
    assert Next(cfg, worlds[k], worlds[k + 1], actions[k]);
    RestartExactly(cfg, worlds, actions, j, k);
    RestartDropsExactly(cfg, worlds[k], worlds[k + 1], worlds[j].process.value.root, root, plan, schema, tiling,
                        methodRecovery, development);
  }
}
