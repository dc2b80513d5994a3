/** Runs, checkpoints, crashes and restarts of the runner as a transition system. */
module CheckpointRuns {
  import opened Options
  import opened Sums
  import opened GridTypes
  import opened SamplingKernel
  import opened StatisticsTypes
  import opened TextLines
  import opened AccumulatorCodec
  import opened CheckpointMarker
  import opened RunAccumulator
  import opened StatisticsEpochs
  import opened Moments

  // ----- state

  /** A published restart generation. Its flow state is represented by the accepted steps that led to it. */
  datatype Image = Image(step: nat, time: real, plan: nat, schema: nat, digest: string, needsRecovery: bool,
                         history: seq<Report>)

  /** One run directory. */
  datatype Root = Root(statistics: set<nat>, accumulators: map<nat, seq<Line>>, markers: map<nat, seq<Line>>,
                       images: map<string, Image>, current: Option<string>, others: map<nat, seq<Line>>)

  /** Where a checkpoint stands: idle, or after its statistics file, its accumulator file, its publication. */
  datatype Phase = Running | StatisticsWritten | AccumulatorWritten | Published(generation: string)

  datatype Process = Process(root: nat, plan: nat, schema: nat, tiling: seq<Patch>, ranks: seq<Acc>,
                             step: nat, time: real, history: seq<Report>, recoveryPending: bool, phase: Phase)

  datatype World = World(disk: map<nat, Root>, process: Option<Process>)

  // ----- what a step computes

  ghost function ZeroAcc(cfg: Config, e: Epoch, sampleSteps: nat): Acc
    requires ValidConfig(cfg)
  {
    Acc(Zeros(ProfileSlotCount(cfg.geometry, cfg.n)), Zeros(cfg.n.x * 3), sampleSteps, e)
  }

  /** The sum reduction onto rank 0; counts and epoch are rank 0's own. */
  ghost function Reduced(ranks: seq<Acc>): Acc
    requires |ranks| > 0
  {
    Acc(seq(|ranks[0].profile|, k => Sum(|ranks|, ProfileSlots(ranks, k))),
        seq(|ranks[0].centerline|, k => Sum(|ranks|, CenterSlots(ranks, k))),
        ranks[0].sampleSteps, ranks[0].epoch)
  }

  /** Rank 0 holds the restored values; the other ranks hold zeros under the broadcast count and epoch. */
  ghost function Restored(cfg: Config, acc: Acc, count: nat): (ranks: seq<Acc>)
    requires ValidConfig(cfg)
    ensures |ranks| == count
  {
    seq(count, r => if r == 0 then acc else ZeroAcc(cfg, acc.epoch, acc.sampleSteps))
  }

  function BindingOf(cfg: Config, image: Image): Binding {
    Binding(cfg.fingerprint, image.plan, image.schema, image.step, image.time)
  }

  function MarkOf(cfg: Config, image: Image, generation: string): Mark {
    Mark(cfg.fingerprint, image.step, image.time, image.plan, image.schema, generation)
  }

  function PresentIn(root: Root): Present {
    Present(root.statistics, root.accumulators.Keys, root.others.Keys)
  }

  /** What the accumulator reader finds in a file; a statistics file has no line it accepts. */
  function ContentOf(root: Root, name: FileName): seq<Line> {
    match name
    case StatisticsOf(s) => []
    case AccumulatorOf(s) => if s in root.accumulators then root.accumulators[s] else []
    case OtherFile(n) => if n in root.others then root.others[n] else []
  }

  /** The accumulator a restart from this directory would continue with; None when the restart is refused. */
  ghost function RestartAcc(cfg: Config, root: Root): Option<Acc>
    requires ValidConfig(cfg)
  {
    if root.current.None? || root.current.value !in root.images then None
    else
      var g := root.current.value;
      var image := root.images[g];
      if image.step !in root.markers then None
      else match ReadBinding(MarkOf(cfg, image, g), PresentIn(root), root.markers[image.step])
        case None => None
        case Some(named) =>
          Decode(BindingOf(cfg, image), ContentOf(root, named), ZeroAcc(cfg, FreshEpoch(cfg), 0))
  }

  predicate MustReset(acc: Acc, needsRecovery: bool, methodRecovery: bool) {
    needsRecovery || methodRecovery || acc.epoch.reason.LegacyStatistics?
  }

  function ResetCause(needsRecovery: bool, methodRecovery: bool): ResetReason {
    if methodRecovery then MethodRecovery else if needsRecovery then MissingHistory else LegacyStatistics
  }

  // ----- transitions

  predicate Idle(w: World) {
    w.process.None?
  }

  const EmptyRoot := Root({}, map[], map[], map[], None, map[])

  /** A fresh run creates its own directory. */
  ghost predicate StartFresh(cfg: Config, w: World, w': World, root: nat, plan: nat, schema: nat, tiling: seq<Patch>)
    requires ValidConfig(cfg)
  {
    && Idle(w) && root !in w.disk && Tiles(cfg.n, tiling) && plan <= UINT64_MAX && schema <= UINT64_MAX
    && w' == World(w.disk[root := EmptyRoot],
                   Some(Process(root, plan, schema, tiling,
                                seq(|tiling|, _ => ZeroAcc(cfg, FreshEpoch(cfg), 0)),
                                0, 0.0, [], false, Running)))
  }

  /** One accepted step: every rank updates its own accumulator, or none does. */
  ghost predicate Accept(cfg: Config, w: World, w': World, r: Report)
    requires ValidConfig(cfg)
  {
    && w.process.Some? && w.process.value.phase.Running?
    && var p := w.process.value;
       && r.step == p.step + 1 && r.step <= cfg.collectionEnd && r.dt > 0.0 && r.recovery == p.recoveryPending
       && (forall i :: 0 <= i < |p.ranks| ==> Sized(p.ranks[i], cfg.geometry, cfg.n)) && |p.ranks| == |p.tiling|
       && (forall i :: 0 <= i < |p.ranks| && Included(cfg, p.ranks[i].epoch, r)
             ==> SampleReadable(cfg.geometry, p.tiling[i], r.field, r.dt))
       && w' == w.(process := Some(p.(
            ranks := seq(|p.ranks|, i requires 0 <= i < |p.ranks| => Accepted(cfg, p.ranks[i], p.tiling[i], r)),
            step := r.step, time := p.time + r.dt, history := p.history + [r], recoveryPending := false)))
  }

  /** Any failure or crash between two writes ends the process. */
  ghost predicate Stop(w: World, w': World) {
    w.process.Some? && w' == w.(process := None)
  }

  ghost predicate WriteStatistics(w: World, w': World) {
    && w.process.Some? && w.process.value.phase.Running? && w.process.value.root in w.disk
    && var p := w.process.value;
       var root := w.disk[p.root];
       && p.step !in root.statistics
       && w' == World(w.disk[p.root := root.(statistics := root.statistics + {p.step})],
                      Some(p.(phase := StatisticsWritten)))
  }

  ghost predicate WriteAccumulator(cfg: Config, w: World, w': World, torn: Option<seq<Line>>) {
    && w.process.Some? && w.process.value.phase.StatisticsWritten? && w.process.value.root in w.disk
    && var p := w.process.value;
       var root := w.disk[p.root];
       && p.step !in root.accumulators && |p.ranks| > 0
       && var whole := Encode(Binding(cfg.fingerprint, p.plan, p.schema, p.step, p.time), Reduced(p.ranks));
          && (torn.Some? ==> Torn(whole, torn.value))
          && w' == World(w.disk[p.root := root.(accumulators :=
                           root.accumulators[p.step := if torn.Some? then torn.value else whole])],
                         if torn.Some? then None else Some(p.(phase := AccumulatorWritten)))
  }

  /** Publication of a restart generation is one step and yields a fresh name and a digest. */
  ghost predicate Publish(w: World, w': World, generation: string, digest: string, needsRecovery: bool) {
    && w.process.Some? && w.process.value.phase.AccumulatorWritten? && w.process.value.root in w.disk
    && ValidDigest(digest) && NonzeroDigest(digest)
    && var p := w.process.value;
       var root := w.disk[p.root];
       && generation !in root.images && p.step > 0
       && w' == World(w.disk[p.root := root.(
                        images := root.images[generation := Image(p.step, p.time, p.plan, p.schema, digest,
                                                                  needsRecovery, p.history)],
                        current := Some(generation))],
                      Some(p.(phase := Published(generation))))
  }

  ghost predicate WriteMarker(cfg: Config, w: World, w': World, torn: Option<seq<Line>>) {
    && w.process.Some? && w.process.value.phase.Published? && w.process.value.root in w.disk
    && var p := w.process.value;
       var root := w.disk[p.root];
       && p.step !in root.markers && root.current.Some?
       && var whole := MarkerLines(Mark(cfg.fingerprint, p.step, p.time, p.plan, p.schema, root.current.value));
          && (torn.Some? ==> Torn(whole, torn.value))
          && w' == World(w.disk[p.root := root.(markers :=
                           root.markers[p.step := if torn.Some? then torn.value else whole])],
                         if torn.Some? then None else Some(p.(phase := Running)))
  }

  /** A restart reads one directory and writes into a new one, with any new partition. */
  ghost predicate Restart(cfg: Config, w: World, w': World, source: nat, root: nat, plan: nat, schema: nat,
                          tiling: seq<Patch>, methodRecovery: bool, development: nat)
    requires ValidConfig(cfg)
  {
    && Idle(w) && source in w.disk && root !in w.disk && Tiles(cfg.n, tiling)
    && plan <= UINT64_MAX && schema <= UINT64_MAX && development <= UINT64_MAX
    && RestartAcc(cfg, w.disk[source]).Some?
    && var acc := RestartAcc(cfg, w.disk[source]).value;
       var image := w.disk[source].images[w.disk[source].current.value];
       var reset := MustReset(acc, image.needsRecovery, methodRecovery);
       && image.step < cfg.collectionEnd
       && (reset ==> AtLeastOne(development) < UINT64_MAX - image.step)
       && var start := if reset
                       then ResetAcc(acc, image.step, development, ResetCause(image.needsRecovery, methodRecovery),
                                     image.digest)
                       else acc;
          w' == World(w.disk[root := EmptyRoot],
                      Some(Process(root, plan, schema, tiling, Restored(cfg, start, |tiling|), image.step, image.time,
                                   image.history, image.needsRecovery || methodRecovery, Running)))
  }

  predicate OlderFormat(file: seq<Line>) {
    file == [] || file[0] != [Keyword(MagicV3)]
  }

  /** No file of the directory is an accumulator of the current format. */
  ghost predicate LegacyRoot(root: Root) {
    && (forall s :: s in root.accumulators ==> OlderFormat(root.accumulators[s]))
    && (forall n :: n in root.others ==> OlderFormat(root.others[n]))
  }

  /** A directory left by an older program version appears: only its accumulators' older magic is known. */
  ghost predicate AdoptLegacy(w: World, w': World, name: nat, root: Root) {
    && name !in w.disk
    && LegacyRoot(root)
    && (forall g :: g in root.images ==> ImageOk(root.images[g]))
    && w' == w.(disk := w.disk[name := root])
  }

  ghost predicate ImageOk(image: Image) {
    && image.step > 0 && HistoryOk(image.history, image.step)
    && ValidDigest(image.digest) && NonzeroDigest(image.digest)
    && image.step <= UINT64_MAX && image.plan <= UINT64_MAX && image.schema <= UINT64_MAX
  }

  datatype Action =
    | DoStart(root: nat, plan: nat, schema: nat, tiling: seq<Patch>)
    | DoAccept(report: Report)
    | DoStop
    | DoWriteStatistics
    | DoWriteAccumulator(torn: Option<seq<Line>>)
    | DoPublish(generation: string, digest: string, needsRecovery: bool)
    | DoWriteMarker(torn: Option<seq<Line>>)
    | DoRestart(source: nat, root: nat, plan: nat, schema: nat, tiling: seq<Patch>, methodRecovery: bool,
                development: nat)
    | DoAdopt(name: nat, legacy: Root)

  ghost predicate Next(cfg: Config, w: World, w': World, a: Action)
    requires ValidConfig(cfg)
  {
    match a
    case DoStart(root, plan, schema, tiling) => StartFresh(cfg, w, w', root, plan, schema, tiling)
    case DoAccept(r) => Accept(cfg, w, w', r)
    case DoStop => Stop(w, w')
    case DoWriteStatistics => WriteStatistics(w, w')
    case DoWriteAccumulator(torn) => WriteAccumulator(cfg, w, w', torn)
    case DoPublish(g, digest, needs) => Publish(w, w', g, digest, needs)
    case DoWriteMarker(torn) => WriteMarker(cfg, w, w', torn)
    case DoRestart(source, root, plan, schema, tiling, recovery, development) =>
      Restart(cfg, w, w', source, root, plan, schema, tiling, recovery, development)
    case DoAdopt(name, root) => AdoptLegacy(w, w', name, root)
  }

  /** A run of the whole system: any interleaving of the transitions from an empty disk. */
  ghost predicate Behaviour(cfg: Config, worlds: seq<World>, actions: seq<Action>)
    requires ValidConfig(cfg)
  {
    && |worlds| == |actions| + 1 && worlds[0] == World(map[], None)
    && forall i :: 0 <= i < |actions| ==> Next(cfg, worlds[i], worlds[i + 1], actions[i])
  }

  // ----- the invariant

  /** The accumulator is the serial one for its epoch over this history. */
  ghost predicate Serial(cfg: Config, acc: Acc, history: seq<Report>)
    requires ValidConfig(cfg)
  {
    && Sized(acc, cfg.geometry, cfg.n)
    && acc.sampleSteps == SerialCount(cfg, acc.epoch, history)
    && (forall k :: 0 <= k < |acc.profile| ==> acc.profile[k] == SerialProfile(cfg, acc.epoch, history, k))
    && (forall k :: 0 <= k < |acc.centerline| ==> acc.centerline[k] == SerialCenter(cfg, acc.epoch, history, k))
  }

  ghost predicate AccOk(cfg: Config, acc: Acc, history: seq<Report>, step: nat)
    requires ValidConfig(cfg)
  {
    Serial(cfg, acc, history) && EpochOk(acc.epoch, step) && Realizable(acc)
  }

  ghost predicate RanksAgree(cfg: Config, ranks: seq<Acc>) {
    forall i :: 0 <= i < |ranks| ==>
      Sized(ranks[i], cfg.geometry, cfg.n) && ranks[i].sampleSteps == ranks[0].sampleSteps
      && ranks[i].epoch == ranks[0].epoch && Realizable(ranks[i])
  }

  ghost predicate RanksOk(cfg: Config, p: Process)
    requires ValidConfig(cfg)
  {
    && Tiles(cfg.n, p.tiling) && |p.ranks| == |p.tiling| && RanksAgree(cfg, p.ranks)
    && AccOk(cfg, Reduced(p.ranks), p.history, p.step) && HistoryOk(p.history, p.step)
    && (p.recoveryPending ==> p.ranks[0].epoch.startStep == p.step)
    && p.step <= cfg.collectionEnd && p.plan <= UINT64_MAX && p.schema <= UINT64_MAX
  }

  /** A complete accumulator file written for an image holds the serial sums of that image's own history. */
  ghost predicate FileMatches(cfg: Config, file: seq<Line>, image: Image)
    requires ValidConfig(cfg)
  {
    exists acc :: file == Encode(BindingOf(cfg, image), acc) && AccOk(cfg, acc, image.history, image.step)
  }

  /** Every marker is a torn one, or a whole one for a generation whose image and accumulator file belong together. */
  ghost predicate MarkerOk(cfg: Config, root: Root, s: nat)
    requires ValidConfig(cfg) && s in root.markers
  {
    || NoEndLine(root.markers[s])
    || exists g :: g in root.images && root.images[g].step == s && s in root.accumulators && s in root.statistics
         && root.markers[s] == MarkerLines(MarkOf(cfg, root.images[g], g))
         && FileMatches(cfg, root.accumulators[s], root.images[g])
  }

  ghost predicate RootOk(cfg: Config, root: Root)
    requires ValidConfig(cfg)
  {
    && (forall g :: g in root.images ==> ImageOk(root.images[g]))
    && (LegacyRoot(root) || forall s :: s in root.markers ==> MarkerOk(cfg, root, s))
  }

  /** A directory that only this version wrote into. */
  ghost predicate OwnRoot(cfg: Config, root: Root)
    requires ValidConfig(cfg)
  {
    RootOk(cfg, root) && forall s :: s in root.markers ==> MarkerOk(cfg, root, s)
  }

  /** A process that is inside a checkpoint has put exactly its own data on disk so far. */
  ghost predicate PhaseOk(cfg: Config, p: Process, root: Root)
    requires ValidConfig(cfg) && |p.ranks| > 0
  {
    && (forall s :: s in root.markers ==> MarkerOk(cfg, root, s))
    && (!p.phase.Running? ==> p.step in root.statistics)
    && (p.phase.AccumulatorWritten? || p.phase.Published? ==>
          p.step in root.accumulators && root.accumulators[p.step]
            == Encode(Binding(cfg.fingerprint, p.plan, p.schema, p.step, p.time), Reduced(p.ranks)))
    && (p.phase.Published? ==> ImageIsProcess(p, root, p.phase.generation))
  }

  ghost predicate ImageIsProcess(p: Process, root: Root, generation: string) {
    && root.current == Some(generation) && generation in root.images
    && var image := root.images[generation];
       image.step == p.step && image.time == p.time && image.plan == p.plan && image.schema == p.schema
       && image.history == p.history
  }

  ghost predicate Inv(cfg: Config, w: World)
    requires ValidConfig(cfg)
  {
    && (forall r :: r in w.disk ==> RootOk(cfg, w.disk[r]))
    && (w.process.Some? ==> var p := w.process.value;
          RanksOk(cfg, p) && p.root in w.disk && PhaseOk(cfg, p, w.disk[p.root]))
  }
}
