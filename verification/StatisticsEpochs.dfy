/** Sampling epochs and the serial accumulator of a run. */
module StatisticsEpochs {
  import opened GridTypes
  import opened SamplingKernel
  import opened StatisticsTypes
  import opened AccumulatorCodec
  import opened RunAccumulator

  /** What stays fixed along a chain of runs: the grid, the bracketed planes and the statistics specification. */
  datatype Config = Config(n: Int3, geometry: Geometry, development: nat, collectionEnd: nat, fingerprint: nat)

  ghost predicate ValidConfig(cfg: Config) {
    && cfg.n.x > 0 && cfg.n.y > 0 && cfg.n.z > 0 && ValidGeometry(cfg.geometry, cfg.n)
    && cfg.development < cfg.collectionEnd <= UINT64_MAX && cfg.fingerprint <= UINT64_MAX
    && ProfileSlotCount(cfg.geometry, cfg.n) <= UINT64_MAX && cfg.n.x * 3 <= UINT64_MAX
  }

  /** One accepted step as the driver reports it. */
  datatype Report = Report(step: nat, dt: real, field: Field, attempts: nat, fallback: bool, recovery: bool)

  predicate Included(cfg: Config, e: Epoch, r: Report) {
    var inWindow := r.step >= e.samplingStartStep && r.step <= cfg.collectionEnd;
    var startup := r.step == 1;
    inWindow && !startup && !r.recovery && r.attempts == 1 && !r.fallback
  }

  function FreshEpoch(cfg: Config): Epoch {
    Epoch(0, cfg.development, AtLeastOne(cfg.development) + 1, 0, Fresh, "")
  }

  function ResetEpoch(start: nat, development: nat, discarded: nat, reason: ResetReason, source: string): Epoch {
    Epoch(start, development, start + AtLeastOne(development) + 1, discarded, reason, source)
  }

  /** The epoch of a process at a given step: everything the decoder's admission test asks of it. */
  ghost predicate EpochOk(e: Epoch, step: nat) {
    Admissible(e, 0, step) && e.discardedSamples <= UINT64_MAX && step <= UINT64_MAX
  }

  // ----- the rank's share of one step, and of a reset

  ghost function Accepted(cfg: Config, acc: Acc, p: Patch, r: Report): Acc
    requires Sized(acc, cfg.geometry, cfg.n) && cfg.n.y > 0
  {
    if Included(cfg, acc.epoch, r) then Sampled(acc, cfg.geometry, cfg.n, p, r.field, r.dt) else acc
  }

  method AcceptStep(cfg: Config, p: Patch, r: Report, accumulator: Accumulator) returns (ok: bool)
    requires accumulator.Valid() && ValidConfig(cfg) && Inside(cfg.n, p)
    requires Sized(accumulator.Value(), cfg.geometry, cfg.n) && r.dt > 0.0
    modifies accumulator`sampleSteps, accumulator.profile, accumulator.centerline
    ensures ok == (Included(cfg, old(accumulator.Value()).epoch, r) ==> SampleReadable(cfg.geometry, p, r.field, r.dt))
    ensures ok ==> accumulator.Value() == Accepted(cfg, old(accumulator.Value()), p, r)
  {
    var inWindow := r.step >= accumulator.epoch.samplingStartStep && r.step <= cfg.collectionEnd;
    var startup, retry := r.step == 1, r.attempts != 1;
    ok := true;
    if inWindow && !startup && !r.recovery && !retry && !r.fallback {
      ok := accumulator.AddSample(cfg.geometry, cfg.n, p, r.field, r.dt);
    }
  }

  function Zeros(count: nat): (r: seq<real>)
    ensures |r| == count && forall k :: 0 <= k < count ==> r[k] == 0.0
  {
    seq(count, _ => 0.0)
  }

  function ResetAcc(acc: Acc, start: nat, development: nat, reason: ResetReason, source: string): Acc {
    Acc(Zeros(|acc.profile|), Zeros(|acc.centerline|), 0,
        ResetEpoch(start, development, acc.sampleSteps, reason, source))
  }

  method Fill(values: array<real>)
    modifies values
    ensures values[..] == Zeros(values.Length)
  {
    var k := 0;
    while k < values.Length
      invariant 0 <= k <= values.Length
      invariant forall i :: 0 <= i < k ==> values[i] == 0.0
    {
      values[k] := 0.0;
      k := k + 1;
    }
  }

  /** Restart with another method's history: the old values are dropped, their count and source kept. */
  method ResetStatistics(accumulator: Accumulator, start: nat, development: nat, reason: ResetReason, source: string)
    requires accumulator.Valid()
    modifies accumulator`sampleSteps, accumulator`epoch, accumulator.profile, accumulator.centerline
    ensures accumulator.Value() == ResetAcc(old(accumulator.Value()), start, development, reason, source)
  {
    var discarded := accumulator.sampleSteps;
    Fill(accumulator.profile);
    Fill(accumulator.centerline);
    accumulator.sampleSteps := 0;
    accumulator.epoch := Epoch(start, development, start + AtLeastOne(development) + 1, discarded, reason, source);
  }

  // ----- the serial reference: one rank owning the whole grid, over the steps that count

  ghost function SerialProfile(cfg: Config, e: Epoch, history: seq<Report>, k: int): real
    requires cfg.n.y > 0 && 0 <= k < ProfileSlotCount(cfg.geometry, cfg.n)
  {
    if history == [] then 0.0
    else
      var r := history[|history| - 1];
      SerialProfile(cfg, e, history[..|history| - 1], k)
      + if Included(cfg, e, r) then ProfileGain(cfg.geometry, cfg.n, Whole(cfg.n), r.field, r.dt, k) else 0.0
  }

  ghost function SerialCenter(cfg: Config, e: Epoch, history: seq<Report>, k: int): real
  {
    if history == [] then 0.0
    else
      var r := history[|history| - 1];
      SerialCenter(cfg, e, history[..|history| - 1], k)
      + if Included(cfg, e, r) then CenterGain(cfg.geometry, Whole(cfg.n), r.field, r.dt, k) else 0.0
  }

  ghost function SerialCount(cfg: Config, e: Epoch, history: seq<Report>): nat
  {
    if history == [] then 0
    else SerialCount(cfg, e, history[..|history| - 1])
         + if Included(cfg, e, history[|history| - 1]) then 1 else 0
  }

  /** Every accepted step, once and in order, with a positive time step. */
  ghost predicate HistoryOk(history: seq<Report>, step: nat) {
    |history| == step && forall i :: 0 <= i < |history| ==> history[i].step == i + 1 && history[i].dt > 0.0
  }

  /** Steps before the sampling window add nothing: a reset starts its sums at zero. */
  lemma {:induction false} BeforeWindow(cfg: Config, e: Epoch, history: seq<Report>)
    requires forall i :: 0 <= i < |history| ==> history[i].step < e.samplingStartStep
    requires cfg.n.y > 0
    ensures SerialCount(cfg, e, history) == 0
    ensures forall k :: 0 <= k < ProfileSlotCount(cfg.geometry, cfg.n) ==> SerialProfile(cfg, e, history, k) == 0.0
    ensures forall k :: SerialCenter(cfg, e, history, k) == 0.0
    decreases |history|
  {
    if history != [] {
      BeforeWindow(cfg, e, history[..|history| - 1]);
    }
  }

  /** The number of included steps never exceeds what the reader considers possible. */
  lemma {:induction false} CountBound(cfg: Config, e: Epoch, history: seq<Report>, step: nat)
    requires HistoryOk(history, step)
    ensures SerialCount(cfg, e, history) <= if step >= e.samplingStartStep then step - e.samplingStartStep + 1 else 0
    decreases |history|
  {
    if history != [] {
      CountBound(cfg, e, history[..|history| - 1], step - 1);
      assert history[|history| - 1].step == step;
    }
  }

  /** The startup step, and the recovery step right after a reset, fall before the sampling window, so the
      runner's explicit exclusion of both never decides anything. */
  lemma TransientsPrecedeWindow(cfg: Config, e: Epoch, r: Report)
    requires e.samplingStartStep == e.startStep + AtLeastOne(e.developmentSteps) + 1
    requires r.recovery ==> r.step == e.startStep + 1
    ensures r.step == 1 || r.recovery ==> r.step < e.samplingStartStep
    ensures Included(cfg, e, r)
       <==> e.samplingStartStep <= r.step <= cfg.collectionEnd && r.attempts == 1 && !r.fallback
  {
  }
}
