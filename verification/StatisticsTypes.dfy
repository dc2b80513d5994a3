/** The statistics epoch, the run's statistics specification, and an accumulator as a value. */
module StatisticsTypes {

  const UINT64_MAX: nat := 0xFFFF_FFFF_FFFF_FFFF

  datatype ResetReason = Fresh | MethodRecovery | MissingHistory | LegacyStatistics

  /** A digest is its hexadecimal text; a fresh run has none. */
  datatype Epoch = Epoch(startStep: nat, developmentSteps: nat, samplingStartStep: nat, discardedSamples: nat,
                         reason: ResetReason, sourceManifest: string)

  datatype Acc = Acc(profile: seq<real>, centerline: seq<real>, sampleSteps: nat, epoch: Epoch)

  function AtLeastOne(n: nat): nat {
    if n < 1 then 1 else n
  }
}
