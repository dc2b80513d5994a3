# Verification of the run, restart and evidence tools

This project models the logic of the tools around the V0.4 solver that must not be wrong silently: the run driver's
distributed statistics and their checkpoints, the repair of the 624CF surface, the restart manifest and run-evidence
checks, the decoding of spray restarts, the partitioned mesh import, the MPI observer's table, and three small numeric
and parsing cores. `dafny verify dfyconfig.toml` checks all of it.

## What is modelled

**Statistics, checkpoints and restarts** (`tools/v04_thin_domain_runner.cpp`). Ranks own boxes of one grid. Every
accepted step adds time-weighted moments to each rank's accumulator; `RunAccumulator` models that in place, on arrays.
`CheckpointRuns` is a transition system over the ranks and the run directories on disk: start, accepted step, the four
writes of a checkpoint one by one, a stop between any two of them or in the middle of a write, and a restart into a new
directory under any other partition. Its invariant is proved for every run in `CheckpointProofs`, together with what
follows from it: the rank sum is the serial statistic of the current epoch, moments are realizable, files written are
files read, and a restart pairs a flow image only with the accumulator written for it. `CheckpointRestarts` says exactly
which restarts are admitted and what they keep, over whole runs; `CheckpointWitness` shows which steps are always
possible and gives concrete runs. The accumulator file and the checkpoint marker are modelled as token lines
(`AccumulatorCodec`, `AccumulatorReader`, `CheckpointMarker`), the extrema reduction in `ThermoExtrema`.

**Surface repair** (`tools/v04_repair_624cf_stl.py`). Faces with the same corners (`Duplicates`), boundary loops
(`BoundaryLoops`), edge ownership (`SurfaceEdges`), volumes (`SurfaceVolume`), and the inspection and repair that use
them. The audited counts are a parameter (`Plan`), so the results hold for every triangle list.

**Restart manifest and evidence** (`tools/v04_evidence_validate.py`). The checksum (`Fnv`, the 64-bit FNV-1a recurrence
with the program's own offset basis), the six-version manifest over any field widths (`RestartManifest`) and in the
program's own layout (`ManifestFormat`), and the row chain of the run-evidence validator (`EvidenceChain`).

**Spray restarts** (`tools/v04_spray_inventory.py`). Record framing, layout, slot partition, the cell table's double
loop and its counters.

**Mesh import** (`tools/v04_mesh_restart_import.cpp`). Source blocks with a one-cell halo, the face flux rule, filling a
rank's flux image, adopting native fluxes, and the reduced audit.

**Observer** (`tools/v04_mpi_observer.c`). The open-addressing table against a map from (step, site, kind, module) to
(calls, nanoseconds).

**Linear systems, axes and records** (`tools/gas_iccg.py`, `examples/cyl/grid.py`, `tools/input.py`). The generated
matrix and its assembly, the geometric tails, how near their bisection comes (`AxisTailBounds`), the coarsened axis,
and the list-directed tokenizer.

## What the proofs found

* An epoch that was reset because it came from older statistics keeps that reason through every step, checkpoint and
  decoding. In every run, each restart from its directory therefore drops its samples again, although they are new, and
  without recovery the next epoch has the same reason (`CheckpointRestarts.LegacyEpochDroppedAgain`). A restart drops
  what it decoded exactly if recovery is needed, is asked for, or the decoded reason is this one (`RestartDropsExactly`);
  `CheckpointWitness.NewSamplesLost` is a run that loses a new sample.
* A stop after a generation was published and before its marker is whole leaves a directory from which no restart is
  admitted; the earlier generation's marker does not help, because only the current generation is looked up
  (`CheckpointRestarts.RestartExactly`, `UnmarkedGenerationRefused`; `CheckpointWitness.UnmarkedRun` is such a run).
* A manifest written by the native writer is accepted by the Python reader exactly if its time is not negative, its
  previous pressure (versions 2 to 5) is positive, and its checksum is not zero, which the writer replaces by one
  (`ManifestFormat.NativeReadExactly`; `EarlyManifestRefused` is a manifest that is written and refused).
* `tokens` accepts a comma after the last value, although its documentation says that null values are rejected
  (`ListTokens.TrailingCommaAccepted`; `AcceptsExactly` describes every accepted record).
* A grounded system with a solid cell is singular exactly when the grid is an open line of three or more cells
  (`IccgSolid.CaseDefiniteExactly`, `GroundedSolidSingular`).
* Accepted evidence may contain a committed time that decreases (`EvidenceChain.TimesMayDecrease`). A row must end after
  its predecessor exactly if its own two times are not close by the validator's comparison (`EndsLaterExactly`,
  `TimesIncrease`, `TimesNeedNotIncrease`).
* The coarsened axis can fail its last order check, although every tail passed its own
  (`AxisCoarsen.NarrowAxisOutOfOrder`). It does so exactly if, on one side of the chosen split, a tail with the least
  ratio the search can reach is too long without its last cell (`AxisTailBounds.SideFitsExactly`, `FitsExactly`), and
  never if the edge cells of the protected interval are wider than the tolerance (`WideCellsFit`).

## Model

| member | source | states |
|---|---|---|
| Brackets.FindBracket | tools/v04_thin_domain_runner.cpp:722-744 | a bracket exists exactly for targets within the coordinates; its weights lie in [0,1] and interpolate the target; an exact hit has one plane |
| Brackets.LowerBound | tools/v04_thin_domain_runner.cpp:729-729 | the position splits the coordinates into those below the target and the rest |
| RunAccumulator.AddRow | tools/v04_thin_domain_runner.cpp:812-831 | one cell adds weight times the six moments to its own row and to no other; refused exactly for a non-finite velocity |
| RunAccumulator.Accumulator.AddStation | tools/v04_thin_domain_runner.cpp:801-833 | a station adds exactly its share of the rank's gain to every profile slot; refused exactly when a cell it must read is not finite |
| RunAccumulator.Accumulator.AddCenterline | tools/v04_thin_domain_runner.cpp:834-858 | the same for the centreline |
| RunAccumulator.Accumulator.AddSample | tools/v04_thin_domain_runner.cpp:783-861 | accepted exactly for a positive dt, matching sizes and finite cells; then every slot grew by the rank's gain and the sample count by one |
| SamplingKernel.ProfileGainPartition | tools/v04_thin_domain_runner.cpp:801-833 | over any tiling, the ranks' profile gains sum to the gain of the whole grid |
| SamplingKernel.CenterGainPartition | tools/v04_thin_domain_runner.cpp:834-858 | the same for the centreline |
| Moments.SampledRealizable | tools/v04_thin_domain_runner.cpp:801-858 | a sample keeps every moment matrix positive semidefinite |
| Moments.ReducedRealizable | tools/v04_thin_domain_runner.cpp:942-955 | so does the reduction over ranks |
| Moments.RowInequalities | tools/v04_thin_domain_runner.cpp:801-858 | a semidefinite row has non-negative variances and a covariance that obeys Cauchy–Schwarz |
| AccumulatorCodec.DecodeEncode | tools/v04_thin_domain_runner.cpp:957-1130 | decoding an encoded accumulator returns it exactly when its epoch and sample count are admissible |
| AccumulatorCodec.TornRefused | tools/v04_thin_domain_runner.cpp:988-1130 | a file cut off anywhere is refused under every binding |
| AccumulatorReader.DecodeAccumulator | tools/v04_thin_domain_runner.cpp:990-1130 | the in-place reader accepts and leaves exactly what the decoding function says |
| CheckpointMarker.ReadRestartBinding | tools/v04_thin_domain_runner.cpp:1209-1286 | the line loop computes the binding function, for any file of the directory as the named one |
| CheckpointMarker.WrittenMarker | tools/v04_thin_domain_runner.cpp:1209-1286 | a written marker admits its own identity with both named files present, and nothing else |
| CheckpointMarker.TornMarkerRefused | tools/v04_thin_domain_runner.cpp:1209-1286 | a marker cut off anywhere admits nothing |
| StatisticsEpochs.AcceptStep | tools/v04_thin_domain_runner.cpp:2730-2749 | a step changes the accumulator exactly if it is included, and fails exactly if an included step has a non-finite cell |
| StatisticsEpochs.ResetStatistics | tools/v04_thin_domain_runner.cpp:2207-2217 | a reset zeroes every slot and starts an epoch that remembers how many samples were dropped |
| StatisticsEpochs.CountBound | tools/v04_thin_domain_runner.cpp:1111-1116 | no history has more included steps than steps since the sampling start |
| StatisticsEpochs.BeforeWindow | tools/v04_thin_domain_runner.cpp:2730-2737 | a history that ends before the window has empty serial statistics |
| StatisticsEpochs.TransientsPrecedeWindow | tools/v04_thin_domain_runner.cpp:2694-2737 | startup and recovery steps precede the window, so inclusion is decided by window, retries and fallback alone |
| CheckpointProofs.ReducedSampled | tools/v04_thin_domain_runner.cpp:1288-1301 | reducing after every rank sampled is sampling the whole grid after reducing |
| CheckpointProofs.ReducedRestored | tools/v04_thin_domain_runner.cpp:2171-2196 | restored values on one rank and zeros on the others reduce to the restored accumulator, for any number of ranks |
| CheckpointProofs.RestartKeeps | tools/v04_thin_domain_runner.cpp:2160-2218 | an admitted restart into a new directory and partition keeps the invariant, with or without a reset |
| CheckpointProofs.NextKeeps | tools/v04_thin_domain_runner.cpp:1288-1376 | every transition keeps the invariant |
| CheckpointProofs.RunsKeep | tools/v04_thin_domain_runner.cpp:1288-1376 | every state of every run satisfies it |
| CheckpointProofs.RankSumIsSerial | tools/v04_thin_domain_runner.cpp:783-861 | in every run, under any partitions, the rank sum of every slot is the serial sum over exactly the included steps of the current epoch, and the count is their number |
| CheckpointProofs.ReachableMomentsRealizable | tools/v04_thin_domain_runner.cpp:801-858 | every reachable accumulator, local or reduced, has realizable variances: profile rows with both variances and the Cauchy–Schwarz bound, centreline rows with theirs |
| CheckpointProofs.WriterReaderClosure | tools/v04_thin_domain_runner.cpp:957-1130 | whatever a run can write at a checkpoint decodes to itself |
| CheckpointProofs.TransientsNeverSampled | tools/v04_thin_domain_runner.cpp:2694-2735 | in every run, startup and recovery steps lie before the window |
| CheckpointProofs.RestartPairs | tools/v04_thin_domain_runner.cpp:1209-1286 | an admitted restart, older directories included, continues with statistics of its image's own history or drops them |
| CheckpointRestarts.RestartExactly | tools/v04_thin_domain_runner.cpp:1209-1286 | from the moment a process runs in a directory, and at every later point of the run, the directory admits a restart exactly when the marker of its current generation is whole; then the accumulator is the serial one of the image's own history, under the epoch reason of that process |
| CheckpointRestarts.CurrentRestartExactly | tools/v04_thin_domain_runner.cpp:1209-1286 | the same, without the reason, for every directory of every run that is not an adopted older one |
| CheckpointRestarts.WholeMarkerAdmits | tools/v04_thin_domain_runner.cpp:1398-1406 | a whole marker of the current generation is enough |
| CheckpointRestarts.UnmarkedGenerationRefused | tools/v04_thin_domain_runner.cpp:1319-1376 | between publication and marker no restart is admitted |
| CheckpointRestarts.StaysWrittenUnder | tools/v04_thin_domain_runner.cpp:957-1130 | whatever happens in a run, the whole accumulator files of a directory, and the process in it, keep one epoch reason |
| CheckpointRestarts.ProcessWritesUnder | tools/v04_thin_domain_runner.cpp:2171-2218 | and that is the reason under which the process started |
| CheckpointRestarts.RestartDropsExactly | tools/v04_thin_domain_runner.cpp:2197-2218 | a restart begins with no samples and remembers the decoded count exactly if recovery is needed, asked for, or the decoded reason is older statistics; otherwise it carries the decoded accumulator over |
| CheckpointRestarts.LegacyEpochDroppedAgain | tools/v04_thin_domain_runner.cpp:2197-2218 | in every run, each restart from the directory of a process whose epoch came from older statistics drops everything that process sampled, and without recovery the new epoch has that reason again |
| CheckpointWitness.UnmarkedRun | tools/v04_thin_domain_runner.cpp:1319-1376 | a run of one step that ends published and unmarked, with no restart admitted |
| CheckpointWitness.NewSamplesLost | tools/v04_thin_domain_runner.cpp:2197-2218 | a run that adopts a directory of the first format, restarts, samples one step, writes a whole checkpoint, and restarts from it with no sample and one dropped |
| CheckpointWitness.CanPublish | tools/v04_thin_domain_runner.cpp:1288-1376 | a running process can always write a checkpoint of a step it has not written yet, up to the publication of a fresh generation |
| ThermoExtrema.BestGrows | tools/v04_thin_domain_runner.cpp:1503-1522 | one cell's comparison keeps the best pair of value and cell over the cells seen |
| ThermoExtrema.Scan.Patch | tools/v04_thin_domain_runner.cpp:1474-1526 | the scan of a rank finds, per region and quantity, the least value and among equals the least cell, and counts the region's cells |
| ThermoExtrema.ReducedIsBest | tools/v04_thin_domain_runner.cpp:1541-1553 | the collectives return that pair over the whole grid, whatever the partition |
| ThermoExtrema.BestUnique | tools/v04_thin_domain_runner.cpp:1541-1553 | there is only one such pair |
| ThermoExtrema.EmptyRegionExactly | tools/v04_thin_domain_runner.cpp:1550-1553 | the sentinels appear exactly for a region without cells |
| ThermoExtrema.RegionCountsGlobal | tools/v04_thin_domain_runner.cpp:1542-1543 | the summed counts are the region's cell counts on the grid |
| Fnv.ComputeChecksum | tools/v04_evidence_validate.py:1028-1032 | the loop computes the recurrence |
| Fnv.StepInjective | tools/v04_evidence_validate.py:1032-1032 | one step is injective in the 64-bit state |
| Fnv.StepByteInjective | tools/v04_evidence_validate.py:1032-1032 | and in the byte |
| Fnv.OneByteChanges | tools/v04_evidence_validate.py:1028-1032 | changing one byte always changes the checksum |
| Bytes.ValueOfLe | tools/v04_evidence_validate.py:972-975 | a number printed little-endian is read back |
| Bytes.LeOfValue | tools/v04_evidence_validate.py:972-975 | bytes read as a number are printed back |
| RestartManifest.ReadHeader | tools/v04_evidence_validate.py:969-1027 | the cursor walk computes the structure check and never reads past the data |
| RestartManifest.Load | tools/v04_evidence_validate.py:969-1043 | loading accepts exactly structure and integrity, for any field widths |
| RestartManifest.PrintedAdmitted | tools/v04_evidence_validate.py:969-1043 | for all six versions a printed manifest is accepted exactly if well formed, with the same fields |
| RestartManifest.RebuiltPrints | tools/v04_evidence_validate.py:969-1043 | accepted bytes are the print of the manifest read from them |
| RestartManifest.AdmittedExactly | tools/v04_evidence_validate.py:969-1043 | bytes are accepted exactly if some well-formed manifest prints to them |
| RestartManifest.OneByteAlteredRejected | tools/v04_evidence_validate.py:1028-1035 | altering exactly one byte of an accepted manifest always makes it rejected |
| RestartManifest.NativeManifestAdmittedExactly | versions/v0.4/src/io_restart.cpp:675-732 | which manifests of the native writer the reader accepts |
| ManifestFormat.LoadManifest | tools/v04_evidence_validate.py:969-1043 | loading in the program's layout computes the reading function |
| ManifestFormat.HeaderPlaces | tools/v04_evidence_validate.py:972-980 | the byte position and width of every header field |
| ManifestFormat.WrittenRead | tools/v04_evidence_validate.py:969-1043 | a printed manifest of any version is read with its own fields exactly if well formed, else refused |
| ManifestFormat.ReadExactly | tools/v04_evidence_validate.py:969-1043 | a file is read exactly if it is the print of a well-formed manifest, and with that manifest's fields |
| ManifestFormat.OneByteRefused | tools/v04_evidence_validate.py:1028-1035 | a read file with exactly one byte altered is refused |
| ManifestFormat.NativeReadExactly | versions/v0.4/src/io_restart.cpp:675-732 | what the native writer publishes is read exactly if its time is not negative, its previous pressure is positive and its checksum is not zero |
| ManifestFormat.EarlyManifestRefused | versions/v0.4/src/io_restart.cpp:675-732 | a one-cell manifest at time minus one is published and refused |
| EvidenceChain.ValidateRuntime | tools/v04_evidence_validate.py:2005-2196 | the row loop with its carried variables accepts exactly the files whose rows and neighbouring pairs all pass |
| EvidenceChain.OneUnbrokenRun | tools/v04_evidence_validate.py:2131-2158 | accepted modern rows have contiguous steps from the anchor, one identity, one anchor and one advective authority |
| EvidenceChain.OnlyFirstTransient | tools/v04_evidence_validate.py:913-937 | only the first row can be startup or recovery |
| EvidenceChain.ElapsedTime | tools/v04_evidence_validate.py:2141-2145 | last time minus start minus the sum of dt is within 2n tolerances of the largest value |
| EvidenceChain.RestartContinues | tools/v04_evidence_validate.py:2103-2125 | a restarted run continues the manifest's step, time and recovery obligation |
| EvidenceChain.AuthorityExactly | tools/v04_evidence_validate.py:2103-2129 | a manifest is given exactly for modern restart evidence |
| EvidenceChain.TimesMayDecrease | tools/v04_evidence_validate.py:2141-2145 | an accepted two-row file whose times decrease |
| EvidenceChain.EndsLaterExactly | tools/v04_evidence_validate.py:2141-2145 | every time a row can be linked to lies before the row's end exactly if the row's own two times are not close |
| EvidenceChain.TimesIncrease | tools/v04_evidence_validate.py:1342-1349 | in an accepted modern file the committed time increases into every row whose own two times are not close |
| EvidenceChain.TimesNeedNotIncrease | tools/v04_evidence_validate.py:2141-2145 | for every acceptable second row of a fresh run whose two times are close there is an accepted file that does not increase into it |
| EvidenceChain.V5Run | tools/v04_evidence_validate.py:2161-2191 | accepted V5 rows have contiguous steps, no decrease, and the bounded drift of the certified dt |
| GroupTables.AppendedGroups | tools/v04_repair_624cf_stl.py:79-84 | appending to a grouping table keeps its groups those of the items, keys in first-seen order |
| GroupTables.TableOfTwo | tools/v04_repair_624cf_stl.py:170-173 | with two items in every group there are twice as many items as keys |
| Duplicates.CollectIndices | tools/v04_repair_624cf_stl.py:79-82 | the dictionary groups the positions by key |
| Duplicates.PairsFromGroups | tools/v04_repair_624cf_stl.py:86-90 | the gathered groups hold exactly the repeated faces, and are pairs exactly if no face occurs three times |
| Duplicates.AllDifferent | tools/v04_repair_624cf_stl.py:174-175 | as many different keys as positions means exactly that none is repeated |
| BoundaryLoops.TraceFrom | tools/v04_repair_624cf_stl.py:104-117 | tracing ends, at its start, with a cycle of unvisited points that sets out to the first neighbour |
| BoundaryLoops.ReachesStart | tools/v04_repair_624cf_stl.py:111-116 | in a two-regular graph the first visited point reached is the start |
| BoundaryLoops.ClosesCycle | tools/v04_repair_624cf_stl.py:111-116 | the traced points are a cycle in which each is between its two neighbours |
| BoundaryLoops.TraceLoops | tools/v04_repair_624cf_stl.py:104-118 | the loops are disjoint cycles that hold every point, each starting at the first key not on an earlier one |
| SurfaceEdges.CollectEdges | tools/v04_repair_624cf_stl.py:166-169 | the table holds, per undirected edge, its owners and their directions |
| SurfaceEdges.OwnersCount | tools/v04_repair_624cf_stl.py:166-169 | the owners of an edge count its two directed sides |
| SurfaceEdges.PairedExactly | tools/v04_repair_624cf_stl.py:171-173 | the pairing check passes exactly if every directed side occurs once and its reverse once |
| SurfaceEdges.ThreeHalves | tools/v04_repair_624cf_stl.py:170-173 | on a paired surface three times the triangles are twice the edges |
| SurfaceVolume.TotalVolume | tools/v04_repair_624cf_stl.py:209-210 | the sum computes the volume from the coordinate origin |
| SurfaceVolume.BalancedCancels | tools/v04_repair_624cf_stl.py:171-173 | a quantity that changes sign with direction sums to zero over balanced sides |
| SurfaceVolume.VolumeMoves | tools/v04_repair_624cf_stl.py:55-57 | moving the origin changes the volume by the origin times the total area vector |
| SurfaceVolume.OriginFreeExactly | tools/v04_repair_624cf_stl.py:55-57 | the volume is the same from every origin exactly if the area vector is zero |
| SurfaceVolume.ClosedVolume | tools/v04_repair_624cf_stl.py:209-210 | which a surface with paired sides satisfies |
| SurfaceVolume.OppositeVolumes | tools/v04_repair_624cf_stl.py:127-129 | two faces of opposite winding contribute exactly zero from every origin |
| SurfaceInspection.NeighbourCount | tools/v04_repair_624cf_stl.py:92-97 | how often one boundary point lists another |
| SurfaceInspection.BoundaryTwoRegular | tools/v04_repair_624cf_stl.py:100-102 | two entries a point make the boundary graph two-regular |
| SurfaceInspection.InspectFaces | tools/v04_repair_624cf_stl.py:79-90 | the face check passes exactly if duplicates come in pairs and are the audited faces |
| SurfaceInspection.CollectBoundary | tools/v04_repair_624cf_stl.py:92-99 | passes exactly if every edge has one, two or four owners; then the neighbours are those of single-owner edges |
| SurfaceInspection.Inspect | tools/v04_repair_624cf_stl.py:78-120 | the inspection passes exactly if faces, incidences, boundary graph and loops do, and returns those loops |
| SurfaceRepair.RemoveDuplicates | tools/v04_repair_624cf_stl.py:123-134 | removal succeeds exactly if every pair has opposite winding and is attached; it leaves the volume unchanged from every origin |
| SurfaceRepair.JoinSeams | tools/v04_repair_624cf_stl.py:136-147 | joining succeeds exactly if every seam is short and no point is in two of them; both ends then map to the middle |
| SurfaceRepair.MovementBounded | tools/v04_repair_624cf_stl.py:141-146 | no vertex moves more than half the permitted gap |
| SurfaceRepair.MoveTriangles | tools/v04_repair_624cf_stl.py:149-164 | succeeds exactly if no retained triangle degenerates or turns over; gives the moved triangles in order and exactly the changed indices |
| SurfaceRepair.Closes | tools/v04_repair_624cf_stl.py:165-175 | the final checks pass exactly for a closed surface without repeated faces of the audited size |
| SurfaceRepair.Repair | tools/v04_repair_624cf_stl.py:122-176 | the repair succeeds exactly under those conditions, keeps the removed volume at zero, and its result has one volume for every origin |
| SurfaceRepair.EdgeCountFollows | tools/v04_repair_624cf_stl.py:165-173 | the audited edge count follows from the triangle count and the pairing |
| SprayFrames.Records | tools/v04_spray_inventory.py:24-35 | the offset loop accepts exactly the framings of at least fourteen payloads and returns the payloads |
| SprayFrames.ParseExactly | tools/v04_spray_inventory.py:24-35 | framing and parsing are inverse both ways |
| SprayFrames.FramingInjective | tools/v04_spray_inventory.py:24-35 | different payload lists have different framings |
| SpraySlots.PartitionCovers | tools/v04_spray_inventory.py:62-69 | as many distinct slots in range as there are slots cover them all, so the coverage check cannot fail |
| SpraySlots.MarkSlots | tools/v04_spray_inventory.py:63-68 | the marking loop accepts exactly lists that extend a partial partition |
| SpraySlots.CheckPartition | tools/v04_spray_inventory.py:62-69 | retired and retained slots are accepted exactly if they partition all slots |
| SprayLayout.LayoutExactly | tools/v04_spray_inventory.py:42-58 | records are read exactly if they have the announced number and lengths, and then every counter and table entry is the word or number at its place |
| SprayInventory.Inventory.Append | tools/v04_spray_inventory.py:77-92 | accepts exactly admissible parcels and keeps counters and list those of the visits so far |
| SprayInventory.BooksBalance | tools/v04_spray_inventory.py:77-92 | the counters add up for every visit list |
| SprayInventory.ParcelsExactly | tools/v04_spray_inventory.py:77-92 | the list holds exactly the parcels of positive visits |
| SprayDecode.OneCell | tools/v04_spray_inventory.py:94-99 | no table entry belongs to two cells |
| SprayDecode.VisitRetained | tools/v04_spray_inventory.py:94-103 | the double loop visits every retained entry once, in order, and fails exactly if an entry is wrong |
| SprayDecode.VisitDaughters | tools/v04_spray_inventory.py:104-109 | the daughter loop likewise |
| SprayDecode.Decode | tools/v04_spray_inventory.py:38-113 | bytes decode exactly if they frame acceptable records, and the inventory is that of all visits |
| SprayDecode.CountersAddUp | tools/v04_spray_inventory.py:71-92 | positive plus zero is indexed, positive is interior plus halo plus dummy, children add up, and the list has every positive parcel |
| SprayDecode.SlotsVisitedOnce | tools/v04_spray_inventory.py:62-103 | a slot is visited exactly if not retired, and then once |
| SprayDecode.SlotHasParcel | tools/v04_spray_inventory.py:62-103 | a slot yields a parcel exactly if it is not retired and holds positive inventory |
| GridOffsets.CellAtOffset | tools/v04_mesh_restart_import.cpp:84-90 | the storage offset determines the cell |
| GridOffsets.OffsetCellAt | tools/v04_mesh_restart_import.cpp:84-90 | and every offset belongs to a cell |
| GridSums.RanksSum | tools/v04_mesh_restart_import.cpp:936-980 | over any tiling, rank sums add up to the grid sum |
| MeshBlocks.BlockInside | tools/v04_mesh_restart_import.cpp:382-392 | a rank's source block is a box of the grid |
| MeshBlocks.FaceCellsInBlock | tools/v04_mesh_restart_import.cpp:382-392 | both cells of every face of a rank lie inside its block |
| MeshBlocks.FillBox | tools/v04_mesh_restart_import.cpp:662-687 | the triple loop stores every cell's value at its offset |
| MeshFlux.ReadSource | tools/v04_mesh_restart_import.cpp:382-420 | the block is read exactly if the file has the grid's size and marks its own cells solid or fluid; it then holds the file's values of its own cells |
| MeshFlux.FluxIsGlobal | tools/v04_mesh_restart_import.cpp:510-568 | the flux computed from a block is that of the whole field |
| MeshFlux.SharedFacesAgree | tools/v04_mesh_restart_import.cpp:510-568 | ranks that share a face compute the same flux |
| MeshFlux.SolidFacesClosed | tools/v04_mesh_restart_import.cpp:510-568 | no flux passes a face of a solid cell |
| MeshFlux.FillFlux | tools/v04_mesh_restart_import.cpp:662-687 | the image stores the global flux of every face of the rank |
| MeshFlux.ImportedMassBalance | tools/v04_mesh_restart_import.cpp:662-687 | the divergence of the imported fluxes sums over all ranks to the flux through the outer boundary |
| MeshFaces.FacesTiled | tools/v04_mesh_restart_import.cpp:768-781 | every global face is owned by exactly one rank |
| MeshFaces.DivergenceIsBoundaryFlux | tools/v04_mesh_restart_import.cpp:662-687 | the discrete divergence telescopes |
| MeshAudit.AdoptFlux | tools/v04_mesh_restart_import.cpp:754-812 | the native fluxes are adopted exactly if their place and number are the image's and every one is finite; then they replace the image and the audit grows by the owned faces' findings |
| MeshAudit.RankAudit | tools/v04_mesh_restart_import.cpp:768-808 | a rank's findings are those of the faces it owns |
| MeshAudit.AuditIsGlobal | tools/v04_mesh_restart_import.cpp:936-980 | the reduced counts and sums are those of the global faces, each once |
| MpiObserver.EmptyMeansAbsent | tools/v04_mpi_observer.c:46-52 | an empty slot on a key's path means the key is not in the table |
| MpiObserver.FullMeansAbsent | tools/v04_mpi_observer.c:46-61 | a full probe without the key means all slots hold other keys |
| MpiObserver.FullExactly | tools/v04_mpi_observer.c:46-61 | the table has as many keys as slots exactly if every slot is used |
| MpiObserver.Inserted | tools/v04_mpi_observer.c:48-52 | writing the first empty slot adds the key and leaves no gap |
| MpiObserver.Observer.Search | tools/v04_mpi_observer.c:46-60 | the probe stops at the first slot that is empty or holds the key |
| MpiObserver.Observer.Count | tools/v04_mpi_observer.c:44-61 | the slots implement the map: add, count up, or drop only when full of other keys |
| MpiObserver.Observer.Record | tools/v04_mpi_observer.c:38-61 | an unresolvable call is dropped; calls in the table plus dropped ones are the finished ones |
| MpiObserver.Observer.BeginCall | tools/v04_mpi_observer.c:65-69 | a call is tracked exactly if it is the outermost observed one |
| MpiObserver.Observer.EndCall | tools/v04_mpi_observer.c:70-73 | only tracked calls are recorded, once |
| MpiObserver.Observer.ObserveStep | tools/v04_mpi_observer.c:32-38 | a step is observed exactly between its begin and end when enabled |
| IccgSystem.GridWired | tools/gas_iccg.py:28-39 | on every shape and periodicity the up and down neighbours are inverse, lengths one and two included |
| IccgMatrix.MatrixSymmetric | tools/gas_iccg.py:38-43 | the unscaled matrix is symmetric |
| IccgMatrix.FormIsEnergy | tools/gas_iccg.py:38-49 | its form is the sum over edges of weighted squared differences plus the surplus squares |
| IccgMatrix.DefiniteExactly | tools/gas_iccg.py:38-49 | it is definite exactly if no set of cells floats without surplus |
| IccgMatrix.SolutionUnique | tools/gas_iccg.py:44-52 | a definite system has one solution |
| IccgSystem.UngroundedDefinite | tools/gas_iccg.py:46-49 | ungrounded systems are positive definite |
| IccgSystem.GroundedDefinite | tools/gas_iccg.py:46-49 | grounded ones without a solid cell are, because the grid is connected |
| IccgSolid.CaseDefiniteExactly | tools/gas_iccg.py:40-49 | every case is definite exactly unless it is grounded and its solid cell cuts an open line of three or more cells |
| IccgSolid.GoesRound | tools/gas_iccg.py:40-49 | with a second axis the cells around the solid one stay connected to the first |
| IccgSolid.GroundedSolidSingular | tools/gas_iccg.py:40-49 | a concrete singular case, for every draw of weights |
| IccgAssembly.FillEdge | tools/gas_iccg.py:31-43 | one edge writes its two slots, both unwritten before |
| IccgAssembly.Fill | tools/gas_iccg.py:26-43 | after the loops every slot holds the wiring's neighbour and weight |
| IccgAssembly.MakeRow | tools/gas_iccg.py:45-52 | a row is the matrix row and right-hand side divided by the cell volume |
| IccgAssembly.Generate | tools/gas_iccg.py:19-52 | the generated rows are those of the case's wiring and exact values |
| IccgAssembly.ExactSolves | tools/gas_iccg.py:44-52 | the exact values solve the generated system, alone if it is definite |
| AxisTail.Bracket | examples/cyl/grid.py:24-27 | doubling ends with a ratio whose tail is long enough, the half of it too short |
| AxisTail.Bisect | examples/cyl/grid.py:28-33 | eighty halvings keep the length between both ends and shrink the bracket by two to the eightieth |
| AxisTail.FindTail | examples/cyl/grid.py:24-37 | a tail is returned exactly if the bracket's middle meets the length within the tolerance, and is geometric with that ratio |
| AxisTail.ExactRatioNear | examples/cyl/grid.py:28-34 | the exact ratio lies within the bracket of the returned one |
| AxisTailBounds.LeastRatio | examples/cyl/grid.py:24-34 | if equal cells are long enough already, the search ends on the ratio 1 + 2^-81 |
| AxisTailBounds.LongStretchMeets | examples/cyl/grid.py:24-36 | if equal cells fall short and the length times twice the count is at most the tolerance times 2^79 - 1, the tail always passes its check |
| AxisTailBounds.ShortStretchMeetsExactly | examples/cyl/grid.py:24-36 | otherwise it passes exactly if a tail of the ratio 1 + 2^-81 is not too long |
| AxisTailBounds.SideFitsExactly | examples/cyl/grid.py:24-34 | the returned tail without its last cell is shorter than the stretch exactly if a tail of the ratio 1 + 2^-81 is, on up to 2^40 cells |
| AxisCoarsen.BestSplit | examples/cyl/grid.py:45-50 | there is a best split exactly if both tails of every split meet their lengths; it is the first of least growth |
| AxisCoarsen.BisectRight | examples/cyl/grid.py:41-41 | the halving search, on any axis, stops between a node not above the value and one above it |
| AxisCoarsen.OrderedExactly | examples/cyl/grid.py:51-62 | the nodes increase exactly if each tail without its last cell stays inside its stretch |
| AxisCoarsen.WideCellsFit | examples/cyl/grid.py:51-62 | which edge cells wider than the tolerance guarantee |
| AxisCoarsen.FitsExactly | examples/cyl/grid.py:51-65 | which holds exactly if both sides of the split fit by the data given beforehand |
| AxisCoarsen.NarrowAxisOutOfOrder | examples/cyl/grid.py:51-65 | a four-node axis whose only split meets both lengths and does not fit |
| AxisCoarsen.Coarsen | examples/cyl/grid.py:40-66 | on any axis: a coarsened one has count cells, increases, keeps both ends and the protected nodes; it is refused exactly for an unusable interval, protected nodes out of order, a split that misses a length, or a chosen split that does not fit |
| AxisCoarsen.ProtectsExactly | examples/cyl/grid.py:41-46 | a usable pair of nodes always encloses the interval, and on a sorted axis it is the only pair that does |
| ListTokens.Tokens | tools/input.py:22-52 | the cursor loop computes the scanner and always ends |
| ListTokens.PrintedRead | tools/input.py:22-52 | any list of strings printed bare or quoted, separated by blanks or single commas, with an optional comment, is read back exactly |
| ListTokens.AcceptsExactly | tools/input.py:22-52 | a record yields a list exactly if it is such a print of it |
| ListTokens.LeadingCommaRejected | tools/input.py:32-34 | a comma before the first value is rejected |
| ListTokens.DoubleCommaRejected | tools/input.py:32-34 | so are two commas without a value between them |
| ListTokens.TrailingCommaAccepted | tools/input.py:32-34 | a comma after the last value is not |
| ListTokens.ConvertExactly | tools/input.py:87-89 | values convert exactly if there are enough and each converts |
| ListTokens.Records.Read | tools/input.py:83-94 | reading uses up one line; it answers exactly if the line has enough values that convert, alone or as a list, and appends one field with name, number, text, values, units and remaining tokens |
| ListTokens.Records.Skip | tools/input.py:80-82 | skipping moves by n exactly if n lines are left |

## Left out

- The solver, its physics, the native restart reader and `ProductDriver`: a run is an arbitrary stream of accepted
  steps, and publication of a generation is one step with a fresh name and a digest.
- MPI transport, threads, clocks, `dladdr`, the file system, JSON, CSV and command lines: collectives are functions of
  all ranks' values, elapsed times arbitrary numbers, and of files only exclusive creation and torn writes are kept.
- Floating-point rounding: moments, volumes, fluxes, coordinates and times are real numbers. The manifest's binary64
  fields are bit patterns; a 17-digit number in a text file is one token; reading a spray record's binary32 word is a
  parameter.
- SHA-256 is uninterpreted.
- RunAccumulator.Accumulator.AddSample: after a refused sample the contract does not say which slots had already grown;
  the driver stops the run in that case.
- ThermoExtrema.Scan.Patch: without the minimum and maximum over all regions, which use the same comparisons, and without
  the check of the activity array's size.
- `collect_probes` and the timing and memory reports of the runner.
- MeshFlux.FillFlux: the density of a cell is given; thermodynamic reconstruction and the cell fields of the image are
  not part of this model.
- MeshFlux.ReadSource: a file that cannot be opened or read to its end is one of the wrong size.
- MeshAudit.AdoptFlux: without the mass and energy sums of the local audit.
- MpiObserver.Observer.Record: call and drop counters do not wrap (nanoseconds do); the report written at finalization
  is not part of this model.
- EvidenceChain.ValidateRuntime: the field checks inside a single row that no other row depends on are one flag.
- CheckpointRestarts.CurrentRestartExactly: says nothing about an adopted directory of an older format, whose content is
  arbitrary; what a restart from it continues with is stated by `CheckpointProofs.RestartPairs`.
- CheckpointMarker.ReadRestartBinding: a file name is a step-numbered statistics or accumulator name or any other name.
- SurfaceRepair.Repair: takes the inspection's duplicates and loops as given, each checked before; the fixed hashes of
  the audited surface and the reading and writing of STL files are not part of this model.
- IccgAssembly.Generate: the random draws and the volumes are parameters, any positive numbers.
- AxisCoarsen.Coarsen: an interval for which the source fails by an index error, an empty minimum or its length
  assertion is one outcome, and so is every way to fail on protected nodes that do not increase; the exact condition of
  the order check is stated for up to 2^40 cells; `read_axes` is not part of this model.
- The scalar converters, comment recognition and `path` of `tools/input.py`: each is settled by its own branch.
- Self-tests, policies, receipts and the comparison scripts.
