# Model of mwalib

mwalib gives one view of the raw files of the Murchison Widefield Array telescope: visibilities written by
several generations of correlator, and voltages written by two generations of capture system. Underneath the
file access sits index arithmetic: which stored number belongs to which pair of antennas, which file and HDU
hold a time and channel, which bytes of which files are the seconds somebody asks for. This project models
that arithmetic and the loops around it, and proves what they compute.

`dafny verify dfyconfig.toml` checks everything.

## How it is organised

| module | models | what it establishes |
|---|---|---|
| `RfInput` | `src/rfinput`, `fine_pfb_reorder` | the two input reorderings are inverse permutations of the four bit pairs of an input number |
| `Misc`, `Baselines` | `src/misc`, `src/baseline` | four numberings of the triangle of antenna pairs are one bijection; the two clock conversions |
| `Binary32`, `RootFormula` | `get_antennas_from_baseline` | rounding to the nearest `f32`, and up to how many antennas a rounded square root finds the pair of an index |
| `Antennas` | `src/antenna` | sorted and joined inputs are aligned with the rows of the correlation matrix |
| `FullMatrix`, `ConversionTable` | `generate_full_matrix`, `generate_conversion_array` | what every matrix cell and table entry refers to, as a closed form |
| `Layout`, `HduConversion` | the three conversion loops of `src/convert` | which float goes where; the loops commute; nothing is lost |
| `LegacyVisibilities` | all of `src/convert` together | the output is the correlation matrix, conjugated |
| `Grid`, `TimeSteps` | `src/timestep` | the timeline that is built around the data |
| `CommonRuns`, `GpuboxFiles`, `VoltageFiles` | `src/gpubox_files`, `src/voltage_files` | time maps, batches, and the common run |
| `CoarseChannels` | `src/coarse_channel` | channel numbering and lookup |
| `Rectangles` | the advertised common times and channels | the window of times that a rectangle covers on the timeline |
| `CorrelatorContext` | `src/correlator_context` | when every cell of the common rectangle is readable |
| `VoltageContext` | the read functions of `src/voltage_context` | what reads by file and by second do, for any context |
| `VoltageStreams` | the same | both reads are slices of one stream, when they succeed, and how they fit together |
| `VoltageBytes` | the same | which byte of which file each byte of the buffer is |
| `VoltageObservation` | the rest of `src/voltage_context` | when every cell of the common rectangle has a file; every common second is readable |
| `Collections`, `Wrappers` | `sort_by_key`, ordered maps, `Option`, `Result` | permutations, sorting, ascending sequences |

Loops of the source are methods with loops here, writing arrays where the source writes buffers; iterator
pipelines are functions. Errors are values: `Outcome` is `Ok`, `Err`, or `Panic`. `Panic` stands for every
way the program stops in a build with overflow checks: an index out of range, `unwrap` of nothing, a failed
`assert`, an unsigned subtraction below zero, a `u8` count above 255.

The conversion code is for 256 inputs and 128 tiles, as the source hard-codes them. An `F32` is a sign bit and
the other bits, because changing the sign is all that happens to a float. A Hermitian matrix is so off its
diagonal only, which admits any stored autocorrelations.

## Where the code falls short of what it promises

Each of these is a lemma with the exact condition, or with an input that shows the failure.

- `CoarseChannels.CorrNumbersDistinct`: legacy correlator channel numbers are distinct exactly when the
  channels over 128, from the first such, lie symmetrically; `CorrNumbersCollide` gives a list without that.
- `CorrelatorContext.DuplicateFilesMixUp`: with two files of one batch and channel, the lookup can return one
  file with an HDU index of the other.
- `CorrelatorContext.RectangleIsReadable`: the common rectangle is readable exactly when every time in its window,
  data or filled in, has files of all channels; `CommonTimestepsFillDuration` says when its timesteps add up to its
  duration. Data off the integration grid can break both: `OffGridCellIsUnreadable` is such an observation.
- `TimeSteps.PopulateSuperset`: the backward walk subtracts once too often. It underflows exactly when it has to go
  back at all and the schedule starts no later than the least point of the walk's grid that is not negative.
- `VoltageFiles.GoodBatchesAre`: the gap check accepts exactly progressions, but of the times other than GPS time 0,
  which also means "no time before"; `ZeroTimeHidesGap` is a gap that passes.
- `VoltageObservation.ViewIsValid`: timesteps are one file length apart exactly when no gap that is out of step passed;
  `HiddenGapIsUnreadable` has a cell of an advertised rectangle that nothing can be read for.
- `VoltageStreams.EndOfObservationPanics`: the range check admits the second at which the observation ends,
  and the read then indexes past the last timestep.
- `Misc.UnixRoundTrip`: UNIX time 0 means "no time", and does not survive a round trip.
- `RootFormula.RightUpTo4096`: single precision finds every pair exactly up to 4096 antennas.
  `TooManyAntennas` names an index that comes out wrong for any number above that.
- `RootFormula.AntennasFromBaseline`: out of range the documentation promises None; the code gives None one past the
  last baseline only, and underflows after that.

## Model

| member | source | states |
|---|---|---|
| RfInput.PfbAndVcsAreInverse | src/rfinput/mod.rs:28-30 | the VCS order of an input undoes the fine PFB's reordering, and the other way round, for all 256 inputs |
| RfInput.FinePfbReorderBits | src/convert/mod.rs:33-35 | for every byte, the source's mask-and-shift expression is the digit permutation used by the model |
| RfInput.VcsOrderBits | src/rfinput/mod.rs:28-30 | the same for the VCS order |
| Misc.TriangleClosed | src/misc/mod.rs:55-57 | the closed formula for the number of baselines counts the pairs of a triangle built row by row |
| Misc.BaselineIndexUnique | src/misc/mod.rs:114-131 | two pairs of the triangle with one index are one pair |
| Misc.BaselineIndexOnto | src/misc/mod.rs:114-131 | every index below the baseline count is the index of a pair with ant1 <= ant2 < N |
| Misc.GetBaselineFromAntennas | src/misc/mod.rs:114-131 | the counting walk finds the triangular index of a pair, and nothing exactly when the pair is not in the upper triangle |
| Misc.ClocksAreShifted | src/misc/mod.rs:204-250 | the scheduled starts on the two clocks are converted into each other, differences are kept, a time converts unless it would come out before 0, and UNIX time 0 gives GPS time 0 |
| RootFormula.AntennasFromBaseline | src/misc/mod.rs:84-97 | for up to 4096 antennas and every rounding to nearest `f32`, the square-root formula yields a pair exactly when that pair has the index; None exactly at the baseline count; underflow exactly beyond |
| RootFormula.TooManyAntennas | src/misc/mod.rs:84-97 | for 4097 to 2^23 antennas N, the index of the pair (N-4097, N-1) yields (N-4096, N-4097), which is another pair and not one of the triangle |
| RootFormula.RightUpTo4096 | src/misc/mod.rs:84-97 | the formula finds the pair of every index if and only if there are at most 4096 antennas |
| Misc.GpsRoundTrip | src/misc/mod.rs:204-250 | GPS to UNIX and back is the identity whenever the first step succeeds |
| Misc.UnixRoundTrip | src/misc/mod.rs:204-250 | whenever UNIX to GPS succeeds, going back is the identity if and only if the time is not 0, or the clocks agree |
| Baselines.PopulateBaselines | src/baseline/mod.rs:34-55 | the array written in place holds each pair of the triangle at its triangular index, and nothing else |
| Baselines.NumberingsAgree | src/baseline/mod.rs:34-55 | list, counting walk and square-root formula agree on every index, and the pair is the only one with it, for the antennas the formula is right for |
| Antennas.PopulateAntennas | src/antenna/mod.rs:83-103 | the nested loops compute the joined list that JoinedAre and AntennasAligned describe |
| Antennas.JoinedAre | src/antenna/mod.rs:60-103 | for any inputs, the antennas are those of all X/Y pairs of one tile id, each pair once, in order of the X input and then of the Y input; each carries its inputs, their tile id and the X input's antenna number |
| Antennas.SortedRows | src/metafits_context/mod.rs:634-634 | after sorting any tile rows with antenna numbers 0..n-1 and both polarisations, the row at place k has subfile order k |
| Antennas.AntennasAligned | src/antenna/mod.rs:60-103 | sorting and joining gives n antennas, the i-th with number i, the tile id of both its inputs, and its X and Y inputs at subfile orders 2i and 2i+1 |
| FullMatrix.SlotUnique | src/convert/mod.rs:169-194 | a running source index belongs to one pair of PFB positions only |
| FullMatrix.SlotOnto | src/convert/mod.rs:169-194 | every source index of a fine channel belongs to a pair of positions, or to the skipped corner of a diagonal square |
| FullMatrix.SentinelIsFree | src/convert/mod.rs:163-210 | source index 1 is never stored and index 0 only on the diagonal, so neither the mark for empty nor the sign of zero is ambiguous |
| FullMatrix.GenerateFullMatrix | src/convert/mod.rs:157-213 | for every permutation, after scattering and mirroring, each of the 65536 cells holds the signed closed-form slot of its two inputs' PFB positions |
| FullMatrix.ScatterSquares | src/convert/mod.rs:169-194 | the scatter loop fills exactly the cells of stored pairs, each with the running source index, and leaves the rest marked empty |
| FullMatrix.FillConjugates | src/convert/mod.rs:196-210 | the in-place mirror loop completes the matrix, also when it reads cells it has already filled |
| FullMatrix.FullMatrixSigns | src/convert/mod.rs:196-210 | no cell is left empty; off the diagonal opposite cells are non-zero negatives of each other; the diagonal is not negative |
| FullMatrix.FullMatrixSources | src/convert/mod.rs:169-210 | two cells have the same source if and only if they are for the same unordered pair of inputs |
| FullMatrix.OnlyPermutationsHaveMatrix | src/convert/mod.rs:157-213 | no matrix can meet that specification if two positions have the same input |
| ConversionTable.SubfileOrdersPermutation | src/convert/mod.rs:236-244 | listing distinct subfile orders by input number keeps them a permutation |
| ConversionTable.SubfileOrderOfInput | src/convert/mod.rs:236-244 | when input numbers are 0, 1, 2, ... the list gives, for every input, the subfile order of that input |
| ConversionTable.GenerateConversionArray | src/convert/mod.rs:228-283 | the table has one entry per baseline, at its triangular index, holding the doubled slots and signs of the four products of its tiles |
| ConversionTable.EntryReads | src/convert/mod.rs:69-83 | the entry for tiles t1 and t2 reads product (p1, p2) from the slot of inputs 2*t1+p1 and 2*t2+p2, and conjugates exactly when the stored pair is the swapped one |
| LegacyVisibilities.TableFollowsBaselines | src/convert/mod.rs:258-274 | row b of the table is for the pair that the list of baselines has at b |
| LegacyVisibilities.TableIsInBounds | src/convert/mod.rs:321-391 | every index of a generated table, and the one after it, is inside a fine channel, so the unchecked accesses are in bounds |
| LegacyVisibilities.RedundantNeverUsed | src/convert/mod.rs:184-187 | no entry reads the redundant corner of a diagonal square |
| LegacyVisibilities.SharedSource | src/convert/mod.rs:228-283 | two uses share a source if and only if they are the XY and YX of one tile, and then with opposite conjugation |
| LegacyVisibilities.EverySlotUsed | src/convert/mod.rs:228-283 | every slot of a fine channel is redundant or is read by some entry |
| LegacyVisibilities.UseMeaning | src/convert/mod.rs:321-391 | the number picked up for a use, with the final sign flip, is the conjugate of the correlation of its two inputs |
| LegacyVisibilities.ConversionMeaning | src/convert/mod.rs:304-394 | end to end, for every permutation, table, Hermitian matrix, fine channel and pair of tiles: the output slot holds conj(C(2*t1+p1, 2*t2+p2)), in baseline order and in frequency order |
| LegacyVisibilities.PositionIsVcsOrder | src/rfinput/mod.rs:28-30 | the matrix position of an input is its `vcs_order` column |
| LegacyVisibilities.TileRowsAreInputs | src/metafits_context/mod.rs:624-634 | any 128 metafits tiles with distinct input numbers, sorted as the context sorts them, are inputs that the table can be generated from |
| LegacyVisibilities.PackedByVcsOrder | src/convert/mod.rs:157-194 | the layout that the matrix assumes is, in terms of the metafits, the triangle of inputs in `vcs_order`: one holds if and only if the other does |
| LegacyVisibilities.LegacyHduIsConverted | src/convert/mod.rs:157-394 | the whole path from the metafits: for inputs as the context sorts them, the table generated from them and an HDU packed by `vcs_order`, either conversion puts the correlation of the inputs with subfile orders 2*t1+p1 and 2*t2+p2 at the written-out place of their baseline, fine channel and product, with the sign of the imaginary part changed |
| HduConversion.ConvertLegacyHduToMwaxBaselineOrder | src/convert/mod.rs:304-394 | for every table that fits, each baseline and fine channel's 8 floats are the ones its entry selects, with its signs, at [baseline][channel]; floats past the data keep their values |
| HduConversion.ConvertLegacyHduToMwaxFrequencyOrder | src/convert/mod.rs:415-498 | the same at [channel][baseline] |
| HduConversion.ConvertMwaxHduToFrequencyOrder | src/convert/mod.rs:518-556 | the output is the transposition of baselines and channels of the input, in chunks of all polarisations; floats past the data keep their values |
| HduConversion.LegacyOrdersTransposed | src/convert/mod.rs:304-498 | the two legacy conversions are transpositions of each other |
| HduConversion.ConversionsCommute | src/convert/mod.rs:304-556 | legacy to baseline order and then re-ordering equals legacy to frequency order directly, for every table and number of channels |
| Layout.OffsetsApart | src/convert/mod.rs:534-555 | different (baseline, channel) cells never overlap in the buffer |
| Layout.OffsetOnto | src/convert/mod.rs:534-555 | and together they cover it |
| Layout.TransposeTwice | src/convert/mod.rs:518-556 | re-ordering again with the roles swapped restores the input |
| Layout.TransposeUnique | src/convert/mod.rs:518-556 | the re-ordered buffer is determined in every float |
| Layout.TransposeKeepsElements | src/convert/mod.rs:518-556 | re-ordering keeps the multiset of floats |
| TimeSteps.ExtendBackwards | src/timestep/mod.rs:201-215 | adds exactly the grid points from the schedule's start to before the first data time; panics exactly when the walk underflows (the schedule starts before the data, and no later than the least grid point that is not negative), or a time it adds has no GPS time |
| TimeSteps.PopulateSuperset | src/timestep/mod.rs:186-268 | the timeline is ascending, without duplicates, has exactly the data times and the stated grid points, and every time has its GPS time; panics exactly for no data, no schedule, a step of 0, an underflowing walk, or an added time without a GPS time |
| TimeSteps.TimelineOnGrid | src/timestep/mod.rs:186-268 | for data on one grid, the timeline is the unbroken progression from the first grid point the schedule or data need to the last |
| TimeSteps.GridMembers | src/timestep/mod.rs:186-268 | and its times are exactly the grid points between those two |
| TimeSteps.PopulateCorrelatorTimesteps | src/timestep/mod.rs:69-101 | the timeline is built over exactly the times of the time map; None exactly when there are none; panics when a data time has no GPS time, and otherwise exactly when the timeline cannot be built |
| TimeSteps.PopulateVoltageTimesteps | src/timestep/mod.rs:123-155 | the same over the GPS seconds of the voltage files; panics when the UNIX reference is earlier than the GPS one, and otherwise exactly when the timeline cannot be built |
| TimeSteps.PopulateTimesteps | src/timestep/mod.rs:290-324 | as many intervals as cover the duration and no more, with both clocks consistent; panics exactly for an interval of 0, or a duration and a UNIX reference earlier than the GPS one |
| TimeSteps.TimestepIndices | src/timestep/mod.rs:340-358 | on an ascending timeline the result is, in order, exactly the indices of the timesteps in [start, end) |
| TimeSteps.TimestepsFound | src/gpubox_files/mod.rs:644-664 | on an ascending timeline, the timesteps that were provided are, in order, exactly those with one of the times of the files |
| CommonRuns.FullHasEveryChannel | src/gpubox_files/mod.rs:755-772 | at a time of the map, as many channels as were ever seen means all the channels ever seen |
| CommonRuns.RunLengthIsLongestPrefix | src/gpubox_files/mod.rs:785-802 | the run length is n if and only if the first n full times are the longest prefix with gaps of exactly one integration |
| CommonRuns.CommonRunExists | src/gpubox_files/mod.rs:742-782 | there is a run if and only if some late enough time holds every channel |
| CommonRuns.CommonRunMeaning | src/gpubox_files/mod.rs:742-821 | a run starts at the first full time, covers the longest unbroken prefix, ends one integration after its last time, and lists all channels |
| CommonRuns.GoodRunIsSuffix | src/gpubox_files/mod.rs:748-813 | the good run starts at the first complete time that is not before the good time, with the common run's channels; both end together if and only if it starts inside the common run, and it is then the suffix after the times before the good time |
| GpuboxFiles.MergeFile | src/gpubox_files/mod.rs:615-626 | merging a file's HDU map adds its times under its channel and never replaces an entry |
| GpuboxFiles.CreateTimeMap | src/gpubox_files/mod.rs:580-629 | each cell of the map is what the first file with that channel and time says; fails exactly when some file does, with the error of the first |
| GpuboxFiles.TimeMapTimes | src/gpubox_files/mod.rs:615-626 | the times of the map are exactly the times of the files |
| GpuboxFiles.ConvertTempGpuboxes | src/gpubox_files/mod.rs:164-192 | the loops compute such a list of batches as BatchesPartition characterises |
| GpuboxFiles.BatchesPartition | src/gpubox_files/mod.rs:164-192 | a list of batches is right if and only if batch b is at place b, holds every file as often as it was given with that batch number, in ascending order of channel, and the last number is the largest |
| GpuboxFiles.DetermineCommonObsTimesAndChans | src/gpubox_files/mod.rs:742-821 | the loop over filtered times computes the common run of the map's channels |
| CoarseChannels.PopulateCoarseChannels | src/coarse_channel/mod.rs:163-306 | the loop lists the channels that the version and the supplied map admit, sorted by receiver channel; both maps at once is an error |
| CoarseChannels.ChannelsAre | src/coarse_channel/mod.rs:163-306 | for every version and map, the channels stand for distinct indices of the receiver channels: all those whose identifier the earliest time of the map has; each with its receiver channel, correlator number (counted from the far end from the first index over 128 for legacy) and identifier written out; in order of receiver channel, ties in order of index |
| CoarseChannels.AllChannelsAre | src/coarse_channel/mod.rs:163-306 | without a map there is one for every receiver channel |
| CoarseChannels.CorrNumbersDistinct | src/coarse_channel/mod.rs:183-211 | correlator numbers are a permutation if and only if the version is not legacy or the channels over 128 are mirror symmetric from the first of them on |
| CoarseChannels.AscendingChannelsAreNumbered | src/coarse_channel/mod.rs:183-211 | when channels over 128 come last, numbering is the identity up to them and reversed after |
| CoarseChannels.CorrNumbersCollide | src/coarse_channel/mod.rs:183-211 | channels 129 and 100 in this order both get number 1 |
| CoarseChannels.ChannelsFiltered | src/coarse_channel/mod.rs:213-305 | with a time map of the version's kind the result is the result without one, filtered by the channels of the earliest time |
| CoarseChannels.IdentifiersDistinct | src/coarse_channel/mod.rs:163-306 | the channels' file identifiers are distinct if and only if, for the legacy correlator, the channels over 128 are mirror symmetric, and for the other versions, the receiver channels are distinct |
| CoarseChannels.ChannelsAreFound | src/coarse_channel/mod.rs:321-338 | the lookup succeeds if and only if every identifier is a channel's |
| CoarseChannels.CoarseChanIndices | src/coarse_channel/mod.rs:321-338 | it then returns exactly the indices of the channels asked for, and in ascending order when each is asked for once |
| CorrelatorContext.New | src/correlator_context/mod.rs:142-318 | succeeds exactly for readable, non-empty files whose headers pass and that are usable (data, a schedule, no underflow, known channels, run ends with GPS times); fails with an error exactly for unreadable files or headers that do not pass; and the context's timeline, channels, indices, batches and both rectangles are those of the files |
| CorrelatorContext.ProvidedTimestepsAre | src/gpubox_files/mod.rs:644-664 | the context's provided timesteps are, in order, exactly the timesteps that some file has an HDU for |
| CorrelatorContext.LookupErrors | src/correlator_context/mod.rs:487-507 | the three errors before the time map is looked at, each exactly when its check is the first to fail |
| CorrelatorContext.LookupAgreesWithFiles | src/correlator_context/mod.rs:487-549 | with one file per batch and channel, the lookup succeeds if and only if some file of the channel has an HDU at that time; it returns such a file with that file's own HDU index, ties going to the lowest batch |
| CorrelatorContext.DuplicateFilesMixUp | src/correlator_context/mod.rs:508-548 | for any two files of one batch and channel there are HDU maps for which the lookup succeeds with a file that has no HDU at that time |
| CorrelatorContext.RunInCommon | src/correlator_context/mod.rs:179-318 | when a late enough time is complete, the rectangle goes from the first such time over n integrations, all complete, with the duration n integrations, both ends on both clocks, and all channels |
| CorrelatorContext.NothingInCommon | src/correlator_context/mod.rs:205-275 | when none is, the rectangle is empty and all its times are 0 |
| CorrelatorContext.RectangleIsReadable | src/correlator_context/mod.rs:179-318 | every cell of an advertised rectangle can be looked up if and only if every time in its window that is a data time, or a grid point that gaps are filled with, has files of every channel |
| CorrelatorContext.CommonRectangleIsReadable | src/correlator_context/mod.rs:179-318 | with data on one grid and unique files it always can: every timestep and channel of both advertised rectangles is found, in a file of that channel that has that time, with its own HDU index |
| CorrelatorContext.CommonTimestepsFillDuration | src/correlator_context/mod.rs:179-318 | the number of common timesteps times the integration time is the common duration if and only if the times in the window are all on the run's own grid; the window is as long as that duration |
| CorrelatorContext.GridTimestepsFillDuration | src/correlator_context/mod.rs:179-318 | with data on one grid it always is |
| CorrelatorContext.OffGridCellIsUnreadable | src/correlator_context/mod.rs:205-275 | in any context over times 10, 11, 12 in steps of 2 with a channel missing at 11, the common rectangle has a cell at 11 whose lookup fails with "no data", and three timesteps of 2 for a duration of 4 |
| VoltageFiles.CheckBatches | src/voltage_files/mod.rs:309-345 | succeeds if and only if neighbouring times are the interval apart (0 excepted) and all have the same number of files, at most 255; panics exactly above 255; otherwise reports the first time that fails, with what was expected and what was found |
| VoltageFiles.FilesOfTimeCount | src/voltage_files/mod.rs:309-314 | the number of files of a time is the number of places at which it is given |
| VoltageFiles.GoodBatchesAre | src/voltage_files/mod.rs:309-345 | the check accepts files if and only if their times, a GPS time of 0 left aside, are a progression of the interval, with equally many files at every time and at most 255 |
| VoltageFiles.GoodTimesProgress | src/voltage_files/mod.rs:309-345 | with no GPS time 0 that is so of all the times |
| VoltageFiles.ZeroTimeHidesGap | src/voltage_files/mod.rs:319-328 | two files at times 0 and 100 pass the check for an interval of 8 |
| VoltageFiles.ConvertTempVoltageFiles | src/voltage_files/mod.rs:169-198 | the loops compute a list of batches as BatchesPartition describes it |
| VoltageFiles.BatchesPartition | src/voltage_files/mod.rs:169-198 | the batches are in ascending order of time, none is empty, every time has one, and each holds every file as often as it was given with that time, in ascending order of channel |
| VoltageFiles.CreateTimeMap | src/voltage_files/mod.rs:459-471 | each cell of the map is the first file of that time and channel, and the times are those of the files |
| VoltageFiles.LookupsAgree | src/voltage_files/mod.rs:459-471 | with one file per time and channel, searching the batches gives what the time map gives |
| VoltageFiles.FindFileFinds | src/voltage_context/mod.rs:660-690 | even with duplicates, the search finds a file of that time and channel if and only if there is one |
| VoltageFiles.DetermineCommonObsTimesAndChans | src/voltage_files/mod.rs:584-663 | the voltage version computes the visibility files' common run of the map with times scaled to milliseconds |
| VoltageContext.GeometryIsValid | src/voltage_context/mod.rs:339-410 | blocks per file are blocks per second times whole seconds for both systems, and 128-tile files have 327680000 and 5275652096 bytes |
| VoltageContext.MwaxFiles | src/voltage_context/mod.rs:339-410 | for any number n of inputs and f of fine channels: a header of 4096 bytes, a delay block and 160 blocks of 128000*n*f bytes, 20 a second for 8 seconds; 4096 + 161*128000*n*f bytes in all |
| VoltageContext.LegacyFiles | src/voltage_context/mod.rs:339-410 | one block of 10000*n*f bytes for one second, and no header or delay block |
| VoltageContext.DataIs | src/voltage_context/mod.rs:660-723 | there is data exactly when a file is found, exists and has the expected size, and its k-th byte is the byte k behind header and delay block |
| VoltageContext.DataFails | src/voltage_context/mod.rs:660-712 | otherwise the error is no data, or the wrong size with both sizes and the name; a missing file panics |
| VoltageContext.ReadFile | src/voltage_context/mod.rs:796-907 | a successful read leaves in the buffer, byte by byte, what is behind header and delay block in the file found for the timestep and channel; the result in all error cases, in order of the checks; the buffer is untouched unless the read succeeds |
| VoltageContext.ReadFileFails | src/voltage_context/mod.rs:796-877 | each outcome of reading a file, exactly when: both index errors, no data, the wrong buffer size, a file that is missing or of the wrong size, success |
| VoltageContext.ReadSecond | src/voltage_context/mod.rs:598-742 | for any context with whole seconds of blocks: the loops over files and blocks write, at the front of the buffer, the blocks of the files from the first to the last second's whose second is one of those asked for; the result in all error and panic cases; a read that fails half-way has written the wanted blocks of the files before and left the rest alone |
| VoltageStreams.SectionOfStream | src/voltage_context/mod.rs:598-742 | the stream is the concatenation of the files' data sections: that of timestep i starts at i section sizes |
| VoltageStreams.SecondsAreRead | src/voltage_context/mod.rs:598-742 | with timesteps one file length apart, a successful read fills its buffer with exactly the bytes of the channel's stream from (start - t0) * blocks per second * block size on |
| VoltageStreams.FrontIsRead | src/voltage_context/mod.rs:598-742 | and a read that fails half-way has filled the front of the buffer from there, and left the rest alone |
| VoltageStreams.ReadSecondSucceeds | src/voltage_context/mod.rs:515-742 | for at least one second, success if and only if all seconds are inside the observation and each file that holds one of them can be found and has the right size |
| VoltageStreams.EndOfObservationPanics | src/voltage_context/mod.rs:515-545 | with all data present and a start inside the observation, the read panics if and only if the last second is the one at which the observation ends |
| VoltageStreams.ReadsJoin | src/voltage_context/mod.rs:598-742 | reading m + n seconds succeeds if and only if reading m and then n more does, and the bytes are those of the two reads, joined |
| VoltageStreams.FileIsItsSeconds | src/voltage_context/mod.rs:796-907 | reading a file and reading all the seconds it holds succeed together and give the same bytes |
| VoltageBytes.NameOfFile | src/voltage_context/mod.rs:660-690 | the file that is read is one of those given, of that time and channel |
| VoltageBytes.StreamByte | src/voltage_context/mod.rs:715-742 | byte k of a block of the stream is byte k of that block of its file, counted from behind header and delay block |
| VoltageBytes.SecondBytes | src/voltage_context/mod.rs:598-742 | after a successful read by second, byte k of block b of the n-th second is at (n*blocks per second + b)*block size + k of the buffer, and is that byte of block b of that second in the file of the timestep that covers it, behind header and delay block; the buffer is exactly that long |
| VoltageObservation.CheckSizes | src/voltage_files/mod.rs:405-429 | succeeds if and only if all files can be opened and are of one size; otherwise names a file that cannot be, or there are two of different sizes |
| VoltageObservation.New | src/voltage_context/mod.rs:163-337 | succeeds exactly for files that pass the batch and size checks and are usable; panics exactly for more than 255 files of one time and for files that pass both checks and are not usable; the context's batches, timeline, channels, provided indices, sizes and both rectangles are those of the files |
| VoltageObservation.ProvidedTimestepsAre | src/voltage_files/mod.rs:486-506 | the context's provided timesteps are, in order, exactly the timesteps that there is a file for |
| VoltageObservation.ViewIsValid | src/voltage_context/mod.rs:205-214 | the timesteps are whole seconds, one file length apart, as the read functions take them to be, if and only if GPS time 0 does not hide a gap that is out of step |
| VoltageObservation.RunInCommon | src/voltage_context/mod.rs:237-335 | when a late enough time has files of every channel, the rectangle goes from the first such time over n files, all complete, with the duration of n files, both ends on both clocks, and all channels |
| VoltageObservation.NothingInCommon | src/voltage_context/mod.rs:237-335 | when none has, the rectangle is empty, its GPS times and duration are 0, and its UNIX times are those of GPS time 0 |
| VoltageObservation.RectangleIsFiled | src/voltage_context/mod.rs:237-335 | every cell of an advertised rectangle has a file if and only if every time in its window that is a data time, or a grid point that gaps are filled with, has files of every channel |
| VoltageObservation.CommonCellsHaveFiles | src/voltage_context/mod.rs:237-335 | unless GPS time 0 hides a gap that is out of step, every timestep and channel of both advertised rectangles has a file, of that time and channel |
| VoltageObservation.CommonSecondsAreReadable | src/voltage_context/mod.rs:598-742 | unless GPS time 0 hides a gap that is out of step, any whole seconds inside an advertised rectangle can be read from any of its channels, when the files have the expected size |
| VoltageObservation.HiddenGapIsUnreadable | src/voltage_context/mod.rs:237-335 | with files at GPS seconds 0, 5 and 13 and a good time after 0, second 8 is a timestep of the good rectangle, and reading any of its channels fails with "no data" |

## Left out

- FITS access and what depends on it (HDU times, header checks, HDU shapes): each file's map from time to HDU index, or its failure, is an input.
- Parsing of file names, and the checks for mixed file kinds and foreign observation ids: parsed records are the input.
- Opening, seeking and short reads of voltage files: a file is a byte sequence, and reading a block of it gives all its bytes. The names of existing files are a map; opening a missing file panics.
- Parallel iteration and logging; `src/ffi`; text output; pointing, delays and the other metafits fields that are only copied.
- Frequencies of coarse and fine channels, electrical lengths and angles: floating-point values that nothing modelled depends on.
- Reading of visibilities into buffers around the conversion (`read_by_baseline_into_buffer`, `read_by_frequency_into_buffer`): a cfitsio read followed by one of the modelled conversions.
- Order of equal keys after `sort_unstable`: where it could matter the model leaves elements in their order of arrival.
- `get_baseline_from_antenna_names`: two lookups of a name, followed by the walk that is modelled.
- RootFormula.RightUpTo4096: says nothing about more than 2^23 antennas, where the antenna number itself is no longer exact.
- TimeSteps.PopulateSuperset: walks with a step of 0 never end where there is anything to walk, and are excluded.
- TimeSteps.PopulateCorrelatorTimesteps: an integration time of 0 is excluded for the same reason.
- TimeSteps.PopulateVoltageTimesteps: likewise.
- CorrelatorContext.New: likewise; the outcome of reading and comparing HDU headers is a parameter.
- VoltageContext.ReadSecond: its `f64` divisions are integer divisions, which they equal below 2^53; asks for files of whole seconds, which both systems have (VoltageContext.GeometryIsValid).
- FullMatrix.GenerateFullMatrix: asks for a permutation, without which no matrix meets the specification (FullMatrix.OnlyPermutationsHaveMatrix); what the loops then leave behind is not stated.
- FullMatrix.ScatterSquares: likewise.
- ConversionTable.GenerateConversionArray: asks for distinct subfile orders, for the same reason.
