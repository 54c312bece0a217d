# Verified model of the fe2o3 kernels, evidence tools and panels

This project models the behaviour of the repository that carries its hard guarantees, and proves
those guarantees for all inputs, all schedules and all orders.

| part | modules | what is proved |
|---|---|---|
| authored-ISA kernels | `Words`, `Machine`, `MaskedStore`, `CopyKernels`, `ScalarFill`, `Device` | Each kernel is the complete instruction list of its source, run on a machine with 32-bit register pairs, an execution mask, accesses that finish lane by lane at any later time, counter waits and a workgroup barrier. For every interleaving and every delay a run never faults, never reads a register or a word that is not ready, stops within a fixed number of moves, and leaves exactly the promised memory. |
| dynamic tiled GEMM | `Gemm` | Over exact arithmetic every covered launch, in any block and lane order, leaves `alpha A B + beta C` in every element and keeps the padding; ownership is a bijection; no access leaves its extent and no index wraps. |
| evidence analyzer | `Statistics`, `Bootstrap`, `Paired`, `Chain`, `GptOss` | Order statistics, the hierarchical bootstrap for every stream of draws, paired speedups, the telescoping chain, and the fused/unfused pairing check, over exact reals. |
| curriculum contract | `Json`, `CanonicalJson`, `SourceRanges` | The canonical payload as printer and parser: printable ASCII, parses back, equal exactly for equal values; the range check packs fragments into 4 MiB. |
| integer kernels | `RowAffine`, `MixedTile` | Wrapping 32-bit kernels equal their wide-integer meaning modulo 2^32, with frames. |
| ticketed panels | `RecordedImport`, `LiveDebugger` | For every schedule of user actions and completions what is shown belongs to the last operation started, or is the collection that operation inspects; nothing superseded comes back. |
| source splitter | `SourceText` | The pieces are the source, and a byte is marked exactly when a retained range contains it. |

Code that updates state step by step is imperative here too: `Device.Device` is the machine as an
object updated in place, the GEMM writes its `array`s, the analyzer, the range check, the row
reduction and the tile oracle are loops, and both panels are classes whose methods are tied to a
step function on values; the theorems over whole runs are lemmas about those step functions.

Every real-valued result is exact: rounding is not modelled. Random draws, completion orders,
barrier timing, reduction trees, the random generator's stream, sort enumerations and the answers
of code outside the repository are parameters, so each theorem holds for all of them.

Some places where the code is weaker than a reader might expect are stated exactly. A short output
view does not make a short or uninitialised input safe: the copy kernels read every lane's word
before the output guard, so they copy on every schedule exactly when every lane has an initialised
input word, and finish on none otherwise (`CopyKernels.CopiesIffInitialised`). The median
latency reduction equals the reduction of the median speedup only for an odd number of pairs or
equal middle speedups (`Paired.MedianReduction`). A GEMM grid reaches every element exactly when it
has all tiles and their number fits the 32-bit launch index (`Gemm.CoversIff`), and updates each
once exactly when also no block index wraps (`Gemm.CoversOnceIff`).

## Model

| member | source | states |
|---|---|---|
| CopyKernels.EveryRunCopies | examples/physical-lds-exchange-v22.rs:9-40 | For every interleaving of the waves and every delay of every access, no fault, at most a fixed number of moves, no deadlock, and at the end `output[x] = input[x xor 64]` (exchange) or `input[x]` (copy) for each lane inside the output, input and all other bytes unchanged, all lanes on |
| CopyKernels.EveryStatePublishes | examples/physical-lds-exchange-v22.rs:22-30 | In every reachable state an LDS word is blank or its own lane's input word; once a wave is past the barrier all 128 are published |
| CopyKernels.EveryStateReadsReady | examples/physical-lds-exchange-v22.rs:13-40 | In every reachable state the next instruction touches no register whose load is outstanding, and every outstanding global load or LDS read will find an initialised word with the right value |
| CopyKernels.CopiesIffInitialised | examples/physical-global-copy-v21.rs:1-36 | Under a launch whose output is mapped and apart from the input, every schedule is fault-free and ends with the promised memory exactly when every lane has an initialised input word; otherwise no schedule finishes |
| CopyKernels.UnreadableInputFaults | examples/physical-global-copy-v21.rs:1-25 | If some lane's input word is unmapped or uninitialised, no run finishes, that lane's wave never gets past its load and a run that can go no further has faulted, however short the output |
| CopyKernels.ShortInputFaults | examples/physical-global-copy-v21.rs:1-25 | An unmapped input word stops its wave the same way on any host, even one whose output is unmapped or overlaps the input |
| CopyKernels.InputKept | examples/physical-global-copy-v21.rs:1-3 | No store changes an input word or makes an unreadable one readable |
| CopyKernels.FinishedResult | examples/physical-global-copy-v21.rs:17-35 | A finished state of either kernel has the promised memory, byte frame included |
| CopyKernels.MoveKeeps | examples/physical-lds-exchange-v22.rs:9-40 | Every enabled move, of any wave and any access, keeps the invariant of both kernels |
| CopyKernels.RunKeeps | examples/physical-lds-exchange-v22.rs:9-40 | Every legal run keeps the invariant and its length is paid for by the work it uses up |
| CopyKernels.NeverHazardous | examples/physical-lds-exchange-v22.rs:13-40 | Under the invariant an issuable instruction reads and writes no pending register |
| CopyKernels.LoadsSee | examples/physical-lds-exchange-v22.rs:21-30 | Whenever a global load or LDS read finishes, the word it finds is its lane's input word or its peer's |
| CopyKernels.BothWaiting | examples/physical-lds-exchange-v22.rs:26 | The barrier opens only when both waves wait at it with nothing outstanding and all 128 words published |
| CopyKernels.ReleaseKeeps | examples/physical-lds-exchange-v22.rs:26 | Opening the barrier keeps the invariant |
| CopyKernels.LdsWriteLands | examples/physical-lds-exchange-v22.rs:23-25 | A finished publication fills its own lane's LDS word and leaves the other 127 as they are |
| CopyKernels.GlobalStoreLands | examples/physical-lds-exchange-v22.rs:37 | A finished store fills its own lane's output word and leaves every other byte |
| CopyKernels.IssueLane | examples/physical-lds-exchange-v22.rs:14-40 | What a lane knows after each instruction follows from what it knew before it |
| CopyKernels.IssueInputHigh | examples/physical-global-copy-v21.rs:17-23 | Shift, add and add-with-carry leave the register pair holding base + 4 (64 group + lane) |
| CopyKernels.IssueOutputHigh | examples/physical-global-copy-v21.rs:26-29 | The same for the output base, modulo 2^64 |
| CopyKernels.IssueCompare | examples/physical-global-copy-v21.rs:30 | The 64-bit compare sets the bit of exactly the lanes below the output length |
| CopyKernels.IssueStore | examples/physical-global-copy-v21.rs:31-34 | The mask step leaves on exactly those lanes, through the guarded store to the restoring move |
| CopyKernels.PeerIsXor64 | examples/physical-lds-exchange-v22.rs:27 | Xor with 64 is the other wave's lane |
| CopyKernels.EndedAllOn | examples/physical-lds-exchange-v22.rs:36-39 | The saved execution mask is back when a wave ends |
| CopyKernels.InputUntouched | examples/physical-global-copy-v21.rs:1-3 | Input words keep their value in every reachable state |
| CopyKernels.FinishLoadKeeps | examples/physical-lds-exchange-v22.rs:21-30 | A load landing at any allowed time keeps the invariant and does not fault |
| CopyKernels.FinishStoreKeeps | examples/physical-lds-exchange-v22.rs:24-38 | A store landing at any allowed time keeps the invariant and does not fault |
| CopyKernels.InitInv | examples/physical-lds-exchange-v22.rs:2-7 | A launch starts in the invariant |
| ScalarFill.EveryRunFills | examples/physical-entry-v20.rs:12-32 | For every order of workgroups and accesses: no fault, bounded, no deadlock, `a` in every output word below length and lane count, every other byte kept, all lanes on again |
| ScalarFill.EveryStateReadsReady | examples/physical-entry-v20.rs:18-32 | No issuable instruction touches a register whose load is outstanding |
| ScalarFill.MoveKeeps | examples/physical-entry-v20.rs:12-32 | Every enabled move keeps the fill's invariant |
| ScalarFill.IssueLane | examples/physical-entry-v20.rs:19-31 | What a lane knows after each instruction follows from what it knew before it |
| ScalarFill.FinishKeeps | examples/physical-entry-v20.rs:12-30 | Any access landing keeps the invariant and does not fault |
| ScalarFill.EndedAllOn | examples/physical-entry-v20.rs:28-31 | The saved execution mask is back when a wave ends |
| MaskedStore.EndedWritten | examples/physical-entry-v20.rs:27-31 | After every wave has passed its wait, each word inside the length holds its lane's value and no other byte changed |
| MaskedStore.StoreLands | examples/physical-entry-v20.rs:29 | One landing store completes its own word and leaves every other word's progress alone |
| MaskedStore.WaveMoves | examples/physical-entry-v20.rs:29-30 | Issuing the guarded store and passing the wait keep the account of stored words |
| MaskedStore.ApartUntouched | examples/physical-global-copy-v21.rs:1-3 | A word apart from the stored words keeps its contents |
| Machine.SomeMoveEnabled | examples/physical-lds-exchange-v22.rs:26 | A launch that has not ended and not faulted always has an enabled move: no deadlock at the barrier or the waits |
| Machine.StuckIff | examples/physical-lds-exchange-v22.rs:9-40 | A launch can go no further exactly when it has faulted or every wave has ended with nothing outstanding |
| Machine.SomeRunEnds | examples/physical-lds-exchange-v22.rs:9-40 | From every state some legal run reaches a fault or the end |
| Machine.MoveDecreasesWork | examples/physical-lds-exchange-v22.rs:9-40 | Every move that does not fault uses up a bounded amount of work |
| Machine.IssueFrame | examples/physical-entry-v20.rs:12-32 | An instruction changes only the registers it names, and the mask only when that is its business |
| Machine.OffLanesKept | examples/physical-entry-v20.rs:12-32 | In the registers it names, an instruction leaves the lanes that are off alone |
| Machine.ReadFootprint | examples/physical-lds-exchange-v22.rs:13-40 | An instruction depends on no vector or scalar register it is not listed to read: masks, accesses and what it writes agree for waves that agree there |
| Machine.DelayUnnoticed | examples/physical-lds-exchange-v22.rs:13-40 | When the next instruction is free of hazards, an outstanding access may land before or after it, with the same final state |
| Machine.LandingCommutes | examples/physical-lds-exchange-v22.rs:13-40 | On one wave, landing an access and issuing an instruction free of hazards commute |
| Machine.IssueAddsAtMost64 | examples/physical-lds-exchange-v22.rs:21-37 | One instruction adds at most one access per lane |
| Machine.PutThenRead | examples/physical-entry-v20.rs:29 | A stored word reads back from its four little-endian bytes |
| Machine.WordBytes | examples/physical-entry-v20.rs:29 | A word's four bytes are its little-endian digits |
| Machine.FinishFaultsIff | examples/physical-global-copy-v21.rs:1-3 | Exactly when a landing access faults: arguments past the end, bytes not mapped, or a load of bytes never initialised |
| Machine.PutKeepsApart | examples/physical-entry-v20.rs:29 | A store leaves every word that does not overlap it |
| Words.CarryChain | examples/physical-global-copy-v21.rs:22-23 | A 32-bit add and an add with its carry are a 64-bit add modulo 2^64 |
| Words.XorFlipsBit | examples/physical-lds-exchange-v22.rs:27 | Xor with a power of two flips exactly that bit |
| Words.MaskRoundTrip | examples/physical-entry-v20.rs:28-31 | A mask written to a word reads back |
| Words.SavedMaskRestores | examples/physical-entry-v20.rs:28-31 | Saving the mask in a scalar pair and moving it back restores it |
| Words.ShiftIndex | examples/physical-entry-v20.rs:24 | Shifting a 64-bit lane index by two multiplies it by four without loss |
| Device.Device.Take | examples/physical-lds-exchange-v22.rs:9-40 | One move in place is one step of the machine |
| Device.Device.Complete | examples/physical-lds-exchange-v22.rs:21-37 | A finished access updates its register lane or memory in place, or faults |
| Device.Device.Pick | examples/physical-lds-exchange-v22.rs:13-40 | The scheduler finds a move unless every wave has ended |
| Device.Device.Run | examples/physical-lds-exchange-v22.rs:9-40 | Every picking policy runs a launch to its end, and what it did is a legal run |
| Device.RunCopy | examples/physical-global-copy-v21.rs:8-36 | Running either copy kernel on the device, whatever the picks, leaves in output word x the input word of index x, or in the exchange of the index 64 further or back, and changes no byte outside the stored words |
| Device.RunFill | examples/physical-entry-v20.rs:8-33 | Running the fill on the device, whatever the picks, leaves the four little-endian bytes of the argument in each word below length and lane count and changes no other byte |
| Gemm.CoveredLaunch | examples/tiled_gemm_general_v1/benchmark_hip.cpp:80-88 | After a launch that covers all tiles, `c[row ldc + column]` is alpha times the depth-k product of row and column plus beta times its old value |
| Gemm.CoveredElsewhere | examples/tiled_gemm_general_v1/benchmark_hip.cpp:80-88 | Every index of C that belongs to no element keeps its value, whatever the blocks |
| Gemm.Launch | examples/tiled_gemm_general_v1/benchmark_hip.cpp:37-88 | The kernel over a list of blocks: a refused shape or no columns changes nothing; otherwise each element is alpha times its product plus beta times its old value if its tile is among the blocks, else untouched, and so is every index that is no element |
| Gemm.AdmittedIff | examples/tiled_gemm_general_v1/benchmark_hip.cpp:37-51 | The shape is accepted exactly when each operand with elements has a stride of at least its columns and is as long as its last row's end, over the integers |
| Gemm.ProductLaw | examples/tiled_gemm_general_v1/benchmark_hip.cpp:73-77 | A product adds `a[row lda + d] b[d ldb + column]` for one depth after another, inside both operands |
| Gemm.StoresAtIff | examples/tiled_gemm_general_v1/benchmark_hip.cpp:81-86 | Which row, column and address a thread's component stores to, in tile, lane and component |
| Gemm.AnyStoreOrder | examples/tiled_gemm_general_v1/benchmark_hip.cpp:80-88 | Whatever order the threads store in, an element whose owner is among them is alpha times its product plus beta times its old value |
| Gemm.AnyOrderElsewhere | examples/tiled_gemm_general_v1/benchmark_hip.cpp:80-88 | In any order of stores, indices that are no element keep their value |
| Gemm.CoversIff | examples/tiled_gemm_general_v1/benchmark_hip.cpp:111-112 | A grid reaches every element exactly when it has all tiles and their number fits the 32-bit launch index |
| Gemm.CoversOnceIff | examples/tiled_gemm_general_v1/benchmark_hip.cpp:52-57 | Every element is updated by exactly one block of the grid exactly when the grid has all tiles and at most 2^26 blocks, so that no launch index wraps |
| Gemm.CoordinatesFit | examples/tiled_gemm_general_v1/benchmark_hip.cpp:54-70 | The rows, columns and depths of any launch index stay below 2^64, so they are the same over the integers |
| Gemm.OwnersAreElements | examples/tiled_gemm_general_v1/benchmark_hip.cpp:52-64 | Every element has an owning tile, lane and component, with tile, lane and component in range |
| Gemm.ElementsHaveOneOwner | examples/tiled_gemm_general_v1/benchmark_hip.cpp:52-64 | The row and column of a tile, lane and component give them back: distinct owners, distinct elements |
| Gemm.StoresIffOwns | examples/tiled_gemm_general_v1/benchmark_hip.cpp:81-86 | A thread component stores to an address exactly when it owns it |
| Gemm.AccessInBounds | examples/tiled_gemm_general_v1/benchmark_hip.cpp:73-85 | Every guarded access is inside its validated extent and its 64-bit address does not wrap |
| Gemm.ExtentExact | examples/tiled_gemm_general_v1/benchmark_hip.cpp:40-48 | The 64-bit extents do not wrap |
| Gemm.IndexSplits | examples/tiled_gemm_general_v1/benchmark_hip.cpp:85 | Distinct elements have distinct addresses |
| Gemm.RawIndexSplits | examples/tiled_gemm_general_v1/benchmark_hip.cpp:52-58 | The 32-bit launch index of a thread splits into its lane and its block modulo 2^26 |
| Gemm.PaddingAddsNothing | examples/tiled_gemm_general_v1/benchmark_hip.cpp:67-75 | The zero-filled tails and the 16-wide phases add nothing to the plain sum over depth below k |
| Gemm.MfmaIsOnePhase | examples/tiled_gemm_general_v1/benchmark_hip.cpp:67-78 | With the lane maps of the loads, one matrix instruction adds one phase of the product |
| Gemm.Mfma | examples/tiled_gemm_general_v1/benchmark_hip.cpp:76-77 | The 16x16x16 instruction adds to each accumulator component its sum over 16 depths, lane map included |
| Gemm.LoadPhase | examples/tiled_gemm_general_v1/benchmark_hip.cpp:68-75 | The fragments of a phase hold A and B, zero outside them |
| Gemm.LoadLane | examples/tiled_gemm_general_v1/benchmark_hip.cpp:71-75 | One lane's guarded component loads |
| Gemm.Accumulate | examples/tiled_gemm_general_v1/benchmark_hip.cpp:66-78 | After the depth loop each accumulator component is the padded product of its row and column |
| Gemm.StoreOne | examples/tiled_gemm_general_v1/benchmark_hip.cpp:81-87 | One guarded store in place: alpha times the accumulator plus beta times the old value at the component's own address, nothing elsewhere |
| Gemm.Block | examples/tiled_gemm_general_v1/benchmark_hip.cpp:52-88 | One workgroup updates exactly the elements its tile owns |
| Statistics.PercentileMonotone | perf-evidence/analyze.py:27-37 | A percentile grows with its probability |
| Statistics.PercentileInRange | perf-evidence/analyze.py:27-37 | It stays between minimum and maximum and reaches both at 0 and 1 |
| Statistics.PercentilePermutes | perf-evidence/analyze.py:28 | The order of the values does not matter, for percentile and median |
| Statistics.PercentileOutcome | perf-evidence/analyze.py:28-37 | The empty-sequence error happens exactly for no values, an index error exactly outside the reachable positions, for any probability |
| Statistics.PercentileIsCurve | perf-evidence/analyze.py:31-37 | For a probability in [0, 1] it is the piecewise linear curve through the order statistics |
| Statistics.PercentileLaw | perf-evidence/analyze.py:31-37 | At position `(n - 1) p` of the sorted values: `lower (1 - fraction) + upper fraction` |
| Statistics.MedianLaw | perf-evidence/analyze.py:156 | The middle of the sorted values, or the mean of the two middle ones |
| Statistics.MedianIsPercentile | perf-evidence/analyze.py:156 | The library median is the percentile at one half |
| Statistics.SortSorts | perf-evidence/analyze.py:28 | Sorting orders the values and keeps them |
| Statistics.SortedIsUnique | perf-evidence/analyze.py:28 | A sorted arrangement is unique |
| Bootstrap.HierarchicalBootstrap | perf-evidence/analyze.py:143-157 | The nested loops compute the resampling of the specification, draw by draw, errors included; the interval is the 2.5th and 97.5th percentile of as many medians of resamples as there are repetitions, each resample starting where the draws of the one before end |
| Bootstrap.ResampleAt | perf-evidence/analyze.py:151-155 | With blocks of length L, draw `at + i (L + 1)` chooses the i-th block among the keys, and sample `i L + j` is the element of it that draw `at + i (L + 1) + 1 + j` chooses |
| Bootstrap.ResampleLaw | perf-evidence/analyze.py:151-155 | The same for blocks of any lengths, with the draw and the place each block starts at |
| Bootstrap.EstimatesLaw | perf-evidence/analyze.py:150-156 | Each estimate is the median of its own resample, one draw stream through all of them |
| Bootstrap.BootstrapIs | perf-evidence/analyze.py:157 | A successful bootstrap is the 0.025 and 0.975 percentiles of such estimates |
| Bootstrap.IntervalInRange | perf-evidence/analyze.py:143-157 | For every stream of draws the interval has low at most high, both inside the data range |
| Bootstrap.BootstrapOutcome | perf-evidence/analyze.py:143-157 | With nonempty blocks it fails exactly for no blocks or no repetitions |
| Bootstrap.ResampleSize | perf-evidence/analyze.py:151-155 | With equal blocks a resample has as many samples as the data and uses one draw per key and per sample |
| Bootstrap.ResampleWithin | perf-evidence/analyze.py:152-155 | Every resampled value lies within the data's bounds, and there is at least one per drawn key |
| Bootstrap.GroupBlocks | perf-evidence/analyze.py:167-169 | Each block holds its key's values in order, and only keys that occur have blocks |
| Bootstrap.SelectInOrder | perf-evidence/analyze.py:167-169 | A block is exactly the values of its key's items, all of them, in their order |
| Bootstrap.BlocksPartition | perf-evidence/analyze.py:167-169 | The blocks together are exactly the samples |
| Bootstrap.Summarize | perf-evidence/analyze.py:160-191 | p5 and p95 are the 0.05 and 0.95 percentiles, the interval is the bootstrap's over the series' blocks; p5 <= median <= p95, all inside the data range with the interval; the deviation is the median distance from the median, between 0 and the spread |
| Paired.Gather | perf-evidence/analyze.py:201-222 | The tables hold exactly the two variants' records; refused exactly when two records of a series share a pair |
| Paired.GatheredHas | perf-evidence/analyze.py:204-221 | Each record of either variant is in its series' table under its pair, with its duration and its launch, and shares its pair with no other record of the series |
| Paired.GatheredOnly | perf-evidence/analyze.py:204-221 | Every pair in a table comes from a record of that operator and variant |
| Paired.LaunchesOnly | perf-evidence/analyze.py:208-211 | Every launch counted comes from a record of that series |
| Paired.Compare | perf-evidence/analyze.py:225-263 | Exactly when a comparison is skipped or refused for several launches, a division by zero, or made; what was made is sound, its speedups are baseline over candidate and its reductions percentages of the baseline, and its interval is the bootstrap's over the speedups grouped by block |
| Paired.VerdictsAreSound | perf-evidence/analyze.py:245-261 | Exactly one of faster, slower, indistinguishable; the median reduction at most 100 (1 - 1 / median speedup), with the exact equality condition; faster (slower) is backed by a pair that was faster (slower) |
| Paired.MedianReduction | perf-evidence/analyze.py:235-245 | Median reduction at most 100 (1 - 1 / median speedup), equal exactly for an odd count or equal middle speedups |
| Paired.Measure | perf-evidence/analyze.py:235-239 | Per pair baseline over candidate, and 100 times the difference over the baseline; an error exactly when some duration is zero |
| Paired.ReductionMatches | perf-evidence/analyze.py:235-239 | A pair's reduction is 100 (1 - 1 / its speedup) |
| Paired.ReductionConcave | perf-evidence/analyze.py:244-245 | The harmonic mean is at most the arithmetic mean, strictly for different speedups |
| Paired.SortReductions | perf-evidence/analyze.py:244-245 | Reducing keeps the order of speedups |
| Paired.Confidence | perf-evidence/analyze.py:240-243 | The bootstrap's interval over the speedups of each block key's pairs, in order, under the given draws; ordered and in the speedups' range |
| Chain.ChainTelescopes | perf-evidence/analyze.py:289-338 | Incremental speedups multiply to the total, nanoseconds saved sum to baseline minus final, each cumulative speedup is the prefix product |
| Chain.ContributionsSumTo100 | perf-evidence/analyze.py:291-324 | Log contributions are reported exactly when the total log speedup is not zero, and then sum to 100 |
| Chain.ReductionsMatchSpeedups | perf-evidence/analyze.py:312-319 | Each reported reduction is that of its speedup |
| Chain.ReportIs | perf-evidence/analyze.py:328-336 | The report's totals are baseline over final and 100 (baseline - final) / baseline |
| Chain.StepIs | perf-evidence/analyze.py:293-325 | Every field of a step: previous over current, the difference, its percentage, the same against the baseline, and the log share of the total |
| Chain.Contribute | perf-evidence/analyze.py:270-339 | Absent variants skip the operator, several series are refused, zero medians are the division or logarithm error, and otherwise the steps are reported |
| Chain.Assemble | perf-evidence/analyze.py:289-338 | The step loop builds the report, or fails at the first zero median |
| Chain.MatchingMatches | perf-evidence/analyze.py:280-286 | The series of a variant are those of its operator and name |
| GptOss.Check | perf-evidence/analyze-gpt-oss.py:63-90 | Records are accepted exactly when all are expected, none repeats, every trial has all four and there are 15000 trials; otherwise the reason: the first offending record's, else incomplete stages, else differing trials, else the count |
| GptOss.AcceptedCount | perf-evidence/analyze-gpt-oss.py:63-90 | An accepted file has 15000 trials and 60000 records, and each trial owns exactly one record of each export |
| GptOss.SumsConserve | perf-evidence/analyze-gpt-oss.py:85 | The per-trial sums add up to the whole unfused time |
| GptOss.Collect | perf-evidence/analyze-gpt-oss.py:66-81 | The loop tallies exactly the records, or stops at the first unexpected or repeated one with that record's reason |
| GptOss.FirstOffenceIsUnique | perf-evidence/analyze-gpt-oss.py:66-81 | At most one record is the first offence, and it has one reason |
| GptOss.CompleteIsStages | perf-evidence/analyze-gpt-oss.py:82-84 | The loop's tables are complete exactly when every trial with a stage record has all of them |
| GptOss.TakenIff | perf-evidence/analyze-gpt-oss.py:72-79 | A place is taken exactly when an earlier record has the same variant, export and trial |
| GptOss.CompleteIsPaired | perf-evidence/analyze-gpt-oss.py:82-87 | The two completeness checks are exactly the pairing of trials |
| GptOss.AcceptedSum | perf-evidence/analyze-gpt-oss.py:85 | An accepted trial's unfused time is its router, attention and expert records' durations added |
| GptOss.KindsAre | perf-evidence/analyze-gpt-oss.py:16-21 | The variant and export names that are accepted |
| GptOss.SlotsAreGrid | perf-evidence/analyze-gpt-oss.py:82-87 | Paired records fill exactly the grid of trials by exports |
| Json.PrintParses | scripts/curriculum-evidence.ts:64-74 | The printed and escaped text is printable ASCII and parses back (sections 6 and 7 of RFC 8259 for numbers and strings) to the value |
| Json.PrintIsInjective | scripts/curriculum-evidence.ts:64-74 | Two values print alike exactly when they are equal |
| Json.PrintIs | scripts/curriculum-evidence.ts:64-74 | What each kind of value is printed as: the words, brackets, commas, colons and quotes |
| Json.PrintedUnit | scripts/curriculum-evidence.ts:68-74 | What each string unit is printed as: short escapes, printable ASCII as itself, else a backslash, u and four lower-case hexadecimal digits |
| Json.ValueBack | scripts/curriculum-evidence.ts:64-74 | A printed value inside a longer text parses to itself and leaves the rest |
| Json.BodyBack | scripts/curriculum-evidence.ts:68-74 | An escaped string body reads back unit by unit |
| Json.NumberBack | scripts/curriculum-evidence.ts:64-74 | A printed number, fraction and exponent included, is read back in full and no further |
| Json.IntegerBack | scripts/curriculum-evidence.ts:120-122 | The decimal digits of an integer are a number and name that integer |
| Json.EscapedValue | scripts/curriculum-evidence.ts:64-74 | Stringify followed by the replacement is one pass of escaping |
| Json.EscapeIsUnitwise | scripts/curriculum-evidence.ts:68-74 | The replacement by code points is the replacement by units |
| Json.EscapeMatch | scripts/curriculum-evidence.ts:69-73 | The inner loop escapes every unit of a match |
| Json.PadIsNibbles | scripts/curriculum-evidence.ts:71 | The padded hexadecimal is the unit's four digits |
| Json.EachUnitPrintable | scripts/curriculum-evidence.ts:68-74 | What the replacement leaves is printable |
| CanonicalJson.PayloadIff | scripts/curriculum-evidence.ts:54-76 | Two inputs hash the same payload exactly when lesson id, projected tab and source item without its digest agree as JSON values, whatever their key order |
| CanonicalJson.PayloadParses | scripts/curriculum-evidence.ts:63-75 | The payload is printable ASCII and parses back to its canonical value |
| CanonicalJson.PayloadIs | scripts/curriculum-evidence.ts:63-67 | The payload parses to an object of exactly curriculumSchema, lessonId, sourceItem and tab, in this order, holding the schema literal, the lesson id, the canonical members of the item other than contractSha256, and the canonical tab |
| CanonicalJson.CanonicalTextIff | scripts/curriculum-evidence.ts:54-61 | Canonical text is equal exactly for values that agree up to key order |
| CanonicalJson.CanonicalOrder | scripts/curriculum-evidence.ts:57-58 | Without array-index keys the canonical keys are in code-unit order |
| CanonicalJson.CanonicalKeysOrdered | scripts/curriculum-evidence.ts:57-58 | In every canonical object index keys come first, ascending, and the others follow in code-unit order |
| CanonicalJson.BeforeIff | scripts/curriculum-evidence.ts:57 | One key is before another exactly when at the first difference it has the smaller unit, or ends |
| CanonicalJson.IndexIs | scripts/curriculum-evidence.ts:57-58 | The keys an engine moves to the front are exactly the decimal digits of numbers below 2^32 - 1 |
| CanonicalJson.CanonicalIs | scripts/curriculum-evidence.ts:54-61 | Canonical form keeps scalars, maps arrays place by place and objects key by key |
| CanonicalJson.CanonicalMembers | scripts/curriculum-evidence.ts:57-58 | Canonicalising an object loses and repeats no key |
| CanonicalJson.SortThenMap | scripts/curriculum-evidence.ts:57-58 | Sorting and then mapping values is mapping and then sorting |
| CanonicalJson.SortOrders | scripts/curriculum-evidence.ts:57 | The sort keeps the entries and orders their keys |
| CanonicalJson.OrderIsCanonical | scripts/curriculum-evidence.ts:57 | Strictly ordered entries are determined by their members |
| CanonicalJson.FromEntriesMembers | scripts/curriculum-evidence.ts:57-67 | An object built from entries with unique keys holds exactly those |
| CanonicalJson.WithoutWellFormed | scripts/curriculum-evidence.ts:67 | The filtered item has exactly the other fields |
| SourceRanges.Validate | scripts/curriculum-evidence.ts:113-127 | The incremental loop accepts exactly the lists of at most 64 ranges, one per fragment, whose ranges fit their fragments and are pairwise disjoint |
| SourceRanges.RangeIs | scripts/curriculum-evidence.ts:119-124 | A range object of byteOffset and byteLength fits exactly when the offset is at most 4194304, the length between 1 and what is left, the offset 0 for a whole file and the length the fragment's UTF-8 length |
| SourceRanges.RangeHas | scripts/curriculum-evidence.ts:119-120 | Only such objects fit |
| SourceRanges.Utf8Is | scripts/curriculum-evidence.ts:122 | The UTF-8 length of a text: one, two or three bytes a unit, four a surrogate pair |
| SourceRanges.DisjointIff | scripts/curriculum-evidence.ts:125 | Nonempty ranges are disjoint exactly when they share no byte |
| SourceRanges.AcceptedFits | scripts/curriculum-evidence.ts:113-127 | Accepted fragments together are at most 4 MiB long |
| SourceRanges.NoByteTwice | scripts/curriculum-evidence.ts:119-126 | Every fragment has its length of bytes below 4 MiB and shares none with another |
| SourceRanges.Packing | scripts/curriculum-evidence.ts:125 | Pairwise disjoint intervals below a bound have at most that length in all |
| RowAffine.Launch | examples/row_affine_u32.rs:34-80 | Traps, before any store, exactly when the columns pass 128, the output or the grid is too short, the geometry is not 64 by 1 by 1 in one row of groups, or the view constructor refuses, whose answer is a parameter: a granted view covers its rows and columns; otherwise every row holds its sum modulo 2^32, for any group order and any reduction trees, and all else is kept |
| RowAffine.RowSumIs | examples/row_affine_u32.rs:49-66 | A row's sum adds `values[offset + row stride + column] scale + bias` column by column |
| RowAffine.ReductionIsRowSum | examples/row_affine_u32.rs:49-70 | Any reduction tree over the 64 lanes gives the row's sum modulo 2^32, and zero for a surplus group |
| RowAffine.RowResult | examples/row_affine_u32.rs:10 | The result is scale times the row's sum plus columns times bias, modulo 2^32 |
| RowAffine.LaneSum | examples/row_affine_u32.rs:49-66 | A lane's wrapping sum of its two guarded columns |
| RowAffine.LocalIsWide | examples/row_affine_u32.rs:53-66 | A lane's wrapping sum is its two wide terms modulo 2^32 |
| RowAffine.LanesCoverTerms | examples/row_affine_u32.rs:51-66 | The lanes' column pairs cover each column once |
| RowAffine.TreeIsSum | examples/row_affine_u32.rs:70 | A tree of wrapping adds is the sum of its leaves modulo 2^32 |
| RowAffine.SumPermutes | examples/row_affine_u32.rs:70 | The order of the leaves does not matter |
| RowAffine.Group | examples/row_affine_u32.rs:49-79 | One workgroup stores its row and nothing else; a surplus group stores nothing |
| MixedTile.Probe | examples/mixed_tile_u32.rs:9-39 | The kernel over the invocations in any order leaves the oracle's output and initialization |
| MixedTile.Oracle | examples/mixed_tile_oracle.rs:39-83 | The oracle's errors change nothing and happen exactly for zero or 2^32 or more invocations or unequal lengths; otherwise exactly the active lanes inside output and launch are stored modulo 2^32 and marked |
| MixedTile.WideSumIs | examples/mixed_tile_oracle.rs:60-76 | The wide sum in figures: weights 3, 5, 7 and biases 11, 13, 17 at three neighbouring indices or three 64 apart, each only below 2^64 and the length |
| MixedTile.OracleLane | examples/mixed_tile_oracle.rs:60-76 | The wide sum and activity of one lane, for every base, including near 2^64 |
| MixedTile.ProbeLane | examples/mixed_tile_u32.rs:15-38 | One lane's wrapping terms give the oracle's value, or nothing for an inactive lane |
| MixedTile.PositionsAreBijective | examples/mixed_tile_oracle.rs:67-70 | Both orders map the 64 by 3 elements one to one onto the 192 positions |
| MixedTile.TermsRefine | examples/mixed_tile_u32.rs:19-36 | Wrapping at every step loses nothing modulo 2^32 |
| RecordedImport.EveryScheduleShowsTheLast | src/components/RecordedResourceImport.tsx:206-253 | Over every schedule a shown recording came from the last import started, of the files selected now; at most one controller is live; busy exactly while one is |
| RecordedImport.EveryCompletion | src/components/RecordedResourceImport.tsx:237-252 | A superseded completion changes nothing shown; the live one reports its outcome and frees the panel |
| RecordedImport.FinishIs | src/components/RecordedResourceImport.tsx:242-252 | Field by field what a completion does, by its ticket and its controller |
| RecordedImport.ClearedStaysCleared | src/components/RecordedResourceImport.tsx:206-229 | After choose, cancel, reset or unmount no completion of earlier imports shows anything |
| RecordedImport.StepKeeps | src/components/RecordedResourceImport.tsx:206-253 | Every event keeps the panel's invariant |
| RecordedImport.NothingComesBack | src/components/RecordedResourceImport.tsx:242-251 | With no live import any completions change nothing shown |
| RecordedImport.Panel.Clear | src/components/RecordedResourceImport.tsx:208-213 | Clearing in place is the specification's clear |
| RecordedImport.Panel.Pick | src/components/RecordedResourceImport.tsx:214-218 | Choosing a file clears, bumps the ticket and replaces the first or the second selection |
| RecordedImport.Panel.CancelImport | src/components/RecordedResourceImport.tsx:219-222 | Cancelling clears |
| RecordedImport.Panel.ResetAll | src/components/RecordedResourceImport.tsx:223-229 | Resetting clears data and selections |
| RecordedImport.Panel.Begin | src/components/RecordedResourceImport.tsx:230-236 | Starting clears, takes a ticket and a controller; without both files it does nothing |
| RecordedImport.Panel.Complete | src/components/RecordedResourceImport.tsx:242-252 | What an import does when its last await returns |
| RecordedImport.Panel.Dispose | src/components/RecordedResourceImport.tsx:206 | Unmounting bumps the ticket and aborts |
| LiveDebugger.EveryScheduleShowsTheLast | src/components/LiveCpuDebuggerWorkbench.tsx:77-159 | Over every overlap of requests: a shown reply or query collection came from the last request started; a shown observed collection was delivered by a collection of observations current when it completed, and is the last request's or the one the last request inspects; nothing is shown while a request runs, and at most one can report |
| LiveDebugger.TargetStaysWithItsCollection | src/components/LiveCpuDebuggerWorkbench.tsx:122-134 | A target reply is on screen only beside the collection its request inspected, and that request is the last |
| LiveDebugger.EveryCompletion | src/components/LiveCpuDebuggerWorkbench.tsx:95-158 | A superseded completion changes nothing; the current one frees the panel and shows exactly what its kind of request shows, an inspected target only while the client still holds its collection |
| LiveDebugger.FinishIs | src/components/LiveCpuDebuggerWorkbench.tsx:97-99 | A completion with an old ticket changes only its own entry; one with the current ticket frees the panel and gives notice |
| LiveDebugger.ReplacedStaysBlank | src/components/LiveCpuDebuggerWorkbench.tsx:77-84 | Once the connection input is replaced nothing is shown until another request starts; a disposed panel never changes |
| LiveDebugger.EditHidesUntilNextRequest | src/components/LiveCpuDebuggerWorkbench.tsx:85 | After an edit nothing is on screen, retained target reply included, until another request starts or the one running completes |
| LiveDebugger.RunGenuine | src/components/LiveCpuDebuggerWorkbench.tsx:126-146 | Every observed collection on display or under inspection was delivered by a current collection of observations |
| LiveDebugger.StepKeeps | src/components/LiveCpuDebuggerWorkbench.tsx:77-159 | Every event keeps the panel's invariant |
| LiveDebugger.NothingComesBack | src/components/LiveCpuDebuggerWorkbench.tsx:97-158 | Until the one current request completes or another starts, events only blank what is shown |
| LiveDebugger.StaleStays | src/components/LiveCpuDebuggerWorkbench.tsx:97-158 | With no current request, completions in any number and order show nothing |
| LiveDebugger.Panel.Clear | src/components/LiveCpuDebuggerWorkbench.tsx:78 | Clearing in place is the specification's clear |
| LiveDebugger.Panel.ReplaceConnection | src/components/LiveCpuDebuggerWorkbench.tsx:79-84 | Replacing the connection input clears and bumps the ticket |
| LiveDebugger.Panel.EditInput | src/components/LiveCpuDebuggerWorkbench.tsx:85 | An edit clears the reply and both collections |
| LiveDebugger.Panel.Start | src/components/LiveCpuDebuggerWorkbench.tsx:90-93 | Any request clears, takes the new ticket and marks the panel busy; an inspection carries the collection on display and is not offered without one |
| LiveDebugger.Panel.Complete | src/components/LiveCpuDebuggerWorkbench.tsx:95-99 | What a request does when the client answers |
| LiveDebugger.Panel.Show | src/components/LiveCpuDebuggerWorkbench.tsx:115-157 | What each kind of request displays |
| LiveDebugger.Panel.DisposePanel | src/components/LiveCpuDebuggerWorkbench.tsx:77 | Disposal bumps the ticket |
| SourceText.SegmentsJoin | src/components/AuthoringNavigation.tsx:5-12 | The pieces are nonempty and together are the whole source |
| SourceText.MarkedIff | src/components/AuthoringNavigation.tsx:9-11 | A byte is marked exactly when some retained range contains it |
| SourceText.EndpointsAre | src/components/AuthoringNavigation.tsx:7 | The endpoints are 0, the length and the ranges' ends, ascending, each once |
| SourceText.SegmentAt | src/components/AuthoringNavigation.tsx:9-11 | Each piece is the source between two neighbouring endpoints |

## Left out

- Floating-point rounding: GEMM and statistics are over exact reals; the bfloat16 and float32 formats are not modelled.
- The machine's scalar condition bit and any other effect of the modelled instructions that no authored kernel observes.
- Store data is read when a store issues; a load's destination keeps its old value until the load lands, which no proved run observes.
- The matrix instruction is its stated 16x16x16 contract with the lane map of the loads and stores, not a hardware model.
- What C holds after a grid of more than 2^26 blocks, or one naming a block twice: some elements are then updated by several blocks at once (`Gemm.CoversOnceIff`).
- HIP and library calls, timing loops and the benchmark's own checks.
- The authored kernels' macro and its encoding, and hosts that break the launch contract in other ways than an unreadable input: an unmapped output, or an input overlapping the output.
- `StridedReadView2D`, `DisjointSlice`, `MaskedTile1D` and the collective's implementation are not part of this model; each enters as the contract its caller relies on, and the collective as any reduction tree.
- The record validation, JSON-lines reading, `canonical_decimal` and command-line parsing of the analyzer; the per-operator loops around one comparison and one chain.
- The enumeration order of Python's sorted keys is a parameter: pairs and block keys arrive as any listing of the right set.
- The summary fields that only count or copy, and the hash sets of the GPT-OSS analyzer.
- How the engine prints a number: a number is the decimal text it is printed as, so the sign of a negative zero and the infinities and NaN, printed as 0 and null, are not modelled; parsing of insignificant whitespace, which the printer never emits.
- SHA-256: properties are about the payload before hashing.
- The other fields and cases of a source item, and the manifest's lesson and tab loops.
- UTF-8 decoding of source pieces: the splitter works on bytes, and the ranges are those its projection guarantees to lie in the source.
- React rendering, stale closures between an event and its render, input focus and message wording beyond its kind; rendering also hides a displayed collection the debugger client no longer holds.
- `CpuDebugSession` and the recording parser are not part of this model; their answers arrive with the completions.
- The other import panels, which repeat the ticket pattern, the ordered-program sources and the semantic-reference sketches.
