# Verified model of the repository's algorithms

This project models, in Dafny, the parts of the repository that hold real algorithms, and
proves properties of them. Code that the repository writes with expressions is modelled with
functions; code that works by changing state is modelled with classes and methods that are
proved against specification functions.

* **Chunked device-memory allocator** (`ChunkPlan`, `SleepWorld`, `SleepRuns`, `CumemDriver`,
  `CumemAllocator`). The ROCm path: a `Driver` any call of which may fail, releasing calls
  included, the sticky error code, the create and map loops with their rollback, sleep, wake and
  free. Every entry point is shown to take one step of a state machine, for which safety over whole
  runs is proved. The driver counts its faults, the sensible calls it refused; what the code does
  when nothing is refused is stated relative to that count.
* **Build time report** (`SharedTime`, `BuildTime`, `NinjaLog`, `BuildReport`). The log reader that
  throws away older builds, and the sweep that shares every instant of wall time among the running
  steps.
* **FP4 and FP8 quantisation and mixture-of-experts arithmetic** (`Fp4`, `Fp4Rows`, `Fp8Blocks`,
  `Fp8Cast`, `MoeKernel`, `Dispatch`, `MoeFfn`, `MoePrefill`, `KernelFfn`). Power-of-two block
  scales, nearest-code search, nibble packing, integer code conversion, the tiled kernel,
  sort-by-expert dispatch, and the execution paths of the routed experts. E2M1, E4M3 and E8M0 are
  the formats of the OCP Microscaling Formats (MX) specification v1.0.
* **Packed buffer, banned words, integer quantiser, index ranges and module trees, retries**
  (`PackedBuffer` in DeviceBuffer.dfy, `PackedRuns` in DeviceRuns.dfy, `BadWords`, `IntQuant`,
  `IndexRanges`, `ModuleSignature`, `ModuleTree`, `ModuleView`, `ModuleText`, `Retry`).

`Sums`, `Index`, `Unique`, `Sorting` and `Strings` hold sums, powers of two, index arithmetic, sorting,
joined texts, and facts about sequences and sets. Arithmetic is exact (real or integer). 64-bit
wrap-around is explicit in `ChunkPlan`.

Results where the code does not do what it seems to promise:

* An error that is already pending when `create_and_map` creates its first chunk (left by an
  earlier call, or set by a failing context call) leaves that chunk's handle behind if the creation
  succeeds: the rollback loop stops one short (`CumemAllocator.Allocator.CreateHandles`). After
  `my_malloc` it is leaked; after a wake it is in its cell until the next wake overwrites it.
* When only the access rights fail, `my_malloc` returns null with every chunk still mapped, its
  cells freed and an entry left in the Python table (`CumemAllocator.Allocator.MyMalloc`).
* A release or unmap that fails while sleeping stays with the allocation; one that fails in `my_free`
  is lost for good, and a mapping that stays keeps the whole range (`SleepRuns.RunSettles`).
* Freeing a sleeping allocation, or putting it to sleep again, releases its old handle values: if the
  driver has reused one, it takes another allocation's memory away (`SleepRuns.StaleRelease` gives a
  run). The books stay balanced if no live handle in its cells is foreign, which can be checked before
  the call, and, unless the driver refuses a sensible call, only then (`NoStale` in
  `CumemAllocator.Allocator.MyFree` and `PyUnmapAndRelease`).
* An allocation whose range was lost while falling asleep stays in the table, and sleep, wake and free
  go on working at its old address: `SleepRuns.LostRangeTaken` gives a run in which another allocation
  lives there by then. `PyUnmapAndRelease`, `PyCreateAndMap` and `MyFree` say exactly when that harms.
* A chunk size close to 2^64 bytes in the environment variable rounds up to 0, and `my_malloc` divides
  by it if no error stops it before (`CumemAllocator.Allocator.MyMalloc`, `ChunkPlan.ChunkSizeCanBeZero`;
  `ChunkPlan.AlignUpExact` says exactly when it is 0). A little below that, the sum in the number of
  chunks wraps, and `my_malloc` hands out a range with no chunk mapped in it, unless the access call on
  it fails (`ChunkPlan.PlanCanBeEmpty`; `ChunkPlan.PlanIsExactIff` says exactly when).
* Requantising a stored FP4 block is exact if and only if all its codes survive: below exponent -99
  the 1e-30 floor drops codes whose value, halved as often as needed, is not in the codebook
  (`Fp4.RequantExactIff`, `Fp4.RequantCanLose`).
* The comment in deepseek_v4_moe.py at lines 332 to 343 says that the grouped matmul zeroes rows
  it does not visit; the code passes `zero_initialize=False` and masks instead. The model follows the
  code: rows a rank does not own hold anything (`MoePrefill.UnownedRowIsArbitrary`).
* The comment above the report's warning speaks of half a second; times are in seconds and the code
  compares with 500 (`BuildTime.SummarizeEntries`).
* The integer quantiser stores its codes as int8 or uint8, so above eight bits the largest codes wrap;
  the error bound holds for all rows if and only if there are at most eight (`IntQuant.AccurateIff`).
* The zero point of the integer quantiser is cast to int32 and does not always fit
  (`IntQuant.ZeroPointFitsIff`, `IntQuant.ZeroPointCanOverflow`).
* Modules that share a submodule object can be printed as one although they differ
  (`ModuleSignature.SharedLooksAlike`): `named_modules` lists every object once, and two modules share a
  signature exactly when their trees agree once every child whose object was seen before is left out
  (`ModuleSignature.SignatureIff`).
* `get_view` after a reset shows what the earlier use left in the buffer, and zeros only in room that is
  new (`PackedBuffer.DeviceBuffer.GetView`).
* With a negative start the report's earliest time is not the least start: the loop begins again after
  every negative one (`BuildTime.Extent`).
* `kernel_fp8_ffn` gives every expert of a rank the hidden row of the rank's first one; its result is
  the routed sum for all weights if and only if no rank has two experts
  (`KernelFfn.KernelEqualsDenseIff`).

## Model
| member | source | states |
|---|---|---|
| ChunkPlan.AlignUpExact | work/vllm/csrc/cumem_allocator.cpp:341 | Rounding up in 64 bits gives the least multiple of the granularity that is enough, exactly when the addition does not wrap; when it wraps the result is 0. |
| ChunkPlan.ChunkBytesAre | work/vllm/csrc/cumem_allocator.cpp:24-42 | The chunk size is the least multiple of the granularity that is enough for the megabytes asked for, or for 256 megabytes if the variable is not set, not a number, 0, or too large for 64 bits; it is 0 exactly when rounding up passes 2^64. |
| ChunkPlan.DefaultChunks | work/vllm/csrc/cumem_allocator.cpp:20-30 | By default, with a granularity that divides 256 megabytes, every chunk but the last has 256 megabytes. |
| ChunkPlan.ChunkSizeCanBeZero | work/vllm/csrc/cumem_allocator.cpp:24-42 | An environment value that passes the overflow guard still rounds up to chunk size 0. |
| ChunkPlan.ChunkAt | work/vllm/csrc/cumem_allocator.cpp:376-391 | The subtraction in every chunk size never underflows; all chunks but the last are full. |
| ChunkPlan.PlanIsExactIff | work/vllm/csrc/cumem_allocator.cpp:366-391 | The chunks are positive, none exceeds the chunk size, and they add up to the aligned size if and only if the sum in the number of chunks does not wrap; when it wraps there is no chunk. |
| ChunkPlan.PlanCanBeEmpty | work/vllm/csrc/cumem_allocator.cpp:366-391 | An environment value for which the chunk size is right and a four-megabyte allocation gets no chunk. |
| ChunkPlan.ChunksAreAligned | work/vllm/csrc/cumem_allocator.cpp:366-391 | Every chunk is a multiple of the granularity. |
| SleepWorld.PutEntry | work/vllm/csrc/cumem_allocator.cpp:412-449 | Exchanging one allocation's holdings and leaking the rest keeps the books: the driver holds the disjoint union of the ambient state, the leaks and what the table accounts for. |
| SleepWorld.StepKeeps | work/vllm/csrc/cumem_allocator.cpp:95-560 | Every event keeps the books balanced, the reserved ranges apart, and leaked mappings inside leaked ranges; releases, unmaps and range calls may fail anywhere. |
| SleepWorld.LeakNew | work/vllm/csrc/cumem_allocator.cpp:95-193 | What a wake leaves at a range that its allocation has lost keeps the books balanced exactly if no mapping among it lies in a range that another allocation holds. |
| SleepRuns.RunKeeps | work/vllm/csrc/cumem_allocator.cpp:95-560 | The invariant holds in every state of every run, whatever mixture of events and failures. |
| SleepRuns.LeakedIsLost | work/vllm/csrc/cumem_allocator.cpp:95-560 | What is leaked is exactly what the events lost: the remains of a failed my_malloc, stray ranges, handles overwritten by a wake, what a wake leaves at a lost range, and what a free could not release. |
| SleepRuns.RunSettles | work/vllm/csrc/cumem_allocator.cpp:452-560 | Once all allocations are freed or gone, the driver holds exactly its first state and what the events lost, whatever failed on the way. |
| SleepRuns.RunRestores | work/vllm/csrc/cumem_allocator.cpp:452-560 | A run in which no event loses anything ends in the driver's first state. |
| SleepRuns.PlanIsFixed | work/vllm/csrc/cumem_allocator.cpp:149-260 | No event changes the address, size or chunks of an allocation that holds its range. |
| SleepRuns.PlanOverRun | work/vllm/csrc/cumem_allocator.cpp:149-260 | The same over any stretch of a run, through any number of sleeps and wakes. |
| SleepRuns.AwakeTiles | work/vllm/csrc/cumem_allocator.cpp:160-179 | Every byte of an awake allocation is covered by exactly one mapping of the driver, and it is one of its own chunks: no gap, no overlap. |
| SleepRuns.NothingMapped | work/vllm/csrc/cumem_allocator.cpp:369-391 | An allocation cut into no chunks is handed out with nothing mapped in it. |
| SleepRuns.AsleepHoldsRange | work/vllm/csrc/cumem_allocator.cpp:216-256 | A sleeping allocation still has its range reserved, nothing mapped in it and no handle. |
| SleepRuns.TouchingMap | work/vllm/csrc/cumem_allocator.cpp:160-179 | Whatever mapping touches an allocation's range is one of its own. |
| SleepRuns.StaleRelease | work/vllm/csrc/cumem_allocator.cpp:228-233 | A run in which freeing a sleeping allocation releases the live handle of another. |
| SleepRuns.SameBooks | work/vllm/csrc/cumem_allocator.cpp:195-261 | With the same table and leaks the books are balanced in one state of the driver only, so a call that changes nothing else must change nothing in the driver. |
| SleepRuns.LostRangeTaken | work/vllm/csrc/cumem_allocator.cpp:235-255 | A run in which another allocation has a chunk where an allocation that lost its range, and is still in the table, had its own. |
| CumemDriver.ReleaseChunks | work/vllm/csrc/cumem_allocator.cpp:228-233 | Releases the listed handles and reports the first failure; exactly those whose call failed stay; without a fault all that were live are gone. |
| CumemDriver.UnmapChunks | work/vllm/csrc/cumem_allocator.cpp:216-226 | Unmaps the first n places and reports the first failure: none exactly if every place was in use and is clear; what is not unmapped stays. |
| CumemAllocator.Allocator.Check | work/vllm/csrc/cumem_allocator.cpp:63-74 | A failing status overwrites the error code, a succeeding one keeps it. |
| CumemAllocator.Allocator.CreateHandles | work/vllm/csrc/cumem_allocator.cpp:150-159 | A new handle in every cell; or, with no error pending, nothing left unless the driver refused a release as well; or, with an error pending, exactly one creation, whose handle is left if and only if it succeeds. |
| CumemAllocator.Allocator.MapHandles | work/vllm/csrc/cumem_allocator.cpp:160-179 | Every chunk mapped behind the one before; or, at whichever chunk it fails, nothing left but what the driver refused to take back. In a free range it fails only if the driver refuses a sensible call. |
| CumemAllocator.Allocator.UndoMapping | work/vllm/csrc/cumem_allocator.cpp:164-177 | The rollback removes every mapping and handle of the attempt, except those whose call fails. |
| CumemAllocator.Allocator.CreateAndMap | work/vllm/csrc/cumem_allocator.cpp:95-193 | Success exactly if no error was pending once the context is there, all chunks were created and mapped, and access was given; otherwise what is left: everything if only access failed, the first handle if an error was pending and its creation succeeded, else nothing but what the driver refused to take back. No refusal goes unreported. |
| CumemAllocator.Allocator.UnmapAndRelease | work/vllm/csrc/cumem_allocator.cpp:195-261 | For any driver, tuple and cells: exactly what was unmapped and released is gone and all else stays; ending without an error means that every place was in use and is clear, every handle released, and the range kept. No refusal goes unreported. |
| CumemAllocator.Allocator.TearDown | work/vllm/csrc/cumem_allocator.cpp:195-261 | The same for an allocation in whatever state: only handles in its cells and mappings at its places go, all of them if the driver refuses no sensible call; if it holds its range, only its own mappings. With nothing at its places nothing is unmapped and an error is always left. |
| CumemAllocator.Allocator.CycleRange | work/vllm/csrc/cumem_allocator.cpp:235-255 | The range is kept at its old address, or it is lost and an error is set; a range got elsewhere is freed, or is astray if that fails. |
| CumemAllocator.Allocator.ReserveRange | work/vllm/csrc/cumem_allocator.cpp:322-354 | With an error pending nothing is reserved; else a range that overlaps no other. |
| CumemAllocator.Allocator.PlanChunks | work/vllm/csrc/cumem_allocator.cpp:376-391 | The loop computes the chunk plan. |
| CumemAllocator.Allocator.CreateOrGiveBack | work/vllm/csrc/cumem_allocator.cpp:425-448 | On an error the range is given back unless chunks stayed mapped or the call fails, and the cells are freed. |
| CumemAllocator.Allocator.Install | work/vllm/csrc/cumem_allocator.cpp:369-448 | From a reserved range to a table entry: one Malloc or MallocFailed step. |
| CumemAllocator.Allocator.MyMalloc | work/vllm/csrc/cumem_allocator.cpp:321-449 | One step of the state machine for every outcome but the division by 0, which happens exactly if no error is pending and the bytes asked for (256 megabytes by default) and the granularity together pass 2^64, and leaves the new range. Every chunk but the last is the least multiple of the granularity that is enough for those bytes. If the driver refuses no sensible call an allocation is handed out, every chunk of it accessible (which says nothing where the plan is empty); null exactly when an error is pending at the end, as it is after any refusal; with one pending on entry nothing changes. Everything stays mapped exactly if only the access rights failed; one handle stays exactly if the context call failed and the first creation succeeded. |
| CumemAllocator.Allocator.MyFree | work/vllm/csrc/cumem_allocator.cpp:452-560 | One Free step from whatever state of the allocation if its cells hold no foreign live handle; unless the driver refuses a sensible call, the books are balanced only then, the range is given back and nothing is lost. From a sleeping allocation nothing is unmapped and an error is always left. Where the range was lost, the books stay balanced exactly if nothing changes in the driver. Ending without an error means that the range was given back, every handle in the cells released, and no call refused. |
| CumemAllocator.Allocator.PyUnmapAndRelease | work/vllm/csrc/cumem_allocator.cpp:588-684 | One Sleep step from whatever state if the cells hold no foreign live handle; unless the driver refuses a sensible call, the books are balanced only then. Not raising means that only the range is held; what failed stays with the allocation; a sleeping allocation always raises; the error is cleared. Where the range was lost, the books stay balanced exactly if nothing changes in the driver, which without refusals means that nobody has anything at its places or in its cells. A refusal always raises. |
| CumemAllocator.Allocator.PyCreateAndMap | work/vllm/csrc/cumem_allocator.cpp:686-751 | A Wake, and it raises exactly if an error was pending or access failed; or nothing changed; or what is left stays with the allocation. With an error pending the first handle is left if and only if its creation succeeds. A sleeping allocation wakes if the driver refuses no sensible call. Where the range was lost, what is left leaks, and the books stay balanced exactly if none of it is mapped in another's range; nothing can be mapped while the range is free. A refusal always raises. |
| SharedTime.Conservation | work/vllm/tools/report_build_time_ninja.py:238-256 | The shares of all steps add up to the time in which something runs. |
| SharedTime.ShareBounds | work/vllm/tools/report_build_time_ninja.py:74-89 | A weighted duration is never negative and never exceeds the duration, so the assertion on it cannot fail. |
| SharedTime.AloneIsWhole | work/vllm/tools/report_build_time_ninja.py:66-89 | A step that nothing else runs beside is weighted with its whole duration. |
| SharedTime.BusyBound | work/vllm/tools/report_build_time_ninja.py:258-265 | The busy time is at most the span, with equality exactly when no gap is idle. |
| SharedTime.GridIndependence | work/vllm/tools/report_build_time_ninja.py:224-256 | A share does not depend on where the time axis is cut, as long as every start and end is a cut: it is a property of the intervals alone. |
| SharedTime.BusyIndependence | work/vllm/tools/report_build_time_ninja.py:224-256 | Nor does the busy time. |
| BuildTime.TimelineOf | work/vllm/tools/report_build_time_ninja.py:212-224 | The sorted events are each step's start and stop, once each, in order of time with starts first. |
| BuildTime.RunningCovers | work/vllm/tools/report_build_time_ninja.py:238-255 | Whenever time advances, the running steps are exactly those whose interval covers the gap. |
| BuildTime.StatusStep | work/vllm/tools/report_build_time_ninja.py:245-254 | An event changes only its own step's status; a stop finds its step running if and only if the step does not end before it starts. |
| BuildTime.Advance | work/vllm/tools/report_build_time_ninja.py:240-244 | Accumulated weighted time minus its value at a running step's start is that step's share so far. |
| BuildTime.Sweep | work/vllm/tools/report_build_time_ninja.py:230-256 | The dictionary lookup fails exactly when some step ends before it starts; otherwise every step gets its share, the total is the busy time, and nothing is left running. |
| BuildTime.Extent | work/vllm/tools/report_build_time_ninja.py:209-220 | Latest end, earliest time, and the sum of the ends less the sum of the starts; the earliest time is the least start after the last negative one, or that one if it comes last. |
| BuildTime.CpuTime | work/vllm/tools/report_build_time_ninja.py:66-68 | The sum of durations is the sum of the ends less the sum of the starts. |
| BuildTime.LeastStart | work/vllm/tools/report_build_time_ninja.py:209-220 | With no negative start, the earliest time is the least start of all. |
| BuildTime.SummarizeEntries | work/vllm/tools/report_build_time_ninja.py:198-292 | An empty list, a step that ends before it starts, and else a zero length raise, each exactly then; otherwise fair weights for every choice of cuts, the total at most the length if no start is negative, and the warning exactly when off by more than 500. |
| BuildTime.OneLength | work/vllm/tools/report_build_time_ninja.py:209-220 | The length the summary speaks of is determined by the steps, negative starts or not. |
| NinjaLog.CutIsOneBuild | work/vllm/tools/report_build_time_ninja.py:125-143 | In the kept lines ends never go back and all lines of a command have the same times. |
| NinjaLog.CutIsForced | work/vllm/tools/report_build_time_ninja.py:125-143 | Nothing is dropped without need: the first kept line does not fit the build current before it. |
| NinjaLog.GroupsPartition | work/vllm/tools/report_build_time_ninja.py:133-148 | One group per hash, holding exactly the names of that hash, once per line and in log order. |
| NinjaLog.LineHasGroup | work/vllm/tools/report_build_time_ninja.py:133-148 | Every line's hash has its group. |
| NinjaLog.GroupTimes | work/vllm/tools/report_build_time_ninja.py:133-148 | In one build every line has the times of its group. |
| NinjaLog.DisagreesWithGroup | work/vllm/tools/report_build_time_ninja.py:134-143 | The test against the dictionary is the test against all lines of the build. |
| NinjaLog.KeptStep | work/vllm/tools/report_build_time_ninja.py:123-147 | The reader's reset tests move the cut exactly as the definition of a new build does. |
| NinjaLog.AddRecord | work/vllm/tools/report_build_time_ninja.py:123-147 | One record updates the dictionary to the groups of the kept lines. |
| NinjaLog.ReadTargets | work/vllm/tools/report_build_time_ninja.py:104-148 | The targets are the groups of the kept suffix of the well-formed lines (of all of them with show_all), one new object each. |
| BuildReport.ReportBuild | work/vllm/tools/report_build_time_ninja.py:295-325 | Failures and result in terms of the log's lines: which logs raise, and fair weights for one target per command of the last build. |
| Fp4.ArgMin | scripts/make_tiny_v4_checkpoint.py:214-215 | The first code at least distance, as argmin returns. |
| Fp4.NearestExact | scripts/make_tiny_v4_checkpoint.py:65-71 | A codebook value is its own nearest code point. |
| Fp4.NearestError | scripts/make_tiny_v4_checkpoint.py:213-215 | In [-6, 6] the nearest code is off by at most half the widest gap near x. |
| Fp4.Exponent | scripts/make_tiny_v4_checkpoint.py:165-170 | The least exponent in [-127, 127] whose power of two is enough. |
| Fp4.FloorExponent | scripts/make_tiny_v4_checkpoint.py:169 | 2^-100 < 1e-30 < 2^-99, so no stored exponent is below -99. |
| Fp4.ReconExactIff | scripts/make_tiny_v4_checkpoint.py:199-232 | Quantising and dequantising under a scale is exact precisely on that scale's code points. |
| Fp4.Rescaled | scripts/make_tiny_v4_checkpoint.py:65-71 | The codebook is closed under doubling up to 6: a code point of a larger scale is one of a smaller scale if it is in range. |
| Fp4.RequantLossless | scripts/make_tiny_v4_checkpoint.py:199-232 | Requantising a dequantised block of exponent at least -99 loses nothing. |
| Fp4.SurvivesIff | scripts/make_tiny_v4_checkpoint.py:65-71 | For every exponent below -99, which codes are code points at exponent -99: all but 0.5 and 1.5 one below, then 2, 4 and 6, then 4, then only zero. |
| Fp4.RequantExactIff | scripts/make_tiny_v4_checkpoint.py:165-170 | For every stored block, requantising loses nothing if and only if all its codes survive. |
| Fp4.RequantCanLose | scripts/make_tiny_v4_checkpoint.py:165-170 | A block that does lose: the code of 0.5 at exponent -100. |
| Fp4.BlockError | scripts/make_tiny_v4_checkpoint.py:199-232 | Up to block maximum 6 * 2^127 no element is clamped and each is reconstructed within one scale unit. |
| Fp4.UnitBelowThird | scripts/make_tiny_v4_checkpoint.py:165-170 | The scale unit is below a third of the block maximum exactly when that is above 3 * 2^-99; always when it is at least 6e-30. |
| Fp4Rows.PackUnpack | scripts/make_tiny_v4_checkpoint.py:216-230 | Both nibbles survive packing, the low one first. |
| Fp4Rows.Elementwise | scripts/make_tiny_v4_checkpoint.py:199-232 | Through packing and unpacking, element i is reconstructed under the scale of its own block and no other. |
| Fp4Rows.RequantRow | scripts/make_tiny_v4_checkpoint.py:199-232 | Requantising a stored row with exponents of at least -99 gives the same values. |
| Fp4Rows.Projection | scripts/make_tiny_v4_checkpoint.py:199-232 | Quantisation is a projection on values, for every row of reals. |
| Fp4Rows.BytesMayChange | scripts/make_tiny_v4_checkpoint.py:199-232 | The bytes need not be the same: a block with largest code 3 gets a halved scale. |
| Fp4Rows.RowError | scripts/make_tiny_v4_checkpoint.py:199-232 | Every element of a row is within one unit of its block's scale. |
| Fp8Blocks.PermuteAt | scripts/make_tiny_v4_checkpoint.py:180-186 | Where the permute and the reshape put every element of any four-dimensional view. |
| Fp8Blocks.PermuteInverse | scripts/make_tiny_v4_checkpoint.py:190-196 | Permuting back restores the layout. |
| Fp8Blocks.PerBlockAt | scripts/make_tiny_v4_checkpoint.py:173-196 | The whole view, permute, reshape pipeline is elementwise: entry (o, i) uses entry (o div block, i div block) of the scales. |
| Fp8Blocks.RoundTripElementwise | scripts/make_tiny_v4_checkpoint.py:173-196 | Quantise then dequantise: each entry is divided, cast and multiplied by its own square's scale and comes back to its place. |
| Fp8Blocks.BlockSliceAt | scripts/make_tiny_v4_checkpoint.py:180-181 | The absolute maximum of a block is taken over exactly its square. |
| Fp8Blocks.ScaleIsTight | scripts/make_tiny_v4_checkpoint.py:165-184 | A block's scale is the least that is enough: 448 units reach the block's maximum and are less than twice that, unless the scale is at its floor 2^-99, which it is whenever that is enough. |
| Fp8Blocks.ClampInactive | scripts/make_tiny_v4_checkpoint.py:181-185 | The clamp to 448 changes nothing while the block maximum is at most 448 * 2^127. |
| Fp8Cast.BytesAreE4M3 | scripts/make_tiny_v4_checkpoint.py:186 | Every e4m3 byte but the two NaNs has a value of the four-bit grid the cast is stated over. |
| Fp8Cast.SomeCastRounds | scripts/make_tiny_v4_checkpoint.py:186 | A cast that rounds to nearest exists: what is proved of every such cast is not empty. |
| Fp8Cast.CastError | scripts/make_tiny_v4_checkpoint.py:186 | Rounding to nearest is off by at most a sixteenth of the value or half the smallest step. |
| Fp8Cast.Rescaled8 | scripts/make_tiny_v4_checkpoint.py:185-186 | e4m3 is closed under doubling up to 448: a value under one scale is a value under any smaller scale it fits. |
| Fp8Cast.Projection8 | scripts/make_tiny_v4_checkpoint.py:173-196 | FP8 block quantisation is a projection on values, for every weight and every cast that rounds to nearest. |
| Fp8Cast.EntryError8 | scripts/make_tiny_v4_checkpoint.py:173-196 | Every entry comes back within a sixteenth of itself or 2^-10 of its block's scale. |
| MoeKernel.FormulasAgree | scripts/perf_microbench_fp4_unpack.py:74-107 | The three integer formulas give the same byte for every nibble. |
| MoeKernel.Lossless | scripts/perf_microbench_fp4_unpack.py:84-93 | That e4m3 byte has exactly the codebook's value. |
| MoeKernel.PackedBytes | scripts/perf_dense_fp8_moe_kernel.py:114-120 | The four bytes come back out of a little-endian word. |
| MoeKernel.TransportRoundTrip | scripts/perf_dense_fp8_moe_kernel.py:107-120 | Swapping axes, packing four along IN and expanding gives the bytes in IN order. |
| MoeKernel.ScaleAfterBlock | scripts/perf_dense_fp8_moe_kernel.py:58-74 | Scaling each block's product equals scaling every weight first. |
| MoeKernel.ColumnOf | scripts/perf_dense_fp8_moe_kernel.py:125-148 | Every output column belongs to a tile. |
| MoeKernel.OneWriter | scripts/perf_dense_fp8_moe_kernel.py:125-148 | No column belongs to two tiles. |
| MoeKernel.RunTile | scripts/perf_dense_fp8_moe_kernel.py:40-74 | One grid program writes its tile and nothing else. |
| MoeKernel.DenseMatvec | scripts/perf_dense_fp8_moe_kernel.py:77-150 | In whatever order the grid runs, every output is the matvec of the dequantised weights. |
| MoeKernel.StoredWeight | scripts/perf_microbench_fp4_unpack.py:84-93 | Nibble, integer conversion and scale byte give exactly the stored row's dequantised value. |
| MoeKernel.MatvecOfStored | scripts/perf_dense_fp8_moe_kernel.py:77-150 | End to end from packed FP4 rows to the matvec of the dequantised rows. |
| Dispatch.ScatterIsInverse | scripts/perf_microbench_moe_prefill.py:217-222 | The scatter is the two-sided inverse of every permutation. |
| Dispatch.SomeArgsort | scripts/perf_microbench_moe_prefill.py:204-212 | Every list of keys has a stable argsort: what is proved of every argsort is not empty. |
| Dispatch.OneArgsort | scripts/perf_microbench_moe_prefill.py:204-212 | And only one. |
| Dispatch.InverseBySortOrScatter | scripts/perf_microbench_moe_prefill.py:212-222 | The second argsort and the scatter give the same inverse. |
| Dispatch.SortedBelow | scripts/perf_microbench_moe_prefill.py:204-209 | Sorted rows below a group are those before its start. |
| Dispatch.GroupStartCounts | scripts/perf_microbench_moe_prefill.py:146-156 | Prefix sums of group sizes count the rows of lower experts. |
| Dispatch.GroupInterval | scripts/perf_microbench_moe_prefill.py:146-156 | Each expert's rows are one contiguous interval given by the prefix counts. |
| Dispatch.SortApplyRevert | scripts/perf_microbench_moe_prefill.py:146-156 | Sort by expert, apply any function of a row and its interval's expert, gather back: every row has the function applied with its own expert. |
| MoeFfn.BlockByBlockIsRepeat | scripts/perf_microbench_moe_decode.py:130-142 | The broadcast per block equals the product with repeated scales. |
| MoeFfn.ForwardIsFfn | work/tpu-inference/tpu_inference/layers/jax/moe/deepseek_v4_moe.py:186-201 | The reference for one expert, clipping included, is what the parts of the other paths compute. |
| MoeFfn.WeightAfterDown | scripts/perf_microbench_moe_decode.py:124-127 | Weighting before the down projection is weighting after it. |
| MoeFfn.DenseByExpert | work/tpu-inference/tpu_inference/layers/jax/moe/deepseek_v4_moe.py:319-330 | The dense path is the weighted sum of the experts' outputs. |
| MoeFfn.OneHotSlot | work/tpu-inference/tpu_inference/layers/jax/moe/deepseek_v4_moe.py:283-287 | Only the slot's own expert survives the one-hot. |
| MoeFfn.ExpertTerm | work/tpu-inference/tpu_inference/layers/jax/moe/deepseek_v4_moe.py:283-287 | An expert's weighted output is the sum of its slots' contributions. |
| MoeFfn.DenseIsRouted | work/tpu-inference/tpu_inference/layers/jax/moe/deepseek_v4_moe.py:283-330 | The dense path over all experts is the sum of the one-expert reference over each token's slots, also when a token names an expert twice. |
| MoePrefill.Orientation | scripts/quant_gmm_fp4_orient_check.py:56-116 | The operand holds exactly the dequantised weight in [group, in, out] layout; the concatenation has gate first and up second, on every shard. |
| MoePrefill.FlatAt | work/tpu-inference/tpu_inference/layers/jax/moe/deepseek_v4_moe.py:380 | The flattened routing holds every token's slots one token after another, so slot s of token t stands at t * top_k + s. |
| MoePrefill.OneGroup | scripts/quant_gmm_fp4_orient_check.py:9 | No row is in two groups, so the matmul's contract never asks for two values in one place. |
| MoePrefill.SomeRan | work/tpu-inference/tpu_inference/layers/jax/moe/deepseek_v4_moe.py:370-410 | Buffers that meet the contract of both matmuls exist for all weights, inputs and routings: what is proved of every such run is not empty. |
| MoePrefill.OwnedProjection | scripts/quant_gmm_fp4_orient_check.py:9 | An owned row of the grouped matmul is the projection by that expert's weight. |
| MoePrefill.OwnedHidden | work/tpu-inference/tpu_inference/layers/jax/moe/deepseek_v4_moe.py:396-403 | Split, clip and activate on an owned row give the expert's hidden row. |
| MoePrefill.OwnedRow | scripts/perf_microbench_moe_prefill.py:115-131 | An owned row ends as its expert's output. |
| MoePrefill.OneOwner | work/tpu-inference/tpu_inference/layers/jax/moe/deepseek_v4_moe.py:419 | Each expert is owned by exactly one rank. |
| MoePrefill.RevertedRow | work/tpu-inference/tpu_inference/layers/jax/moe/deepseek_v4_moe.py:380-418 | After the revert gather, a slot's row on its owner is its expert's output for its own token. |
| MoePrefill.SlotSum | work/tpu-inference/tpu_inference/layers/jax/moe/deepseek_v4_moe.py:418-423 | Over all ranks a slot counts once. |
| MoePrefill.PrefillIsRouted | work/tpu-inference/tpu_inference/layers/jax/moe/deepseek_v4_moe.py:370-425 | The sharded prefill path computes the sum of the one-expert reference over each token's slots, whatever the rows of other ranks hold. |
| MoePrefill.PrefillEqualsDense | work/tpu-inference/tpu_inference/layers/jax/moe/deepseek_v4_moe.py:303-425 | The prefill path and the dense path agree. |
| MoePrefill.UnownedRowIsArbitrary | work/tpu-inference/tpu_inference/layers/jax/moe/deepseek_v4_moe.py:411-420 | Without the mask the result could be anything: an unowned slot's row may hold any value. |
| MoePrefill.LocalFfn | scripts/perf_microbench_moe_decode.py:251-258 | One rank's experts, renumbered, compute what they compute in the whole layer. |
| MoePrefill.FusedRow | scripts/perf_microbench_moe_decode.py:259-267 | Row e of the fused path is local expert e's output on the token. |
| MoePrefill.FusedEqualsDense | scripts/perf_microbench_moe_decode.py:116-278 | The fused decode path equals the dense path for every number of ranks. |
| KernelFfn.DenseOutIs | scripts/perf_microbench_moe_decode.py:116-127 | The dense path of one token, in the form the kernel path is compared with. |
| KernelFfn.MatvecIsProject | scripts/perf_dense_fp8_moe_kernel.py:77-150 | On a rank's share of the weights the tiled kernel's matvec is the projection by the dequantised weights of the right expert. |
| KernelFfn.RankKernel | scripts/perf_microbench_moe_decode.py:293-302 | A rank's three calls of the tiled kernel, in any grid order, compute the terms that the comparison with the dense path sums over the ranks. |
| KernelFfn.OneExpertEach | scripts/perf_microbench_moe_decode.py:280-302 | With one expert on every rank the kernel path is the dense path. |
| KernelFfn.KernelEqualsDenseIff | scripts/perf_microbench_moe_decode.py:280-302 | The kernel path equals the dense path for all weights and inputs if and only if no rank has two experts. |
| PackedBuffer.DeviceBuffer.constructor | work/tpu-inference/tpu_inference/utils.py:430-435 | An empty buffer of the given capacity. |
| PackedBuffer.DeviceBuffer.EnsureCapacity | work/tpu-inference/tpu_inference/utils.py:437-444 | Makes room, replaces the array exactly when the data does not fit, by at least twice its size and with zeros behind the data; keeps the contents; all copying is paid for by the capacity gained. |
| PackedBuffer.DeviceBuffer.Append | work/tpu-inference/tpu_inference/utils.py:446-453 | The data joins what is pending, or with a key that is not the empty string becomes a section; older sections are unchanged. |
| PackedBuffer.DeviceBuffer.SetKey | work/tpu-inference/tpu_inference/utils.py:472-477 | Everything added since the last tag becomes one section. |
| PackedBuffer.DeviceBuffer.GetView | work/tpu-inference/tpu_inference/utils.py:455-470 | A window on the room just reserved, whose data counts as appended, and is tagged under a key that is not the empty string: zeros in new room, what was there before in old room. |
| PackedBuffer.DeviceBuffer.WriteView | work/tpu-inference/tpu_inference/utils.py:466-470 | A write through a view changes the buffer exactly as long as it has not grown since: in the part in use the contents, behind it what a later view will find. |
| PackedBuffer.DeviceBuffer.Build | work/tpu-inference/tpu_inference/utils.py:479-482 | The contents and a layout that cuts them into the tagged sections. |
| PackedBuffer.DeviceBuffer.Reset | work/tpu-inference/tpu_inference/utils.py:484-489 | Nothing tagged, nothing pending, and all the data left behind as room. |
| PackedBuffer.SectionAt | work/tpu-inference/tpu_inference/utils.py:498-500 | Section i is the data between two running totals of the sizes. |
| PackedBuffer.PartIsSection | work/tpu-inference/tpu_inference/utils.py:498-500 | A split part is its section; only the last also gets what was never tagged. |
| PackedBuffer.UnpackAt | work/tpu-inference/tpu_inference/utils.py:501 | With distinct keys every key maps to its own part. |
| PackedBuffer.UnpackExactIff | work/tpu-inference/tpu_inference/utils.py:491-501 | With distinct keys unpacking gives every key exactly the data tagged with it if and only if nothing is untagged or there is no key. |
| PackedRuns.WriteInOne | work/tpu-inference/tpu_inference/utils.py:466-470 | A write into a section changes one position and neither keys nor sizes. |
| PackedRuns.WrittenShows | work/tpu-inference/tpu_inference/utils.py:466-482 | Writing at a position of the part in use is writing into the section, or the pending data, that lies there. |
| PackedRuns.LaidIs | work/tpu-inference/tpu_inference/utils.py:479-489 | The sections laid end to end are the tagged part of the buffer, so a reset leaves exactly that data behind. |
| PackedRuns.CopyingIsPaid | work/tpu-inference/tpu_inference/utils.py:437-444 | Over any sequence of operations, all copying by growth adds up to at most the capacity gained. |
| PackedRuns.KeysGiven | work/tpu-inference/tpu_inference/utils.py:446-489 | The names of the sections are exactly the non-empty keys given with data, and the names given to set_key, since the last reset. |
| PackedRuns.Perform | work/tpu-inference/tpu_inference/utils.py:437-489 | Each operation on the buffer does what it means for the sections, the pending data, the room behind it, the copying so far and the views. |
| PackedRuns.Run | work/tpu-inference/tpu_inference/utils.py:423-501 | Any sequence of operations, then build and unpack: the names unpacked are exactly those given since the last reset; with distinct keys every key maps to exactly its section, writes through views and what is left from before a reset included, if and only if nothing is untagged or there is no key. |
| BadWords.NoBadWordsLogitsProcessor.InitWordBias | work/vllm/vllm/logits_process.py:89-121 | Fails exactly on a token outside the vocabulary; else bans exactly the one-token words. |
| BadWords.NoBadWordsLogitsProcessor.Call | work/vllm/vllm/logits_process.py:56-87 | A token that completes a bad word ends at minus infinity (NaN if it was NaN or plus infinity), all others come back unchanged; ValueError exactly if some word has a token that is negative or not in the vocabulary, IndexError exactly if else some word is empty. |
| BadWords.BannedSplit | work/vllm/vllm/logits_process.py:66-85 | The stored bias and the bias of the call together cover all words. |
| BadWords.CompletesIsEndsAt | work/vllm/vllm/logits_process.py:73-84 | A token completes a word exactly when the word then ends there. |
| BadWords.CleanIffNoBannedStep | work/vllm/vllm/logits_process.py:48-87 | A generation has no bad word exactly when no step took a banned token. |
| BadWords.CleanStep | work/vllm/vllm/logits_process.py:48-87 | One more token that is not banned keeps a generation clean. |
| BadWords.Generate | work/vllm/vllm/logits_process.py:48-87 | Whatever the model's logits and whichever token above minus infinity is sampled, no bad word is ever completed; a generation ends early only where every token is banned or has no such logit. |
| IntQuant.SymmetricRange | work/vllm/vllm/_xpu_ops.py:285-293 | Symmetric quotients are inside [-qmax, qmax]. |
| IntQuant.AsymmetricRange | work/vllm/vllm/_xpu_ops.py:285-296 | Asymmetric quotients exceed [0, qmax] by at most a half. |
| IntQuant.CodeError | work/vllm/vllm/_xpu_ops.py:285-301 | A clamped code is within a half of the exact quotient; the most negative code never occurs in symmetric mode. |
| IntQuant.StoreExact | work/vllm/vllm/_xpu_ops.py:298-302 | Up to eight bits the cast to int8 or uint8 changes no code. |
| IntQuant.ReconstructionError | work/vllm/vllm/_xpu_ops.py:277-307 | Reconstruction is off by at most half a scale step for every row and mode up to eight bits. |
| IntQuant.ScaleIs | work/vllm/vllm/_xpu_ops.py:285-295 | qmax scale steps are exactly the span of the row (largest magnitude, or largest less least element), unless that is below qmax hundred-thousandths, and then a step is 0.00001. |
| IntQuant.AbsoluteError | work/vllm/vllm/_xpu_ops.py:277-307 | So up to eight bits the error of every element is at most span / (2 qmax), or half a hundred-thousandth if that is more. |
| IntQuant.LargestCode | work/vllm/vllm/_xpu_ops.py:285-301 | In symmetric mode an element of the largest magnitude gets code qmax or -qmax. |
| IntQuant.LeastCode | work/vllm/vllm/_xpu_ops.py:294-301 | In asymmetric mode a least element gets code 0. |
| IntQuant.NineBits | work/vllm/vllm/_xpu_ops.py:298-302 | The largest value of a nine-bit row is stored as -1. |
| IntQuant.AccurateIff | work/vllm/vllm/_xpu_ops.py:277-307 | All rows are reconstructed within half a step if and only if there are at most eight bits. |
| IntQuant.ZeroPointFitsIff | work/vllm/vllm/_xpu_ops.py:294-296 | The zero point fits int32 if and only if the row minimum is less than 2^31 - 1/2 scale steps from zero. |
| IntQuant.ZeroPointCanOverflow | work/vllm/vllm/_xpu_ops.py:294-296 | A constant row far from zero has a zero point that does not fit int32. |
| IntQuant.GroupClampInactive | work/vllm/vllm/_xpu_ops.py:468-493 | With or without the power-of-two scale the FP8 clamp to 448 changes nothing; 448 scale units are at least the group's maximum (or its floor) and less than twice that. |
| IntQuant.SomePower | work/vllm/vllm/_xpu_ops.py:478-484 | Every positive scale has exactly one power of two in [s, 2s). |
| IndexRanges.ReadShow | work/vllm/vllm/model_inspection.py:54-57 | Decimal numbers read back. |
| IndexRanges.ParseShowInt | work/vllm/vllm/model_inspection.py:54-57 | A number, negative ones with their sign, reads back whatever follows it. |
| IndexRanges.ParseShowRange | work/vllm/vllm/model_inspection.py:54-57 | One printed range reads back and leaves the rest. |
| IndexRanges.ParseShow | work/vllm/vllm/model_inspection.py:54-58 | A printed list of ranges reads back. |
| IndexRanges.RangesOf | work/vllm/vllm/model_inspection.py:44-57 | The ranges expand to the sorted list and are separated by gaps when the indices are distinct. |
| IndexRanges.FormatIndexRanges | work/vllm/vllm/model_inspection.py:44-58 | The printed text, read back and expanded, is the sorted list; numbers without successors in the list are printed as they are. |
| IndexRanges.StartIsForced | work/vllm/vllm/model_inspection.py:50-55 | Any ranges that cover the same numbers have a range starting where each separated range starts. |
| IndexRanges.FewestRanges | work/vllm/vllm/model_inspection.py:50-55 | The number of ranges is the least possible. |
| ModuleSignature.ListingDetermines | work/vllm/vllm/model_inspection.py:36-41 | A listing of a tree, whatever follows it, determines the tree and where the listing ends. |
| ModuleSignature.NothingSkipped | work/vllm/vllm/model_inspection.py:36-41 | Where no module object occurs twice, named_modules lists the whole tree. |
| ModuleSignature.ListsPruned | work/vllm/vllm/model_inspection.py:36-41 | named_modules lists exactly the tree that is left when every child whose object was seen before is pruned. |
| ModuleSignature.TextDetermines | work/vllm/vllm/model_inspection.py:39-41 | The joined text determines the listing, for names without dots, colons and line breaks. |
| ModuleSignature.SignatureIff | work/vllm/vllm/model_inspection.py:36-41 | For tidy names, modules share a signature exactly when their pruned trees are the same. |
| ModuleSignature.UnsharedIff | work/vllm/vllm/model_inspection.py:36-41 | Where no object occurs twice, exactly when they are the same tree. |
| ModuleSignature.SharedLooksAlike | work/vllm/vllm/model_inspection.py:36-41 | Two modules that differ and share a signature, because one holds a module object twice. |
| ModuleTree.GroupBySignature | work/vllm/vllm/model_inspection.py:104-107 | One group per signature with all its children in order. |
| ModuleTree.Label | work/vllm/vllm/model_inspection.py:117-123 | The label of a group reads as its sorted indices. |
| ModuleTree.FormatNumbered | work/vllm/vllm/model_inspection.py:103-124 | One line per signature, with its count and label, by first index. |
| ModuleTree.ReadBack | work/vllm/vllm/model_inspection.py:103-124 | Every index is named by at most one line, and a line names a child exactly if it shows a module with that child's signature. |
| ModuleTree.ReadBackTree | work/vllm/vllm/model_inspection.py:103-124 | Every child is named by a line, and by a line exactly if the child and the module shown have the same pruned tree. |
| ModuleTree.ReadBackWhole | work/vllm/vllm/model_inspection.py:103-124 | Where neither shares an object within itself, exactly if they are the same tree. |
| ModuleView.RenderDetermines | work/vllm/vllm/model_inspection.py:79-131 | Printed lines, whatever follows them, determine heads, infos, nesting and where they end. |
| ModuleView.TextDeterminesView | work/vllm/vllm/model_inspection.py:134-136 | So does the joined text. |
| ModuleView.Looks | work/vllm/vllm/model_inspection.py:68-76 | A printed tree letter by letter, in the form the documentation of the printer shows. |
| ModuleText.FirstOnce | work/vllm/vllm/model_inspection.py:80 | Every module object stands among the listed children once. |
| ModuleText.FirstAll | work/vllm/vllm/model_inspection.py:80 | And none is missing. |
| ModuleText.FormatTree | work/vllm/vllm/model_inspection.py:61-131 | The recursive printer yields the lines of a picture of the module: numbered children by signature in order of first indices, one of each shown, then the others. |
| ModuleText.FormatModel | work/vllm/vllm/model_inspection.py:134-136 | The text of the whole model. |
| ModuleText.SamePlace | work/vllm/vllm/model_inspection.py:103-130 | In one text a printed place is the label of numbered children for every module it can stand for, or a name for every one. |
| ModuleText.PictureDetermines | work/vllm/vllm/model_inspection.py:61-131 | Modules with the same picture are the same tree up to the order of children, collapsed groups included. |
| ModuleText.TextDeterminesModel | work/vllm/vllm/model_inspection.py:134-136 | The text of a model with clean names and no shared object determines the model up to the order of children. |
| Retry.SleptIsGeometric | work/vllm/vllm/connections.py:136-148 | After j retries (4^j - 1) / 3 seconds have been slept. |
| Retry.Downloader.DownloadFile | work/vllm/vllm/connections.py:338-363 | A return leaves exactly the chunks, a raise leaves no file. |
| Retry.Downloader.DownloadWithRetry | work/vllm/vllm/connections.py:108-151 | At most max(retries, 1) calls, the first with the given timeout and each other with four times the one before; every call but the last failed with a timeout, a lost connection or a status of 500 or more; stops at the first success or other error and never reaches the final assertion; what is left on disk. |

## Left out
- CumemAllocator.Allocator.MyFree: requires the aligned size and cells that were not freed; after a failed `my_malloc` the table keeps an address whose cells are gone, and reading them is not modelled.
- CumemAllocator.Allocator.PyUnmapAndRelease: requires cells that were not freed, as the wake does.
- CumemAllocator.Allocator.MyMalloc: ends with the division by 0; that the process does not survive it is not modelled.
- Fp8Blocks.RoundTripElementwise: says nothing of the cast; what the cast promises and its consequences are in `Fp8Cast`.
- MoeKernel.MatvecOfStored: the E8M0 byte 255, which stands for NaN, is excluded by the exponent range.
- MoePrefill.PrefillEqualsDense: the grouped matmul is given by its contract, and argsort is a stable sort; the matmul kernel's own code is not part of this model.
- IntQuant.ReconstructionError: codes outside the storage type are taken to wrap, as an integer cast does.
- PackedBuffer.DeviceBuffer.GetView: a view has a size and no shape; int32 wrap-around of elements is not modelled.
- PackedRuns.Run: a write with an index outside its view does nothing, where numpy raises.
- ModuleText.FormatTree: what `int` makes of a name is any function, infos are given, and `lstrip` removes ASCII blanks.
- ModuleText.TextDeterminesModel: the order in which children stand in a module is not printed and so not read back.
- KernelFfn.RankKernel: one rank; the sum over the ranks is `KernelFfn.Kernel`.
- IndexRanges.FormatIndexRanges: requires a non-empty list; the printer calls it with two or more.
- Retry.Downloader.DownloadWithRetry: one url at a time and the synchronous wrapper; the asynchronous one has the same loop.
- IEEE rounding, bf16 casts and the float log2: arithmetic is exact.
- The CUDA path of the allocator, reference counts, argument parsing, failing host malloc and a missing Python callback.
- The Python side of the allocator (tags, CPU backups) in cumem.py.
- Collectives other than the sum over ranks, and padding rows: tensors are functions of their indices.
- Splitting log lines at tabs and parse errors of their numbers; grouping by file extension and printing.
- How bad words are tokenised with and without a leading space.
- The cache gather in _xpu_ops.py, whose strides do not match the writer's layout.
- HTTP clients, benchmark drivers, servers, argument parsers and build scripts: input and output or easy facts.
