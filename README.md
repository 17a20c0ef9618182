# One-dimensional diffusion engine, modelled in Dafny

This project models the stencil-update engine of `PLPP1.cpp`. That program
diffuses heat along a rod of `N` samples. It keeps two global buffers:
`U` holds the current field and `U_new` the next one. `initialize` zeroes
both buffers and puts an impulse of 100 at the midpoint of `U`. Each of the
`T` time steps then does two things:

- it runs the stencil `U_new[i] = 0.5 * (U[i-1] + U[i+1])` over the interior
  indices `1 .. N-2`;
- it commits `U_new` into `U`, either with an element loop or with one `memcpy`.

There are four drivers. Two are sequential: one records snapshots, one is
for timing. Two are OpenMP versions of these, in which the loops are split
among the threads of a team.

Samples are Dafny `real`s, so arithmetic is exact. `N >= 3` and `T >= 0`
are parameters; the program fixes them at 50000 and 2000.

Modules:

- `Diffusion` (`diffusion.dfy`) gives the value semantics of one step.
  `Sweep` is the loop `for i in [lo, hi): dst[i] = Body(p, src, i)` for a
  pass `p`: either the stencil or the copy. `StencilPass` and `Commit` are
  the two full loops. `Step` is one time step and `Run` is `t` steps. The
  module proves what a step writes and that the field stays bounded and
  never gains a larger maximum.
- `Partition` (`partition.dfy`) models the `omp for` work split without
  threads. A loop range is cut into chunks and the chunks run one after
  another, in any order. The module proves that any chunk list covering the
  range gives the same buffer as the sequential loop. It also proves that a
  static block split is a disjoint cover.
- `Snapshots` (`snapshots.dfy`) gives the steps at which a snapshot is taken.
- `Engine` (`engine.dfy`) holds the class `Simulation`. It has the two
  buffers as `array<real>` fields and the source's loops as methods with
  `modifies` frames. Each driver is proved to leave the buffers equal to
  `Run(old state, T)`. The parallel drivers take one split per step, which
  may differ from step to step. So for any covering splits they are proved
  to compute exactly what the sequential drivers compute, and to record the
  same snapshots.

## Model

| member | source | states |
|---|---|---|
| `Diffusion.SweepAt` | PLPP1.cpp:36-40 | `Sweep`, a `for` loop over `[lo, hi)` writes its body's value at exactly the indices of that range and leaves every other sample of the written buffer as it was |
| `Diffusion.StencilPassAt` | PLPP1.cpp:36-37 | after one stencil pass (`StencilPass`, the loop over `1 .. N-2`), every interior `U_new[i]` is `0.5 * (U[i-1] + U[i+1])`; `U_new[0]` and `U_new[N-1]` are unchanged |
| `Diffusion.CommitCopiesAll` | PLPP1.cpp:39-40 | the element-loop commit (`Commit`) makes `U` equal to `U_new` element by element, whatever `U` held before |
| `Diffusion.StepAt` | PLPP1.cpp:36-40 | after one step (`Step`: stencil pass, then commit) both buffers hold the same field; its interior is the neighbour average of the old `U`; its boundary samples are those of the old `U_new`, not of the old `U` |
| `Diffusion.StepWithin` | PLPP1.cpp:36-40 | if `U` and the two boundary samples of `U_new` lie in `[lo, hi]`, then after a step every sample of both buffers lies in `[lo, hi]` |
| `Diffusion.RunFromInitial` | PLPP1.cpp:13-44 | starting from `initialize` (`Initial`), after any number of steps (`Run`), `U[0]`, `U[N-1]`, `U_new[0]` and `U_new[N-1]` are 0 and every sample is in `[0, 100]` |
| `Diffusion.StepMaxNonIncreasing` | PLPP1.cpp:36-40 | a step does not raise the field's maximum when the boundary samples of `U_new` are at most that maximum |
| `Diffusion.MaxNonIncreasingFromInitial` | PLPP1.cpp:13-44 | starting from `initialize`, the field's maximum never increases from one step to the next |
| `Diffusion.MaxIsInteriorAbsMax` | PLPP1.cpp:13-44 | starting from `initialize`, after any number of steps the field's maximum is attained at an interior sample and bounds the absolute value of every sample, so it is the largest absolute interior value |
| `Diffusion.FiveSampleStep` | PLPP1.cpp:13-40 | with 5 samples, one step from the impulse gives `[0, 50, 0, 50, 0]` |
| `Partition.RunChunksAt` | PLPP1.cpp:64-66 | running the chunks one after another (`RunChunks`) of a split loop writes the loop body's value at exactly the covered indices; every covered index is inside the loop's range |
| `Partition.PartitionMatchesLoop` | PLPP1.cpp:64-70 | any chunk list that covers a loop's range, in any order, leaves the same buffer as the single sequential loop; this holds for the stencil and for the copy |
| `Partition.ChunkOrderIrrelevant` | PLPP1.cpp:85-87 | the same chunks run in another order leave the same buffer |
| `Partition.BlockSplitDisjoint` | PLPP1.cpp:64-66 | the chunks of a static block split (`BlockSplit`) of `[lo, hi)` among `team >= 1` threads do not overlap, so no element is written by two threads |
| `Partition.BlockSplitCoversRange` | PLPP1.cpp:64-66 | every index of `[lo, hi)` lies in some chunk of the block split |
| `Partition.BlockSplitCovers` | PLPP1.cpp:68-70 | the block split of the stencil range or the copy range is a cover of that range, which is what the split drivers require, and is disjoint, so no element is written by two threads |
| `Snapshots.ScheduleIsMultiples` | PLPP1.cpp:32-43 | `Schedule`, the snapshot steps of a `T`-step run are exactly `0, 50, 100, ...` up to `T`: there are `T / 50 + 1` of them and the j-th is `50 * j` |
| `Snapshots.ScheduleMembership` | PLPP1.cpp:42-43 | step `t` is recorded if and only if `t <= T` and `t % 50 == 0`, step 0 included |
| `Snapshots.ScheduleIncreasing` | PLPP1.cpp:34 | snapshots are recorded in strictly increasing step order |
| `Snapshots.ScheduleCounts` | PLPP1.cpp:8 | with `T = 2000` there are 41 snapshots; with `T = 500` there are 11, the last at step 500 |
| `Engine.Simulation.constructor` | PLPP1.cpp:10-11 | allocates two distinct buffers of `N` samples |
| `Engine.Simulation.Initialize` | PLPP1.cpp:13-20 | every `U[i]` and `U_new[i]` is 0 except `U[N/2]`, which is 100; the new state does not depend on the old one, so initialising twice is the same as once |
| `Engine.Simulation.StencilRange` | PLPP1.cpp:36-37 | the stencil loop over a range changes only `U_new`, at the indices of that range, and leaves `U` as it was |
| `Engine.Simulation.CopyRange` | PLPP1.cpp:39-40 | the copy loop over a range changes only `U`, at the indices of that range, and leaves `U_new` as it was |
| `Engine.Simulation.CommitBulk` | PLPP1.cpp:52 | the `memcpy` commit makes `U` equal to `U_new` and leaves `U_new` as it was, the same result as the element loop |
| `Engine.Simulation.StencilChunks` | PLPP1.cpp:64-66 | the stencil loop split into any covering chunks leaves `U_new` equal to the result of one sequential stencil pass |
| `Engine.Simulation.CopyChunks` | PLPP1.cpp:68-70 | the commit split into any covering chunks makes `U` equal to `U_new`, the same result as the element loop |
| `Engine.Simulation.SequentialUpdateSnapshots` | PLPP1.cpp:30-45 | after `T` steps the buffers equal `Run(initial, T)`; the recorded snapshots are at exactly the scheduled steps, in order, each holding `U` as of that step |
| `Engine.Simulation.SequentialUpdateTiming` | PLPP1.cpp:46-54 | the `memcpy`-commit driver leaves the buffers equal to `Run(initial, T)`, the same as the element-loop driver |
| `Engine.Simulation.ParallelUpdateSnapshots` | PLPP1.cpp:56-77 | with the stencil and the copy each split into covering chunks, with its own split for every step, the buffers and the snapshots are exactly those of the sequential snapshot driver |
| `Engine.Simulation.ParallelUpdateTiming` | PLPP1.cpp:79-93 | with the stencil split into covering chunks, a possibly different split in every step's parallel region, and one `memcpy` per step, the buffers equal `Run(initial, T)` |
| `Engine.Simulation.SnapshotRuns` | PLPP1.cpp:96-117 | for one thread count, the sequential run and the parallel snapshot run with the same block split in every step, each started from `initialize`, record identical snapshots; in each snapshot the boundary samples are 0 and every sample is in `[0, 100]` |

## Left out

- `write_snapshot` and the CSV files (PLPP1.cpp:22-28, 96-117) are file I/O. The drivers return the list of `(step, field)` rows they would write, and the text formatting is not modelled.
- OpenMP is not modelled: thread teams, `omp_set_num_threads`, implicit barriers, `omp single`, and creating a parallel region per step (PLPP1.cpp:60-91, 110, 129). A split loop is modelled as its chunks run one after another. The proofs show that the result does not depend on the order of the chunks or on their boundaries. Freedom from data races is not proved; `Partition.Disjoint` only states the no-overlap condition, and `BlockSplitDisjoint` proves it for the block split.
- The chunk boundaries OpenMP's default `schedule` actually picks are implementation-defined. The split drivers accept any covering chunk list for each step, and `BlockSplit` is one concrete static split.
- Timing with `omp_get_wtime`, the speedup and efficiency divisions, and console output (PLPP1.cpp:119-144) are wall-clock measurement and floating-point reporting.
- IEEE `double` rounding is not modelled: samples are exact reals, so the results are not claimed to be bit-identical to the C++ doubles.
- `system("pause")` (PLPP1.cpp:146) is process plumbing.
- `visualization.py` plots the CSV output with matplotlib and is not part of this model.
- `N` and `T` are parameters rather than the constants 50000 and 2000; `Snapshots.ScheduleCounts` states the counts for the program's `T`.
- Role-swap commit: a pointer swap of the two buffers is a possible alternative design. `PLPP1.cpp` always commits by copying, with the element loop or with `memcpy`, so only copying is modelled. By `Diffusion.StepAt`, the copy takes the boundary samples from `U_new`. The boundaries stay 0 because `initialize` zeroes `U_new` too.
