/**
 The simulation state and its drivers: two buffers of N samples, U (the
 current field) and UNew (the next field), overwritten in place by the
 initialiser, the stencil loop and the commit. Each driver is proved to
 leave the buffers as Run prescribes, so the two parallel drivers are
 proved to compute what the sequential ones compute.
 */
module Engine {
  import opened Diffusion
  import opened Partition
  import opened Snapshots

  /** A recorded row: the step index and the current field after that step. */
  datatype Snapshot = Snapshot(t: nat, field: seq<real>)

  class Simulation {
    /** The number of samples (50000 in the program). */
    const N: nat
    /** The current field. */
    var U: array<real>
    /** The next field, written by the stencil. */
    var UNew: array<real>

    /** Two distinct buffers of N >= 3 samples each. */
    ghost predicate Valid()
      reads this
    {
      N >= 3 && U.Length == N && UNew.Length == N && U != UNew
    }

    /** The contents of the two buffers. */
    ghost function State(): (b: Buffers)
      reads this, U, UNew
      requires Valid()
      ensures WellSized(b) && |b.u| == N
    {
      Buffers(U[..], UNew[..])
    }

    constructor (n: nat)
      requires n >= 3
      ensures Valid() && N == n && fresh(U) && fresh(UNew)
    {
      N := n;
      U := new real[n];
      UNew := new real[n];
    }

    /**
     Zero both buffers, then put the impulse 100 at the midpoint of U. The
     result does not depend on what the buffers held, so initialising twice
     is the same as initialising once.
     */
    method Initialize()
      requires Valid()
      modifies U, UNew
      ensures forall i :: 0 <= i < N ==> U[i] == (if i == N / 2 then 100.0 else 0.0) && UNew[i] == 0.0
      ensures State() == Initial(N)
    {
      for i := 0 to N
        invariant forall j :: 0 <= j < i ==> U[j] == 0.0 && UNew[j] == 0.0
      {
        U[i] := 0.0;
        UNew[i] := 0.0;
      }
      U[N / 2] := 100.0;
      assert U[..] == Initial(N).u;
      assert UNew[..] == Initial(N).uNew;
    }

    /** The stencil loop over [lo, hi): reads U only, writes UNew[i] for i in the range only. */
    method StencilRange(lo: int, hi: int)
      requires Valid()
      requires 1 <= lo <= hi <= N - 1
      modifies UNew
      ensures U[..] == old(U[..])
      ensures UNew[..] == Sweep(Stencil, U[..], old(UNew[..]), lo, hi)
    {
      for i := lo to hi
        invariant Sweep(Stencil, U[..], UNew[..], i, hi) == Sweep(Stencil, U[..], old(UNew[..]), lo, hi)
      {
        UNew[i] := 0.5 * (U[i - 1] + U[i + 1]);
      }
    }

    /** The copy loop over [lo, hi): reads UNew only, writes U[i] for i in the range only. */
    method CopyRange(lo: int, hi: int)
      requires Valid()
      requires 0 <= lo <= hi <= N
      modifies U
      ensures UNew[..] == old(UNew[..])
      ensures U[..] == Sweep(Copy, UNew[..], old(U[..]), lo, hi)
    {
      for i := lo to hi
        invariant Sweep(Copy, UNew[..], U[..], i, hi) == Sweep(Copy, UNew[..], old(U[..]), lo, hi)
      {
        U[i] := UNew[i];
      }
    }

    /** The bulk copy of UNew into U (one memcpy of all N samples). */
    method CommitBulk()
      requires Valid()
      modifies U
      ensures UNew[..] == old(UNew[..])
      ensures U[..] == UNew[..]
    {
      forall i | 0 <= i < N {
        U[i] := UNew[i];
      }
    }

    /**
     The stencil loop split into chunks, one per thread, run one after
     another: UNew ends as after the single sequential loop.
     */
    method StencilChunks(parts: seq<Chunk>)
      requires Valid()
      requires Covers(Stencil, parts, N)
      modifies UNew
      ensures U[..] == old(U[..])
      ensures UNew[..] == StencilPass(U[..], old(UNew[..]))
    {
      ghost var v0 := UNew[..];
      for j := 0 to |parts|
        invariant U[..] == old(U[..])
        invariant Fits(Stencil, parts[j..], N)
        invariant RunChunks(Stencil, U[..], UNew[..], parts[j..]) == RunChunks(Stencil, U[..], v0, parts)
      {
        assert parts[j..][0] == parts[j] && parts[j..][1..] == parts[j + 1..];
        StencilRange(parts[j].lo, parts[j].hi);
      }
      PartitionMatchesLoop(Stencil, U[..], v0, parts);
    }

    /**
     The copy commit split into chunks, one per thread, run one after
     another: U ends equal to UNew, as after the single element loop.
     */
    method CopyChunks(parts: seq<Chunk>)
      requires Valid()
      requires Covers(Copy, parts, N)
      modifies U
      ensures UNew[..] == old(UNew[..])
      ensures U[..] == Commit(UNew[..], old(U[..]))
      ensures U[..] == UNew[..]
    {
      ghost var u0 := U[..];
      for j := 0 to |parts|
        invariant UNew[..] == old(UNew[..])
        invariant Fits(Copy, parts[j..], N)
        invariant RunChunks(Copy, UNew[..], U[..], parts[j..]) == RunChunks(Copy, UNew[..], u0, parts)
      {
        assert parts[j..][0] == parts[j] && parts[j..][1..] == parts[j + 1..];
        CopyRange(parts[j].lo, parts[j].hi);
      }
      PartitionMatchesLoop(Copy, UNew[..], u0, parts);
      CommitCopiesAll(UNew[..], u0);
    }

    /**
     T steps of stencil loop and element-loop commit, recording a snapshot
     of U at step 0 and after every step that is a multiple of 50.
     */
    method SequentialUpdateSnapshots(T: nat) returns (snaps: seq<Snapshot>)
      requires Valid()
      modifies U, UNew
      ensures State() == Run(old(State()), T)
      ensures |snaps| == |Schedule(T)|
      ensures forall j :: 0 <= j < |snaps| ==>
        snaps[j] == Snapshot(Schedule(T)[j], Run(old(State()), Schedule(T)[j]).u)
    {
      ghost var b0 := State();
      snaps := [Snapshot(0, U[..])];
      for t := 1 to T + 1
        invariant State() == Run(b0, t - 1)
        invariant |snaps| == |Schedule(t - 1)|
        invariant forall j :: 0 <= j < |snaps| ==>
          snaps[j] == Snapshot(Schedule(t - 1)[j], Run(b0, Schedule(t - 1)[j]).u)
      {
        StencilRange(1, N - 1);
        CopyRange(0, N);
        if t % Interval == 0 {
          snaps := snaps + [Snapshot(t, U[..])];
        }
      }
    }

    /** T steps of stencil loop and bulk commit, without snapshots. */
    method SequentialUpdateTiming(T: nat)
      requires Valid()
      modifies U, UNew
      ensures State() == Run(old(State()), T)
    {
      ghost var b0 := State();
      for t := 1 to T + 1
        invariant State() == Run(b0, t - 1)
      {
        ghost var before := State();
        StencilRange(1, N - 1);
        CommitBulk();
        CommitCopiesAll(UNew[..], before.u);
      }
    }

    /**
     T steps with the stencil loop and the element-copy commit each split
     among the threads; the snapshot is recorded by one thread after the
     commit. Step t (1-based) uses the splits parts[t - 1] and
     copyParts[t - 1], so the split may differ from step to step. Same field
     and same snapshots as the sequential driver.
     */
    method ParallelUpdateSnapshots(T: nat, parts: seq<seq<Chunk>>, copyParts: seq<seq<Chunk>>)
      returns (snaps: seq<Snapshot>)
      requires Valid()
      requires |parts| == T && forall t :: 0 <= t < T ==> Covers(Stencil, parts[t], N)
      requires |copyParts| == T && forall t :: 0 <= t < T ==> Covers(Copy, copyParts[t], N)
      modifies U, UNew
      ensures State() == Run(old(State()), T)
      ensures |snaps| == |Schedule(T)|
      ensures forall j :: 0 <= j < |snaps| ==>
        snaps[j] == Snapshot(Schedule(T)[j], Run(old(State()), Schedule(T)[j]).u)
    {
      ghost var b0 := State();
      snaps := [Snapshot(0, U[..])];
      for t := 1 to T + 1
        invariant State() == Run(b0, t - 1)
        invariant |snaps| == |Schedule(t - 1)|
        invariant forall j :: 0 <= j < |snaps| ==>
          snaps[j] == Snapshot(Schedule(t - 1)[j], Run(b0, Schedule(t - 1)[j]).u)
      {
        StencilChunks(parts[t - 1]);
        CopyChunks(copyParts[t - 1]);
        if t % Interval == 0 {
          snaps := snaps + [Snapshot(t, U[..])];
        }
      }
    }

    /**
     T steps with the stencil loop split among the threads and one bulk
     commit per step. Each step opens its own parallel region, so step t
     (1-based) uses its own split parts[t - 1]. Same field as the
     sequential driver.
     */
    method ParallelUpdateTiming(T: nat, parts: seq<seq<Chunk>>)
      requires Valid()
      requires |parts| == T && forall t :: 0 <= t < T ==> Covers(Stencil, parts[t], N)
      modifies U, UNew
      ensures State() == Run(old(State()), T)
    {
      ghost var b0 := State();
      for t := 1 to T + 1
        invariant State() == Run(b0, t - 1)
      {
        ghost var before := State();
        StencilChunks(parts[t - 1]);
        CommitBulk();
        CommitCopiesAll(UNew[..], before.u);
      }
    }

    /**
     The program's snapshot runs for one thread count: initialise and run
     the sequential driver, initialise again and run the parallel driver
     with a static block split among `threads` threads. Both record the
     same snapshots, and in all of them the boundary samples are 0 and every
     sample lies in [0, 100].
     */
    method SnapshotRuns(T: nat, threads: nat) returns (sequential: seq<Snapshot>, parallel: seq<Snapshot>)
      requires Valid() && threads >= 1
      modifies U, UNew
      ensures sequential == parallel
      ensures forall j :: 0 <= j < |parallel| ==>
        |parallel[j].field| == N &&
        parallel[j].field[0] == 0.0 && parallel[j].field[N - 1] == 0.0 &&
        Within(parallel[j].field, 0.0, 100.0)
    {
      Initialize();
      sequential := SequentialUpdateSnapshots(T);
      Initialize();
      BlockSplitCovers(Stencil, N, threads);
      BlockSplitCovers(Copy, N, threads);
      var stencilSplit := BlockSplit(1, N - 1, threads);
      var copySplit := BlockSplit(0, N, threads);
      parallel := ParallelUpdateSnapshots(T, seq(T, t => stencilSplit), seq(T, t => copySplit));
      forall j | 0 <= j < |parallel|
        ensures |parallel[j].field| == N
        ensures parallel[j].field[0] == 0.0 && parallel[j].field[N - 1] == 0.0
        ensures Within(parallel[j].field, 0.0, 100.0)
      {
        RunFromInitial(N, parallel[j].t);
      }
    }
  }
}
