/**
 Which time steps the snapshot drivers record: step 0 before the loop, then
 every step t of 1..T with t % 50 == 0, after that step's commit. The row
 formatting and file output are not modelled.
 */
module Snapshots {

  /** Steps between two snapshots. */
  const Interval: nat := 50

  /** The steps recorded by a run of T steps, in the order the driver records them. */
  function Schedule(T: nat): seq<nat> {
    if T == 0 then [0]
    else Schedule(T - 1) + (if T % Interval == 0 then [T] else [])
  }

  /**
   The schedule is exactly the multiples of 50 up to T, in increasing order:
   T / 50 + 1 entries, the j-th being 50 * j.
   */
  lemma {:induction false} ScheduleIsMultiples(T: nat)
    ensures |Schedule(T)| == T / Interval + 1
    ensures forall j :: 0 <= j < |Schedule(T)| ==> Schedule(T)[j] == Interval * j
  {
    if T > 0 {
      ScheduleIsMultiples(T - 1);
      if T % Interval == 0 {
        assert T / Interval == (T - 1) / Interval + 1;
        assert T == Interval * (T / Interval);
      } else {
        assert T / Interval == (T - 1) / Interval;
      }
    }
  }

  /** A step is recorded iff it is at most T and a multiple of 50 (step 0 included). */
  lemma ScheduleMembership(T: nat, t: nat)
    ensures t in Schedule(T) <==> t <= T && t % Interval == 0
  {
    ScheduleIsMultiples(T);
    if t <= T && t % Interval == 0 {
      var j := t / Interval;
      assert j < |Schedule(T)| && Schedule(T)[j] == t;
    }
  }

  /** The recorded steps are strictly increasing. */
  lemma ScheduleIncreasing(T: nat)
    ensures forall j, k :: 0 <= j < k < |Schedule(T)| ==> Schedule(T)[j] < Schedule(T)[k]
  {
    ScheduleIsMultiples(T);
  }

  /** The run in the program (T = 2000) records 41 snapshots; a run of 500 steps records 11. */
  lemma ScheduleCounts()
    ensures |Schedule(2000)| == 41
    ensures |Schedule(500)| == 11 && Schedule(500)[10] == 500
  {
    ScheduleIsMultiples(2000);
    ScheduleIsMultiples(500);
  }
}
