/**
 The one-dimensional diffusion step as values: the two field buffers, the
 two loops a time step runs (the averaging stencil into the next buffer and
 the element copy back into the current buffer), and what any number of
 steps does to a field that starts from the point impulse.
 Samples are exact reals; IEEE rounding is not modelled.
 */
module Diffusion {

  /** The two loop bodies of a time step. */
  datatype Pass = Stencil | Copy

  /** First index the full loop of a pass visits. */
  function First(p: Pass): int {
    if p.Stencil? then 1 else 0
  }

  /** One past the last index the full loop of a pass visits, for buffers of length n. */
  function Last(p: Pass, n: int): int {
    if p.Stencil? then n - 1 else n
  }

  /** The value a pass writes at index i. It reads the source buffer only. */
  function Body(p: Pass, src: seq<real>, i: int): real
    requires First(p) <= i < Last(p, |src|)
  {
    match p
    case Stencil => 0.5 * (src[i - 1] + src[i + 1])
    case Copy => src[i]
  }

  /**
   The loop `for i in [lo, hi): dst[i] = Body(p, src, i)`, as the sequence of
   its single-element writes, in increasing order of i.
   */
  function Sweep(p: Pass, src: seq<real>, dst: seq<real>, lo: int, hi: int): (r: seq<real>)
    requires |src| == |dst|
    requires First(p) <= lo <= hi <= Last(p, |src|)
    ensures |r| == |dst|
    decreases hi - lo
  {
    if lo == hi then dst
    else Sweep(p, src, dst[lo := Body(p, src, lo)], lo + 1, hi)
  }

  /** A sweep writes Body at exactly the indices of its range and nothing else. */
  lemma {:induction false} SweepAt(p: Pass, src: seq<real>, dst: seq<real>, lo: int, hi: int, i: int)
    requires |src| == |dst|
    requires First(p) <= lo <= hi <= Last(p, |src|)
    requires 0 <= i < |dst|
    ensures Sweep(p, src, dst, lo, hi)[i] == if lo <= i < hi then Body(p, src, i) else dst[i]
    decreases hi - lo
  {
    if lo < hi {
      SweepAt(p, src, dst[lo := Body(p, src, lo)], lo + 1, hi, i);
    }
  }

  /** The stencil loop over all interior indices, reading u and writing into v. */
  function StencilPass(u: seq<real>, v: seq<real>): seq<real>
    requires |u| == |v| >= 3
  {
    Sweep(Stencil, u, v, 1, |u| - 1)
  }

  /** The element-loop commit: copy every sample of src into dst. */
  function Commit(src: seq<real>, dst: seq<real>): seq<real>
    requires |src| == |dst|
  {
    Sweep(Copy, src, dst, 0, |dst|)
  }

  /**
   One stencil pass sets every interior sample of the next buffer to the
   average of its two neighbours in the current buffer and leaves the two
   boundary samples of the next buffer as they were.
   */
  lemma StencilPassAt(u: seq<real>, v: seq<real>, i: int)
    requires |u| == |v| >= 3
    requires 0 <= i < |v|
    ensures |StencilPass(u, v)| == |v|
    ensures StencilPass(u, v)[i] == if 0 < i < |v| - 1 then 0.5 * (u[i - 1] + u[i + 1]) else v[i]
  {
    SweepAt(Stencil, u, v, 1, |u| - 1, i);
  }

  /** The element-loop commit makes the destination equal to the source, whatever it held. */
  lemma CommitCopiesAll(src: seq<real>, dst: seq<real>)
    requires |src| == |dst|
    ensures Commit(src, dst) == src
  {
    forall i | 0 <= i < |dst|
      ensures Commit(src, dst)[i] == src[i]
    {
      SweepAt(Copy, src, dst, 0, |dst|, i);
    }
  }

  /** The current buffer U and the next buffer U_new. */
  datatype Buffers = Buffers(u: seq<real>, uNew: seq<real>)

  /** Both buffers have the same length N, with N >= 3. */
  predicate WellSized(b: Buffers) {
    |b.u| == |b.uNew| >= 3
  }

  /** One time step: the stencil pass into U_new, then the element-loop commit into U. */
  function Step(b: Buffers): (r: Buffers)
    requires WellSized(b)
    ensures WellSized(r) && |r.u| == |b.u|
  {
    var w := StencilPass(b.u, b.uNew);
    Buffers(Commit(w, b.u), w)
  }

  /** t time steps from b. */
  function Run(b: Buffers, t: nat): (r: Buffers)
    requires WellSized(b)
    ensures WellSized(r) && |r.u| == |b.u|
  {
    if t == 0 then b else Step(Run(b, t - 1))
  }

  /** Value of sample i right after initialisation: the impulse 100 at the midpoint, 0 elsewhere. */
  function InitialSample(n: nat, i: int): real {
    if i == n / 2 then 100.0 else 0.0
  }

  /** The buffers right after initialisation. */
  function Initial(n: nat): (b: Buffers)
    requires n >= 3
    ensures WellSized(b) && |b.u| == n
  {
    Buffers(seq(n, i => InitialSample(n, i)), seq(n, i => 0.0))
  }

  /**
   After a step both buffers hold the same field, its interior is the stencil
   average of the old current field, and its boundary samples are those of
   the OLD NEXT buffer: the commit copies U_new's boundary over U's.
   */
  lemma StepAt(b: Buffers, i: int)
    requires WellSized(b)
    requires 0 <= i < |b.u|
    ensures Step(b).u == Step(b).uNew
    ensures Step(b).u[i] == if 0 < i < |b.u| - 1 then 0.5 * (b.u[i - 1] + b.u[i + 1]) else b.uNew[i]
  {
    StencilPassAt(b.u, b.uNew, i);
    CommitCopiesAll(StencilPass(b.u, b.uNew), b.u);
  }

  /** Every sample of s lies in [lo, hi]. */
  predicate Within(s: seq<real>, lo: real, hi: real) {
    forall i :: 0 <= i < |s| ==> lo <= s[i] <= hi
  }

  /**
   A step keeps every sample inside [lo, hi] when the current field and the
   two boundary samples of the next buffer are inside it: each interior
   sample becomes the average of two samples in range.
   */
  lemma StepWithin(b: Buffers, lo: real, hi: real)
    requires WellSized(b)
    requires Within(b.u, lo, hi)
    requires lo <= b.uNew[0] <= hi && lo <= b.uNew[|b.uNew| - 1] <= hi
    ensures Within(Step(b).u, lo, hi) && Within(Step(b).uNew, lo, hi)
  {
    forall i | 0 <= i < |b.u|
      ensures lo <= Step(b).u[i] <= hi
    {
      StepAt(b, i);
    }
    StepAt(b, 0);
  }

  /**
   Starting from initialisation, after any number of steps the boundary
   samples of both buffers are still 0 and every sample lies in [0, 100].
   */
  lemma {:induction false} RunFromInitial(n: nat, t: nat)
    requires n >= 3
    ensures var b := Run(Initial(n), t);
      b.u[0] == 0.0 && b.u[n - 1] == 0.0 && b.uNew[0] == 0.0 && b.uNew[n - 1] == 0.0 &&
      Within(b.u, 0.0, 100.0) && Within(b.uNew, 0.0, 100.0)
  {
    if t > 0 {
      var prev := Run(Initial(n), t - 1);
      RunFromInitial(n, t - 1);
      StepWithin(prev, 0.0, 100.0);
      StepAt(prev, 0);
      StepAt(prev, n - 1);
    }
  }

  /** The largest sample of a non-empty field. */
  function Max(s: seq<real>): (m: real)
    requires |s| > 0
    ensures forall i :: 0 <= i < |s| ==> s[i] <= m
    ensures exists i :: 0 <= i < |s| && s[i] == m
  {
    if |s| == 1 then s[0]
    else
      var rest := Max(s[1..]);
      assert forall i :: 1 <= i < |s| ==> s[i] == s[1..][i - 1];
      if s[0] >= rest then s[0] else rest
  }

  /**
   A step does not raise the maximum of the current field when the boundary
   samples it will copy back from U_new are no larger than that maximum.
   */
  lemma StepMaxNonIncreasing(b: Buffers)
    requires WellSized(b)
    requires b.uNew[0] <= Max(b.u) && b.uNew[|b.u| - 1] <= Max(b.u)
    ensures Max(Step(b).u) <= Max(b.u)
  {
    var w := Step(b).u;
    forall i | 0 <= i < |w|
      ensures w[i] <= Max(b.u)
    {
      StepAt(b, i);
    }
  }

  /** From the impulse, the maximum of the field never increases from one step to the next. */
  lemma MaxNonIncreasingFromInitial(n: nat, t: nat)
    requires n >= 3
    ensures Max(Run(Initial(n), t + 1).u) <= Max(Run(Initial(n), t).u)
  {
    var b := Run(Initial(n), t);
    RunFromInitial(n, t);
    StepMaxNonIncreasing(b);
  }

  /**
   From the impulse, the maximum of the field is attained at an interior
   sample and bounds the absolute value of every sample, so it is the
   largest absolute value over the interior.
   */
  lemma MaxIsInteriorAbsMax(n: nat, t: nat)
    requires n >= 3
    ensures var u := Run(Initial(n), t).u;
      (exists i :: 0 < i < n - 1 && u[i] == Max(u)) &&
      (forall j :: 0 <= j < n ==> -Max(u) <= u[j] <= Max(u))
  {
    var u := Run(Initial(n), t).u;
    RunFromInitial(n, t);
    var k :| 0 <= k < n && u[k] == Max(u);
    if k == 0 || k == n - 1 {
      assert 0.0 <= u[n / 2] <= Max(u) == 0.0;
      assert 0 < n / 2 < n - 1 && u[n / 2] == Max(u);
    } else {
      assert 0 < k < n - 1 && u[k] == Max(u);
    }
  }

  /** Five samples, impulse in the middle: one step gives [0, 50, 0, 50, 0]. */
  lemma FiveSampleStep()
    ensures Step(Initial(5)).u == [0.0, 50.0, 0.0, 50.0, 0.0]
  {
    var b := Initial(5);
    StepAt(b, 0);
    StepAt(b, 1);
    StepAt(b, 2);
    StepAt(b, 3);
    StepAt(b, 4);
  }
}
