/**
 The work split of a loop across a thread team, as a sequential claim: a
 loop's index range cut into chunks [lo, hi), each chunk run as its own
 sweep, chunk after chunk in sequence order. Threads, barriers and
 interleavings are not modelled; since every write of a pass reads only
 the other buffer, the outcome depends only on which indices are covered.
 */
module Partition {
  import opened Diffusion

  /** The half-open index range [lo, hi) one thread runs. */
  datatype Chunk = Chunk(lo: int, hi: int)

  /** Every chunk lies inside the full loop range of pass p. */
  predicate Fits(p: Pass, cs: seq<Chunk>, n: int) {
    forall j :: 0 <= j < |cs| ==> First(p) <= cs[j].lo <= cs[j].hi <= Last(p, n)
  }

  /** Some chunk holds index i. */
  predicate Covered(cs: seq<Chunk>, i: int) {
    exists j :: 0 <= j < |cs| && cs[j].lo <= i < cs[j].hi
  }

  /** The chunks fit the loop range of p and together hold every index of it. */
  predicate Covers(p: Pass, cs: seq<Chunk>, n: int) {
    Fits(p, cs, n) && forall i :: First(p) <= i < Last(p, n) ==> Covered(cs, i)
  }

  /** No index lies in two chunks: no element is written by two threads. */
  predicate Disjoint(cs: seq<Chunk>) {
    forall j, k :: 0 <= j < k < |cs| ==> cs[j].hi <= cs[k].lo || cs[k].hi <= cs[j].lo
  }

  /** Run the chunks of pass p one after another, in sequence order. */
  function RunChunks(p: Pass, src: seq<real>, dst: seq<real>, cs: seq<Chunk>): (r: seq<real>)
    requires |src| == |dst|
    requires Fits(p, cs, |src|)
    ensures |r| == |dst|
    decreases |cs|
  {
    if cs == [] then dst
    else RunChunks(p, src, Sweep(p, src, dst, cs[0].lo, cs[0].hi), cs[1..])
  }

  /** An index is covered by a non-empty chunk list iff it is in the head or covered by the tail. */
  lemma CoveredCons(cs: seq<Chunk>, i: int)
    requires cs != []
    ensures Covered(cs, i) <==> (cs[0].lo <= i < cs[0].hi || Covered(cs[1..], i))
  {
    if Covered(cs[1..], i) {
      var j :| 0 <= j < |cs| - 1 && cs[1..][j].lo <= i < cs[1..][j].hi;
      assert cs[j + 1] == cs[1..][j];
    }
    if Covered(cs, i) && !(cs[0].lo <= i < cs[0].hi) {
      var j :| 0 <= j < |cs| && cs[j].lo <= i < cs[j].hi;
      assert cs[1..][j - 1] == cs[j];
    }
  }

  /** Running the chunks writes Body exactly at the covered indices and leaves the rest. */
  lemma {:induction false} RunChunksAt(p: Pass, src: seq<real>, dst: seq<real>, cs: seq<Chunk>, i: int)
    requires |src| == |dst|
    requires Fits(p, cs, |src|)
    requires 0 <= i < |dst|
    ensures Covered(cs, i) ==> First(p) <= i < Last(p, |src|)
    ensures RunChunks(p, src, dst, cs)[i] == if Covered(cs, i) then Body(p, src, i) else dst[i]
    decreases |cs|
  {
    if cs != [] {
      var mid := Sweep(p, src, dst, cs[0].lo, cs[0].hi);
      assert Fits(p, cs[1..], |src|) by {
        forall j | 0 <= j < |cs| - 1 ensures First(p) <= cs[1..][j].lo <= cs[1..][j].hi <= Last(p, |src|) {
          assert cs[1..][j] == cs[j + 1];
        }
      }
      RunChunksAt(p, src, mid, cs[1..], i);
      SweepAt(p, src, dst, cs[0].lo, cs[0].hi, i);
      CoveredCons(cs, i);
    }
  }

  /**
   Any chunk list that covers the loop range, in any order, gives the same
   buffer as the single sequential loop over the whole range.
   */
  lemma PartitionMatchesLoop(p: Pass, src: seq<real>, dst: seq<real>, cs: seq<Chunk>)
    requires |src| == |dst|
    requires First(p) <= Last(p, |src|)
    requires Covers(p, cs, |src|)
    ensures RunChunks(p, src, dst, cs) == Sweep(p, src, dst, First(p), Last(p, |src|))
  {
    forall i | 0 <= i < |dst|
      ensures RunChunks(p, src, dst, cs)[i] == Sweep(p, src, dst, First(p), Last(p, |src|))[i]
    {
      RunChunksAt(p, src, dst, cs, i);
      SweepAt(p, src, dst, First(p), Last(p, |src|), i);
    }
  }

  /**
   Reordering the chunks (the same chunks, in another order) does not
   change the buffer, whether or not they cover the whole range.
   */
  lemma ChunkOrderIrrelevant(p: Pass, src: seq<real>, dst: seq<real>, cs: seq<Chunk>, ds: seq<Chunk>)
    requires |src| == |dst|
    requires Fits(p, cs, |src|) && Fits(p, ds, |src|)
    requires multiset(cs) == multiset(ds)
    ensures RunChunks(p, src, dst, cs) == RunChunks(p, src, dst, ds)
  {
    forall i | 0 <= i < |dst|
      ensures RunChunks(p, src, dst, cs)[i] == RunChunks(p, src, dst, ds)[i]
    {
      RunChunksAt(p, src, dst, cs, i);
      RunChunksAt(p, src, dst, ds, i);
      if Covered(cs, i) {
        var j :| 0 <= j < |cs| && cs[j].lo <= i < cs[j].hi;
        assert cs[j] in multiset(ds);
        var k :| 0 <= k < |ds| && ds[k] == cs[j];
      }
      if Covered(ds, i) {
        var k :| 0 <= k < |ds| && ds[k].lo <= i < ds[k].hi;
        assert ds[k] in multiset(cs);
        var j :| 0 <= j < |cs| && cs[j] == ds[k];
      }
    }
  }

  /**
   A static block split of [lo, hi) among `team` threads: the first thread
   takes the ceiling share, the rest is split the same way among the others.
   */
  function BlockSplit(lo: int, hi: int, team: nat): (cs: seq<Chunk>)
    requires lo <= hi && team >= 1
    ensures |cs| == team
    ensures forall j :: 0 <= j < |cs| ==> lo <= cs[j].lo <= cs[j].hi <= hi
    decreases team
  {
    if team == 1 then [Chunk(lo, hi)]
    else
      var size := CeilShare(hi - lo, team);
      [Chunk(lo, lo + size)] + BlockSplit(lo + size, hi, team - 1)
  }

  /** The ceiling of n / k, which never exceeds n. */
  function CeilShare(n: nat, k: nat): (s: nat)
    requires k >= 1
    ensures s <= n
  {
    if n == 0 then 0 else (n - 1) / k + 1
  }

  /** The chunks of a block split do not overlap. */
  lemma {:induction false} BlockSplitDisjoint(lo: int, hi: int, team: nat)
    requires lo <= hi && team >= 1
    ensures Disjoint(BlockSplit(lo, hi, team))
    decreases team
  {
    if team > 1 {
      var cs := BlockSplit(lo, hi, team);
      var size := CeilShare(hi - lo, team);
      var rest := BlockSplit(lo + size, hi, team - 1);
      BlockSplitDisjoint(lo + size, hi, team - 1);
      assert cs == [Chunk(lo, lo + size)] + rest;
      forall j, k | 0 <= j < k < |cs|
        ensures cs[j].hi <= cs[k].lo || cs[k].hi <= cs[j].lo
      {
        assert cs[k] == rest[k - 1];
        if j > 0 {
          assert cs[j] == rest[j - 1];
        }
      }
    }
  }

  /** The chunks of a block split of [lo, hi) together hold every index of it. */
  lemma {:induction false} BlockSplitCoversRange(lo: int, hi: int, team: nat, i: int)
    requires lo <= hi && team >= 1
    requires lo <= i < hi
    ensures Covered(BlockSplit(lo, hi, team), i)
    decreases team
  {
    var cs := BlockSplit(lo, hi, team);
    if team == 1 {
      assert cs[0].lo <= i < cs[0].hi;
    } else {
      var size := CeilShare(hi - lo, team);
      var rest := BlockSplit(lo + size, hi, team - 1);
      assert cs == [Chunk(lo, lo + size)] + rest;
      assert cs[1..] == rest;
      if lo + size <= i {
        BlockSplitCoversRange(lo + size, hi, team - 1, i);
      }
      CoveredCons(cs, i);
    }
  }

  /** The block split of a pass's loop range fits the pass and covers every index of it. */
  lemma BlockSplitCovers(p: Pass, n: int, team: nat)
    requires First(p) <= Last(p, n) && team >= 1
    ensures Covers(p, BlockSplit(First(p), Last(p, n), team), n)
    ensures Disjoint(BlockSplit(First(p), Last(p, n), team))
  {
    BlockSplitDisjoint(First(p), Last(p, n), team);
    forall i | First(p) <= i < Last(p, n)
      ensures Covered(BlockSplit(First(p), Last(p, n), team), i)
    {
      BlockSplitCoversRange(First(p), Last(p, n), team, i);
    }
  }
}
