/** Cutting [0, total) into equal chunks, shared by the parallel download and the block upload. */
module Chunks {
  import opened Bytes
  import opened DirtyRanges

  /** The pieces are non-empty, follow each other without gap or overlap, and end at `total`. */
  predicate Partition(cs: seq<Range>, total: nat) {
    && (forall k :: 0 <= k < |cs| ==> cs[k].len > 0)
    && (forall k {:trigger cs[k + 1]} :: 0 <= k < |cs| - 1 ==> cs[k].End() == cs[k + 1].off)
    && (if |cs| == 0 then total == 0 else cs[0].off == 0 && cs[|cs| - 1].End() == total)
  }

  function Count(total: nat, chunk: nat): nat
    requires chunk > 0
  {
    (total + chunk - 1) / chunk
  }

  /** Piece k starts at k * chunk; the last piece may be shorter. */
  function Cut(total: nat, chunk: nat): (cs: seq<Range>)
    requires chunk > 0
    ensures |cs| == Count(total, chunk)
  {
    seq(Count(total, chunk), k requires 0 <= k => Range(k * chunk, PieceLength(total, chunk, k)))
  }

  /** `remaining < chunk ? remaining : chunk`. */
  function PieceLength(total: nat, chunk: nat, k: nat): nat {
    if k * chunk >= total then 0 else Min(chunk, total - k * chunk)
  }

  lemma CutIsPartition(total: nat, chunk: nat)
    requires chunk > 0
    ensures Partition(Cut(total, chunk), total)
    ensures forall k :: 0 <= k < Count(total, chunk) ==> Cut(total, chunk)[k].len <= chunk
  {
    var cs := Cut(total, chunk);
    forall k | 0 <= k < |cs| ensures k * chunk < total {
      PageExists(k, total, chunk);
    }
    forall k {:trigger cs[k + 1]} | 0 <= k < |cs| - 1 ensures cs[k].End() == cs[k + 1].off {
      PageExists(k + 1, total, chunk);
      assert (k + 1) * chunk == k * chunk + chunk;
    }
    PageExists(|cs|, total, chunk);
    if |cs| > 0 {
      assert |cs| * chunk == (|cs| - 1) * chunk + chunk;
    }
  }

  /** Every piece but the last is a whole chunk. */
  lemma WholeChunks(total: nat, chunk: nat, k: nat)
    requires chunk > 0 && k + 1 < Count(total, chunk)
    ensures Cut(total, chunk)[k] == Range(k * chunk, chunk)
  {
    PageExists(k + 1, total, chunk);
    assert (k + 1) * chunk == k * chunk + chunk;
  }

  /** Pieces lie in order, inside [0, total). */
  lemma {:induction false} InOrder(cs: seq<Range>, total: nat, j: nat, k: nat)
    requires Partition(cs, total) && j < k < |cs|
    ensures cs[j].End() <= cs[k].off && cs[k].End() <= total
    decreases k - j, |cs| - k
  {
    var m := k - 1;
    assert cs[m].End() == cs[m + 1].off;
    if j < m { InOrder(cs, total, j, m); }
    Inside(cs, total, k);
  }

  lemma {:induction false} Inside(cs: seq<Range>, total: nat, k: nat)
    requires Partition(cs, total) && k < |cs|
    ensures cs[k].End() <= total
    decreases |cs| - k
  {
    if k + 1 < |cs| { Inside(cs, total, k + 1); assert cs[k].End() == cs[k + 1].off; }
  }

  /** Every offset belongs to a piece. */
  lemma {:induction false} Find(cs: seq<Range>, total: nat, o: nat, from: nat) returns (k: nat)
    requires Partition(cs, total) && from < |cs| && cs[from].off <= o < total
    ensures from <= k < |cs| && cs[k].Has(o)
    decreases |cs| - from
  {
    if cs[from].Has(o) { return from; }
    if from + 1 < |cs| { assert cs[from].End() == cs[from + 1].off; }
    k := Find(cs, total, o, from + 1);
  }
}
