/** Block and segment arithmetic of file manifests, and the flat meaning of a resize. */
module Manifest {
  import opened Base

  // A manifest segment holds 4096 slots; the number is written out below, where it divides.
  const FILE_HEADER_LEN: nat := 16
  /** The slot value of a block that is not cached. */
  const MISSING: nat := 0

  function BlockCount(len: nat, bs: nat): nat
    requires bs > 0
  {
    DivCeil(len, bs)
  }

  function SegmentCount(blocks: nat): nat {
    Max(DivCeil(blocks, 4096), 1)
  }

  function SlotsInSegment(blocks: nat, seg: nat): nat {
    var start := seg * 4096;
    Max(Min(blocks, start + 4096) - start, 0)
  }

  /** Length of block `idx` of a file of `len` bytes. */
  function BlockLen(len: nat, bs: nat, idx: nat): nat {
    Min(Max(len - idx * bs, 0), bs)
  }

  /** Segment keys are 32-bit. */
  predicate LenFits(len: nat, bs: nat)
    requires bs > 0
  {
    DivCeil(BlockCount(len, bs), 4096) <= 0xFFFF_FFFF
  }

  /** The blocks of a file tile it: all full but the last, which is not empty. */
  lemma BlocksTile(len: nat, bs: nat, idx: nat)
    requires bs > 0 && idx < BlockCount(len, bs)
    ensures 0 < BlockLen(len, bs, idx) <= bs
    ensures idx + 1 < BlockCount(len, bs) ==> BlockLen(len, bs, idx) == bs
    ensures idx * bs + BlockLen(len, bs, idx) == Min((idx + 1) * bs, len)
    ensures (BlockCount(len, bs) - 1) * bs < len <= BlockCount(len, bs) * bs
  {
    var n := BlockCount(len, bs);
    CeilBounds(len, bs);
    MulMono(idx, n - 1, bs);
    assert (idx + 1) * bs == idx * bs + bs;
    if idx + 1 < n { MulMono(idx + 1, n - 1, bs); }
  }

  lemma CeilBounds(len: nat, bs: nat)
    requires bs > 0
    ensures DivCeil(len, bs) > 0 ==> (DivCeil(len, bs) - 1) * bs < len
    ensures len <= DivCeil(len, bs) * bs
  {
    var q := (len + bs - 1) / bs;
    assert (len + bs - 1) == q * bs + (len + bs - 1) % bs;
    assert (q - 1) * bs == q * bs - bs;
  }

  /** A length fits exactly if its blocks fill at most `u32::MAX` segments of 4096 slots. */
  lemma FitsExactly(len: nat, bs: nat)
    requires bs > 0
    ensures LenFits(len, bs) <==> len <= 0xFFF_FFFF_F000 * bs
  {
    var n := BlockCount(len, bs);
    CeilBounds(len, bs);
    CeilBounds(n, 4096);
    if n <= 0xFFF_FFFF_F000 { MulMono(n, 0xFFF_FFFF_F000, bs); }
    else { MulMono(0xFFF_FFFF_F000, n - 1, bs); }
  }

  lemma MulMono(a: int, b: int, m: nat)
    requires a <= b
    ensures a * m <= b * m
  {
    assert (b - a) * m >= 0;
    assert b * m == a * m + (b - a) * m;
  }

  /** A flat sequence of per-block values after a resize: values of both lengths are kept, except
      the last common one when its block's length changes; growth adds `missing`. */
  function Resized<T>(was: seq<T>, oldLen: nat, newLen: nat, bs: nat, missing: T): (r: seq<T>)
    requires bs > 0
    ensures |r| == BlockCount(newLen, bs)
  {
    var n := BlockCount(newLen, bs);
    seq(n, i requires 0 <= i < n =>
      if i < |was| && BlockLen(oldLen, bs, i) == BlockLen(newLen, bs, i) then was[i] else missing)
  }

  /** Only the last common block can change length. */
  lemma OnlyLastCommonChanges(oldLen: nat, newLen: nat, bs: nat, i: nat)
    requires bs > 0
    requires i + 1 < Min(BlockCount(oldLen, bs), BlockCount(newLen, bs))
    ensures BlockLen(oldLen, bs, i) == BlockLen(newLen, bs, i)
  {
    BlocksTile(oldLen, bs, i);
    BlocksTile(newLen, bs, i);
  }
}
