/** File manifests as rows of segments, and the flat slot sequences they stand for. */
module Segments {
  import opened Base
  import opened Manifest
  import opened Ledger

  /** A manifest segment: the file length (segment 0 only) and its block ids. */
  datatype Segment = Segment(len: Option<nat>, ids: seq<nat>)
  type SegmentRows = map<(FileId, nat), Segment>

  /** The length in the header of segment 0. */
  function FileLen(segs: SegmentRows, f: FileId): nat {
    if (f, 0) in segs && segs[(f, 0)].len.Some? then segs[(f, 0)].len.value else 0
  }

  /** A file has exactly the segments its length asks for. */
  ghost predicate FileOk(segs: SegmentRows, bs: nat, f: FileId)
    requires bs > 0
  {
    var n := BlockCount(FileLen(segs, f), bs);
    forall s: nat ::
      && ((f, s) in segs <==> s < SegmentCount(n))
      && ((f, s) in segs ==>
            |segs[(f, s)].ids| == SlotsInSegment(n, s) && (segs[(f, s)].len.Some? <==> s == 0))
  }

  ghost predicate SegsOk(segs: SegmentRows, bs: nat) {
    bs > 0 && forall f, s :: (f, s) in segs ==> FileOk(segs, bs, f)
  }

  ghost predicate InSegs(segs: SegmentRows, f: FileId, i: nat) {
    (f, i / 4096) in segs && i % 4096 < |segs[(f, i / 4096)].ids|
  }

  /** The slot of block `i`. */
  ghost function SlotAt(segs: SegmentRows, f: FileId, i: nat): nat {
    if InSegs(segs, f, i) then segs[(f, i / 4096)].ids[i % 4096] else MISSING
  }

  /** A file's slots, its segments joined. */
  ghost function FlatSlots(segs: SegmentRows, bs: nat, f: FileId): (slots: seq<nat>)
    requires bs > 0
    ensures |slots| == BlockCount(FileLen(segs, f), bs)
  {
    seq(BlockCount(FileLen(segs, f), bs), i requires 0 <= i => SlotAt(segs, f, i))
  }

  ghost function FileNames(segs: SegmentRows): set<FileId> {
    set k | k in segs && k.1 == 0 :: k.0
  }

  /** The manifests as the rest of the model sees them. */
  ghost function Flat(segs: SegmentRows, bs: nat): map<FileId, FileRow>
    requires bs > 0
  {
    map f | f in FileNames(segs) :: FileRow(FileLen(segs, f), FlatSlots(segs, bs, f))
  }

  lemma FlatHas(segs: SegmentRows, bs: nat, f: FileId)
    requires bs > 0
    ensures f in Flat(segs, bs) <==> (f, 0) in segs
    ensures (f, 0) in segs ==>
              Flat(segs, bs)[f] == FileRow(FileLen(segs, f), FlatSlots(segs, bs, f))
  {
  }

  /** Only the segments of `f` differ. */
  ghost predicate OnlyFile(was: SegmentRows, now: SegmentRows, f: FileId) {
    forall g, s :: g != f ==>
      ((g, s) in now <==> (g, s) in was) && ((g, s) in was ==> now[(g, s)] == was[(g, s)])
  }

  lemma SameFile(was: SegmentRows, f: FileId)
    ensures OnlyFile(was, was, f)
  {
  }

  lemma OnlyFileTwice(a: SegmentRows, b: SegmentRows, c: SegmentRows, f: FileId)
    requires OnlyFile(a, b, f) && OnlyFile(b, c, f)
    ensures OnlyFile(a, c, f)
  {
  }

  lemma OtherFileSame(was: SegmentRows, now: SegmentRows, bs: nat, f: FileId, g: FileId)
    requires bs > 0 && OnlyFile(was, now, f) && g != f
    ensures FileLen(now, g) == FileLen(was, g) && FlatSlots(now, bs, g) == FlatSlots(was, bs, g)
    ensures FileOk(was, bs, g) ==> FileOk(now, bs, g)
  {
    assert FileLen(now, g) == FileLen(was, g);
    forall i: nat ensures SlotAt(now, g, i) == SlotAt(was, g, i) {
      assert (g, i / 4096) in now <==> (g, i / 4096) in was;
    }
  }

  /** Editing one file's segments edits that file's row only. */
  lemma OneFileChanged(was: SegmentRows, now: SegmentRows, bs: nat, f: FileId)
    requires bs > 0 && OnlyFile(was, now, f)
    ensures Flat(now, bs) ==
            if (f, 0) in now
            then Flat(was, bs)[f := FileRow(FileLen(now, f), FlatSlots(now, bs, f))]
            else Flat(was, bs) - {f}
  {
    hide FlatSlots, Flat, FileLen;
    var a, b := Flat(was, bs), Flat(now, bs);
    forall g | g != f
      ensures g in b <==> g in a
      ensures g in a ==> b[g] == a[g]
    {
      FlatHas(was, bs, g);
      FlatHas(now, bs, g);
      OtherFileSame(was, now, bs, f, g);
    }
    FlatHas(now, bs, f);
  }

  lemma OneFileChangedOk(was: SegmentRows, now: SegmentRows, bs: nat, f: FileId)
    requires SegsOk(was, bs) && OnlyFile(was, now, f)
    requires forall s :: (f, s) in now ==> FileOk(now, bs, f)
    ensures SegsOk(now, bs)
  {
    hide FileOk;
    forall g, s | (g, s) in now ensures FileOk(now, bs, g) {
      if g != f {
        assert (g, s) in was;
        OtherFileSame(was, now, bs, f, g);
      }
    }
  }

  // ---- Runs of slots ----

  /** `into` with the values from `at` on replaced by `run`. */
  function Spliced<T>(into: seq<T>, at: nat, run: seq<T>): (r: seq<T>)
    requires at + |run| <= |into|
    ensures |r| == |into|
  {
    into[..at] + run + into[at + |run|..]
  }

  lemma SplicedNone(into: seq<nat>, at: nat, run: seq<nat>)
    requires at <= |into| && run == []
    ensures Spliced(into, at, run) == into
  {
  }

  lemma SplicedTwice(into: seq<nat>, at: nat, run: seq<nat>, done: nat, take: nat)
    requires at + |run| <= |into| && done + take <= |run|
    ensures Spliced(Spliced(into, at, run[..done]), at + done, run[done..done + take])
            == Spliced(into, at, run[..done + take])
    ensures Spliced(into, at, run[..done])[at + done..at + done + take]
            == into[at + done..at + done + take]
  {
    var a := Spliced(Spliced(into, at, run[..done]), at + done, run[done..done + take]);
    var b := Spliced(into, at, run[..done + take]);
    forall i | 0 <= i < |into| ensures a[i] == b[i] {}
  }

  /** A run written into `slots`, the part of `all` at `base`, is written into `all`. */
  lemma RunWritten(all: seq<nat>, slots: seq<nat>, base: nat, off: nat, run: seq<nat>)
    requires off + |run| <= |slots| && base + |slots| <= |all|
    requires slots == all[base..base + |slots|]
    ensures Spliced(all, base, Spliced(slots, off, run)) == Spliced(all, base + off, run)
    ensures slots[off..off + |run|] == all[base + off..base + off + |run|]
  {
    var ids := Spliced(slots, off, run);
    var a, b := Spliced(all, base, ids), Spliced(all, base + off, run);
    forall i | 0 <= i < |all| ensures a[i] == b[i] {
      if base <= i < base + |slots| {
        assert a[i] == ids[i - base];
        if i < base + off {
          assert ids[i - base] == slots[i - base] == all[i];
        } else if i >= base + off + |run| {
          assert ids[i - base] == slots[i - base] == all[i];
        }
      }
    }
    assert a == b;
    var x, y := slots[off..off + |run|], all[base + off..base + off + |run|];
    forall k | 0 <= k < |x| ensures x[k] == y[k] {
      assert slots[off + k] == all[base..base + |slots|][off + k];
    }
  }

  /** A segment is a run of its file's slots. */
  lemma SegmentRun(segs: SegmentRows, bs: nat, f: FileId, seg: nat)
    requires bs > 0 && FileOk(segs, bs, f) && (f, seg) in segs && segs[(f, seg)].ids != []
    ensures var ids, slots := segs[(f, seg)].ids, FlatSlots(segs, bs, f);
            && seg * 4096 + |ids| <= |slots| && |ids| <= 4096
            && ids == slots[seg * 4096..seg * 4096 + |ids|]
  {
    var ids, slots, base := segs[(f, seg)].ids, FlatSlots(segs, bs, f), seg * 4096;
    assert |ids| == SlotsInSegment(|slots|, seg);
    forall k | 0 <= k < |ids| ensures ids[k] == slots[base..base + |ids|][k] {
      assert (base + k) / 4096 == seg && (base + k) % 4096 == k;
    }
  }

  /** The segment of a block that exists has its slot. */
  lemma BlockInSegs(segs: SegmentRows, bs: nat, f: FileId, block: nat)
    requires bs > 0 && FileOk(segs, bs, f) && block < BlockCount(FileLen(segs, f), bs)
    ensures InSegs(segs, f, block)
  {
  }

  lemma FileThere(segs: SegmentRows, bs: nat, f: FileId)
    requires bs > 0 && SegsOk(segs, bs) && (f, 0) in segs
    ensures FileOk(segs, bs, f)
  {
  }

  /** A file's segments are there exactly if its first is, and a block's slot is in its segment. */
  lemma SlotThere(segs: SegmentRows, bs: nat, f: FileId, block: nat)
    requires bs > 0 && SegsOk(segs, bs)
    ensures (f, block / 4096) in segs ==> (f, 0) in segs
    ensures (f, 0) in segs && block < BlockCount(FileLen(segs, f), bs) ==>
              (f, block / 4096) in segs && block % 4096 < |segs[(f, block / 4096)].ids| && FileOk(segs, bs, f)
  {
    hide BlockCount, FileLen;
    if (f, 0) in segs && block < BlockCount(FileLen(segs, f), bs) {
      FileThere(segs, bs, f);
      BlockInSegs(segs, bs, f, block);
    }
    if (f, block / 4096) in segs { assert FileOk(segs, bs, f); }
  }

  lemma SegmentReplacedOk(segs: SegmentRows, bs: nat, f: FileId, seg: nat, ids: seq<nat>, now: SegmentRows)
    requires bs > 0 && FileOk(segs, bs, f)
    requires (f, seg) in segs && |ids| == |segs[(f, seg)].ids|
    requires now == segs[(f, seg) := Segment(if seg == 0 then Some(FileLen(segs, f)) else None, ids)]
    ensures FileOk(now, bs, f) && OnlyFile(segs, now, f) && FileLen(now, f) == FileLen(segs, f)
  {
  }

  /** Rewriting one segment with as many ids rewrites that run. */
  lemma SegmentReplaced(segs: SegmentRows, bs: nat, f: FileId, seg: nat, ids: seq<nat>, now: SegmentRows)
    requires bs > 0 && FileOk(segs, bs, f)
    requires (f, seg) in segs && 0 < |ids| == |segs[(f, seg)].ids|
    requires now == segs[(f, seg) := Segment(if seg == 0 then Some(FileLen(segs, f)) else None, ids)]
    ensures seg * 4096 + |ids| <= |FlatSlots(segs, bs, f)|
    ensures FlatSlots(now, bs, f) == Spliced(FlatSlots(segs, bs, f), seg * 4096, ids)
  {
    SegmentReplacedOk(segs, bs, f, seg, ids, now);
    SegmentRun(segs, bs, f, seg);
    var a, b := FlatSlots(now, bs, f), Spliced(FlatSlots(segs, bs, f), seg * 4096, ids);
    hide FileOk;
    forall i | 0 <= i < |a| ensures a[i] == b[i] {
      assert a[i] == SlotAt(now, f, i) && FlatSlots(segs, bs, f)[i] == SlotAt(segs, f, i);
      if i / 4096 == seg { assert i % 4096 == i - seg * 4096; }
    }
  }

  /** One segment's run rewritten in place is that run of its file's row rewritten. */
  lemma RunApplied(was: SegmentRows, now: SegmentRows, bs: nat, f: FileId, seg: nat, off: nat, run: seq<nat>)
    requires SegsOk(was, bs) && (f, seg) in was && run != []
    requires off + |run| <= |was[(f, seg)].ids|
    requires now == was[(f, seg) := Segment(if seg == 0 then Some(FileLen(was, f)) else None,
                                            Spliced(was[(f, seg)].ids, off, run))]
    ensures SegsOk(now, bs) && FileLen(now, f) == FileLen(was, f)
    ensures seg * 4096 + off + |run| <= |FlatSlots(was, bs, f)|
    ensures FlatSlots(now, bs, f) == Spliced(FlatSlots(was, bs, f), seg * 4096 + off, run)
    ensures was[(f, seg)].ids[off..off + |run|]
            == FlatSlots(was, bs, f)[seg * 4096 + off..seg * 4096 + off + |run|]
    ensures OnlyFile(was, now, f)
  {
    assert FileOk(was, bs, f);
    hide FileOk, FlatSlots, FileLen, OnlyFile, Spliced, SegsOk;
    var slots := was[(f, seg)].ids;
    var ids := Spliced(slots, off, run);
    SegmentRun(was, bs, f, seg);
    SegmentReplacedOk(was, bs, f, seg, ids, now);
    SegmentReplaced(was, bs, f, seg, ids, now);
    RunWritten(FlatSlots(was, bs, f), slots, seg * 4096, off, run);
    OneFileChangedOk(was, now, bs, f);
  }

  // ---- Resizing ----

  function MissingSegment(len: nat, blocks: nat, s: nat): Segment {
    Segment(if s == 0 then Some(len) else None, seq(SlotsInSegment(blocks, s), _ => MISSING))
  }

  /** Segments `[from, to)` of `f` are all missing slots; nothing else differs. */
  ghost predicate Filled(
    was: SegmentRows, now: SegmentRows, f: FileId, from: nat, to: nat, len: nat, blocks: nat)
  {
    && OnlyFile(was, now, f)
    && forall s: nat ::
         && ((f, s) in now <==> (f, s) in was || from <= s < to)
         && ((f, s) in now ==>
               now[(f, s)] == if from <= s < to then MissingSegment(len, blocks, s) else was[(f, s)])
  }

  /** Segments `[from, to)` of `f` are gone; nothing else differs. */
  ghost predicate Cleared(was: SegmentRows, now: SegmentRows, f: FileId, from: nat, to: nat) {
    && OnlyFile(was, now, f)
    && forall s: nat ::
         && ((f, s) in now <==> (f, s) in was && !(from <= s < to))
         && ((f, s) in now ==> now[(f, s)] == was[(f, s)])
  }

  /** The slots of segments `[from, to)`. */
  ghost function Joined(segs: SegmentRows, f: FileId, from: nat, to: nat): seq<nat> {
    if to <= from then []
    else Joined(segs, f, from, to - 1)
         + (if (f, to - 1) in segs then segs[(f, to - 1)].ids else [])
  }

  lemma SegmentBetween(segs: SegmentRows, bs: nat, f: FileId, s: nat)
    requires bs > 0 && FileOk(segs, bs, f) && s < SegmentCount(|FlatSlots(segs, bs, f)|)
    ensures var slots := FlatSlots(segs, bs, f);
            && (f, s) in segs
            && segs[(f, s)].ids == slots[Min(s * 4096, |slots|)..Min((s + 1) * 4096, |slots|)]
  {
    var slots := FlatSlots(segs, bs, f);
    assert (f, s) in segs && |segs[(f, s)].ids| == SlotsInSegment(|slots|, s);
    if segs[(f, s)].ids != [] { SegmentRun(segs, bs, f, s); }
  }

  lemma SliceJoin(s: seq<nat>, a: nat, m: nat, b: nat)
    requires a <= m <= b <= |s|
    ensures s[a..m] + s[m..b] == s[a..b]
  {
  }

  /** Where segment `s` ends in a file of `n` blocks. */
  function SegmentEnd(n: nat, s: nat): nat { Min(s * 4096, n) }

  lemma SegmentAfter(segs: SegmentRows, bs: nat, f: FileId, slots: seq<nat>, s: nat)
    requires bs > 0 && FileOk(segs, bs, f) && slots == FlatSlots(segs, bs, f)
    requires s < SegmentCount(|slots|)
    ensures SegmentEnd(|slots|, s) <= SegmentEnd(|slots|, s + 1) <= |slots|
    ensures (f, s) in segs
    ensures segs[(f, s)].ids == slots[SegmentEnd(|slots|, s)..SegmentEnd(|slots|, s + 1)]
  {
    hide FlatSlots, FileOk, SegmentCount;
    SegmentBetween(segs, bs, f, s);
  }

  /** Consecutive segments are a run of their file's slots. */
  lemma {:induction false} JoinedRun(segs: SegmentRows, bs: nat, f: FileId, slots: seq<nat>, from: nat, to: nat)
    requires bs > 0 && FileOk(segs, bs, f) && slots == FlatSlots(segs, bs, f)
    requires from <= to <= SegmentCount(|slots|)
    ensures SegmentEnd(|slots|, from) <= SegmentEnd(|slots|, to) <= |slots|
    ensures Joined(segs, f, from, to) == slots[SegmentEnd(|slots|, from)..SegmentEnd(|slots|, to)]
  {
    if from < to {
      hide FlatSlots, FileOk, SegmentCount, BlockCount, DivCeil, SegmentEnd;
      JoinedRun(segs, bs, f, slots, from, to - 1);
      SegmentAfter(segs, bs, f, slots, to - 1);
      SliceJoin(slots, SegmentEnd(|slots|, from), SegmentEnd(|slots|, to - 1), SegmentEnd(|slots|, to));
    }
  }

  /** A file whose segments are all missing slots. */
  lemma FilledFile(was: SegmentRows, now: SegmentRows, bs: nat, f: FileId, len: nat)
    requires bs > 0 && (forall s :: (f, s) !in was)
    requires Filled(was, now, f, 0, SegmentCount(BlockCount(len, bs)), len, BlockCount(len, bs))
    ensures FileOk(now, bs, f) && (f, 0) in now && FileLen(now, f) == len
    ensures FlatSlots(now, bs, f) == Resized([], 0, len, bs, MISSING)
  {
    assert (f, 0) in now;
    var slots := FlatSlots(now, bs, f);
    forall i | 0 <= i < |slots| ensures slots[i] == MISSING {
      assert slots[i] == SlotAt(now, f, i);
    }
  }

  /** The segment that holds the last block both lengths share. */
  function CutSegment(oldLen: nat, newLen: nat, bs: nat): nat
    requires bs > 0
  {
    Max(Min(BlockCount(oldLen, bs), BlockCount(newLen, bs)) - 1, 0) / 4096
  }

  /** Row `s` after a resize: segments before the cut are kept, the cut segment holds `slots`, and
      segments after it are missing slots up to the new end. */
  ghost predicate ResizedRow(was: SegmentRows, now: SegmentRows, f: FileId, cut: nat, newLen: nat,
                             nb: nat, slots: seq<nat>, s: nat)
  {
    && ((f, s) in now <==> s < SegmentCount(nb))
    && ((f, s) in now ==>
          && (s == cut ==> now[(f, s)] == Segment(if s == 0 then Some(newLen) else None, slots))
          && (s < cut ==> (f, s) in was && now[(f, s)]
                          == Segment(if s == 0 then Some(newLen) else None, was[(f, s)].ids))
          && (s > cut ==> now[(f, s)] == MissingSegment(newLen, nb, s)))
  }

  ghost predicate ResizedRows(
    was: SegmentRows, now: SegmentRows, bs: nat, f: FileId, newLen: nat, slots: seq<nat>)
    requires bs > 0
  {
    && OnlyFile(was, now, f)
    && forall s: nat ::
         ResizedRow(was, now, f, CutSegment(FileLen(was, f), newLen, bs), newLen,
                    BlockCount(newLen, bs), slots, s)
  }

  /** The cut segment's slots are that run of the resized file. */
  ghost predicate CutSlots(
    was: SegmentRows, bs: nat, f: FileId, newLen: nat, slots: seq<nat>)
    requires bs > 0
  {
    var cut := CutSegment(FileLen(was, f), newLen, bs);
    var whole := Resized(FlatSlots(was, bs, f), FileLen(was, f), newLen, bs, MISSING);
    && |slots| == SlotsInSegment(|whole|, cut)
    && forall j :: 0 <= j < |slots| ==> slots[j] == whole[cut * 4096 + j]
  }

  lemma ResizedRowsOk(
      was: SegmentRows, now: SegmentRows, bs: nat, f: FileId, newLen: nat, slots: seq<nat>)
    requires bs > 0 && FileOk(was, bs, f)
    requires ResizedRows(was, now, bs, f, newLen, slots) && CutSlots(was, bs, f, newLen, slots)
    ensures (f, 0) in now && FileLen(now, f) == newLen
    ensures FileOk(now, bs, f)
  {
    hide BlockCount, DivCeil;
    var ob, nb := BlockCount(FileLen(was, f), bs), BlockCount(newLen, bs);
    var cut := CutSegment(FileLen(was, f), newLen, bs);
    assert ResizedRow(was, now, f, cut, newLen, nb, slots, 0);
    assert FileLen(now, f) == newLen;
    forall s: nat
      ensures (f, s) in now <==> s < SegmentCount(nb)
      ensures (f, s) in now ==>
                |now[(f, s)].ids| == SlotsInSegment(nb, s) && (now[(f, s)].len.Some? <==> s == 0)
    {
      assert ResizedRow(was, now, f, cut, newLen, nb, slots, s);
      if s < cut { assert SlotsInSegment(ob, s) == 4096 == SlotsInSegment(nb, s); }
    }
  }

  lemma ResizedRowsSlot(was: SegmentRows, now: SegmentRows, bs: nat, f: FileId, newLen: nat,
                        slots: seq<nat>, i: nat)
    requires bs > 0 && FileOk(was, bs, f) && FileOk(now, bs, f) && FileLen(now, f) == newLen
    requires ResizedRows(was, now, bs, f, newLen, slots) && CutSlots(was, bs, f, newLen, slots)
    requires i < BlockCount(newLen, bs)
    ensures SlotAt(now, f, i)
            == Resized(FlatSlots(was, bs, f), FileLen(was, f), newLen, bs, MISSING)[i]
  {
    hide BlockCount, DivCeil, BlockLen;
    var cut := CutSegment(FileLen(was, f), newLen, bs);
    assert ResizedRow(was, now, f, cut, newLen, BlockCount(newLen, bs), slots, i / 4096);
    BlockInSegs(now, bs, f, i);
    if i / 4096 == cut {
      assert i % 4096 == i - cut * 4096;
    } else if i / 4096 < cut {
      OnlyLastCommonChanges(FileLen(was, f), newLen, bs, i);
      BlockInSegs(was, bs, f, i);
    }
  }

  /** Segment by segment, a resize is the flat resize. */
  lemma ResizedRowsFlat(
      was: SegmentRows, now: SegmentRows, bs: nat, f: FileId, newLen: nat, slots: seq<nat>)
    requires bs > 0 && FileOk(was, bs, f) && FileOk(now, bs, f) && FileLen(now, f) == newLen
    requires ResizedRows(was, now, bs, f, newLen, slots) && CutSlots(was, bs, f, newLen, slots)
    ensures FlatSlots(now, bs, f)
            == Resized(FlatSlots(was, bs, f), FileLen(was, f), newLen, bs, MISSING)
  {
    hide FileOk, ResizedRows, CutSlots, Resized;
    var a := FlatSlots(now, bs, f);
    var b := Resized(FlatSlots(was, bs, f), FileLen(was, f), newLen, bs, MISSING);
    forall i | 0 <= i < |a| ensures a[i] == b[i] {
      ResizedRowsSlot(was, now, bs, f, newLen, slots, i);
    }
  }

  // ---- What a resize drops ----

  /** Whether the last of `c` common blocks changes length. */
  ghost predicate LastChanges(c: nat, oldLen: nat, newLen: nat, bs: nat) {
    c > 0 && BlockLen(oldLen, bs, c - 1) != BlockLen(newLen, bs, c - 1)
  }

  /** The slots a resize lets go of: a last common one whose length changes, and all past it. */
  ghost function DroppedSlots(slots: seq<nat>, oldLen: nat, newLen: nat, bs: nat): seq<nat>
    requires bs > 0
  {
    var c := Min(|slots|, BlockCount(newLen, bs));
    (if LastChanges(c, oldLen, newLen, bs) then [slots[c - 1]] else []) + slots[c..]
  }

  lemma ResizedParts(slots: seq<nat>, oldLen: nat, newLen: nat, bs: nat, r: seq<nat>)
    requires bs > 0 && |slots| == BlockCount(oldLen, bs)
    requires r == Resized(slots, oldLen, newLen, bs, MISSING)
    ensures var c := Min(|slots|, |r|);
            && (forall i :: 0 <= i < c - 1 ==> r[i] == slots[i])
            && (c > 0 ==>
                  r[c - 1] == if LastChanges(c, oldLen, newLen, bs) then MISSING else slots[c - 1])
            && (forall i :: c <= i < |r| ==> r[i] == MISSING)
  {
    var c := Min(|slots|, |r|);
    hide BlockLen;
    forall i | 0 <= i < c - 1 ensures r[i] == slots[i] {
      OnlyLastCommonChanges(oldLen, newLen, bs, i);
    }
  }

  lemma {:induction false} AllMissing(s: seq<nat>, id: nat)
    requires id != MISSING && forall k :: 0 <= k < |s| ==> s[k] == MISSING
    ensures Count(s, id) == 0
  {
    assert id !in s;
    assert id in multiset(s) <==> id in s;
  }

  lemma SplitCount(s: seq<nat>, c: nat, id: nat)
    requires c <= |s|
    ensures Count(s, id) == Count(s[..c], id) + Count(s[c..], id)
  {
    assert s == s[..c] + s[c..];
  }

  lemma KeptAndDropped(slots: seq<nat>, r: seq<nat>, c: nat, changed: bool, id: nat)
    requires c <= |slots| && c <= |r| && id != MISSING && (changed ==> c > 0)
    requires forall i :: 0 <= i < c - 1 ==> r[i] == slots[i]
    requires c > 0 ==> r[c - 1] == if changed then MISSING else slots[c - 1]
    requires forall i :: c <= i < |r| ==> r[i] == MISSING
    ensures Count(r, id) + Count((if changed then [slots[c - 1]] else []) + slots[c..], id)
            == Count(slots, id)
  {
    SplitCount(slots, c, id);
    SplitCount(r, c, id);
    AllMissing(r[c..], id);
    if c > 0 {
      assert r[..c] == slots[..c - 1] + [r[c - 1]];
      assert slots[..c] == slots[..c - 1] + [slots[c - 1]];
    } else {
      assert r[..c] == slots[..c];
    }
  }

  /** Kept and dropped slots together are the old slots. */
  lemma ResizeConserves(slots: seq<nat>, oldLen: nat, newLen: nat, bs: nat, id: nat)
    requires bs > 0 && |slots| == BlockCount(oldLen, bs) && id != MISSING
    ensures Count(Resized(slots, oldLen, newLen, bs, MISSING), id)
            + Count(DroppedSlots(slots, oldLen, newLen, bs), id) == Count(slots, id)
  {
    var r := Resized(slots, oldLen, newLen, bs, MISSING);
    var c := Min(|slots|, |r|);
    ResizedParts(slots, oldLen, newLen, bs, r);
    hide Resized, BlockLen, BlockCount;
    KeptAndDropped(slots, r, c, LastChanges(c, oldLen, newLen, bs), id);
  }

  /** `retain(|id| id != MISSING)`. */
  function Cached(ids: seq<nat>): (r: seq<nat>) {
    if ids == [] then []
    else Cached(ids[..|ids| - 1]) + (if ids[|ids| - 1] != MISSING then [ids[|ids| - 1]] else [])
  }

  lemma {:induction false} CachedCount(ids: seq<nat>, id: nat)
    ensures Count(Cached(ids), id) == if id == MISSING then 0 else Count(ids, id)
  {
    if ids != [] {
      var n := |ids| - 1;
      CachedCount(ids[..n], id);
      assert ids == ids[..n] + [ids[n]];
      CountAppend(ids[..n], [ids[n]], id);
      CountAppend(Cached(ids[..n]), if ids[n] != MISSING then [ids[n]] else [], id);
    }
  }

  /** The cut segment after `mem::replace`, `drain` and `resize`, as the code edits it. */
  function CutEdit(ids: seq<nat>, changed: bool, last: nat, keep: nat): seq<nat>
    requires changed ==> last < |ids|
  {
    var a := if changed then ids[last := MISSING] else ids;
    if |a| > keep then a[..keep] else a + seq(keep - |a|, _ => MISSING)
  }

  /** The edited cut segment is the run at `base` of the resized slots `whole`. */
  lemma CutEditRun(slots: seq<nat>, whole: seq<nat>, ids: seq<nat>, changed: bool, base: nat, c: nat, keep: nat)
    requires c == Min(|slots|, |whole|) && (changed ==> c > 0)
    requires forall i :: 0 <= i < c - 1 ==> whole[i] == slots[i]
    requires c > 0 ==> whole[c - 1] == if changed then MISSING else slots[c - 1]
    requires forall i :: c <= i < |whole| ==> whole[i] == MISSING
    requires base <= Max(c - 1, 0) && c <= base + 4096
    requires base <= |slots| && ids == slots[base..Min(base + 4096, |slots|)]
    requires base <= |whole| && keep == Min(|whole|, base + 4096) - base
    ensures changed ==> c - 1 - base < |ids|
    ensures var r := CutEdit(ids, changed, Max(c - 1 - base, 0), keep);
            |r| == keep && forall j :: 0 <= j < |r| ==> r[j] == whole[base + j]
  {
    var r := CutEdit(ids, changed, Max(c - 1 - base, 0), keep);
    forall j | 0 <= j < keep ensures |r| == keep && r[j] == whole[base + j] {
      if j < |ids| { assert ids[j] == slots[base + j]; }
    }
  }

  /** What the edit lets go of, with the segments after it, is what the resize drops. */
  lemma CutDropped(slots: seq<nat>, ids: seq<nat>, nb: nat, changed: bool, base: nat)
    requires var c := Min(|slots|, nb);
             && (changed ==> c > 0)
             && base <= Max(c - 1, 0) < base + 4096
             && ids == slots[base..Min(base + 4096, |slots|)]
    ensures var c, keep := Min(|slots|, nb), Min(nb, base + 4096) - base;
            && (changed ==> c - 1 - base < |ids|)
            && (if |ids| > keep then ids[keep..] else [])
               + slots[Min(base + 4096, |slots|)..] == slots[c..]
  {
    var c, keep := Min(|slots|, nb), Min(nb, base + 4096) - base;
    if |ids| > keep {
      assert ids[keep..] == slots[c..Min(base + 4096, |slots|)];
    }
  }

  /** Where the cut lies. */
  lemma CutPlace(ob: nat, nb: nat)
    ensures var c := Min(ob, nb);
            var cut := Max(c - 1, 0) / 4096;
            && cut * 4096 <= Max(c - 1, 0) < cut * 4096 + 4096
            && SlotsInSegment(nb, cut) == Min(nb, cut * 4096 + 4096) - cut * 4096
            && cut < SegmentCount(ob) && cut < SegmentCount(nb)
            && (nb <= ob ==> SegmentCount(nb) == cut + 1)
            && (ob <= nb ==> SegmentCount(ob) == cut + 1)
  {
  }

  /** The rows once the cut segment and the length in segment 0 are rewritten. */
  function CutRewritten(was: SegmentRows, f: FileId, cut: nat, newLen: nat, slots: seq<nat>): SegmentRows
    requires (f, 0) in was
  {
    if cut == 0 then was[(f, 0) := Segment(Some(newLen), slots)]
    else was[(f, cut) := Segment(None, slots)][(f, 0) := Segment(Some(newLen), was[(f, 0)].ids)]
  }

  /** One row of a resize, through its steps; `os` and `ns` are the old and new segment counts. */
  lemma ResizeStepsAt(was: SegmentRows, filled: SegmentRows, now: SegmentRows, f: FileId,
                      cut: nat, os: nat, ns: nat, newLen: nat, nb: nat, slots: seq<nat>, s: nat)
    requires (f, 0) in was && cut < os && cut < ns && (os == cut + 1 || ns == cut + 1)
    requires (f, s) in was <==> s < os
    requires (f, s) in was && s > 0 ==> was[(f, s)].len.None?
    requires Filled(CutRewritten(was, f, cut, newLen, slots), filled, f, cut + 1, ns, newLen, nb)
    requires Cleared(filled, now, f, cut + 1, os) && ns == SegmentCount(nb)
    ensures ResizedRow(was, now, f, cut, newLen, nb, slots, s)
  {
    hide OnlyFile, MissingSegment, SegmentCount;
    var mid := CutRewritten(was, f, cut, newLen, slots);
    assert (f, s) in mid <==> (f, s) in was || s == cut;
    assert (f, s) in filled <==> (f, s) in mid || cut < s < ns;
  }

  /** The rows a resize writes, one step after the other, are the resized rows. */
  lemma ResizeSteps(was: SegmentRows, filled: SegmentRows, now: SegmentRows,
                    bs: nat, f: FileId, newLen: nat, slots: seq<nat>)
    requires bs > 0 && FileOk(was, bs, f) && (f, 0) in was
    requires var ob, nb := BlockCount(FileLen(was, f), bs), BlockCount(newLen, bs);
             var cut := CutSegment(FileLen(was, f), newLen, bs);
             && Filled(CutRewritten(was, f, cut, newLen, slots), filled,
                       f, cut + 1, SegmentCount(nb), newLen, nb)
             && Cleared(filled, now, f, cut + 1, SegmentCount(ob))
    ensures ResizedRows(was, now, bs, f, newLen, slots)
  {
    hide BlockCount, DivCeil, SlotsInSegment, SegmentCount, FileOk, FileLen, MissingSegment, OnlyFile;
    var ob, nb := BlockCount(FileLen(was, f), bs), BlockCount(newLen, bs);
    var cut := CutSegment(FileLen(was, f), newLen, bs);
    CutPlace(ob, nb);
    CutRewrittenOnly(was, f, cut, newLen, slots);
    OnlyFileTwice(was, CutRewritten(was, f, cut, newLen, slots), filled, f);
    OnlyFileTwice(was, filled, now, f);
    hide Filled, Cleared, CutRewritten, CutSegment, Min, Max, ResizedRow;
    forall s: nat ensures ResizedRow(was, now, f, cut, newLen, nb, slots, s) {
      FileOkRow(was, bs, f, s);
      ResizeStepsAt(was, filled, now, f, cut, SegmentCount(ob), SegmentCount(nb), newLen, nb, slots, s);
    }
  }

  lemma FileOkRow(segs: SegmentRows, bs: nat, f: FileId, s: nat)
    requires bs > 0 && FileOk(segs, bs, f)
    ensures (f, s) in segs <==> s < SegmentCount(BlockCount(FileLen(segs, f), bs))
    ensures (f, s) in segs && s > 0 ==> segs[(f, s)].len.None?
  {
  }

  lemma CutRewrittenOnly(was: SegmentRows, f: FileId, cut: nat, newLen: nat, slots: seq<nat>)
    requires (f, 0) in was
    ensures OnlyFile(was, CutRewritten(was, f, cut, newLen, slots), f)
  {
  }

  /** Segments past the cut are not touched before they are taken. */
  lemma {:induction false} JoinedSame(was: SegmentRows, now: SegmentRows, f: FileId, from: nat, to: nat)
    requires forall s :: from <= s < to ==>
               ((f, s) in now <==> (f, s) in was) && ((f, s) in was ==> now[(f, s)] == was[(f, s)])
    ensures Joined(now, f, from, to) == Joined(was, f, from, to)
  {
    if from < to { JoinedSame(was, now, f, from, to - 1); }
  }

  /** The cut segment is the run of slots at the cut. */
  lemma CutSegmentIs(was: SegmentRows, bs: nat, f: FileId, slots: seq<nat>, nb: nat, cut: nat)
    requires bs > 0 && FileOk(was, bs, f) && slots == FlatSlots(was, bs, f)
    requires cut == Max(Min(|slots|, nb) - 1, 0) / 4096
    ensures (f, cut) in was && cut * 4096 <= |slots|
    ensures was[(f, cut)].ids == slots[cut * 4096..Min(cut * 4096 + 4096, |slots|)]
  {
    hide FileOk, FlatSlots;
    CutPlace(|slots|, nb);
    SegmentBetween(was, bs, f, cut);
  }

  lemma ChangeNeedsCommon(c: nat, oldLen: nat, newLen: nat, bs: nat)
    ensures LastChanges(c, oldLen, newLen, bs) ==> c > 0
  {
  }

  /** `cut` is the cut segment of the file, `ids` its slots, `keep` its new slot count. */
  ghost predicate CutAt(was: SegmentRows, bs: nat, f: FileId, newLen: nat, slots: seq<nat>, c: nat,
                        cut: nat, ids: seq<nat>, keep: nat)
    requires bs > 0
  {
    && slots == FlatSlots(was, bs, f) && c == Min(|slots|, BlockCount(newLen, bs))
    && cut == CutSegment(FileLen(was, f), newLen, bs)
    && keep == SlotsInSegment(BlockCount(newLen, bs), cut)
    && cut * 4096 <= Max(c - 1, 0) < cut * 4096 + 4096
    && keep == Min(BlockCount(newLen, bs), cut * 4096 + 4096) - cut * 4096
    && (f, cut) in was && ids == was[(f, cut)].ids
    && ids == slots[cut * 4096..Min(cut * 4096 + 4096, |slots|)]
  }

  lemma CutFound(was: SegmentRows, bs: nat, f: FileId, newLen: nat)
    requires bs > 0 && FileOk(was, bs, f)
    ensures var c := Min(BlockCount(FileLen(was, f), bs), BlockCount(newLen, bs));
            var cut := Max(c - 1, 0) / 4096;
            && (f, cut) in was
            && CutAt(was, bs, f, newLen, FlatSlots(was, bs, f), c, cut, was[(f, cut)].ids,
                     SlotsInSegment(BlockCount(newLen, bs), cut))
  {
    hide FileOk, FlatSlots, BlockCount, DivCeil, SlotsInSegment, FileLen;
    var slots, nb := FlatSlots(was, bs, f), BlockCount(newLen, bs);
    var cut := Max(Min(|slots|, nb) - 1, 0) / 4096;
    CutPlace(|slots|, nb);
    CutSegmentIs(was, bs, f, slots, nb, cut);
  }

  /** The edited cut segment holds the resized slots. */
  lemma CutSlotsIs(was: SegmentRows, bs: nat, f: FileId, newLen: nat, slots: seq<nat>, c: nat,
                   cut: nat, ids: seq<nat>, keep: nat, changed: bool)
    requires bs > 0 && CutAt(was, bs, f, newLen, slots, c, cut, ids, keep)
    requires changed == LastChanges(c, FileLen(was, f), newLen, bs)
    ensures changed ==> 0 <= c - 1 - cut * 4096 < |ids| && c - 1 - cut * 4096 < keep
    ensures CutSlots(was, bs, f, newLen, CutEdit(ids, changed, Max(c - 1 - cut * 4096, 0), keep))
  {
    hide FlatSlots, Resized, LastChanges, BlockCount, DivCeil, FileLen, SlotsInSegment, CutSegment;
    var oldLen := FileLen(was, f);
    var whole := Resized(slots, oldLen, newLen, bs, MISSING);
    ResizedParts(slots, oldLen, newLen, bs, whole);
    ChangeNeedsCommon(c, oldLen, newLen, bs);
    CutEditRun(slots, whole, ids, changed, cut * 4096, c, keep);
  }

  /** What a resize returns is what the flat resize drops. */
  lemma DroppedJoined(was: SegmentRows, bs: nat, f: FileId, newLen: nat, slots: seq<nat>, c: nat,
                      cut: nat, ids: seq<nat>, keep: nat, changed: bool)
    requires bs > 0 && FileOk(was, bs, f) && CutAt(was, bs, f, newLen, slots, c, cut, ids, keep)
    requires changed == LastChanges(c, FileLen(was, f), newLen, bs)
    requires changed ==> 0 <= c - 1 - cut * 4096 < |ids|
    ensures (if changed then [ids[Max(c - 1 - cut * 4096, 0)]] else [])
            + (if |ids| > keep then ids[keep..] else [])
            + Joined(was, f, cut + 1, SegmentCount(|slots|))
            == DroppedSlots(slots, FileLen(was, f), newLen, bs)
  {
    hide FileOk, FlatSlots, BlockCount, DivCeil, SlotsInSegment, Joined, LastChanges, FileLen,
         CutSegment;
    SegmentsCover(|slots|, cut, c);
    hide SegmentCount;
    JoinedRun(was, bs, f, slots, cut + 1, SegmentCount(|slots|));
    DropParts(slots, ids, BlockCount(newLen, bs), c, cut * 4096, keep, changed, Joined(was, f, cut + 1, SegmentCount(|slots|)));
  }

  /** The cut segment's part and the segments after it are what lies past the cut. */
  lemma DropParts(slots: seq<nat>, ids: seq<nat>, nb: nat, c: nat, base: nat, keep: nat, changed: bool, rest: seq<nat>)
    requires c == Min(|slots|, nb) && (changed ==> c > 0) && base <= Max(c - 1, 0) < base + 4096
    requires keep == Min(nb, base + 4096) - base
    requires ids == slots[base..Min(base + 4096, |slots|)] && rest == slots[Min(base + 4096, |slots|)..]
    requires changed ==> 0 <= c - 1 - base < |ids|
    ensures (if changed then [ids[Max(c - 1 - base, 0)]] else []) + (if |ids| > keep then ids[keep..] else []) + rest
            == (if changed then [slots[c - 1]] else []) + slots[c..]
  {
    CutDropped(slots, ids, nb, changed, base);
    var one := if changed then [slots[c - 1]] else [];
    JoinedLast(one, if |ids| > keep then ids[keep..] else [], rest, slots[c..]);
  }

  lemma JoinedLast(a: seq<nat>, b: seq<nat>, c: seq<nat>, bc: seq<nat>)
    requires b + c == bc
    ensures a + b + c == a + bc
  {
  }

  lemma SegmentsCover(n: nat, cut: nat, c: nat)
    requires cut * 4096 <= Max(c - 1, 0) && c <= n
    ensures n <= SegmentCount(n) * 4096 && cut < SegmentCount(n)
  {
  }

  /** The rows a resize leaves: valid, and flat they are the resized file. */
  lemma ResizeDone(was: SegmentRows, filled: SegmentRows, now: SegmentRows,
                   bs: nat, f: FileId, newLen: nat, slots: seq<nat>)
    requires bs > 0 && SegsOk(was, bs) && FileOk(was, bs, f) && (f, 0) in was
    requires CutSlots(was, bs, f, newLen, slots)
    requires var ob, nb := BlockCount(FileLen(was, f), bs), BlockCount(newLen, bs);
             var cut := CutSegment(FileLen(was, f), newLen, bs);
             && Filled(CutRewritten(was, f, cut, newLen, slots), filled,
                       f, cut + 1, SegmentCount(nb), newLen, nb)
             && Cleared(filled, now, f, cut + 1, SegmentCount(ob))
    ensures SegsOk(now, bs)
    ensures Flat(now, bs) == Flat(was, bs)[
              f := FileRow(newLen, Resized(FlatSlots(was, bs, f), FileLen(was, f), newLen, bs, MISSING))]
  {
    hide BlockCount, DivCeil, SegsOk, FileOk, Flat, FlatSlots, FileLen, Filled, Cleared, CutRewritten,
         CutSlots, Resized, SegmentCount, CutSegment, OnlyFile;
    ResizeSteps(was, filled, now, bs, f, newLen, slots);
    ResizedRowsOk(was, now, bs, f, newLen, slots);
    ResizedRowsFlat(was, now, bs, f, newLen, slots);
    OneFileChangedOk(was, now, bs, f);
    OneFileChanged(was, now, bs, f);
  }

  /** When the old segments past the cut are taken, they are still there and unchanged. */
  lemma PastCutSame(was: SegmentRows, filled: SegmentRows, bs: nat, f: FileId, newLen: nat,
                    cut: nat, slots: seq<nat>)
    requires bs > 0 && FileOk(was, bs, f) && (f, 0) in was
    requires cut == CutSegment(FileLen(was, f), newLen, bs)
    requires Filled(CutRewritten(was, f, cut, newLen, slots), filled, f, cut + 1,
                    SegmentCount(BlockCount(newLen, bs)), newLen, BlockCount(newLen, bs))
    ensures var os := SegmentCount(BlockCount(FileLen(was, f), bs));
            && (forall s :: cut + 1 <= s < os ==> (f, s) in filled)
            && Joined(filled, f, cut + 1, os) == Joined(was, f, cut + 1, os)
  {
    var os := SegmentCount(BlockCount(FileLen(was, f), bs));
    CutPlace(BlockCount(FileLen(was, f), bs), BlockCount(newLen, bs));
    forall s | cut + 1 <= s < os
      ensures (f, s) in filled && (f, s) in was && filled[(f, s)] == was[(f, s)]
    {
      assert (f, s) in was;
    }
    hide FileOk, Filled;
    JoinedSame(was, filled, f, cut + 1, os);
  }

  lemma NoFileNoSegments(segs: SegmentRows, bs: nat, f: FileId)
    requires SegsOk(segs, bs) && (f, 0) !in segs
    ensures forall s :: (f, s) !in segs
  {
  }
}
