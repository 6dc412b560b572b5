/** Manifest edits inside an index write transaction. */
module Files {
  import opened Base
  import opened Manifest
  import opened Ledger
  import opened Segments
  import opened Index

  /** `mem::replace` over a run of slots: the new slots and the ids they held. */
  method ReplaceRun(slots: seq<nat>, off: nat, ids: seq<nat>)
    returns (now: seq<nat>, was: seq<nat>)
    requires off + |ids| <= |slots|
    ensures now == Spliced(slots, off, ids)
    ensures was == slots[off..off + |ids|]
  {
    now, was := slots, [];
    for k := 0 to |ids|
      invariant now == slots[..off] + ids[..k] + slots[off + k..]
      invariant was == slots[off..off + k]
    {
      was := was + [now[off + k]];
      now := now[off + k := ids[k]];
    }
  }

  ghost predicate HasRange(t: Tables, f: FileId, len: nat, first: nat, n: nat)
    reads t
    requires t.Valid()
  {
    (f, 0) in t.segs ==> FileLen(t.segs, f) == len && first + n <= BlockCount(len, t.bs)
  }

  /** One turn of `SetSlots`: writes what fits of `ids` into the segment that holds `block`. */
  method SetRun(t: Tables, f: FileId, len: nat, block: nat, ids: seq<nat>)
    returns (r: Result<(nat, seq<nat>)>)
    requires t.Valid() && ids != [] && HasRange(t, f, len, block, |ids|)
    modifies t`segs
    ensures (f, 0) !in old(t.segs) ==> r == Err(Corrupt) && t.segs == old(t.segs)
    ensures (f, 0) in old(t.segs) ==>
              && t.Valid() && (f, 0) in t.segs && OnlyFile(old(t.segs), t.segs, f) && FileLen(t.segs, f) == len
              && r.Ok? && 0 < r.value.0 <= |ids|
              && var slots := FlatSlots(old(t.segs), t.bs, f);
                 && r.value.1 == slots[block..block + r.value.0]
                 && FlatSlots(t.segs, t.bs, f) == Spliced(slots, block, ids[..r.value.0])
  {
    hide FileOk, FlatSlots, Spliced, FileLen, OnlyFile, InSegs, SegsOk, BlockCount;
    var seg := block / 4096;
    var off := block % 4096;
    SlotThere(t.segs, t.bs, f, block);
    if (f, seg) !in t.segs { return Err(Corrupt); }
    var slots := t.segs[(f, seg)].ids;
    var take := Min(|slots| - off, |ids|);
    var now, prior := ReplaceRun(slots, off, ids[..take]);
    RunApplied(t.segs, t.segs[(f, seg) := Segment(if seg == 0 then Some(len) else None, now)],
               t.bs, f, seg, off, ids[..take]);
    t.segs := t.segs[(f, seg) := Segment(if seg == 0 then Some(len) else None, now)];
    return Ok((take, prior));
  }

  /** Replaces slots `[first, first + |ids|)` and returns the ids they held. */
  method SetSlots(t: Tables, f: FileId, len: nat, first: nat, ids: seq<nat>) returns (r: Result<seq<nat>>)
    requires t.Valid()
    requires f in t.View().files ==>
               t.View().files[f].len == len && first + |ids| <= |t.View().files[f].slots|
    modifies t`segs
    ensures f !in old(t.View().files) ==>
              t.segs == old(t.segs) && r == if ids == [] then Ok([]) else Err(Corrupt)
    ensures f in old(t.View().files) ==>
              var slots := old(t.View().files[f].slots);
              && t.Valid() && r == Ok(slots[first..first + |ids|])
              && t.View() == old(t.View()).(files := old(t.View().files)[
                   f := FileRow(len, Spliced(slots, first, ids))])
  {
    hide Flat, FlatSlots, SegsOk, Spliced, OnlyFile, FileLen, BlockCount;
    ghost var was := t.segs;
    FlatHas(t.segs, t.bs, f);
    ghost var slots := FlatSlots(t.segs, t.bs, f);
    ghost var known := (f, 0) in t.segs;
    var held: seq<nat> := [];
    var done := 0;
    assert OnlyFile(was, was, f) by { SameFile(was, f); }
    if known { SplicedNone(slots, first, ids[..0]); }
    while done < |ids|
      invariant 0 <= done <= |ids| && t.Valid()
      invariant !known ==> t.segs == was && done == 0 && held == []
      invariant known ==> (f, 0) in t.segs && FileLen(t.segs, f) == len
      invariant OnlyFile(was, t.segs, f)
      invariant known ==> FlatSlots(t.segs, t.bs, f) == Spliced(slots, first, ids[..done])
      invariant known ==> held == slots[first..first + done]
    {
      ghost var prev := t.segs;
      var run := SetRun(t, f, len, first + done, ids[done..]);
      if run.Err? { return Err(run.error); }
      OnlyFileTwice(was, prev, t.segs, f);
      ghost var take := run.value.0;
      assert ids[done..][..take] == ids[done..done + take];
      SplicedTwice(slots, first, ids, done, take);
      held := held + run.value.1;
      done := done + run.value.0;
    }
    assert ids[..done] == ids;
    OneFileChanged(was, t.segs, t.bs, f);
    return Ok(held);
  }

  /** Writes missing segments `[from, to)` of a file with `blocks` blocks. */
  method PutMissingSegments(segs: SegmentRows, f: FileId, len: nat, blocks: nat, from: nat, to: nat)
    returns (now: SegmentRows)
    ensures Filled(segs, now, f, from, to, len, blocks)
  {
    now := segs;
    var s := from;
    while s < to
      invariant from <= s && (s <= to || s == from)
      invariant Filled(segs, now, f, from, s, len, blocks)
      decreases Max(to - s, 0)
    {
      now := now[(f, s) := MissingSegment(len, blocks, s)];
      s := s + 1;
    }
  }

  /** Removes segments `[from, to)` and returns their slots. */
  method TakeSegments(segs: SegmentRows, f: FileId, from: nat, to: nat)
    returns (now: SegmentRows, r: Result<seq<nat>>)
    ensures r.Ok? <==> forall s :: from <= s < to ==> (f, s) in segs
    ensures r.Ok? ==> Cleared(segs, now, f, from, to) && r.value == Joined(segs, f, from, to)
  {
    now := segs;
    var ids: seq<nat> := [];
    var s := from;
    while s < to
      invariant from <= s && (s <= to || s == from)
      invariant forall q :: from <= q < s ==> (f, q) in segs
      invariant Cleared(segs, now, f, from, s)
      invariant ids == Joined(segs, f, from, s)
      decreases Max(to - s, 0)
    {
      if (f, s) !in now { return now, Err(Corrupt); }
      ids := ids + now[(f, s)].ids;
      now := now - {(f, s)};
      s := s + 1;
    }
    return now, Ok(ids);
  }

  /** Removes every segment of a file; its cached block ids, or nothing if it does not exist. */
  method Remove(t: Tables, f: FileId) returns (r: Result<Option<seq<nat>>>)
    requires t.Valid()
    modifies t`segs
    ensures t.Valid() && r.Ok?
    ensures f !in old(t.View().files) ==> r == Ok(None) && t.segs == old(t.segs)
    ensures f in old(t.View().files) ==>
              && r == Ok(Some(Cached(old(t.View().files[f].slots))))
              && t.View() == old(t.View()).(files := old(t.View().files) - {f})
  {
    FlatHas(t.segs, t.bs, f);
    if (f, 0) !in t.segs { return Ok(None); }
    ghost var was := t.segs;
    var n := SegmentCount(BlockCount(FileLen(t.segs, f), t.bs));
    assert FileOk(was, t.bs, f);
    var now, taken := TakeSegments(t.segs, f, 0, n);
    if taken.Err? { return Err(Corrupt); }
    t.segs := now;
    assert Joined(was, f, 0, n) == FlatSlots(was, t.bs, f) by {
      JoinedRun(was, t.bs, f, FlatSlots(was, t.bs, f), 0, n);
    }
    hide FlatSlots, Flat;
    OneFileChangedOk(was, t.segs, t.bs, f);
    OneFileChanged(was, t.segs, t.bs, f);
    return Ok(Some(Cached(taken.value)));
  }

  /** Edits the cut segment: clears a last common slot whose length changes, then drops the slots
      past `keep` or adds missing ones. */
  method EditCut(ids: seq<nat>, changed: bool, last: nat, keep: nat)
    returns (slots: seq<nat>, dropped: seq<nat>)
    requires changed ==> last < |ids| && last < keep
    ensures slots == CutEdit(ids, changed, last, keep)
    ensures dropped == (if changed then [ids[last]] else []) + (if |ids| > keep then ids[keep..] else [])
  {
    slots, dropped := ids, [];
    if changed {
      dropped := [slots[last]];
      slots := slots[last := MISSING];
    }
    if |slots| > keep {
      dropped := dropped + slots[keep..];
      slots := slots[..keep];
    } else {
      slots := slots + seq(keep - |slots|, _ => MISSING);
    }
  }

  /** Creates the file (all blocks missing) or changes its length. Returns the cached ids it drops:
      blocks past the new end, and a last common block whose length changes. */
  method Resize(t: Tables, f: FileId, newLen: nat) returns (r: Result<seq<nat>>)
    requires t.Valid()
    modifies t`segs
    ensures t.Valid() && r.Ok?
    ensures f !in old(t.View().files) ==>
              && r == Ok([])
              && t.View() == old(t.View()).(files := old(t.View().files)[
                   f := FileRow(newLen, Resized([], 0, newLen, t.bs, MISSING))])
    ensures f in old(t.View().files) ==>
              var row := old(t.View().files[f]);
              && r == Ok(Cached(DroppedSlots(row.slots, row.len, newLen, t.bs)))
              && t.View() == old(t.View()).(files := old(t.View().files)[
                   f := FileRow(newLen, Resized(row.slots, row.len, newLen, t.bs, MISSING))])
  {
    hide BlockCount, DivCeil, SegmentCount, Flat, FlatSlots, Filled, OnlyFile;
    FlatHas(t.segs, t.bs, f);
    ghost var was := t.segs;
    var nb := BlockCount(newLen, t.bs);
    var newSegs := SegmentCount(nb);
    if (f, 0) !in t.segs {
      NoFileNoSegments(was, t.bs, f);
      t.segs := PutMissingSegments(t.segs, f, newLen, nb, 0, newSegs);
      FilledFile(was, t.segs, t.bs, f, newLen);
      OneFileChangedOk(was, t.segs, t.bs, f);
      OneFileChanged(was, t.segs, t.bs, f);
      return Ok([]);
    }
    var now;
    now, r := ResizeExisting(t.segs, t.bs, f, newLen);
    t.segs := now;
  }

  method ResizeExisting(was: SegmentRows, bs: nat, f: FileId, newLen: nat)
    returns (now: SegmentRows, r: Result<seq<nat>>)
    requires bs > 0 && SegsOk(was, bs) && (f, 0) in was
    ensures SegsOk(now, bs)
    ensures var row := FileRow(FileLen(was, f), FlatSlots(was, bs, f));
            && r == Ok(Cached(DroppedSlots(row.slots, row.len, newLen, bs)))
            && Flat(now, bs) == Flat(was, bs)[
                 f := FileRow(newLen, Resized(row.slots, row.len, newLen, bs, MISSING))]
  {
    hide FileOk, SegsOk, Flat, FlatSlots, FileLen, BlockCount, DivCeil, SlotsInSegment, SegmentCount,
         CutSlots, CutEdit, Resized, DroppedSlots, Filled, Cleared, OnlyFile, Cached, BlockLen,
         CutRewritten, ResizedRows, Joined, CutAt;
    FileThere(was, bs, f);
    ghost var all := FlatSlots(was, bs, f);
    var nb := BlockCount(newLen, bs);
    var oldLen := FileLen(was, f);
    var ob := BlockCount(oldLen, bs);
    var common := Min(ob, nb);
    var cut := Max(common - 1, 0) / 4096;
    var changed := common > 0
                   && BlockLen(oldLen, bs, common - 1) != BlockLen(newLen, bs, common - 1);
    CutFound(was, bs, f, newLen);
    if (f, cut) !in was { return was, Err(Corrupt); }
    var ids, keep := was[(f, cut)].ids, SlotsInSegment(nb, cut);
    CutSlotsIs(was, bs, f, newLen, all, common, cut, ids, keep, changed);
    var slots, dropped := EditCut(ids, changed, Max(common - 1 - cut * 4096, 0), keep);
    DroppedJoined(was, bs, f, newLen, all, common, cut, ids, keep, changed);
    ghost var rest := Joined(was, f, cut + 1, SegmentCount(|all|));
    assert dropped + rest == DroppedSlots(all, oldLen, newLen, bs);
    assert cut == CutSegment(FileLen(was, f), newLen, bs);
    hide CutSegment, Min, Max;
    var filled := PutMissingSegments(CutRewritten(was, f, cut, newLen, slots), f, newLen, nb,
                                     cut + 1, SegmentCount(nb));
    PastCutSame(was, filled, bs, f, newLen, cut, slots);
    var taken;
    now, taken := TakeSegments(filled, f, cut + 1, SegmentCount(ob));
    if taken.Err? { return was, Err(Corrupt); }
    assert taken.value == rest;
    ResizeDone(was, filled, now, bs, f, newLen, slots);
    return now, Ok(Cached(dropped + taken.value));
  }
}
