/** Reading a range of a file from an index snapshot and the pack files. */
module Read {
  import opened Base
  import opened Manifest
  import opened Ledger
  import opened Segments
  import opened Codec
  import opened Ranges

  /** The index snapshot a read works on, and the bytes of the pack files. */
  datatype Snapshot = Snapshot(segs: SegmentRows, blocks: map<nat, BlockLoc>, packs: map<nat, bytes>)

  function Start(b: nat, bs: nat): nat { b * bs }

  /** The block that holds byte `k`. */
  function BlockOf(k: nat, bs: nat): nat
    requires bs > 0
  {
    k / bs
  }

  /** What a read gets for a slot: the block, if it is cached and its record is sound. */
  function BlockData(env: Env, snap: Snapshot, id: nat): Option<bytes> {
    if id == MISSING || id !in snap.blocks || snap.blocks[id].pack !in snap.packs then None
    else
      match ReadRecord(env, snap.packs[snap.blocks[id].pack], snap.blocks[id])
      case Ok(c) => Some(c)
      case Err(_) => None
  }

  /** The slot names no stored block: nothing is read for it. */
  predicate NoRow(snap: Snapshot, id: nat) { id == MISSING || id !in snap.blocks }

  ghost predicate Untried(snap: Snapshot, f: FileId, b: nat) { NoRow(snap, SlotAt(snap.segs, f, b)) }

  ghost function DataOf(env: Env, snap: Snapshot, f: FileId, b: nat): Option<bytes> {
    BlockData(env, snap, SlotAt(snap.segs, f, b))
  }

  /** The snapshot is in order for reading `f`: whole manifests, blocks of their slots' lengths, and
      every pack's file in place. Readers of a store always see such snapshots. */
  ghost predicate Readable(env: Env, snap: Snapshot, f: FileId) {
    && env.bs > 0 && SegsOk(snap.segs, env.bs)
    && (forall id :: id in snap.blocks ==> snap.blocks[id].pack in snap.packs)
    && (forall b :: 0 <= b < BlockCount(FileLen(snap.segs, f), env.bs) ==>
          SlotAt(snap.segs, f, b) in snap.blocks ==>
            snap.blocks[SlotAt(snap.segs, f, b)].rawLen == BlockLen(FileLen(snap.segs, f), env.bs, b))
  }

  lemma RecordLength(env: Env, file: bytes, loc: BlockLoc)
    requires ReadRecord(env, file, loc).Ok?
    ensures |ReadRecord(env, file, loc).value| == loc.rawLen
  {
  }

  lemma DataLength(env: Env, snap: Snapshot, f: FileId, b: nat)
    requires Readable(env, snap, f) && b < BlockCount(FileLen(snap.segs, f), env.bs)
    ensures var d := DataOf(env, snap, f, b);
            d.Some? ==> |d.value| == BlockLen(FileLen(snap.segs, f), env.bs, b)
  {
    hide ReadRecord, SegsOk, BlockCount, BlockLen, SlotAt, FileLen;
    var id := SlotAt(snap.segs, f, b);
    if DataOf(env, snap, f, b).Some? {
      RecordLength(env, snap.packs[snap.blocks[id].pack], snap.blocks[id]);
    }
  }

  /** `read_block_into`: copies part of a block into the buffer, or reports that it is not there. A
      whole block is decoded in place, so a record that turns out unsound may leave anything there:
      `junk` is what a failed decoding writes. */
  method ReadBlockInto(env: Env, loc: BlockLoc, file: bytes, ioFails: bool, junk: nat -> byte,
                       skip: nat, buf: array<byte>, at: nat, n: nat)
    returns (r: Result<bool>)
    requires at + n <= buf.Length
    modifies buf
    ensures r.Err? <==> skip + n > loc.rawLen || ioFails
    ensures r.Ok? ==> r.value == ReadRecord(env, file, loc).Ok?
    ensures r.Ok? && r.value ==> skip + n <= |ReadRecord(env, file, loc).value|
    ensures r.Ok? && r.value ==> forall k :: at <= k < at + n ==>
              buf[k] == ReadRecord(env, file, loc).value[skip + k - at]
    ensures forall k :: 0 <= k < buf.Length && !(at <= k < at + n) ==> buf[k] == old(buf[k])
    ensures r.Err? || (!r.value && !(skip == 0 && n == loc.rawLen)) ==> buf[..] == old(buf[..])
  {
    if skip + n > loc.rawLen { return Err(Corrupt); }
    if ioFails { return Err(Error.Io); }
    var got := ReadRecord(env, file, loc);
    if got.Err? {
      if skip == 0 && n == loc.rawLen {
        forall i | 0 <= i < n { buf[at + i] := junk(i); }
      }
      return Ok(false);
    }
    RecordLength(env, file, loc);
    hide ReadRecord;
    var c := got.value;
    forall i | 0 <= i < n { buf[at + i] := c[skip + i]; }
    return Ok(true);
  }

  /** The buffer after block `b` was read: its part is the block's bytes; what was there before, if the
      slot names no block (`untried`); and unspecified if the record is unsound. */
  ghost predicate BlockRead(now: seq<byte>, was: seq<byte>, offset: nat, end: nat, bs: nat, b: nat,
                            data: Option<bytes>, untried: bool)
    requires |now| == |was| && offset <= end <= offset + |was|
  {
    forall i :: 0 <= i < |now| && Start(b, bs) <= offset + i < Min(end, Start(b, bs) + bs) ==>
      ByteRead(now, was, offset, bs, b, data, untried, i)
  }

  ghost predicate ByteRead(now: seq<byte>, was: seq<byte>, offset: nat, bs: nat, b: nat, data: Option<bytes>,
                           untried: bool, i: nat)
    requires i < |now| == |was| && Start(b, bs) <= offset + i
  {
    && (data.Some? ==> offset + i - Start(b, bs) < |data.value| && now[i] == data.value[offset + i - Start(b, bs)])
    && (untried ==> now[i] == was[i])
  }

  /** Blocks `first` to `b` have been read; the buffer beyond them is untouched. */
  ghost predicate ReadUpTo(env: Env, snap: Snapshot, f: FileId, now: seq<byte>, was: seq<byte>,
                           offset: nat, end: nat, first: nat, b: nat)
    requires |now| == |was| && offset <= end <= offset + |was|
  {
    && (forall c :: first <= c < b ==>
          BlockRead(now, was, offset, end, env.bs, c, DataOf(env, snap, f, c), Untried(snap, f, c)))
    && (forall k :: 0 <= k < |was| && (offset + k >= Start(b, env.bs) || offset + k >= end) ==> now[k] == was[k])
  }

  /** The missing list covers exactly the blocks from `first` to `b` that could not be read. */
  ghost predicate MissingUpTo(env: Env, snap: Snapshot, f: FileId, missing: seq<Range>, first: nat, b: nat) {
    && Merged(missing) && EndsBy(missing, Start(b, env.bs))
    && forall k :: InRanges(missing, k) <==> InMissing(env, snap, f, first, b, k)
  }

  ghost predicate InMissing(env: Env, snap: Snapshot, f: FileId, first: nat, b: nat, k: nat) {
    exists c :: first <= c < b && InBlock(FileLen(snap.segs, f), env.bs, c, k) && DataOf(env, snap, f, c).None?
  }

  ghost predicate InBlock(len: nat, bs: nat, b: nat, k: nat) {
    Start(b, bs) <= k < Min(Start(b, bs) + bs, len)
  }

  lemma StartNext(b: nat, bs: nat)
    ensures Start(b + 1, bs) == Start(b, bs) + bs
  {
  }

  lemma StartMono(a: nat, b: nat, bs: nat)
    requires a <= b
    ensures Start(a, bs) <= Start(b, bs)
  {
    MulMono(a, b, bs);
  }

  /** The buffer after one more block: only its part changed, and not if the slot names no block. */
  ghost predicate BlockDone(was: seq<byte>, now: seq<byte>, at: nat, n: nat, skip: nat, data: Option<bytes>,
                            untried: bool) {
    && |now| == |was| && at + n <= |was| && (data.Some? ==> skip + n <= |data.value|)
    && (forall k :: 0 <= k < |was| && (!(at <= k < at + n) || untried) ==> now[k] == was[k])
    && (data.Some? ==> forall k :: at <= k < at + n ==> now[k] == data.value[skip + k - at])
  }

  lemma BlockReadNow(mid: seq<byte>, now: seq<byte>, was: seq<byte>, offset: nat, end: nat, len: nat, bs: nat, b: nat,
                     data: Option<bytes>, untried: bool)
    requires |mid| == |now| == |was| && offset < end <= offset + |was| && end <= len
    requires Start(b, bs) < end && offset < Start(b, bs) + bs
    requires data.Some? ==> |data.value| == Min(len - Start(b, bs), bs)
    requires var from, to := Max(offset, Start(b, bs)), Min(end, Min(len, Start(b, bs) + bs));
             from <= to && BlockDone(mid, now, from - offset, to - from, from - Start(b, bs), data, untried)
    requires forall k :: 0 <= k < |was| && offset + k >= Start(b, bs) ==> mid[k] == was[k]
    ensures BlockRead(now, was, offset, end, bs, b, data, untried)
  {
    hide Start;
    forall i | 0 <= i < |now| && Start(b, bs) <= offset + i < Min(end, Start(b, bs) + bs)
      ensures ByteRead(now, was, offset, bs, b, data, untried, i)
    {
    }
  }

  lemma BlockReadBefore(mid: seq<byte>, now: seq<byte>, was: seq<byte>, offset: nat, end: nat, bs: nat, c: nat, b: nat,
                        data: Option<bytes>, untried: bool)
    requires |mid| == |now| == |was| && offset <= end <= offset + |was| && c < b
    requires forall k :: 0 <= k < |was| && offset + k < Start(b, bs) ==> now[k] == mid[k]
    requires BlockRead(mid, was, offset, end, bs, c, data, untried)
    ensures BlockRead(now, was, offset, end, bs, c, data, untried)
  {
    StartNext(c, bs);
    StartMono(c + 1, b, bs);
    hide Start;
    forall i | 0 <= i < |now| && Start(c, bs) <= offset + i < Min(end, Start(c, bs) + bs)
      ensures ByteRead(now, was, offset, bs, c, data, untried, i)
    {
      assert ByteRead(mid, was, offset, bs, c, data, untried, i);
    }
  }

  lemma ReadStep(env: Env, snap: Snapshot, f: FileId, mid: seq<byte>, now: seq<byte>, was: seq<byte>,
                 offset: nat, end: nat, len: nat, first: nat, b: nat)
    requires |mid| == |now| == |was| && offset < end <= offset + |was| && end <= len
    requires ReadUpTo(env, snap, f, mid, was, offset, end, first, b)
    requires Start(b, env.bs) < end && offset < Start(b, env.bs) + env.bs
    requires var data := DataOf(env, snap, f, b);
             var from, to := Max(offset, Start(b, env.bs)), Min(end, Min(len, Start(b, env.bs) + env.bs));
             && (data.Some? ==> |data.value| == Min(len - Start(b, env.bs), env.bs))
             && from <= to && BlockDone(mid, now, from - offset, to - from, from - Start(b, env.bs), data, Untried(snap, f, b))
    ensures ReadUpTo(env, snap, f, now, was, offset, end, first, b + 1)
  {
    hide DataOf, Untried, Start, BlockRead;
    var bs := env.bs;
    StartNext(b, bs);
    BlockReadNow(mid, now, was, offset, end, len, bs, b, DataOf(env, snap, f, b), Untried(snap, f, b));
    forall c | first <= c < b + 1
      ensures BlockRead(now, was, offset, end, bs, c, DataOf(env, snap, f, c), Untried(snap, f, c))
    {
      if c < b { BlockReadBefore(mid, now, was, offset, end, bs, c, b, DataOf(env, snap, f, c), Untried(snap, f, c)); }
    }
  }

  lemma MissingStep(env: Env, snap: Snapshot, f: FileId, missing: seq<Range>, first: nat, b: nat)
    requires MissingUpTo(env, snap, f, missing, first, b) && first <= b && Start(b, env.bs) < FileLen(snap.segs, f)
    requires env.bs > 0
    ensures var r := Range(Start(b, env.bs), Min(FileLen(snap.segs, f), Start(b, env.bs) + env.bs));
            MissingUpTo(env, snap, f, if DataOf(env, snap, f, b).None? then PushRange(missing, r) else missing,
                        first, b + 1)
  {
    hide DataOf, Start, PushRange, InRanges, Merged, FileLen;
    var len := FileLen(snap.segs, f);
    var r := Range(Start(b, env.bs), Min(len, Start(b, env.bs) + env.bs));
    var now := if DataOf(env, snap, f, b).None? then PushRange(missing, r) else missing;
    StartNext(b, env.bs);
    if DataOf(env, snap, f, b).None? { PushMerged(missing, r); }
    forall k ensures InRanges(now, k) <==> InMissing(env, snap, f, first, b + 1, k) {
      if DataOf(env, snap, f, b).None? { PushPoints(missing, r, k); }
      if InMissing(env, snap, f, first, b + 1, k) {
        var c :| first <= c < b + 1 && InBlock(len, env.bs, c, k) && DataOf(env, snap, f, c).None?;
        assert c == b || InMissing(env, snap, f, first, b, k);
      }
      if InMissing(env, snap, f, first, b, k) {
        var c :| first <= c < b && InBlock(len, env.bs, c, k) && DataOf(env, snap, f, c).None?;
        assert InMissing(env, snap, f, first, b + 1, k);
      }
    }
  }

  /** The slot of block `b`, through the segment that holds it. */
  lemma SlotFound(snap: Snapshot, bs: nat, f: FileId, b: nat)
    requires SegsOk(snap.segs, bs) && (f, 0) in snap.segs && b < BlockCount(FileLen(snap.segs, f), bs)
    ensures (f, b / 4096) in snap.segs && b % 4096 < |snap.segs[(f, b / 4096)].ids|
    ensures snap.segs[(f, b / 4096)].ids[b % 4096] == SlotAt(snap.segs, f, b)
  {
    hide BlockCount, FileLen, FileOk;
    BlockInSegs(snap.segs, bs, f, b);
  }

  /** Where the blocks of a range lie. */
  lemma BlockPlace(offset: nat, end: nat, len: nat, bs: nat, b: nat)
    requires bs > 0 && offset < end <= len && BlockOf(offset, bs) <= b <= BlockOf(end - 1, bs)
    ensures b < BlockCount(len, bs) && Start(b, bs) < end && offset < Start(b, bs) + bs
    ensures BlockLen(len, bs, b) == Min(len - Start(b, bs), bs)
  {
    FirstLast(offset, bs, b);
    var q := (end - 1) / bs;
    assert end - 1 == q * bs + (end - 1) % bs;
    StartMono(b, q, bs);
    CeilBounds(len, bs);
    if b >= DivCeil(len, bs) { MulMono(DivCeil(len, bs), b, bs); }
  }

  lemma FirstLast(offset: nat, bs: nat, b: nat)
    requires bs > 0 && BlockOf(offset, bs) <= b
    ensures offset < Start(b, bs) + bs
  {
    var q := offset / bs;
    assert offset == q * bs + offset % bs;
    StartMono(q, b, bs);
  }

  lemma ReadStart(env: Env, snap: Snapshot, f: FileId, was: seq<byte>, offset: nat, end: nat)
    requires env.bs > 0 && offset <= end <= offset + |was|
    ensures ReadUpTo(env, snap, f, was, was, offset, end, BlockOf(offset, env.bs), BlockOf(offset, env.bs))
    ensures MissingUpTo(env, snap, f, [], BlockOf(offset, env.bs), BlockOf(offset, env.bs))
  {
  }

  /** The outside of a read: the blocks whose record cannot be fetched for an I/O error, and what a
      failed decoding of a block leaves in its place. */
  datatype Outside = Outside(ioFails: nat -> bool, junk: nat -> nat -> byte)

  /** One block of a read: fills its part of the buffer if the block is there. */
  method ReadOne(env: Env, snap: Snapshot, id: nat, skip: nat, buf: array<byte>, at: nat, n: nat, outside: Outside)
    returns (r: Result<bool>)
    requires at + n <= buf.Length
    requires id in snap.blocks ==> snap.blocks[id].pack in snap.packs && skip + n <= snap.blocks[id].rawLen
    modifies buf
    ensures r.Err? <==> !NoRow(snap, id) && outside.ioFails(id)
    ensures r.Err? ==> r.error == Error.Io
    ensures r.Ok? ==> BlockDone(old(buf[..]), buf[..], at, n, skip, BlockData(env, snap, id), NoRow(snap, id))
    ensures r.Ok? ==> r.value == BlockData(env, snap, id).Some?
  {
    hide ReadRecord;
    if id == MISSING || id !in snap.blocks { return Ok(false); }
    var loc := snap.blocks[id];
    r := ReadBlockInto(env, loc, snap.packs[loc.pack], outside.ioFails(id), outside.junk(id), skip, buf, at, n);
    if r.Err? { return Err(Error.Io); }
  }

  /** Some block among those from `first` to `b` cannot be fetched. */
  ghost predicate IoError(snap: Snapshot, f: FileId, outside: Outside, first: nat, b: nat) {
    exists c :: first <= c < b && !Untried(snap, f, c) && outside.ioFails(SlotAt(snap.segs, f, c))
  }

  ghost predicate TouchedRead(env: Env, snap: Snapshot, f: FileId, now: seq<byte>, was: seq<byte>,
                              offset: nat, end: nat, missing: seq<Range>)
    requires env.bs > 0 && |now| == |was| && offset < end <= offset + |was|
  {
    && ReadUpTo(env, snap, f, now, was, offset, end, BlockOf(offset, env.bs), BlockOf(end - 1, env.bs) + 1)
    && MissingUpTo(env, snap, f, missing, BlockOf(offset, env.bs), BlockOf(end - 1, env.bs) + 1)
  }

  /** The slot names a stored block whose record does not decode. */
  ghost predicate Unsound(env: Env, snap: Snapshot, id: nat) {
    && id != MISSING && id in snap.blocks && snap.blocks[id].pack in snap.packs
    && ReadRecord(env, snap.packs[snap.blocks[id].pack], snap.blocks[id]).Err?
  }

  /** The blocks to heal are those that stand in a slot from `first` to `b` and do not decode. */
  ghost predicate BadUpTo(env: Env, snap: Snapshot, f: FileId, bad: seq<nat>, first: nat, b: nat) {
    forall id :: id in bad <==> Unsound(env, snap, id) && exists c :: first <= c < b && SlotAt(snap.segs, f, c) == id
  }

  lemma BadStep(env: Env, snap: Snapshot, f: FileId, bad: seq<nat>, first: nat, b: nat)
    requires first <= b && BadUpTo(env, snap, f, bad, first, b)
    ensures var id := SlotAt(snap.segs, f, b);
            BadUpTo(env, snap, f, if Unsound(env, snap, id) then bad + [id] else bad, first, b + 1)
  {
    hide SlotAt, Unsound;
    var id := SlotAt(snap.segs, f, b);
    var now := if Unsound(env, snap, id) then bad + [id] else bad;
    forall x ensures x in now <==> Unsound(env, snap, x) && exists c :: first <= c < b + 1 && SlotAt(snap.segs, f, c) == x {
      if x == id { assert first <= b < b + 1 && SlotAt(snap.segs, f, b) == x; }
    }
  }

  /** Reads up to `buf.Length` bytes at `offset`, clamped to the end of the file. Every touched block
      fills its part of the buffer if it is there, and is listed as missing if not; the ids of exactly the
      touched blocks whose records do not decode come back to be healed, those before the failing one if
      fetching a record fails. */
  method ReadFile(env: Env, snap: Snapshot, f: FileId, offset: nat, buf: array<byte>, outside: Outside)
    returns (r: Result<(nat, seq<Range>)>, bad: seq<nat>)
    requires Readable(env, snap, f)
    modifies buf
    ensures (f, 0) !in snap.segs ==> r == Err(NotFound) && bad == []
    ensures (f, 0) in snap.segs ==>
              var len := FileLen(snap.segs, f);
              if offset >= len || buf.Length == 0 then r == Ok((0, [])) && buf[..] == old(buf[..]) && bad == []
              else
                var end := Min(len, offset + buf.Length);
                if IoError(snap, f, outside, BlockOf(offset, env.bs), BlockOf(end - 1, env.bs) + 1) then
                  && r == Err(Error.Io)
                  && exists c :: FirstFails(snap, f, outside, BlockOf(offset, env.bs), c)
                                 && BadUpTo(env, snap, f, bad, BlockOf(offset, env.bs), c)
                else
                  && r.Ok? && r.value.0 == end - offset
                  && TouchedRead(env, snap, f, buf[..], old(buf[..]), offset, end, r.value.1)
                  && BadUpTo(env, snap, f, bad, BlockOf(offset, env.bs), BlockOf(end - 1, env.bs) + 1)
  {
    hide ReadRecord, SegsOk, BlockCount, BlockLen, SlotAt, FileLen, Start, ReadUpTo, MissingUpTo, PushRange, BlockDone,
         BlockData, BlockOf, NoRow, Untried, IoError, Unsound, BadUpTo, FirstFails;
    bad := [];
    if (f, 0) !in snap.segs { r := Err(NotFound); return; }
    var len := FileLen(snap.segs, f);
    if offset >= len || buf.Length == 0 { r := Ok((0, [])); return; }
    var end := Min(len, offset + buf.Length);
    var bs := env.bs;
    var missing: seq<Range> := [];
    var first, last := BlockOf(offset, bs), BlockOf(end - 1, bs);
    ghost var was := buf[..];
    ReadStart(env, snap, f, was, offset, end);
    NoIoError(snap, f, outside, first);
    NoneBad(env, snap, f, first);
    QuotientMono(offset, end - 1, bs);
    var segNo, seg := 0, snap.segs[(f, 0)];
    var b := first;
    while b <= last
      invariant first <= b <= last + 1
      invariant (f, segNo) in snap.segs && seg == snap.segs[(f, segNo)]
      invariant ReadUpTo(env, snap, f, buf[..], was, offset, end, first, b)
      invariant MissingUpTo(env, snap, f, missing, first, b)
      invariant !IoError(snap, f, outside, first, b)
      invariant BadUpTo(env, snap, f, bad, first, b)
    {
      SlotPlace(env, snap, f, offset, end, b);
      if b / 4096 != segNo {
        segNo := b / 4096;
        seg := snap.segs[(f, segNo)];
      }
      var id := seg.ids[b % 4096];
      var start := Start(b, bs);
      var blockEnd := Min(len, start + bs);
      var from, to := Max(offset, start), Min(end, blockEnd);
      ghost var mid := buf[..];
      var got := ReadOne(env, snap, id, from - start, buf, from - offset, to - from, outside);
      NextIoError(snap, f, outside, first, b, last);
      if got.Err? { r := Err(Error.Io); return; }
      var found := got.value;
      BadStep(env, snap, f, bad, first, b);
      BadRecord(env, snap, id);
      if !found && id != MISSING && id in snap.blocks { bad := bad + [id]; }
      ReadStep(env, snap, f, mid, buf[..], was, offset, end, len, first, b);
      MissingStep(env, snap, f, missing, first, b);
      if !found { missing := PushRange(missing, Range(start, blockEnd)); }
      b := b + 1;
    }
    r := Ok((end - offset, missing));
  }

  /** Block `c` is the first from `first` on that cannot be fetched. */
  ghost predicate FirstFails(snap: Snapshot, f: FileId, outside: Outside, first: nat, c: nat) {
    && first <= c && !IoError(snap, f, outside, first, c)
    && !Untried(snap, f, c) && outside.ioFails(SlotAt(snap.segs, f, c))
  }

  lemma NoneBad(env: Env, snap: Snapshot, f: FileId, first: nat)
    ensures BadUpTo(env, snap, f, [], first, first)
  {
    hide Unsound, SlotAt;
  }

  lemma NoIoError(snap: Snapshot, f: FileId, outside: Outside, first: nat)
    ensures !IoError(snap, f, outside, first, first)
  {
  }

  lemma NextIoError(snap: Snapshot, f: FileId, outside: Outside, first: nat, b: nat, last: nat)
    requires first <= b <= last && !IoError(snap, f, outside, first, b)
    ensures var id := SlotAt(snap.segs, f, b);
            if !NoRow(snap, id) && outside.ioFails(id)
            then IoError(snap, f, outside, first, last + 1) && FirstFails(snap, f, outside, first, b)
            else !IoError(snap, f, outside, first, b + 1)
    ensures Untried(snap, f, b) == NoRow(snap, SlotAt(snap.segs, f, b))
  {
    hide SlotAt;
  }

  lemma BadRecord(env: Env, snap: Snapshot, id: nat)
    requires id in snap.blocks ==> snap.blocks[id].pack in snap.packs
    ensures Unsound(env, snap, id) <==> id != MISSING && id in snap.blocks && BlockData(env, snap, id).None?
  {
  }

  lemma QuotientMono(a: nat, b: nat, bs: nat)
    requires bs > 0 && a <= b
    ensures BlockOf(a, bs) <= BlockOf(b, bs)
  {
    var p, q := a / bs, b / bs;
    assert a == p * bs + a % bs && b == q * bs + b % bs;
    if p > q { MulMono(q + 1, p, bs); }
  }

  lemma SlotPlace(env: Env, snap: Snapshot, f: FileId, offset: nat, end: nat, b: nat)
    requires Readable(env, snap, f) && (f, 0) in snap.segs
    requires offset < end <= FileLen(snap.segs, f) && BlockOf(offset, env.bs) <= b <= BlockOf(end - 1, env.bs)
    ensures b < BlockCount(FileLen(snap.segs, f), env.bs)
    ensures Start(b, env.bs) < end && offset < Start(b, env.bs) + env.bs
    ensures BlockLen(FileLen(snap.segs, f), env.bs, b) == Min(FileLen(snap.segs, f) - Start(b, env.bs), env.bs)
    ensures (f, b / 4096) in snap.segs && b % 4096 < |snap.segs[(f, b / 4096)].ids|
    ensures snap.segs[(f, b / 4096)].ids[b % 4096] == SlotAt(snap.segs, f, b)
    ensures var d := DataOf(env, snap, f, b);
            d.Some? ==> |d.value| == BlockLen(FileLen(snap.segs, f), env.bs, b)
    ensures SlotAt(snap.segs, f, b) in snap.blocks ==>
              snap.blocks[SlotAt(snap.segs, f, b)].rawLen == BlockLen(FileLen(snap.segs, f), env.bs, b)
  {
    hide BlockCount, BlockLen, SlotAt, FileLen, Start, SegsOk, DataOf;
    BlockPlace(offset, end, FileLen(snap.segs, f), env.bs, b);
    SlotFound(snap, env.bs, f, b);
    DataLength(env, snap, f, b);
  }
}
