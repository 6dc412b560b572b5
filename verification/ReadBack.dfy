/** Reads return what the store means: read-your-writes, and exact missing lists. */
module ReadBack {
  import opened Base
  import opened Manifest
  import opened Ledger
  import opened Segments
  import opened Codec
  import opened Meaning
  import opened Index
  import opened Writes
  import WriteAll
  import opened Ranges
  import opened Read
  import opened System
  import opened Safety
  import opened Runs

  /** The snapshot is one of an index in order whose records are all in their files, as every reader's
      is. */
  ghost predicate GoodSnapshot(env: Env, db: Db, snap: Snapshot) {
    && env.bs > 0 && SegsOk(snap.segs, env.bs) && db.files == Flat(snap.segs, env.bs) && db.blocks == snap.blocks
    && Inv(db, env)
    && forall id :: id in db.blocks ==>
         db.blocks[id].pack in snap.packs && RecordOk(env, snap.packs[db.blocks[id].pack], db.blocks[id])
  }

  /** A running read of the store works on such a snapshot, however its segments are laid out. */
  lemma ReaderSnapshot(env: Env, run: seq<Sys>, events: seq<Event>, i: nat, r: nat, segs: SegmentRows)
    requires SafeRun(env, run, events) && i < |run| && r in run[i].readers && run[i].readers[r].snap.Some?
    requires SegsOk(segs, env.bs) && Flat(segs, env.bs) == run[i].readers[r].snap.value.files
    ensures var db := run[i].readers[r].snap.value;
            GoodSnapshot(env, db, Snapshot(segs, db.blocks, map p | p in run[i].disk :: run[i].disk[p].data))
  {
    hide Run, Allowed, SegsOk, Flat, Inv, RecordOk;
    ReaderSafety(env, run, events, i, r);
    var db := run[i].readers[r].snap.value;
    forall id | id in db.blocks ensures Placed(env, run[i].disk, db.blocks[id]) { }
  }

  lemma GoodIsReadable(env: Env, db: Db, snap: Snapshot, f: FileId)
    requires GoodSnapshot(env, db, snap) && f in db.files
    ensures Readable(env, snap, f)
  {
    hide BlockCount, BlockLen, RecordOk, FileOk, Acct, Inverse, Totals, Ids, SlotAt, FileLen;
    FlatHas(snap.segs, env.bs, f);
    var slots := db.files[f].slots;
    forall b | 0 <= b < BlockCount(FileLen(snap.segs, f), env.bs) ensures slots[b] == SlotAt(snap.segs, f, b) {
    }
  }

  /** What a read gets for a block is what the block means. */
  lemma DataIsContent(env: Env, db: Db, snap: Snapshot, f: FileId, b: nat)
    requires GoodSnapshot(env, db, snap) && f in db.files && b < |db.files[f].slots|
    ensures DataOf(env, snap, f, b) == Contents(db, env)[f].blocks[b]
  {
    hide BlockCount, BlockLen, FileOk, Acct, Inverse, Totals, SlotAt, FileLen, ReadRecord, SegsOk, Lengths;
    FlatHas(snap.segs, env.bs, f);
    assert db.files[f].slots[b] == SlotAt(snap.segs, f, b);
  }

  /** In such a snapshot a block that cannot be read has no row. */
  lemma UnreadIsUntried(env: Env, db: Db, snap: Snapshot, f: FileId, b: nat)
    requires GoodSnapshot(env, db, snap) && DataOf(env, snap, f, b).None?
    ensures Untried(snap, f, b)
  {
    hide Inv, SegsOk, Flat, SlotAt, ReadRecord;
  }

  /** Byte `k` of a file, if its block is cached. */
  ghost function ByteAt(c: FileContent, bs: nat, b: nat, k: nat): Option<byte> {
    if b < |c.blocks| && c.blocks[b].Some? && Start(b, bs) <= k && k - Start(b, bs) < |c.blocks[b].value|
    then Some(c.blocks[b].value[k - Start(b, bs)]) else None
  }

  /** Every byte of the range that is cached is read, and the others are left alone. */
  lemma ReadSees(env: Env, db: Db, snap: Snapshot, f: FileId, now: seq<byte>, was: seq<byte>,
                 offset: nat, end: nat, lo: nat, hi: nat, b: nat, i: nat)
    requires GoodSnapshot(env, db, snap) && f in db.files
    requires |now| == |was| && offset < end <= offset + |was|
    requires ReadUpTo(env, snap, f, now, was, offset, end, lo, hi)
    requires lo <= b < hi <= |db.files[f].slots|
    requires i < |now| && offset + i < end && Start(b, env.bs) <= offset + i < Start(b, env.bs) + env.bs
    ensures var c := ByteAt(Contents(db, env)[f], env.bs, b, offset + i);
            now[i] == if c.Some? then c.value else was[i]
  {
    hide GoodSnapshot, DataOf, Untried, Start;
    DataIsContent(env, db, snap, f, b);
    var data := DataOf(env, snap, f, b);
    if data.None? { UnreadIsUntried(env, db, snap, f, b); }
    assert BlockRead(now, was, offset, end, env.bs, b, data, Untried(snap, f, b));
    assert ByteRead(now, was, offset, env.bs, b, data, Untried(snap, f, b), i);
  }

  /** The blocks a read touches are blocks of the file. */
  lemma TouchedBlocks(env: Env, db: Db, snap: Snapshot, f: FileId, offset: nat, end: nat, lo: nat, hi: nat)
    requires GoodSnapshot(env, db, snap) && f in db.files
    requires offset < end <= db.files[f].len && lo == BlockOf(offset, env.bs) && hi == BlockOf(end - 1, env.bs) + 1
    ensures lo < hi <= |db.files[f].slots|
  {
    hide BlockCount, Inv, SegsOk, FileLen, RecordOk;
    FlatHas(snap.segs, env.bs, f);
    QuotientMono(offset, end - 1, env.bs);
    BlockPlace(offset, end, FileLen(snap.segs, f), env.bs, hi - 1);
  }

  /** A byte of the touched blocks is reported missing exactly if the store does not have its block. */
  lemma MissingExact(env: Env, db: Db, snap: Snapshot, f: FileId, c: FileContent, lo: nat, hi: nat,
                     missing: seq<Range>, k: nat)
    requires GoodSnapshot(env, db, snap) && f in db.files && c == Contents(db, env)[f] && hi <= |c.blocks|
    requires MissingUpTo(env, snap, f, missing, lo, hi)
    ensures InRanges(missing, k) <==>
            exists b :: lo <= b < hi && InBlock(c.len, env.bs, b, k) && c.blocks[b].None?
  {
    FlatHas(snap.segs, env.bs, f);
    assert FileLen(snap.segs, f) == c.len && |db.files[f].slots| == |c.blocks|;
    forall b | lo <= b < hi ensures DataOf(env, snap, f, b) == c.blocks[b] {
      DataIsContent(env, db, snap, f, b);
    }
    hide GoodSnapshot, DataOf, InBlock, Contents, FileLen, InRanges;
  }

  /** A read returns every cached byte of its range, leaves the others alone, and lists exactly the touched
      blocks that are not cached. */
  lemma ReadMeans(env: Env, db: Db, snap: Snapshot, f: FileId, c: FileContent, now: seq<byte>, was: seq<byte>,
                  offset: nat, end: nat, missing: seq<Range>)
    requires GoodSnapshot(env, db, snap) && f in db.files && c == Contents(db, env)[f]
    requires |now| == |was| && offset < end <= offset + |now| && end <= c.len
    requires TouchedRead(env, snap, f, now, was, offset, end, missing)
    ensures forall i :: 0 <= i < end - offset ==> Shows(c, env.bs, offset + i, now[i], was[i])
    ensures forall i :: end - offset <= i < |now| ==> now[i] == was[i]
    ensures forall k :: InRanges(missing, k) <==>
              NotCached(c, env.bs, BlockOf(offset, env.bs), BlockOf(end - 1, env.bs) + 1, k)
  {
    hide GoodSnapshot, DataOf, Shows, Start, BlockOf, InRanges, NotCached, MissingUpTo, Contents, RowContent, FileLen,
         BlockRead;
    SnapshotInv(env, db, snap);
    var bs := env.bs;
    var lo, hi := BlockOf(offset, bs), BlockOf(end - 1, bs) + 1;
    WriteAll.SameLength(db, env, f);
    TouchedBlocks(env, db, snap, f, offset, end, lo, hi);
    forall i | 0 <= i < end - offset ensures Shows(c, bs, offset + i, now[i], was[i]) {
      ByteShows(env, db, snap, f, c, now, was, offset, end, i);
    }
    forall k ensures InRanges(missing, k) <==> NotCached(c, bs, lo, hi, k) {
      MissingShows(env, db, snap, f, c, lo, hi, missing, k);
    }
  }

  /** `now` is byte `k` of the file if its block is cached, and what was there before if not. */
  ghost predicate Shows(c: FileContent, bs: nat, k: nat, now: byte, was: byte)
    requires bs > 0
  {
    var x := ByteAt(c, bs, BlockOf(k, bs), k);
    now == if x.Some? then x.value else was
  }

  /** Byte `k` lies in one of the blocks and that block is not cached. */
  ghost predicate NotCached(c: FileContent, bs: nat, lo: nat, hi: nat, k: nat) {
    exists b :: lo <= b < hi && b < |c.blocks| && InBlock(c.len, bs, b, k) && c.blocks[b].None?
  }

  lemma MissingShows(env: Env, db: Db, snap: Snapshot, f: FileId, c: FileContent, lo: nat, hi: nat,
                     missing: seq<Range>, k: nat)
    requires GoodSnapshot(env, db, snap) && f in db.files && c == Contents(db, env)[f] && hi <= |c.blocks|
    requires MissingUpTo(env, snap, f, missing, lo, hi)
    ensures InRanges(missing, k) <==> NotCached(c, env.bs, lo, hi, k)
  {
    hide GoodSnapshot, InRanges, MissingUpTo, InBlock, Contents;
    MissingExact(env, db, snap, f, c, lo, hi, missing, k);
  }

  lemma ByteShows(env: Env, db: Db, snap: Snapshot, f: FileId, c: FileContent, now: seq<byte>, was: seq<byte>,
                  offset: nat, end: nat, i: nat)
    requires GoodSnapshot(env, db, snap) && f in db.files && c == Contents(db, env)[f]
    requires env.bs > 0 && |now| == |was| && offset < end <= offset + |now| && i < end - offset
    requires BlockOf(end - 1, env.bs) < |c.blocks|
    requires ReadUpTo(env, snap, f, now, was, offset, end, BlockOf(offset, env.bs), BlockOf(end - 1, env.bs) + 1)
    ensures Shows(c, env.bs, offset + i, now[i], was[i])
  {
    hide GoodSnapshot, ReadUpTo, Contents, BlockOf, Start, ByteAt;
    var bs := env.bs;
    WriteAll.SameLength(db, env, f);
    QuotientMono(offset, offset + i, bs);
    QuotientMono(offset + i, end - 1, bs);
    ZeroStart(bs);
    BlockFrom(offset + i, 0, bs);
    ReadSees(env, db, snap, f, now, was, offset, end, BlockOf(offset, bs), BlockOf(end - 1, bs) + 1,
             BlockOf(offset + i, bs), i);
  }

  lemma ZeroStart(bs: nat)
    ensures Start(0, bs) == 0
  {
  }

  // ---- Read your writes ----

  /** The file caches `blocks` from block `first` on. */
  ghost predicate HoldsAt(c: FileContent, first: nat, blocks: seq<bytes>) {
    first + |blocks| <= |c.blocks| && forall j :: 0 <= j < |blocks| ==> c.blocks[first + j] == Some(blocks[j])
  }

  /** A byte of the data lies in the chunk of its block. */
  lemma {:induction false} ChunkAt(data: bytes, bs: nat, b: nat, k: nat)
    requires bs > 0 && Start(b, bs) <= k < Start(b, bs) + bs && k < |data|
    ensures b < |Chunks(data, bs)| && k - Start(b, bs) < |Chunks(data, bs)[b]|
    ensures Chunks(data, bs)[b][k - Start(b, bs)] == data[k]
    decreases b
  {
    if b == 0 {
      assert Start(0, bs) == 0;
    } else {
      StartNext(b - 1, bs);
      assert Start(b, bs) >= bs by { StartMono(1, b, bs); assert Start(1, bs) == bs; }
      hide Start;
      ChunkAt(data[bs..], bs, b - 1, k - bs);
      assert Chunks(data, bs)[b] == Chunks(data[bs..], bs)[b - 1];
      assert data[bs..][k - bs] == data[k];
    }
  }

  /** A byte at or after the start of block `first` lies in a block from `first` on. */
  lemma BlockFrom(k: nat, first: nat, bs: nat)
    requires bs > 0 && Start(first, bs) <= k
    ensures first <= BlockOf(k, bs) && Start(BlockOf(k, bs), bs) <= k < Start(BlockOf(k, bs), bs) + bs
    ensures Start(BlockOf(k, bs) - first, bs) == Start(BlockOf(k, bs), bs) - Start(first, bs)
  {
    var q := k / bs;
    assert k == q * bs + k % bs;
    if q < first { MulMono(q + 1, first, bs); }
    assert (q - first) * bs == q * bs - first * bs;
  }

  /** The blocks of a range inside the data are blocks of the data. */
  lemma TouchedChunks(data: bytes, bs: nat, first: nat, k: nat)
    requires bs > 0 && Start(first, bs) <= k < Start(first, bs) + |data|
    ensures first <= BlockOf(k, bs) < first + |Chunks(data, bs)|
  {
    BlockFrom(k, first, bs);
    ChunkAt(data, bs, BlockOf(k, bs) - first, k - Start(first, bs));
  }

  /** A read inside what a file holds misses nothing and returns exactly those bytes. */
  lemma ReadYourWrites(env: Env, db: Db, snap: Snapshot, f: FileId, first: nat, data: bytes,
                       now: seq<byte>, before: seq<byte>, offset: nat, end: nat, missing: seq<Range>)
    requires GoodSnapshot(env, db, snap) && f in db.files
    requires HoldsAt(Contents(db, env)[f], first, Chunks(data, env.bs))
    requires |now| == |before| && offset < end <= offset + |now|
    requires Start(first, env.bs) <= offset && end <= Start(first, env.bs) + |data|
    requires TouchedRead(env, snap, f, now, before, offset, end, missing)
    ensures missing == []
    ensures now[..end - offset] == data[offset - Start(first, env.bs)..end - Start(first, env.bs)]
  {
    hide GoodSnapshot, DataOf, FileLen, InRanges, Start, ReadUpTo, MissingUpTo, Contents, Chunks, BlockOf;
    SnapshotInv(env, db, snap);
    WriteAll.FileIn(db, env, f);
    var bs, c := env.bs, Contents(db, env)[f];
    var lo, hi := BlockOf(offset, bs), BlockOf(end - 1, bs) + 1;
    assert |db.files[f].slots| == |c.blocks| by { SameCount(db, env, f); }
    TouchedChunks(data, bs, first, offset);
    TouchedChunks(data, bs, first, end - 1);
    forall b | lo <= b < hi ensures c.blocks[b].Some? {
      assert c.blocks[first + (b - first)] == Some(Chunks(data, bs)[b - first]);
    }
    MissingNone(env, db, snap, f, c, lo, hi, missing);
    forall i | 0 <= i < end - offset ensures now[i] == data[offset - Start(first, bs) + i] {
      ByteIsWritten(env, db, snap, f, first, data, now, before, offset, end, i);
    }
  }

  lemma ByteIsWritten(env: Env, db: Db, snap: Snapshot, f: FileId, first: nat, data: bytes,
                      now: seq<byte>, before: seq<byte>, offset: nat, end: nat, i: nat)
    requires GoodSnapshot(env, db, snap) && f in db.files
    requires HoldsAt(Contents(db, env)[f], first, Chunks(data, env.bs))
    requires |now| == |before| && offset < end <= offset + |now| && i < end - offset
    requires Start(first, env.bs) <= offset && end <= Start(first, env.bs) + |data|
    requires ReadUpTo(env, snap, f, now, before, offset, end, BlockOf(offset, env.bs), BlockOf(end - 1, env.bs) + 1)
    ensures now[i] == data[offset - Start(first, env.bs) + i]
  {
    hide GoodSnapshot, ReadUpTo, Contents, Chunks, BlockOf, Start;
    SnapshotInv(env, db, snap);
    WriteAll.FileIn(db, env, f);
    var bs, k := env.bs, offset + i;
    var b, c := BlockOf(k, bs), Contents(db, env)[f];
    assert |db.files[f].slots| == |c.blocks| by { SameCount(db, env, f); }
    QuotientMono(offset, k, bs);
    QuotientMono(k, end - 1, bs);
    TouchedChunks(data, bs, first, end - 1);
    BlockFrom(k, first, bs);
    ChunkAt(data, bs, b - first, k - Start(first, bs));
    assert c.blocks[first + (b - first)] == Some(Chunks(data, bs)[b - first]);
    ReadSees(env, db, snap, f, now, before, offset, end, BlockOf(offset, bs), BlockOf(end - 1, bs) + 1, b, i);
  }

  /** What a file holds lies inside it. */
  lemma HeldFits(env: Env, db: Db, f: FileId, first: nat, data: bytes)
    requires Inv(db, env) && env.bs > 0 && f in db.files && data != []
    requires HoldsAt(Contents(db, env)[f], first, Chunks(data, env.bs))
    ensures Start(first, env.bs) + |data| <= db.files[f].len
  {
    hide Start, Chunks, BlockOf, BlockCount, BlockLen, Inv, Contents;
    var bs, k := env.bs, |data| - 1;
    WriteAll.FileIn(db, env, f);
    SameCount(db, env, f);
    var b := BlockOf(Start(first, bs) + k, bs);
    TouchedChunks(data, bs, first, Start(first, bs) + k);
    BlockFrom(Start(first, bs) + k, first, bs);
    ChunkAt(data, bs, b - first, k);
    assert Contents(db, env)[f].blocks[first + (b - first)] == Some(Chunks(data, bs)[b - first]);
    BlockOfFile(env, db, f, b);
    BlockLenAt(db.files[f].len, bs, b);
  }

  lemma BlockLenAt(len: nat, bs: nat, b: nat)
    ensures BlockLen(len, bs, b) <= Max(len - Start(b, bs), 0)
  {
  }

  /** A cached block is as long as its place in the file. */
  lemma BlockOfFile(env: Env, db: Db, f: FileId, b: nat)
    requires Inv(db, env) && f in db.files && b < |db.files[f].slots| && Contents(db, env)[f].blocks[b].Some?
    ensures |Contents(db, env)[f].blocks[b].value| == BlockLen(db.files[f].len, env.bs, b)
  {
    hide BlockCount, BlockLen, Acct, Ids, Inverse, Totals;
    var id := db.files[f].slots[b];
    assert id in db.blocks && Genuine(db.blocks[id], env);
  }

  lemma WroteHolds(s: Store, now: Store, f: FileId, first: nat, blocks: seq<bytes>)
    requires WriteAll.WroteFile(s, now, f, first, blocks)
    ensures HoldsAt(now[f], first, blocks)
  {
  }

  /** A write and then a read inside it. If other threads leave the file alone from the first commit of
      the write until the read takes its snapshot, the read returns exactly the bytes written, unless
      fetching a record fails. */
  method WriteThenRead(t: Tables, f: FileId, first: nat, data: bytes, txnBytes: nat, w: WriteAll.World, later: Saved,
                       packs: map<nat, bytes>, offset: nat, buf: array<byte>, outside: Outside, env: Env)
    returns (wrote: Result<()>, read: Result<(nat, seq<Range>)>, ghost log: seq<WriteAll.Entry>)
    requires t.Valid() && t.bs == env.bs && Inv(t.View(), env) && CollisionFree(env)
    requires WriteAll.WorldOk(w, env) && AllKnown(env, Chunks(data, env.bs))
    requires GoodSnapshot(env, ViewOf(later, env.bs), Snapshot(later.segs, later.blocks, packs))
    requires f in ViewOf(later, env.bs).files
    requires Start(first, env.bs) <= offset && offset + buf.Length <= Start(first, env.bs) + |data| && buf.Length > 0
    modifies t, buf
    ensures t.Valid() && Inv(t.View(), env) && (read.Err? ==> read.error == Error.Io)
    ensures wrote.Ok? ==> log != []
    ensures wrote.Ok? && WriteAll.LeftAlone(log, env, f)
            && WriteAll.SameFile(log[|log| - 1].after, ViewOf(later, env.bs), env, f) && read.Ok? ==>
              && read.value == (buf.Length, [])
              && buf[..] == data[offset - Start(first, env.bs)..offset - Start(first, env.bs) + buf.Length]
  {
    hide Inv, Chunks, Flat, CollisionFree, AllKnown, Contents, WriteAll.WorldOk, WriteAll.Logged, WriteAll.InRounds,
         WriteAll.Refused, WriteAll.LeftAlone, GoodSnapshot, Readable, TouchedRead, IoError, Start, ViewOf, HoldsAt,
         WriteAll.StableLen, WriteAll.SameFile;
    ghost var db := ViewOf(later, env.bs);
    var snap := Snapshot(later.segs, later.blocks, packs);
    var done, calls;
    wrote, done, calls, log := WriteAll.WriteBlocks(t, f, first, data, txnBytes, w, env);
    SomeChunks(data, env.bs);
    LaterFile(env, later, f);
    GoodIsReadable(env, db, snap, f);
    var bad;
    ghost var was := buf[..];
    read, bad := ReadFile(env, snap, f, offset, buf, outside);
    if wrote.Ok? && WriteAll.LeftAlone(log, env, f) && WriteAll.SameFile(log[|log| - 1].after, db, env, f) && read.Ok? {
      WrittenHolds(env, db, f, first, data, log);
      SnapshotInv(env, db, snap);
      HeldFits(env, db, f, first, data);
      ReadYourWrites(env, db, snap, f, first, data, buf[..], was, offset, offset + buf.Length, read.value.1);
    }
  }

  lemma SomeChunks(data: bytes, bs: nat)
    requires bs > 0 && data != []
    ensures Chunks(data, bs) != []
  {
  }

  lemma LaterFile(env: Env, s: Saved, f: FileId)
    requires env.bs > 0 && f in ViewOf(s, env.bs).files
    ensures (f, 0) in s.segs && FileLen(s.segs, f) == ViewOf(s, env.bs).files[f].len
  {
    FlatHas(s.segs, env.bs, f);
  }

  lemma SnapshotInv(env: Env, db: Db, snap: Snapshot)
    requires GoodSnapshot(env, db, snap)
    ensures Inv(db, env) && env.bs > 0
  {
    hide Inv;
  }

  lemma WrittenHolds(env: Env, db: Db, f: FileId, first: nat, data: bytes, log: seq<WriteAll.Entry>)
    requires env.bs > 0 && log != [] && WriteAll.Logged(log, env, f, first, Chunks(data, env.bs))
    requires WriteAll.LeftAlone(log, env, f) && WriteAll.End(log) == |Chunks(data, env.bs)|
    requires WriteAll.SameFile(log[|log| - 1].after, db, env, f)
    ensures f in Contents(db, env) && HoldsAt(Contents(db, env)[f], first, Chunks(data, env.bs))
  {
    hide Chunks, Contents, HoldsAt, WriteAll.Logged, WriteAll.WroteFile;
    var all := Chunks(data, env.bs);
    WriteAll.LogWrites(log, env, f, first, all);
    assert all[..|all|] == all;
    var s, now := Contents(log[0].before, env), Contents(log[|log| - 1].after, env);
    WroteHolds(s, now, f, first, all);
    WriteAll.FileIn(db, env, f);
  }

  lemma SameCount(db: Db, env: Env, f: FileId)
    requires f in db.files
    ensures |db.files[f].slots| == |Contents(db, env)[f].blocks|
  {
  }

  /** Nothing is missing if the store has every touched block. */
  lemma MissingNone(env: Env, db: Db, snap: Snapshot, f: FileId, c: FileContent, lo: nat, hi: nat,
                    missing: seq<Range>)
    requires GoodSnapshot(env, db, snap) && f in db.files && c == Contents(db, env)[f] && hi <= |c.blocks|
    requires MissingUpTo(env, snap, f, missing, lo, hi)
    requires forall b :: lo <= b < hi ==> c.blocks[b].Some?
    ensures missing == []
  {
    hide GoodSnapshot, DataOf, InBlock, Contents, FileLen, InRanges;
    if missing != [] {
      HasPoint(missing);
      MissingExact(env, db, snap, f, c, lo, hi, missing, missing[0].start);
    }
  }
}
