/** Compaction: which records of a pack it moves, and the commit that repoints them. */
module Compaction {
  import opened Base
  import opened Ledger
  import opened Codec
  import opened System
  import opened Scan

  // ---- Choosing the live records ----

  /** The scanned record is the current copy of block `id`, a block of `pack`. */
  predicate IsCurrent(db: Db, pack: nat, s: Scanned, id: nat) {
    && id in db.blocks && s.header.hash in db.dedup && db.dedup[s.header.hash] == id
    && db.blocks[id].pack == pack && db.blocks[id].offset == s.offset
  }

  predicate Sound(env: Env, s: Scanned, loc: BlockLoc) {
    && |s.data| >= HEADER_LEN
    && env.sum(s.data[HEADER_LEN..]) == s.header.sum && s.header.storedLen == loc.storedLen
  }

  /** A block to move, with its bytes. */
  datatype LiveRecord = LiveRecord(pick: Pick, data: bytes)

  /** `live` and `bad` are what `move_scanned` makes of the scanned records. */
  ghost predicate Sorted(env: Env, db: Db, pack: nat, scanned: seq<Scanned>, live: seq<LiveRecord>, bad: seq<nat>) {
    && (forall l :: l in live ==> exists s ::
          && s in scanned && IsCurrent(db, pack, s, l.pick.id) && Sound(env, s, db.blocks[l.pick.id])
          && l == LiveRecord(Pick(l.pick.id, db.blocks[l.pick.id]), s.data))
    && (forall id :: id in bad ==> exists s ::
          s in scanned && IsCurrent(db, pack, s, id) && !Sound(env, s, db.blocks[id]))
    && (forall s, id :: s in scanned && IsCurrent(db, pack, s, id) ==>
          if Sound(env, s, db.blocks[id]) then LiveRecord(Pick(id, db.blocks[id]), s.data) in live
          else id in bad)
  }

  /** No block is to be moved twice. */
  ghost predicate DistinctPicks(live: seq<LiveRecord>) {
    forall i, j :: 0 <= i < j < |live| ==> live[i].pick.id != live[j].pick.id
  }

  /** Each scanned record lies behind the one before it. */
  ghost predicate InOrder(scanned: seq<Scanned>) {
    forall i, j :: 0 <= i < j < |scanned| ==> scanned[i].offset < scanned[j].offset
  }

  lemma {:induction false} ScanInOrder(file: bytes, offset: nat)
    requires offset <= |file|
    ensures InOrder(ScanFrom(file, offset)) && forall s :: s in ScanFrom(file, offset) ==> s.offset >= offset
    decreases |file| - offset
  {
    hide DecodeHeader;
    if !Torn(file[offset..]) {
      var next := offset + DecodeHeader(file[offset..][..HEADER_LEN]).value.RecordLen();
      ScanInOrder(file, next);
      var rest := ScanFrom(file, next);
      assert ScanFrom(file, offset)[1..] == rest && ScanFrom(file, offset)[0].offset == offset < next;
      FirstInOrder(ScanFrom(file, offset), next);
    }
  }

  lemma FirstInOrder(scanned: seq<Scanned>, next: nat)
    requires |scanned| > 0 && scanned[0].offset < next && InOrder(scanned[1..])
    requires forall s :: s in scanned[1..] ==> s.offset >= next
    ensures InOrder(scanned) && forall s :: s in scanned ==> s.offset >= scanned[0].offset
  {
    var rest := scanned[1..];
    forall i | 0 < i < |scanned| ensures scanned[i].offset >= next {
      assert scanned[i] == rest[i - 1] && rest[i - 1] in rest;
    }
    forall i, j | 0 <= i < j < |scanned| ensures scanned[i].offset < scanned[j].offset {
      if i > 0 { assert rest[i - 1].offset < rest[j - 1].offset; }
    }
  }

  /** A live record is a current one before the scan's place, so the next one is another block's. */
  lemma NextIsOther(env: Env, db: Db, pack: nat, scanned: seq<Scanned>, i: nat, live: seq<LiveRecord>, bad: seq<nat>, id: nat)
    requires i < |scanned| && InOrder(scanned) && Sorted(env, db, pack, scanned[..i], live, bad)
    requires IsCurrent(db, pack, scanned[i], id)
    ensures forall k :: 0 <= k < |live| ==> live[k].pick.id != id
  {
    hide Sound;
    forall k | 0 <= k < |live| ensures live[k].pick.id != id {
      assert live[k] in live;
      var s :| s in scanned[..i] && IsCurrent(db, pack, s, live[k].pick.id);
      var j :| 0 <= j < i && scanned[j] == s;
      assert scanned[j].offset < scanned[i].offset;
    }
  }

  /** The filter of `move_scanned`: live records to move, and blocks to heal. */
  method PickScanned(env: Env, db: Db, pack: nat, scanned: seq<Scanned>)
    returns (live: seq<LiveRecord>, bad: seq<nat>)
    requires InOrder(scanned) && forall s :: s in scanned ==> |s.data| >= HEADER_LEN
    ensures Sorted(env, db, pack, scanned, live, bad) && DistinctPicks(live)
  {
    live, bad := [], [];
    var i := 0;
    while i < |scanned|
      invariant 0 <= i <= |scanned|
      invariant Sorted(env, db, pack, scanned[..i], live, bad) && DistinctPicks(live)
    {
      var s := scanned[i];
      ghost var l0, b0 := live, bad;
      assert s in scanned;
      if s.header.hash in db.dedup && db.dedup[s.header.hash] in db.blocks {
        var id := db.dedup[s.header.hash];
        var loc := db.blocks[id];
        if loc.pack == pack && loc.offset == s.offset {
          assert IsCurrent(db, pack, s, id);
          NextIsOther(env, db, pack, scanned, i, live, bad, id);
          if env.sum(s.data[HEADER_LEN..]) != s.header.sum || s.header.storedLen != loc.storedLen {
            bad := bad + [id];
          } else {
            live := live + [LiveRecord(Pick(id, loc), s.data)];
          }
        }
      }
      SortedStep(env, db, pack, scanned, i, l0, b0, live, bad);
      i := i + 1;
    }
    assert scanned[..i] == scanned;
  }

  lemma SortedStep(env: Env, db: Db, pack: nat, scanned: seq<Scanned>, i: nat,
                   l0: seq<LiveRecord>, b0: seq<nat>, live: seq<LiveRecord>, bad: seq<nat>)
    requires i < |scanned| && Sorted(env, db, pack, scanned[..i], l0, b0)
    requires |scanned[i].data| >= HEADER_LEN
    requires var s := scanned[i];
             if exists id :: IsCurrent(db, pack, s, id) then
               var id := db.dedup[s.header.hash];
               if Sound(env, s, db.blocks[id])
               then bad == b0 && live == l0 + [LiveRecord(Pick(id, db.blocks[id]), s.data)]
               else live == l0 && bad == b0 + [id]
             else live == l0 && bad == b0
    ensures Sorted(env, db, pack, scanned[..i + 1], live, bad)
  {
    hide Sound;
    var s := scanned[i];
    assert scanned[..i + 1] == scanned[..i] + [s];
  }

  /** The scanned record is what the file holds at its offset. */
  ghost predicate FromFile(file: bytes, s: Scanned) {
    && s.offset + s.header.RecordLen() <= |file|
    && DecodeHeader(file[s.offset..s.offset + HEADER_LEN]) == Ok(s.header)
    && s.data == file[s.offset..s.offset + s.header.RecordLen()]
  }

  lemma {:induction false} ScannedFromFile(file: bytes, offset: nat)
    requires offset <= |file|
    ensures forall s :: s in ScanFrom(file, offset) ==> FromFile(file, s)
    decreases |file| - offset
  {
    hide DecodeHeader;
    if !Torn(file[offset..]) {
      assert file[offset..][..HEADER_LEN] == file[offset..offset + HEADER_LEN];
      ScannedFromFile(file, offset + DecodeHeader(file[offset..][..HEADER_LEN]).value.RecordLen());
    }
  }

  /** A readable record is never healed by the scan, and its copy is the whole record. */
  lemma GoodIsSound(env: Env, file: bytes, s: Scanned, loc: BlockLoc)
    requires FromFile(file, s) && RecordOk(env, file, loc) && loc.offset == s.offset
    ensures Sound(env, s, loc) && s.header.hash == loc.hash && s.header.rawLen == loc.rawLen
    ensures s.data == file[loc.offset..loc.offset + loc.RecordLen()]
  {
    hide DecodeHeader;
    var rec := file[loc.offset..loc.offset + loc.RecordLen()];
    assert rec[..HEADER_LEN] == file[s.offset..s.offset + HEADER_LEN];
  }

  /** A batch of a pack's scan: no block is picked twice, and while every block of the pack can be read none
      is healed and each block the scan reaches is picked with its whole record. */
  method PickFromFile(env: Env, db: Db, pack: nat, ghost file: bytes, batch: seq<Scanned>)
    returns (live: seq<LiveRecord>, bad: seq<nat>)
    requires InOrder(batch) && forall s :: s in batch ==> FromFile(file, s)
    ensures Sorted(env, db, pack, batch, live, bad) && DistinctPicks(live)
    ensures forall l :: l in live ==> Checked(env, l.data, l.pick.from.storedLen)
    ensures forall s, id :: s in batch && IsCurrent(db, pack, s, id) && !Checked(env, s.data, db.blocks[id].storedLen) ==>
              id in bad
    ensures AllReadable(env, db, pack, file) ==>
              && bad == []
              && forall l :: l in live ==>
                   && l.pick.from.offset + l.pick.from.RecordLen() <= |file|
                   && l.data == file[l.pick.from.offset..l.pick.from.offset + l.pick.from.RecordLen()]
  {
    hide Sorted, DistinctPicks, InOrder, FromFile, AllReadable;
    forall s | s in batch ensures |s.data| >= HEADER_LEN { WholeData(file, s); }
    live, bad := PickScanned(env, db, pack, batch);
    PickedChecked(env, db, pack, file, batch, live, bad);
    if AllReadable(env, db, pack, file) { ReadablePicked(env, db, pack, file, batch, live, bad); }
  }

  ghost predicate AllReadable(env: Env, db: Db, pack: nat, file: bytes) {
    forall id :: id in db.blocks && db.blocks[id].pack == pack ==> RecordOk(env, file, db.blocks[id])
  }

  /** A scanned record is sound only if its checksum matches. */
  lemma SoundIsChecked(env: Env, file: bytes, s: Scanned, loc: BlockLoc)
    requires FromFile(file, s) && Sound(env, s, loc)
    ensures Checked(env, s.data, loc.storedLen)
  {
    hide DecodeHeader;
    assert s.data[..HEADER_LEN] == file[s.offset..s.offset + HEADER_LEN];
  }

  lemma PickedChecked(env: Env, db: Db, pack: nat, file: bytes, batch: seq<Scanned>, live: seq<LiveRecord>, bad: seq<nat>)
    requires Sorted(env, db, pack, batch, live, bad) && forall s :: s in batch ==> FromFile(file, s)
    ensures forall l :: l in live ==> Checked(env, l.data, l.pick.from.storedLen)
    ensures forall s, id :: s in batch && IsCurrent(db, pack, s, id) && !Checked(env, s.data, db.blocks[id].storedLen) ==>
              id in bad
  {
    hide Sound, FromFile, Checked;
    forall l | l in live ensures Checked(env, l.data, l.pick.from.storedLen) {
      var s :| s in batch && IsCurrent(db, pack, s, l.pick.id) && Sound(env, s, db.blocks[l.pick.id])
               && l == LiveRecord(Pick(l.pick.id, db.blocks[l.pick.id]), s.data);
      SoundIsChecked(env, file, s, db.blocks[l.pick.id]);
    }
    forall s, id | s in batch && IsCurrent(db, pack, s, id) && !Checked(env, s.data, db.blocks[id].storedLen)
      ensures id in bad
    {
      if Sound(env, s, db.blocks[id]) { SoundIsChecked(env, file, s, db.blocks[id]); }
    }
  }

  lemma WholeData(file: bytes, s: Scanned)
    requires FromFile(file, s)
    ensures |s.data| >= HEADER_LEN
  {
    hide DecodeHeader;
  }

  lemma ReadablePicked(env: Env, db: Db, pack: nat, file: bytes, found: seq<Scanned>, live: seq<LiveRecord>, bad: seq<nat>)
    requires Sorted(env, db, pack, found, live, bad) && AllReadable(env, db, pack, file)
    requires forall s :: s in found ==> FromFile(file, s)
    ensures bad == []
    ensures forall l :: l in live ==>
              && l.pick.from.offset + l.pick.from.RecordLen() <= |file|
              && l.data == file[l.pick.from.offset..l.pick.from.offset + l.pick.from.RecordLen()]
  {
    hide Sound, FromFile, RecordOk;
    if bad != [] {
      assert bad[0] in bad;
      var s :| s in found && IsCurrent(db, pack, s, bad[0]) && !Sound(env, s, db.blocks[bad[0]]);
      GoodIsSound(env, file, s, db.blocks[bad[0]]);
    }
    forall l | l in live
      ensures && l.pick.from.offset + l.pick.from.RecordLen() <= |file|
              && l.data == file[l.pick.from.offset..l.pick.from.offset + l.pick.from.RecordLen()]
    {
      var s :| s in found && IsCurrent(db, pack, s, l.pick.id)
               && l == LiveRecord(Pick(l.pick.id, db.blocks[l.pick.id]), s.data);
      RecordInside(env, file, db.blocks[l.pick.id]);
      GoodIsSound(env, file, s, db.blocks[l.pick.id]);
    }
  }

  lemma RecordInside(env: Env, file: bytes, loc: BlockLoc)
    requires RecordOk(env, file, loc)
    ensures loc.offset + loc.RecordLen() <= |file|
  {
  }

  /** What `evacuate_by_index` asks of the record at `loc`. */
  predicate RecordSound(env: Env, file: bytes, loc: BlockLoc) {
    && loc.offset + loc.RecordLen() <= |file|
    && var rec := file[loc.offset..loc.offset + loc.RecordLen()];
       var h := DecodeHeader(rec[..HEADER_LEN]);
       h.Ok? && h.value.hash == loc.hash && h.value.storedLen == loc.storedLen && env.sum(rec[HEADER_LEN..]) == h.value.sum
  }

  lemma SoundIsVouched(env: Env, file: bytes, loc: BlockLoc)
    ensures RecordSound(env, file, loc) <==> Vouched(env, file, loc)
    ensures RecordOk(env, file, loc) ==> Vouched(env, file, loc)
  {
    hide DecodeHeader;
    if RecordOk(env, file, loc) { ReadIsChecked(env, file, loc); }
  }

  /** The choice of `evacuate_by_index` among the ids from `first` on and before `top`: every block of the
      pack is moved with its record's bytes, or healed if the record is not sound. */
  method PickByIndex(env: Env, db: Db, pack: nat, file: bytes, first: nat, top: nat)
    returns (live: seq<LiveRecord>, bad: seq<nat>)
    requires first <= top
    ensures forall id :: id in bad <==>
              first <= id < top && id in db.blocks && db.blocks[id].pack == pack && !Vouched(env, file, db.blocks[id])
    ensures forall l :: l in live <==>
              && first <= l.pick.id < top && l.pick.id in db.blocks && l.pick.from == db.blocks[l.pick.id]
              && l.pick.from.pack == pack && Vouched(env, file, l.pick.from)
              && l.data == file[l.pick.from.offset..l.pick.from.offset + l.pick.from.RecordLen()]
    ensures DistinctPicks(live)
    ensures AllReadable(env, db, pack, file) ==> bad == []
  {
    hide DecodeHeader, RecordOk, ReadRecord, RecordSound, Checked;
    live, bad := [], [];
    for id := first to top
      invariant DistinctPicks(live) && forall k :: 0 <= k < |live| ==> live[k].pick.id < id
      invariant forall i :: i in bad <==>
                  first <= i < id && i in db.blocks && db.blocks[i].pack == pack && !Vouched(env, file, db.blocks[i])
      invariant forall l :: l in live <==>
                  && first <= l.pick.id < id && l.pick.id in db.blocks && l.pick.from == db.blocks[l.pick.id]
                  && l.pick.from.pack == pack && Vouched(env, file, l.pick.from)
                  && l.data == file[l.pick.from.offset..l.pick.from.offset + l.pick.from.RecordLen()]
    {
      if id in db.blocks && db.blocks[id].pack == pack {
        var loc := db.blocks[id];
        SoundIsVouched(env, file, loc);
        if RecordSound(env, file, loc) {
          live := live + [LiveRecord(Pick(id, loc), file[loc.offset..loc.offset + loc.RecordLen()])];
        } else {
          bad := bad + [id];
        }
      }
    }
    if bad != [] { SoundIsVouched(env, file, db.blocks[bad[0]]); }
  }

  // ---- The commit of `move_records` ----

  ghost predicate Hits(c: Copy, id: nat, row: BlockLoc) {
    c.pick.id == id && row.pack == c.pick.from.pack && row.offset == c.pick.from.offset
  }

  /** Exactly the rows still at the place copied from are repointed, each to its copy. */
  ghost predicate MovedExactly(db: Db, db': Db, copies: seq<Copy>) {
    && SameRest(db, db') && db'.nextBlock == db.nextBlock && db'.dedup == db.dedup
    && db'.blocks.Keys == db.blocks.Keys
    && (forall id :: id in db.blocks && (forall c :: c in copies ==> !Hits(c, id, db.blocks[id])) ==>
          db'.blocks[id] == db.blocks[id])
    && (forall id, c :: id in db.blocks && c in copies && Hits(c, id, db.blocks[id]) ==>
          MovedBy(c, id, db.blocks[id], db'.blocks[id]))
  }

  ghost predicate DistinctIds(copies: seq<Copy>) {
    forall i, j :: 0 <= i < j < |copies| ==> copies[i].pick.id != copies[j].pick.id
  }

  /** The copies of the picked records, at the places they were appended. */
  function CopiesOf(live: seq<LiveRecord>, places: seq<(nat, nat)>): seq<Copy>
    requires |places| == |live|
  {
    seq(|live|, i requires 0 <= i < |live| =>
      Copy(live[i].pick, live[i].pick.from.(pack := places[i].0, offset := places[i].1)))
  }

  lemma PickedDistinct(live: seq<LiveRecord>, places: seq<(nat, nat)>)
    requires |places| == |live| && DistinctPicks(live)
    ensures DistinctIds(CopiesOf(live, places))
  {
  }

  lemma MovedOne(db: Db, mid: Db, db': Db, copies: seq<Copy>, i: nat)
    requires i < |copies| && DistinctIds(copies) && MovedExactly(db, mid, copies[..i])
    requires var c := copies[i];
             if c.pick.id in mid.blocks && Hits(c, c.pick.id, mid.blocks[c.pick.id]) then
               && SameRest(mid, db') && db'.nextBlock == mid.nextBlock && db'.dedup == mid.dedup
               && db'.blocks == mid.blocks[c.pick.id := mid.blocks[c.pick.id].(pack := c.to.pack, offset := c.to.offset)]
             else db' == mid
    ensures MovedExactly(db, db', copies[..i + 1])
  {
    var c, id := copies[i], copies[i].pick.id;
    assert copies[..i + 1] == copies[..i] + [c];
    if id in db.blocks { assert mid.blocks[id] == db.blocks[id]; }
  }

  /** `move_records`: skips any block that was freed or moved meanwhile. */
  method MoveRecords(env: Env, db: Db, copies: seq<Copy>) returns (r: Result<Db>)
    requires Inv(db, env) && DistinctIds(copies)
    requires forall c :: c in copies ==> c.to.pack in db.packs
    ensures r.Ok? && Inv(r.value, env) && MovedExactly(db, r.value, copies)
  {
    hide Inv, MovedExactly, DistinctIds, MoveBlock, SamePacks;
    var cur := db;
    assert MovedExactly(db, cur, copies[..0]) by { MovedNone(db); }
    var i := 0;
    while i < |copies|
      invariant 0 <= i <= |copies| && Inv(cur, env) && MovedExactly(db, cur, copies[..i])
      invariant cur.packs.Keys == db.packs.Keys
    {
      var c := copies[i];
      var id := c.pick.id;
      ghost var mid := cur;
      if id in cur.blocks && cur.blocks[id].pack == c.pick.from.pack && cur.blocks[id].offset == c.pick.from.offset {
        MoveRow(env, cur, id, c.to.pack, c.to.offset);
        var moved := MoveBlock(cur, id, c.to.pack, c.to.offset);
        if moved.Err? { return Err(Corrupt); }
        cur := moved.value;
      }
      MovedOne(db, mid, cur, copies, i);
      i := i + 1;
    }
    assert copies[..i] == copies;
    return Ok(cur);
  }

  lemma MovedNone(db: Db)
    ensures MovedExactly(db, db, [])
  {
  }

  lemma MoveRow(env: Env, db: Db, id: nat, pack: nat, offset: nat)
    requires Inv(db, env) && id in db.blocks && pack in db.packs
    ensures MoveBlock(db, id, pack, offset).Ok?
    ensures var db' := MoveBlock(db, id, pack, offset).value;
            && Inv(db', env) && SameRest(db, db') && db'.nextBlock == db.nextBlock && db'.dedup == db.dedup
            && db'.blocks == db.blocks[id := db.blocks[id].(pack := pack, offset := offset)]
            && db'.packs.Keys == db.packs.Keys
  {
    MoveKeeps(db, env, id, pack, offset);
    MoveShape(db, id, pack, offset);
  }

  /** The commit is a move step of the store. */
  lemma MoveIsStep(env: Env, db: Db, db': Db, copies: seq<Copy>)
    requires Inv(db', env) && MovedExactly(db, db', copies)
    ensures Moved(db, db', env, set c | c in copies)
  {
    hide Inv;
    forall id | id in db.blocks && db'.blocks[id] != db.blocks[id]
      ensures exists c :: c in (set c | c in copies) && MovedBy(c, id, db.blocks[id], db'.blocks[id])
    {
      var c :| c in copies && Hits(c, id, db.blocks[id]);
      assert c in (set c | c in copies) && MovedBy(c, id, db.blocks[id], db'.blocks[id]);
    }
  }

  /** Moving every block of a pack elsewhere empties it, so that it can be retired. */
  lemma EvacuatedIsEmpty(env: Env, db: Db, db': Db, copies: seq<Copy>, p: nat)
    requires Inv(db', env) && MovedExactly(db, db', copies) && p in db'.packs
    requires forall c :: c in copies ==> c.to.pack != p
    requires forall id :: id in db.blocks && db.blocks[id].pack == p ==>
               exists c :: c in copies && Hits(c, id, db.blocks[id])
    ensures db'.packs[p].live == 0
  {
    hide Lengths, Acct, Inverse;
    forall id | id in db'.blocks ensures db'.blocks[id].pack != p {
      if db.blocks[id].pack == p {
        var c :| c in copies && Hits(c, id, db.blocks[id]);
        assert MovedBy(c, id, db.blocks[id], db'.blocks[id]);
      } else if exists c :: c in copies && Hits(c, id, db.blocks[id]) {
        var c :| c in copies && Hits(c, id, db.blocks[id]);
        assert MovedBy(c, id, db.blocks[id], db'.blocks[id]);
      }
    }
    LiveNone(db'.blocks, p, db'.nextBlock);
  }
}
