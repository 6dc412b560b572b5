/** Why `put_files` needs its condition: a block already stored can be dropped by the very commit that
    counts on it. */
module LostHit {
  import opened Base
  import opened Manifest
  import opened Ledger
  import opened Meaning
  import opened Commits
  import opened Writes
  import opened PutFiles

  /** The rows of `x` and `y`, one behind the other in pack 2, stored in `sx` and `sy` bytes. */
  function RowX(env: Env, x: bytes, sx: nat): BlockLoc { BlockLoc(2, 0, sx, |x|, 0, env.hash(x)) }

  function RowY(env: Env, x: bytes, y: bytes, sx: nat, sy: nat): BlockLoc {
    BlockLoc(2, RowX(env, x, sx).RecordLen(), sy, |y|, 0, env.hash(y))
  }

  /** One file of two blocks, `x` then `y`, both in pack 2. */
  function TwoBlocks(env: Env, f: FileId, x: bytes, y: bytes, sx: nat, sy: nat): Db {
    var a, b := RowX(env, x, sx), RowY(env, x, y, sx, sy);
    Db(map[f := FileRow(|x| + |y|, [1, 2])], map[1 := a.(refcount := 1), 2 := b.(refcount := 1)],
       map[env.hash(x) := 1, env.hash(y) := 2], map[2 := PackInfo(a.RecordLen() + b.RecordLen(), Active)], 3, 3, 0)
  }

  lemma TwoBlocksBooks(env: Env, f: FileId, x: bytes, y: bytes, sx: nat, sy: nat)
    requires CollisionFree(env) && env.known(x) && env.known(y) && x != y && |x| == |y| == env.bs
    ensures Inv(TwoBlocks(env, f, x, y, sx, sy), env) && NoneRetired(TwoBlocks(env, f, x, y, sx, sy))
  {
    hide BlockCount, BlockLen, DivCeil;
    var db := TwoBlocks(env, f, x, y, sx, sy);
    TwoLong(env.bs);
    TwoHashes(env, x, y);
    OneEach(db.files, f, 1);
    OneEach(db.files, f, 2);
    TwoTotals(env, f, x, y, sx, sy);
    hide Refs, LiveBelow;
  }

  lemma TwoTotals(env: Env, f: FileId, x: bytes, y: bytes, sx: nat, sy: nat)
    ensures Totals(TwoBlocks(env, f, x, y, sx, sy))
  {
    var b := TwoBlocks(env, f, x, y, sx, sy).blocks;
    assert LiveBelow(b, 2, 1) == LiveBelow(b, 2, 0) + Share(b, 0, 2);
    assert LiveBelow(b, 2, 2) == LiveBelow(b, 2, 1) + Share(b, 1, 2);
    assert LiveBelow(b, 2, 3) == LiveBelow(b, 2, 2) + Share(b, 2, 2);
  }

  lemma OneEach(files: map<FileId, FileRow>, f: FileId, id: nat)
    requires f in files && files.Keys == {f} && files[f].slots == [1, 2] && 1 <= id <= 2
    ensures |Refs(files, id)| == 1
  {
    RefsSplit(files, f, id);
    assert Refs(files - {f}, id) == {};
    var one: seq<nat>, two: seq<nat> := [1], [2];
    assert files[f].slots == one + two;
  }

  lemma TwoHashes(env: Env, x: bytes, y: bytes)
    requires CollisionFree(env) && env.known(x) && env.known(y) && x != y
    ensures env.hash(x) != env.hash(y) && env.content(env.hash(x)) == x && env.content(env.hash(y)) == y
  {
  }

  lemma TwoLong(bs: nat)
    requires bs > 0
    ensures BlockCount(bs + bs, bs) == 2 && BlockCount(bs, bs) == 1
    ensures BlockLen(bs + bs, bs, 0) == bs && BlockLen(bs + bs, bs, 1) == bs && BlockLen(bs, bs, 0) == bs
  {
    CountDown(bs + bs, bs);
    CountDown(bs, bs);
  }

  /** The contents before the batch, and once the file is cut to one block: `y` is gone. */
  lemma CutAway(env: Env, f: FileId, x: bytes, y: bytes, sx: nat, sy: nat, db: Db)
    requires CollisionFree(env) && env.known(x) && env.known(y) && x != y && |x| == |y| == env.bs
    requires db.files == TwoBlocks(env, f, x, y, sx, sy).files && db.blocks == TwoBlocks(env, f, x, y, sx, sy).blocks
    ensures !StoredIn(Sized(Contents(db, env), f, |y|, env.bs), y)
    ensures Chunks(y, env.bs) == [y] && AllBlocks([(f, y)], env.bs) == [y]
  {
    hide BlockCount, BlockLen, DivCeil;
    TwoLong(env.bs);
    TwoHashes(env, x, y);
    hide CollisionFree;
    var files := [(f, y)];
    assert AllBlocks(files[..0], env.bs) == [];
    var s := Contents(db, env);
    assert s[f].blocks == [Some(x), Some(y)];
    assert s == map[f := FileContent(env.bs + env.bs, [Some(x), Some(y)])];
    var now := Sized(s, f, env.bs, env.bs);
    assert now[f].blocks == [Some(x)];
    assert now == map[f := FileContent(env.bs, [Some(x)])];
  }

  /** The batch of one file is good, or found, exactly if its one block is. */
  lemma OneFile(db: Db, env: Env, recs: map<Hash, BlockLoc>, f: FileId, y: bytes)
    requires env.bs > 0 && Chunks(y, env.bs) == [y] && !StoredIn(Sized(Contents(db, env), f, |y|, env.bs), y)
    ensures GoodBatch(db, env, recs, [(f, y)]) <==> env.hash(y) in recs && Accepts(db, recs[env.hash(y)].pack)
    ensures FoundBatch(db, env, recs, [(f, y)]) <==> env.hash(y) in recs && recs[env.hash(y)].pack in db.packs
  {
    hide Contents, Sized, StoredIn, Chunks;
    var files := [(f, y)];
    assert files[..0] == [];
    UnretiredSame(db, env);
    GoodOneMore(db, env, recs, files, 0);
    GoodOneMore(Unretired(db), env, recs, files, 0);
    var now := Sized(Contents(db, env), f, |y|, env.bs);
    assert GoodFile(Contents(db, env), db, env, recs, f, y) <==> GoodBlock(now, db, env, recs, Chunks(y, env.bs)[0]);
    assert GoodFile(Contents(db, env), Unretired(db), env, recs, f, y)
           <==> GoodBlock(now, Unretired(db), env, recs, Chunks(y, env.bs)[0]);
  }

  /** Replacing the file `xy` by `y`: every block of the batch is found in the index beforehand, yet the
      commit fails. */
  lemma LostDedupHit(env: Env, f: FileId, x: bytes, y: bytes, sx: nat, sy: nat)
    requires CollisionFree(env) && env.known(x) && env.known(y) && x != y && |x| == |y| == env.bs
    ensures var db := TwoBlocks(env, f, x, y, sx, sy);
            && Inv(db, env) && NoneRetired(db) && Distinct([(f, y)]) && RecordsFor(map[], env)
            && AllReady(db, env, map[], [(f, y)]) && !FoundBatch(db, env, map[], [(f, y)])
  {
    hide Inv, GoodBatch, FoundBatch, Contents, Chunks, AllBlocks;
    TwoBlocksBooks(env, f, x, y, sx, sy);
    var db := TwoBlocks(env, f, x, y, sx, sy);
    CutAway(env, f, x, y, sx, sy, db);
    OneFile(db, env, map[], f, y);
  }

  /** The same store with an empty pack 1 besides. */
  function WithOther(env: Env, f: FileId, x: bytes, y: bytes, sx: nat, sy: nat, state: PackState): Db {
    var db := TwoBlocks(env, f, x, y, sx, sy);
    db.(packs := db.packs[1 := PackInfo(0, state)])
  }

  /** A record of `y` at the start of pack 1. */
  function Stale(env: Env, y: bytes, sy: nat): BlockLoc { BlockLoc(1, 0, sy, |y|, 0, env.hash(y)) }

  function StaleRecord(env: Env, y: bytes, sy: nat): map<Hash, BlockLoc> { map[env.hash(y) := Stale(env, y, sy)] }

  /** The writer of `y` has appended its record to pack 1, which was retired before any row pointed there,
      while another thread stored `xy`: the batch commits. The check passes for the block in the index, and the
      record in the retired pack is what it uses. */
  lemma StaleHit(env: Env, f: FileId, x: bytes, y: bytes, sx: nat, sy: nat)
    requires CollisionFree(env) && env.known(x) && env.known(y) && x != y && |x| == |y| == env.bs
    ensures var db, recs := WithOther(env, f, x, y, sx, sy, Retired), StaleRecord(env, y, sy);
            && Inv(db, env) && NoneRetired(db) && Distinct([(f, y)]) && RecordsFor(recs, env)
            && AllReady(db, env, recs, [(f, y)])
            && FoundBatch(db, env, recs, [(f, y)]) && !GoodBatch(db, env, recs, [(f, y)])
  {
    hide Inv, NoneRetired, GoodBatch, FoundBatch, Contents, Chunks, AllBlocks, RecordsFor, AllReady, WithOther, StaleRecord,
         CollisionFree;
    TwoBlocksBooks(env, f, x, y, sx, sy);
    OtherBooks(env, f, x, y, sx, sy, Retired);
    StaleFacts(env, f, x, y, sx, sy);
    var db, recs := WithOther(env, f, x, y, sx, sy, Retired), StaleRecord(env, y, sy);
    CutAway(env, f, x, y, sx, sy, db);
    OneFile(db, env, recs, f, y);
    StaleReady(env, f, x, y, sx, sy);
  }

  lemma StaleFacts(env: Env, f: FileId, x: bytes, y: bytes, sx: nat, sy: nat)
    requires CollisionFree(env) && env.known(x) && env.known(y) && x != y
    ensures var db, recs := WithOther(env, f, x, y, sx, sy, Retired), StaleRecord(env, y, sy);
            && db.files == TwoBlocks(env, f, x, y, sx, sy).files && db.blocks == TwoBlocks(env, f, x, y, sx, sy).blocks
            && env.hash(y) in recs && recs[env.hash(y)].pack in db.packs && !Accepts(db, recs[env.hash(y)].pack)
            && RecordsFor(recs, env)
  {
    TwoHashes(env, x, y);
  }

  lemma StaleReady(env: Env, f: FileId, x: bytes, y: bytes, sx: nat, sy: nat)
    requires env.bs > 0 && AllBlocks([(f, y)], env.bs) == [y]
    ensures AllReady(WithOther(env, f, x, y, sx, sy, Retired), env, StaleRecord(env, y, sy), [(f, y)])
  {
    hide AllBlocks;
  }

  lemma OtherBooks(env: Env, f: FileId, x: bytes, y: bytes, sx: nat, sy: nat, state: PackState)
    requires Inv(TwoBlocks(env, f, x, y, sx, sy), env) && NoneRetired(TwoBlocks(env, f, x, y, sx, sy))
    ensures Inv(WithOther(env, f, x, y, sx, sy, state), env) && NoneRetired(WithOther(env, f, x, y, sx, sy, state))
  {
    hide Lengths, Acct, Inverse, Ids;
    var db := WithOther(env, f, x, y, sx, sy, state);
    SameLedger(TwoBlocks(env, f, x, y, sx, sy), db, env);
    var b := db.blocks;
    assert LiveBelow(b, 1, 1) == LiveBelow(b, 1, 0) + Share(b, 0, 1);
    assert LiveBelow(b, 1, 2) == LiveBelow(b, 1, 1) + Share(b, 1, 1);
    assert LiveBelow(b, 1, 3) == LiveBelow(b, 1, 2) + Share(b, 2, 1);
  }

  lemma SameLedger(db: Db, db': Db, env: Env)
    requires db' == db.(packs := db'.packs, nextPack := db'.nextPack) && Inv(db, env)
    ensures Ids(db') && Inverse(db') && Lengths(db', env) && Acct(db', multiset{}, multiset{}) && AllCounted(db')
  {
    hide Refs, BlockCount, BlockLen;
  }
}
