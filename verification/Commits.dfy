/** The index transactions of writers: block writes, batches of files, resizes, deletions. */
module Commits {
  import opened Base
  import opened Manifest
  import opened Ledger
  import opened Segments
  import opened Index
  import opened Files
  import opened Meaning

  // ---- Counting references up and down ----

  lemma DroppedTwice(a: Db, b: Db, c: Db)
    requires Dropped(a, b) && Dropped(b, c)
    ensures Dropped(a, c)
  {
  }

  lemma HeadCounted(ids: seq<nat>, k: nat)
    requires k < |ids|
    ensures multiset(ids[k..])[ids[k]] > 0
    ensures multiset(ids[k..]) - multiset{ids[k]} == multiset(ids[k + 1..])
  {
    assert ids[k..] == [ids[k]] + ids[k + 1..];
  }

  /** Drops one reference for each of `ids`. */
  method DecrefAll(t: Tables, ids: seq<nat>, ghost env: Env) returns (r: Result<()>)
    requires t.Valid() && Core(t.View(), env) && AllCounted(t.View())
    requires Acct(t.View(), multiset{}, multiset(ids))
    modifies t`blocks, t`dedup, t`packs
    ensures t.Valid() && r.Ok? && Inv(t.View(), env) && Dropped(old(t.View()), t.View())
  {
    hide Core, Acct, AllCounted, Dropped, Flat, SegsOk;
    ghost var db := t.View();
    DroppedNone(db);
    assert ids[0..] == ids;
    for k := 0 to |ids|
      invariant t.Valid() && Core(t.View(), env) && AllCounted(t.View())
      invariant Acct(t.View(), multiset{}, multiset(ids[k..]))
      invariant Dropped(db, t.View())
    {
      HeadCounted(ids, k);
      ghost var prev := t.View();
      DecrefKeeps(prev, env, multiset(ids[k..]), ids[k]);
      var d := t.Decref(ids[k]);
      if d.Err? { return Err(Corrupt); }
      DroppedTwice(db, prev, t.View());
    }
    return Ok(());
  }

  lemma DroppedNone(db: Db)
    ensures Dropped(db, db)
  {
  }

  /** The commit of `set_len`; a length with too many segments is refused. */
  method SetLen(t: Tables, f: FileId, len: nat, ghost env: Env) returns (r: Result<()>)
    requires t.Valid() && t.bs == env.bs && Inv(t.View(), env)
    modifies t
    ensures t.Valid() && (r.Ok? <==> LenFits(len, env.bs)) && (r.Err? ==> r.error == OutOfRange)
    ensures r.Err? ==> t.View() == old(t.View())
    ensures r.Ok? ==> Txn(old(t.View()), t.View(), env, {}) && Edits(OpSetLen(f, len), old(t.View()), t.View(), env)
    ensures r.Ok? ==> Contents(t.View(), env) == Sized(Contents(old(t.View()), env), f, len, env.bs)
  {
    hide Core, Acct, AllCounted, Flat, Contents, Sized, Kept, Txn, Edits, NewSlots;
    if !LenFits(len, t.bs) { return Err(OutOfRange); }
    r := ResizeFile(t, f, len, env);
  }

  /** Resizes a file and drops the references of what it no longer holds. */
  method ResizeFile(t: Tables, f: FileId, len: nat, ghost env: Env) returns (r: Result<()>)
    requires t.Valid() && t.bs == env.bs && Inv(t.View(), env)
    modifies t
    ensures t.Valid() && r.Ok? && Txn(old(t.View()), t.View(), env, {})
    ensures Edits(OpSetLen(f, len), old(t.View()), t.View(), env)
    ensures Kept(old(t.View()), t.View()) && t.View().files - {f} == old(t.View().files) - {f}
    ensures NewSlots(old(t.View()), t.View())
    ensures Contents(t.View(), env) == Sized(Contents(old(t.View()), env), f, len, env.bs)
  {
    ghost var db := t.View();
    hide Core, Acct, AllCounted, Flat, SegsOk, Resized, DroppedSlots, Cached, Dropped, Contents, Sized, Kept, Edits,
         NewSlots;
    var dropped := Resize(t, f, len);
    if dropped.Err? { return Err(Corrupt); }
    ghost var mid := t.View();
    SetLenMid(db, mid, env, f, len, dropped.value);
    r := DecrefAll(t, dropped.value, env);
    SetLenDone(db, mid, t.View(), env, f, len);
  }

  lemma SetLenMid(db: Db, mid: Db, env: Env, f: FileId, len: nat, gone: seq<nat>)
    requires Inv(db, env)
    requires var row := if f in db.files then db.files[f] else FileRow(0, []);
             && mid == db.(files := db.files[
                  f := FileRow(len, Resized(row.slots, row.len, len, env.bs, MISSING))])
             && gone == if f in db.files then Cached(DroppedSlots(row.slots, row.len, len, env.bs)) else []
    ensures Core(mid, env) && Acct(mid, multiset{}, multiset(gone)) && AllCounted(mid)
  {
    ResizedCore(db, mid, env, f, len);
    ResizedAcct(db, mid, env, f, len);
    if f !in db.files { assert Cached(DroppedSlots([], 0, len, env.bs)) == []; }
  }

  lemma SetLenDone(db: Db, mid: Db, db': Db, env: Env, f: FileId, len: nat)
    requires Inv(db, env) && Inv(db', env) && Dropped(mid, db')
    requires var row := if f in db.files then db.files[f] else FileRow(0, []);
             mid == db.(files := db.files[
               f := FileRow(len, Resized(row.slots, row.len, len, env.bs, MISSING))])
    ensures Txn(db, db', env, {}) && Kept(db, db') && db'.files - {f} == db.files - {f}
    ensures Edits(OpSetLen(f, len), db, db', env) && NewSlots(db, db')
    ensures Contents(db', env) == Sized(Contents(db, env), f, len, env.bs)
  {
    ResizedSlots(db, db', env, f, len);
    KeptFromDropped(db, mid, db');
    TxnFromDropped(db, mid, db', env, {});
    SizedContents(db, db', env, f, len);
  }

  /** A resized file refers to no block it did not refer to. */
  lemma ResizedSlots(db: Db, db': Db, env: Env, f: FileId, len: nat)
    requires env.bs > 0
    requires var row := if f in db.files then db.files[f] else FileRow(0, []);
             db'.files == db.files[f := FileRow(len, Resized(row.slots, row.len, len, env.bs, MISSING))]
    ensures NewSlots(db, db')
  {
    hide BlockLen, BlockCount;
    forall g, i | g in db'.files && 0 <= i < |db'.files[g].slots|
      ensures SlotFrom(db, db', db'.files[g].slots[i])
    {
      var id := db'.files[g].slots[i];
      if id != MISSING { assert db.files[g].slots[i] == id && Referenced(db.files, id); }
    }
  }

  /** The commit of `delete`. */
  method Delete(t: Tables, f: FileId, ghost env: Env) returns (r: Result<()>)
    requires t.Valid() && t.bs == env.bs && Inv(t.View(), env)
    modifies t
    ensures t.Valid()
    ensures r.Ok? <==> f in old(t.View().files)
    ensures r.Err? ==> r.error == NotFound && t.View() == old(t.View())
    ensures r.Ok? ==> Txn(old(t.View()), t.View(), env, {}) && Edits(OpDelete(f), old(t.View()), t.View(), env)
    ensures r.Ok? ==> Contents(t.View(), env) == Contents(old(t.View()), env) - {f}
  {
    ghost var db := t.View();
    hide Core, Acct, AllCounted, Flat, SegsOk, Cached, Dropped, Contents, Edits;
    var removed := Remove(t, f);
    if removed.Err? { return Err(Corrupt); }
    if removed.value.None? { return Err(NotFound); }
    ghost var mid := t.View();
    var gone := removed.value.value;
    DeleteMid(db, mid, env, f, gone);
    r := DecrefAll(t, gone, env);
    DeleteDone(db, mid, t.View(), env, f);
  }

  lemma DeleteMid(db: Db, mid: Db, env: Env, f: FileId, gone: seq<nat>)
    requires Inv(db, env) && f in db.files && mid == db.(files := db.files - {f})
    requires gone == Cached(db.files[f].slots)
    ensures Core(mid, env) && Acct(mid, multiset{}, multiset(gone)) && AllCounted(mid)
  {
    DeletedAcct(db, mid, env, f);
  }

  lemma DeleteDone(db: Db, mid: Db, db': Db, env: Env, f: FileId)
    requires Inv(db, env) && Inv(db', env) && Dropped(mid, db')
    requires mid == db.(files := db.files - {f})
    ensures Txn(db, db', env, {}) && Contents(db', env) == Contents(db, env) - {f}
    ensures f in db.files ==> Edits(OpDelete(f), db, db', env)
  {
    KeptFromDropped(db, mid, db');
    TxnFromDropped(db, mid, db', env, {});
    DeletedContents(db, db', env, f);
  }

  // ---- Writing blocks ----

  /** References were counted up for `ids`; nothing else changed. */
  ghost predicate Counted(db: Db, db': Db, ids: seq<nat>) {
    && SameRest(db, db') && db'.nextBlock == db.nextBlock && db'.dedup == db.dedup
    && db'.blocks.Keys == db.blocks.Keys
    && (forall j :: j in db.blocks ==>
          db'.blocks[j].SameRecord(db.blocks[j]) && db'.blocks[j].refcount >= db.blocks[j].refcount)
    && (forall k :: 0 <= k < |ids| ==> ids[k] in db'.blocks && db'.blocks[ids[k]].refcount >= 1)
  }

  lemma CountedMore(db: Db, mid: Db, ids: seq<nat>, k: nat)
    requires k < |ids| && Counted(db, mid, ids[..k]) && ids[k] in mid.blocks
    ensures Incref(mid, ids[k]).Ok? && Counted(db, Incref(mid, ids[k]).value, ids[..k + 1])
  {
  }

  method IncrefAll(t: Tables, ids: seq<nat>, ghost env: Env, ghost dec: multiset<nat>)
    returns (r: Result<()>)
    requires t.Valid() && Core(t.View(), env) && Acct(t.View(), multiset(ids), dec)
    requires forall k :: 0 <= k < |ids| ==> ids[k] in t.blocks
    modifies t`blocks
    ensures t.Valid() && r.Ok? && Core(t.View(), env) && Acct(t.View(), multiset{}, dec)
    ensures Counted(old(t.View()), t.View(), ids)
  {
    hide Core, Acct, Flat, SegsOk;
    ghost var db := t.View();
    assert ids[0..] == ids;
    for k := 0 to |ids|
      invariant t.Valid() && Core(t.View(), env)
      invariant Acct(t.View(), multiset(ids[k..]), dec)
      invariant Counted(db, t.View(), ids[..k])
    {
      HeadCounted(ids, k);
      ghost var prev := t.View();
      IncrefKeeps(prev, env, multiset(ids[k..]), dec, ids[k]);
      CountedMore(db, prev, ids, k);
      var d := t.Incref(ids[k]);
      if d.Err? { return Err(Corrupt); }
    }
    assert ids[..|ids|] == ids;
    return Ok(());
  }

  /** The records a writer appended, by hash (`new_records`). */
  ghost predicate RecordsFor(recs: map<Hash, BlockLoc>, env: Env) {
    forall h :: h in recs ==>
      recs[h].hash == h && recs[h].refcount == 0 && Genuine(recs[h], env)
  }

  /** A block with this hash is stored, or can be from the records at hand. */
  ghost predicate Available(db: Db, recs: map<Hash, BlockLoc>, h: Hash) {
    h in db.dedup || (h in recs && recs[h].pack in db.packs)
  }

  /** `ids` are blocks with the given hashes; blocks not stored before come from `recs`. */
  ghost predicate Resolved(db: Db, db': Db, hashes: seq<Hash>, recs: map<Hash, BlockLoc>, ids: seq<nat>) {
    && SameRest(db, db') && db.nextBlock <= db'.nextBlock && |ids| == |hashes|
    && (forall j :: 0 <= j < |ids| ==> ids[j] in db'.blocks && db'.blocks[ids[j]].hash == hashes[j])
    && (forall id :: id in db.blocks ==> id in db'.blocks && db'.blocks[id] == db.blocks[id])
    && (forall id :: id in db'.blocks && id !in db.blocks ==>
          && id >= db.nextBlock && id in ids
          && db'.blocks[id].hash in recs && db'.blocks[id].hash !in db.dedup
          && db'.blocks[id] == recs[db'.blocks[id].hash].(refcount := 0))
    && (forall h :: h in db.dedup ==> h in db'.dedup)
    && (forall h :: h in db'.dedup ==> Available(db, recs, h))
  }

  lemma ResolvedHit(db: Db, mid: Db, env: Env, hashes: seq<Hash>, recs: map<Hash, BlockLoc>, ids: seq<nat>, k: nat)
    requires k < |hashes| && Resolved(db, mid, hashes[..k], recs, ids)
    requires Core(mid, env) && hashes[k] in mid.dedup
    ensures Resolved(db, mid, hashes[..k + 1], recs, ids + [mid.dedup[hashes[k]]])
  {
  }

  lemma InsertNeedsPack(db: Db, loc: BlockLoc)
    ensures InsertBlock(db, loc).Ok? <==> loc.pack in db.packs
  {
  }

  lemma ResolvedNone(db: Db, recs: map<Hash, BlockLoc>)
    ensures Resolved(db, db, [], recs, [])
  {
  }

  lemma ResolvedMore(db: Db, mid: Db, mid': Db, hashes: seq<Hash>, recs: map<Hash, BlockLoc>, ids: seq<nat>, k: nat)
    requires k < |hashes| && Resolved(db, mid, hashes[..k], recs, ids)
    requires var h, id := hashes[k], mid.nextBlock;
             && h !in mid.dedup && h in recs && recs[h].hash == h && recs[h].pack in mid.packs
             && id !in mid.blocks && id !in db.blocks
             && SameRest(mid, mid') && mid'.nextBlock == id + 1
             && mid'.blocks == mid.blocks[id := recs[h].(refcount := 0)]
             && mid'.dedup == mid.dedup[h := id]
    ensures Resolved(db, mid', hashes[..k + 1], recs, ids + [mid.nextBlock])
  {
    hide SameRest;
    assert SameRest(db, mid') by { SameRestTwice(db, mid, mid'); }
    assert Available(db, recs, hashes[k]) by { AvailableHere(db, mid, recs, hashes[k]); }
    var id, now := mid.nextBlock, ids + [mid.nextBlock];
    assert now[|ids|] == id;
    forall j | j in ids ensures j in now {
      var i :| 0 <= i < |ids| && ids[i] == j;
      assert now[i] == j;
    }
    assert hashes[..k + 1] == hashes[..k] + [hashes[k]];
  }

  lemma SameRestTwice(a: Db, b: Db, c: Db)
    requires SameRest(a, b) && SameRest(b, c)
    ensures SameRest(a, c)
  {
  }

  lemma AvailableHere(db: Db, mid: Db, recs: map<Hash, BlockLoc>, h: Hash)
    requires SameRest(db, mid) && h in recs && recs[h].pack in mid.packs
    ensures Available(db, recs, h)
  {
  }

  lemma ResolvedNew(db: Db, mid: Db, env: Env, hashes: seq<Hash>, recs: map<Hash, BlockLoc>, ids: seq<nat>, k: nat)
    requires k < |hashes| && Resolved(db, mid, hashes[..k], recs, ids)
    requires RecordsFor(recs, env) && Core(mid, env) && Acct(mid, multiset{}, multiset{})
    requires hashes[k] !in mid.dedup && hashes[k] in recs && recs[hashes[k]].pack in mid.packs
    requires Ids(db)
    ensures var r := InsertBlock(mid, recs[hashes[k]]);
            && r.Ok? && Core(r.value, env) && Acct(r.value, multiset{}, multiset{})
            && Resolved(db, r.value, hashes[..k + 1], recs, ids + [mid.nextBlock])
  {
    assert mid.nextBlock !in mid.blocks && mid.nextBlock !in db.blocks;
    hide Core, Acct, InsertBlock, Resolved;
    InsertKeeps(mid, env, recs[hashes[k]]);
    ResolvedMore(db, mid, InsertBlock(mid, recs[hashes[k]]).value, hashes, recs, ids, k);
  }

  /** Resolves one hash. A hash that is neither stored nor in `recs` is an index panic. */
  method ResolveOne(t: Tables, h: Hash, recs: map<Hash, BlockLoc>) returns (r: Result<nat>)
    requires t.Valid()
    modifies t`blocks, t`dedup, t`packs, t`nextBlock
    ensures t.Valid() && (r.Ok? <==> Available(old(t.View()), recs, h))
    ensures r.Err? ==> r.error == if h !in recs then Panic else Corrupt
    ensures r.Ok? && h in old(t.dedup) ==> t.View() == old(t.View()) && r.value == t.dedup[h]
    ensures r.Ok? && h !in old(t.dedup) ==>
              && InsertBlock(old(t.View()), recs[h]).Ok?
              && t.View() == InsertBlock(old(t.View()), recs[h]).value
              && r.value == old(t.nextBlock)
  {
    if h in t.dedup { return Ok(t.dedup[h]); }
    if h !in recs { return Err(Panic); }
    InsertNeedsPack(t.View(), recs[h]);
    r := t.InsertBlock(recs[h]);
    if r.Err? { r := Err(Corrupt); }
  }

  lemma ResolvedStep(db: Db, mid: Db, mid': Db, env: Env, hashes: seq<Hash>, recs: map<Hash, BlockLoc>,
                     ids: seq<nat>, k: nat, id: nat)
    requires k < |hashes| && Resolved(db, mid, hashes[..k], recs, ids) && Ids(db)
    requires RecordsFor(recs, env) && Core(mid, env) && Acct(mid, multiset{}, multiset{})
    requires Available(mid, recs, hashes[k])
    requires if hashes[k] in mid.dedup then mid' == mid && id == mid.dedup[hashes[k]]
             else InsertBlock(mid, recs[hashes[k]]) == Ok(mid') && id == mid.nextBlock
    ensures Core(mid', env) && Acct(mid', multiset{}, multiset{})
    ensures Resolved(db, mid', hashes[..k + 1], recs, ids + [id])
  {
    hide Resolved, Core, Acct, InsertBlock, RecordsFor, Ids;
    if hashes[k] in mid.dedup {
      ResolvedHit(db, mid, env, hashes, recs, ids, k);
    } else {
      ResolvedNew(db, mid, env, hashes, recs, ids, k);
    }
  }

  /** Availability does not change while hashes are resolved. */
  lemma ResolvedAvailable(db: Db, mid: Db, env: Env, hashes: seq<Hash>, recs: map<Hash, BlockLoc>,
                          ids: seq<nat>)
    requires Core(mid, env) && Resolved(db, mid, hashes, recs, ids)
    ensures forall h :: Available(mid, recs, h) <==> Available(db, recs, h)
    ensures forall j :: 0 <= j < |hashes| ==> Available(db, recs, hashes[j])
  {
    forall j | 0 <= j < |hashes| ensures Available(db, recs, hashes[j]) {
      assert mid.blocks[ids[j]].hash in mid.dedup;
    }
  }

  /** Resolves each hash to a block id: a stored block, or one inserted from `recs`. */
  method Resolve(t: Tables, hashes: seq<Hash>, recs: map<Hash, BlockLoc>, ghost env: Env)
    returns (r: Result<seq<nat>>)
    requires t.Valid() && Core(t.View(), env) && Acct(t.View(), multiset{}, multiset{})
    requires RecordsFor(recs, env)
    modifies t`blocks, t`dedup, t`packs, t`nextBlock
    ensures t.Valid()
    ensures r.Ok? <==> forall j :: 0 <= j < |hashes| ==> Available(old(t.View()), recs, hashes[j])
    ensures r.Ok? ==>
              && Core(t.View(), env) && Acct(t.View(), multiset{}, multiset{})
              && Resolved(old(t.View()), t.View(), hashes, recs, r.value)
  {
    ghost var db := t.View();
    assert Ids(db);
    hide Flat, SegsOk, Acct, RecordsFor, Core, Ids, Resolved, InsertBlock, Available;
    ResolvedNone(db, recs);
    var ids: seq<nat> := [];
    for k := 0 to |hashes|
      invariant t.Valid() && Core(t.View(), env) && Acct(t.View(), multiset{}, multiset{})
      invariant Resolved(db, t.View(), hashes[..k], recs, ids)
    {
      ghost var mid := t.View();
      ResolvedAvailable(db, mid, env, hashes[..k], recs, ids);
      var one := ResolveOne(t, hashes[k], recs);
      if one.Err? { return Err(one.error); }
      ResolvedStep(db, mid, t.View(), env, hashes, recs, ids, k, one.value);
      ids := ids + [one.value];
    }
    assert hashes[..|hashes|] == hashes;
    ResolvedAvailable(db, t.View(), env, hashes, recs, ids);
    return Ok(ids);
  }

  ghost function BlocksOf(hashes: seq<Hash>, env: Env): seq<bytes> {
    seq(|hashes|, j requires 0 <= j < |hashes| => env.content(hashes[j]))
  }

  /** Blocks with the given hashes were written into slots `[first, first + |hashes|)` of `f`. */
  ghost predicate Replaced(
    db: Db, db': Db, env: Env, f: FileId, first: nat, hashes: seq<Hash>, recs: map<Hash, BlockLoc>)
  {
    && Txn(db, db', env, recs.Values)
    && f in db.files && first + |hashes| <= |db.files[f].slots|
    && Contents(db', env) == Written(Contents(db, env), f, first, BlocksOf(hashes, env))
    && NewRows(db, db', hashes, recs)
    && Kept(db, db') && f in db'.files && db'.files - {f} == db.files - {f}
    && OnlySlots(db, db', f, first, |hashes|) && NewSlots(db, db')
    && forall j :: 0 <= j < |hashes| ==> HoldsHash(db', f, first + j, hashes[j])
  }

  /** Rows that `db` had no block for are records of the writer. */
  ghost predicate NewRows(db: Db, db': Db, hashes: seq<Hash>, recs: map<Hash, BlockLoc>) {
    forall id :: id in db'.blocks && id !in db.blocks ==>
      && id >= db.nextBlock
      && db'.blocks[id].hash !in db.dedup && db'.blocks[id].hash in hashes
      && db'.blocks[id].hash in recs && db'.blocks[id].SameRecord(recs[db'.blocks[id].hash])
  }

  lemma ReplaceSet(db: Db, db1: Db, db2: Db, env: Env, f: FileId, first: nat, hashes: seq<Hash>,
                   recs: map<Hash, BlockLoc>, ids: seq<nat>, held: seq<nat>)
    requires Inv(db, env) && Core(db1, env) && Acct(db1, multiset{}, multiset{})
    requires Resolved(db, db1, hashes, recs, ids)
    requires f in db.files && first + |hashes| <= |db.files[f].slots|
    requires forall j :: 0 <= j < |hashes| ==>
               |env.content(hashes[j])| == BlockLen(db.files[f].len, env.bs, first + j)
    requires db2 == db1.(files := db1.files[
               f := db1.files[f].(slots := Spliced(db1.files[f].slots, first, ids))])
    requires held == db1.files[f].slots[first..first + |ids|]
    ensures Core(db2, env) && Acct(db2, multiset(ids), multiset(Cached(held)))
    ensures forall k :: 0 <= k < |ids| ==> ids[k] in db2.blocks
  {
    hide BlockCount, DivCeil, BlockLen, Spliced, Acct;
    forall j | 0 <= j < |ids|
      ensures ids[j] in db1.blocks
      ensures db1.blocks[ids[j]].rawLen == BlockLen(db1.files[f].len, env.bs, first + j)
    {
      assert |env.content(hashes[j])| == BlockLen(db.files[f].len, env.bs, first + j);
    }
    WrittenCore(db1, db2, env, f, first, ids);
    WrittenAcct(db1, db2, f, first, ids);
  }

  lemma ReplaceCounted(db: Db, db1: Db, db2: Db, db3: Db, env: Env, hashes: seq<Hash>,
                       recs: map<Hash, BlockLoc>, ids: seq<nat>)
    requires Inv(db, env) && Resolved(db, db1, hashes, recs, ids)
    requires db2.blocks == db1.blocks && Counted(db2, db3, ids)
    ensures AllCounted(db3)
  {
    forall id | id in db3.blocks ensures db3.blocks[id].refcount >= 1 {
      if id in db.blocks {
        assert db1.blocks[id] == db.blocks[id];
      } else {
        assert id in ids;
      }
    }
  }

  ghost predicate SameOld(db: Db, db': Db) {
    forall id :: id in db'.blocks && id in db.blocks ==> db'.blocks[id].SameRecord(db.blocks[id])
  }

  lemma ReplaceKept(db: Db, db1: Db, db2: Db, db3: Db, db4: Db, hashes: seq<Hash>,
                    recs: map<Hash, BlockLoc>, ids: seq<nat>)
    requires Resolved(db, db1, hashes, recs, ids) && Ids(db)
    requires db2 == db1.(files := db2.files)
    requires Counted(db2, db3, ids) && Dropped(db3, db4)
    ensures Kept(db, db4)
    ensures NewRows(db, db4, hashes, recs)
    ensures SameOld(db, db4)
    ensures SamePacks(db, db4) && db4.nextPack == db.nextPack && db4.clean == db.clean
    ensures db.nextBlock <= db4.nextBlock && db4.files == db2.files
  {
    forall id | id in db4.blocks && id !in db.blocks ensures db4.blocks[id].hash in hashes {
      assert id in db1.blocks && id in ids;
      var j :| 0 <= j < |ids| && ids[j] == id;
      assert db1.blocks[id].hash == hashes[j];
    }
  }

  /** Written slots are referred to, so their blocks are not dropped. */
  lemma ReplaceStored(db1: Db, db2: Db, db3: Db, db4: Db, f: FileId, first: nat, hashes: seq<Hash>,
                      ids: seq<nat>, j: nat)
    requires |ids| == |hashes| && j < |ids| && f in db1.files
    requires first + |ids| <= |db1.files[f].slots|
    requires db2 == db1.(files := db1.files[
               f := db1.files[f].(slots := Spliced(db1.files[f].slots, first, ids))])
    requires ids[j] in db1.blocks && db1.blocks[ids[j]].hash == hashes[j]
    requires Counted(db2, db3, ids) && Dropped(db3, db4)
    ensures ids[j] in db4.blocks && db4.blocks[ids[j]].hash == hashes[j]
    ensures HoldsHash(db4, f, first + j, hashes[j])
  {
    var slots: seq<nat> := db2.files[f].slots;
    assert slots[first + j] == ids[j];
    assert Referenced(db3.files, ids[j]);
  }

  lemma ReplaceDone(db: Db, db1: Db, db2: Db, db3: Db, db4: Db, env: Env, f: FileId, first: nat,
                    hashes: seq<Hash>, recs: map<Hash, BlockLoc>, ids: seq<nat>)
    requires Inv(db, env) && RecordsFor(recs, env) && Resolved(db, db1, hashes, recs, ids)
    requires f in db.files && first + |hashes| <= |db.files[f].slots|
    requires db2 == db1.(files := db1.files[
               f := db1.files[f].(slots := Spliced(db1.files[f].slots, first, ids))])
    requires Counted(db2, db3, ids) && Dropped(db3, db4) && Inv(db4, env)
    ensures Replaced(db, db4, env, f, first, hashes, recs)
  {
    hide Inv, Ids, Counted, Dropped, Resolved, Kept, Contents, Spliced, Written, Txn, BlocksOf, NewRows,
         HoldsHash, SamePacks, RecordsFor, Inverse, Totals, Lengths, AllCounted, SameOld, OnlySlots, NewSlots;
    InvParts(db, env);
    ResolvedSize(db, db1, hashes, recs, ids);
    ReplaceKept(db, db1, db2, db3, db4, hashes, recs, ids);
    ReplaceTxn(db, db4, env, hashes, recs);
    forall j | 0 <= j < |ids|
      ensures ids[j] in db4.blocks && db4.blocks[ids[j]].hash == hashes[j]
      ensures HoldsHash(db4, f, first + j, hashes[j])
    {
      ResolvedAt(db, db1, hashes, recs, ids, j);
      ReplaceStored(db1, db2, db3, db4, f, first, hashes, ids, j);
    }
    UpdatedExcept(db.files, f, db4.files[f]);
    SplicedSlots(db, db4, f, first, ids);
    ReplaceContents(db, db4, env, f, first, hashes, ids);
  }

  lemma ReplaceContents(db: Db, db': Db, env: Env, f: FileId, first: nat, hashes: seq<Hash>, ids: seq<nat>)
    requires Inv(db, env) && Kept(db, db') && f in db.files && |hashes| == |ids|
    requires first + |ids| <= |db.files[f].slots|
    requires db'.files == db.files[
               f := db.files[f].(slots := Spliced(db.files[f].slots, first, ids))]
    requires forall j :: 0 <= j < |ids| ==> ids[j] in db'.blocks && db'.blocks[ids[j]].hash == hashes[j]
    ensures Contents(db', env) == Written(Contents(db, env), f, first, BlocksOf(hashes, env))
  {
    assert Ids(db);
    hide Inv, Kept, Contents, Spliced, Written;
    WrittenContents(db, db', env, f, first, ids, BlocksOf(hashes, env));
  }

  /** Writing into a run of slots touches no other slot, and refers to no block but those written. */
  lemma SplicedSlots(db: Db, db': Db, f: FileId, first: nat, ids: seq<nat>)
    requires f in db.files && first + |ids| <= |db.files[f].slots|
    requires db'.files == db.files[
               f := db.files[f].(slots := Spliced(db.files[f].slots, first, ids))]
    requires forall j :: 0 <= j < |ids| ==> ids[j] in db'.blocks
    ensures OnlySlots(db, db', f, first, |ids|) && NewSlots(db, db')
  {
    var was, now: seq<nat> := db.files[f].slots, db'.files[f].slots;
    forall i | 0 <= i < |now| && !(first <= i < first + |ids|) ensures now[i] == was[i] { }
    forall g, i | g in db'.files && 0 <= i < |db'.files[g].slots|
      ensures SlotFrom(db, db', db'.files[g].slots[i])
    {
      if g != f { assert Referenced(db.files, db.files[g].slots[i]); }
      else if first <= i < first + |ids| { assert now[i] == ids[i - first]; }
      else { assert Referenced(db.files, was[i]); }
    }
  }

  lemma UpdatedExcept(files: map<FileId, FileRow>, f: FileId, row: FileRow)
    ensures files[f := row] - {f} == files - {f}
  {
  }

  lemma ResolvedAt(db: Db, db': Db, hashes: seq<Hash>, recs: map<Hash, BlockLoc>, ids: seq<nat>, j: nat)
    requires Resolved(db, db', hashes, recs, ids) && j < |ids|
    ensures ids[j] in db'.blocks && db'.blocks[ids[j]].hash == hashes[j]
  {
  }

  lemma ReplaceTxn(db: Db, db': Db, env: Env, hashes: seq<Hash>, recs: map<Hash, BlockLoc>)
    requires Inv(db', env) && RecordsFor(recs, env)
    requires SamePacks(db, db') && db'.nextPack == db.nextPack && db'.clean == db.clean
    requires db.nextBlock <= db'.nextBlock
    requires SameOld(db, db')
    requires NewRows(db, db', hashes, recs)
    ensures Txn(db, db', env, recs.Values)
  {
    hide Inv;
    forall id | id in db'.blocks && id !in db.blocks
      ensures db'.blocks[id].(refcount := 0) in recs.Values
    {
      assert recs[db'.blocks[id].hash] == db'.blocks[id].(refcount := 0);
    }
  }

  /** Resolves `hashes`, writes their blocks into the slots of `f` from `first` on, counts the new
      references up and then the old ones down. */
  method ReplaceSlots(t: Tables, f: FileId, len: nat, first: nat, hashes: seq<Hash>,
                      recs: map<Hash, BlockLoc>, ghost env: Env) returns (r: Result<()>)
    requires t.Valid() && t.bs == env.bs && Inv(t.View(), env) && RecordsFor(recs, env)
    requires f in t.View().files && t.View().files[f].len == len
    requires first + |hashes| <= |t.View().files[f].slots|
    requires forall j :: 0 <= j < |hashes| ==>
               |env.content(hashes[j])| == BlockLen(len, env.bs, first + j)
    modifies t
    ensures t.Valid()
    ensures r.Ok? <==> forall j :: 0 <= j < |hashes| ==> Available(old(t.View()), recs, hashes[j])
    ensures r.Ok? ==> Replaced(old(t.View()), t.View(), env, f, first, hashes, recs)
  {
    ghost var db := t.View();
    hide Core, Acct, AllCounted, Flat, SegsOk, Resolved, Counted, Dropped, Cached, Contents, Available,
         Replaced, RecordsFor, Spliced, BlockLen, Kept, FlatSlots, FileLen, BlockCount, DivCeil;
    var found := Resolve(t, hashes, recs, env);
    if found.Err? { return Err(found.error); }
    var ids := found.value;
    ghost var db1 := t.View();
    ResolvedSize(db, db1, hashes, recs, ids);
    var prior := SetSlots(t, f, len, first, ids);
    if prior.Err? { return Err(Corrupt); }
    var held := prior.value;
    ghost var db2 := t.View();
    ReplaceSet(db, db1, db2, env, f, first, hashes, recs, ids, held);
    var gone := Cached(held);
    var up := IncrefAll(t, ids, env, multiset(gone));
    if up.Err? { return Err(Corrupt); }
    ghost var db3 := t.View();
    ReplaceCounted(db, db1, db2, db3, env, hashes, recs, ids);
    r := DecrefAll(t, gone, env);
    ReplaceDone(db, db1, db2, db3, t.View(), env, f, first, hashes, recs, ids);
  }

  lemma ResolvedSize(db: Db, db': Db, hashes: seq<Hash>, recs: map<Hash, BlockLoc>, ids: seq<nat>)
    requires Resolved(db, db', hashes, recs, ids)
    ensures |ids| == |hashes| && db'.files == db.files
  {
  }
}
