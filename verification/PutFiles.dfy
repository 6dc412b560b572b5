/** `put_files`: a batch of whole files in one commit, and exactly when it does what it promises. */
module PutFiles {
  import opened Base
  import opened Manifest
  import opened Ledger
  import opened Segments
  import opened Index
  import opened Meaning
  import opened Commits
  import opened Writes

  /** The store after `f` got exactly the content `data`. */
  function PutOne(s: Store, f: FileId, data: bytes, bs: nat): Store
    requires bs > 0
  {
    s[f := WholeOf(data, bs)]
  }

  type Batch = seq<(FileId, bytes)>

  /** The whole content of a file, all blocks cached. */
  function WholeOf(data: bytes, bs: nat): FileContent
    requires bs > 0
  {
    FileContent(|data|, Somes(Chunks(data, bs)))
  }

  function PutAll(s: Store, files: Batch, bs: nat): Store
    requires bs > 0
  {
    if files == [] then s
    else
      var n := |files| - 1;
      PutOne(PutAll(s, files[..n], bs), files[n].0, files[n].1, bs)
  }

  /** Some file has a cached block with content `c`. */
  ghost predicate StoredIn(s: Store, c: bytes) {
    exists f, i :: f in s && 0 <= i < |s[f].blocks| && s[f].blocks[i] == Some(c)
  }

  /** A hash has a dedup row exactly if some file still caches its block. */
  lemma StoredIff(db: Db, env: Env, c: bytes)
    requires Inv(db, env) && CollisionFree(env) && env.known(c)
    ensures env.hash(c) in db.dedup <==> StoredIn(Contents(db, env), c)
  {
    var s := Contents(db, env);
    if env.hash(c) in db.dedup {
      var id := db.dedup[env.hash(c)];
      assert db.blocks[id].refcount >= 1 && db.blocks[id].hash == env.hash(c);
      RefsNone(db.files, id);
      var f, i :| f in db.files && 0 <= i < |db.files[f].slots| && db.files[f].slots[i] == id;
      assert s[f].blocks[i] == Some(c);
    }
    if StoredIn(s, c) {
      var f, i :| f in s && 0 <= i < |s[f].blocks| && s[f].blocks[i] == Some(c);
      var id := db.files[f].slots[i];
      assert id in db.blocks && env.content(db.blocks[id].hash) == c;
      assert Genuine(db.blocks[id], env);
    }
  }

  // ---- One file of the batch ----

  /** The block is cached in `s`, or the writer has a record for it in a pack that accepts records. */
  ghost predicate GoodBlock(s: Store, db: Db, env: Env, recs: map<Hash, BlockLoc>, c: bytes) {
    StoredIn(s, c) || (env.hash(c) in recs && Accepts(db, recs[env.hash(c)].pack))
  }

  /** Every block the file needs is good once the file is resized. */
  ghost predicate GoodFile(s: Store, db: Db, env: Env, recs: map<Hash, BlockLoc>, f: FileId, data: bytes)
    requires env.bs > 0
  {
    forall j :: 0 <= j < |Chunks(data, env.bs)| ==>
      GoodBlock(Sized(s, f, |data|, env.bs), db, env, recs, Chunks(data, env.bs)[j])
  }

  /** A slot of `f` holds a block in a retired pack. */
  ghost predicate BadAt(db: Db, f: FileId) {
    f in db.files && exists i :: 0 <= i < |db.files[f].slots| && BadSlot(db, db.files[f].slots[i])
  }

  ghost predicate BadSlot(db: Db, id: nat) {
    id in db.blocks && db.blocks[id].pack in db.packs && db.packs[db.blocks[id].pack].state == Retired
  }

  lemma BadIsRetired(db: Db, f: FileId)
    requires BadAt(db, f)
    ensures !NoneRetired(db)
  {
    var i :| 0 <= i < |db.files[f].slots| && BadSlot(db, db.files[f].slots[i]);
  }

  /** A block in a retired pack stays where a file that is not touched refers to it. */
  lemma BadStays(db: Db, db': Db, f: FileId, g: FileId)
    requires Kept(db, db') && SamePacks(db, db') && db'.files - {f} == db.files - {f} && g != f
    requires BadAt(db, g) && Ids(db)
    ensures BadAt(db', g)
  {
    var i :| 0 <= i < |db.files[g].slots| && BadSlot(db, db.files[g].slots[i]);
    assert g in db.files - {f} && g in db'.files - {f};
    assert (db'.files - {f})[g] == db'.files[g] && (db.files - {f})[g] == db.files[g];
    var id := db.files[g].slots[i];
    assert Referenced(db'.files, id);
    assert BadSlot(db', id);
  }

  lemma OldRowsStored(db: Db, db': Db, env: Env, mine: set<BlockLoc>)
    requires Inv(db, env) && Txn(db, db', env, mine)
    ensures forall id :: id in db'.blocks && id in db.blocks ==> db'.blocks[id].hash in db.dedup
  {
    InvParts(db, env);
    hide Inv;
  }

  /** A record written although its pack does not accept records leaves a block in a retired pack. */
  lemma UnreadyIsBad(db: Db, db': Db, env: Env, f: FileId, hashes: seq<Hash>,
                     recs: map<Hash, BlockLoc>, j: nat)
    requires Inv(db, env) && Replaced(db, db', env, f, 0, hashes, recs) && Totals(db')
    requires j < |hashes| && !Ready(db, recs, hashes[j])
    ensures BadAt(db', f)
  {
    assert HoldsHash(db', f, 0 + j, hashes[j]);
    var id := db'.files[f].slots[j];
    OldRowsStored(db, db', env, recs.Values);
    assert db'.blocks[id].SameRecord(recs[hashes[j]]);
    assert BadSlot(db', id);
  }

  /** What one file of the batch does to the index. */
  ghost predicate PutStage(db: Db, db': Db, env: Env, recs: map<Hash, BlockLoc>, f: FileId, data: bytes)
    requires env.bs > 0
  {
    && Txn(db, db', env, recs.Values)
    && Contents(db', env) == PutOne(Contents(db, env), f, data, env.bs)
    && (GoodFile(Contents(db, env), db, env, recs, f, data) && NoneRetired(db) ==> NoneRetired(db'))
    && (!GoodFile(Contents(db, env), db, env, recs, f, data) ==> BadAt(db', f))
    && (forall g :: g != f && BadAt(db, g) ==> BadAt(db', g))
    && Kept(db, db') && NewSlots(db, db') && db'.files - {f} == db.files - {f}
    && RowHolds(db', env, f, WholeOf(data, env.bs))
  }

  /** Between resize and write, a file is good exactly if each of its hashes is ready. */
  lemma GoodIsReady(db: Db, mid: Db, env: Env, recs: map<Hash, BlockLoc>, f: FileId, data: bytes, hs: seq<Hash>)
    requires Inv(mid, env) && CollisionFree(env) && SamePacks(db, mid)
    requires Contents(mid, env) == Sized(Contents(db, env), f, |data|, env.bs)
    requires hs == Hashes(Chunks(data, env.bs), env) && AllKnown(env, Chunks(data, env.bs))
    ensures GoodFile(Contents(db, env), db, env, recs, f, data)
            <==> forall j :: 0 <= j < |hs| ==> Ready(mid, recs, hs[j])
  {
    var cs := Chunks(data, env.bs);
    var s := Sized(Contents(db, env), f, |data|, env.bs);
    hide Chunks, Inv, Contents, Sized, StoredIn;
    forall j | 0 <= j < |cs|
      ensures Ready(mid, recs, hs[j]) <==> GoodBlock(s, db, env, recs, cs[j])
    {
      StoredIff(mid, env, cs[j]);
    }
    if forall j :: 0 <= j < |hs| ==> Ready(mid, recs, hs[j]) {
      forall j | 0 <= j < |cs| ensures GoodBlock(s, db, env, recs, cs[j]) {
        assert Ready(mid, recs, hs[j]);
      }
    }
  }

  /** The same tables with no pack retired: a record is found in any registered pack. */
  ghost function Unretired(db: Db): Db {
    db.(packs := map p | p in db.packs :: db.packs[p].(state := Sealed))
  }

  lemma UnretiredSame(db: Db, env: Env)
    ensures Contents(Unretired(db), env) == Contents(db, env)
    ensures Inv(db, env) ==> Inv(Unretired(db), env)
  {
  }

  /** Every block the file needs is cached once the file is resized, or has a record in a registered pack. */
  ghost predicate FoundFile(s: Store, db: Db, env: Env, recs: map<Hash, BlockLoc>, f: FileId, data: bytes)
    requires env.bs > 0
  {
    GoodFile(s, Unretired(db), env, recs, f, data)
  }

  lemma FoundIsAvailable(db: Db, mid: Db, env: Env, recs: map<Hash, BlockLoc>, f: FileId, data: bytes, hs: seq<Hash>)
    requires Inv(mid, env) && CollisionFree(env) && SamePacks(db, mid)
    requires Contents(mid, env) == Sized(Contents(db, env), f, |data|, env.bs)
    requires hs == Hashes(Chunks(data, env.bs), env) && AllKnown(env, Chunks(data, env.bs))
    ensures FoundFile(Contents(db, env), db, env, recs, f, data)
            <==> forall j :: 0 <= j < |hs| ==> Available(mid, recs, hs[j])
  {
    hide Inv, Contents, GoodFile, Chunks, Hashes, Sized, CollisionFree, AllKnown;
    UnretiredSame(db, env);
    UnretiredSame(mid, env);
    GoodIsReady(Unretired(db), Unretired(mid), env, recs, f, data, hs);
    forall j | 0 <= j < |hs| ensures Available(mid, recs, hs[j]) <==> Ready(Unretired(mid), recs, hs[j]) { }
  }

  /** The whole content fits the resized file. */
  lemma WholeFits(mid: Db, env: Env, s: Store, f: FileId, data: bytes)
    requires Inv(mid, env) && CollisionFree(env) && AllKnown(env, Chunks(data, env.bs))
    requires Contents(mid, env) == Sized(s, f, |data|, env.bs)
    ensures var hs := Hashes(Chunks(data, env.bs), env);
            && f in mid.files && mid.files[f].len == |data| && |hs| == |mid.files[f].slots|
            && (forall j :: 0 <= j < |hs| ==>
                  |env.content(hs[j])| == BlockLen(|data|, env.bs, 0 + j))
            && BlocksOf(hs, env) == Chunks(data, env.bs)
            && f in Contents(mid, env) && |hs| <= |Contents(mid, env)[f].blocks|
            && Written(Contents(mid, env), f, 0, BlocksOf(hs, env)) == PutOne(s, f, data, env.bs)
  {
    ChunksAreBlocks(data, env.bs);
    var cs, hs := Chunks(data, env.bs), Hashes(Chunks(data, env.bs), env);
    assert Contents(mid, env)[f] == RowContent(mid.files[f], mid.blocks, env);
    assert BlocksOf(hs, env) == cs;
    hide Chunks, Inv, BlockCount, DivCeil, BlockLen;
    assert Spliced(Contents(mid, env)[f].blocks, 0, Somes(cs)) == Somes(cs);
  }

  lemma StageDone(db: Db, mid: Db, db': Db, env: Env, recs: map<Hash, BlockLoc>, f: FileId, data: bytes)
    requires Inv(db, env) && CollisionFree(env) && AllKnown(env, Chunks(data, env.bs))
    requires Txn(db, mid, env, {}) && Kept(db, mid) && NewSlots(db, mid) && mid.files - {f} == db.files - {f}
    requires Contents(mid, env) == Sized(Contents(db, env), f, |data|, env.bs)
    requires Replaced(mid, db', env, f, 0, Hashes(Chunks(data, env.bs), env), recs)
    ensures PutStage(db, db', env, recs, f, data)
  {
    hide Txn, SamePacks, Inv, AllKnown, Chunks, Hashes, Contents, Kept, GoodFile, BadAt, Sized, NoneRetired,
         StoredIn, BlocksOf,
         NewSlots, RowHolds, HoldsHash, WholeOf, OnlySlots;
    var hs := Hashes(Chunks(data, env.bs), env);
    TxnSamePacks(db, mid, env, {});
    TxnSamePacks(mid, db', env, recs.Values);
    InvParts(db, env);
    InvParts(mid, env);
    hide Totals, Lengths, Inverse, AllCounted;
    WholeFits(mid, env, Contents(db, env), f, data);
    GoodIsReady(db, mid, env, recs, f, data, hs);
    StageTxn(db, mid, db', env, recs.Values);
    KeptTwice(db, mid, db');
    WholeHolds(mid, db', env, f, data, recs);
    assert db'.files - {f} == db.files - {f};
    if GoodFile(Contents(db, env), db, env, recs, f, data) {
      if NoneRetired(db) {
        SizedNoneRetired(db, mid, env);
        ReadyKeepsNoneRetired(mid, db', env, f, 0, hs, recs);
      }
    } else {
      var j :| 0 <= j < |hs| && !Ready(mid, recs, hs[j]);
      TotalsOf(db', env);
      UnreadyIsBad(mid, db', env, f, hs, recs, j);
    }
    forall g | g != f && BadAt(db, g) ensures BadAt(db', g) {
      BadStays(db, mid, f, g);
      BadStays(mid, db', f, g);
    }
  }

  lemma WholeHolds(mid: Db, db': Db, env: Env, f: FileId, data: bytes, recs: map<Hash, BlockLoc>)
    requires env.bs > 0 && AllKnown(env, Chunks(data, env.bs)) && f in mid.files && mid.files[f].len == |data|
    requires |Chunks(data, env.bs)| == |mid.files[f].slots|
    requires Replaced(mid, db', env, f, 0, Hashes(Chunks(data, env.bs), env), recs)
    ensures RowHolds(db', env, f, WholeOf(data, env.bs))
  {
    hide Txn, Contents, Kept, NewSlots, NewRows, Chunks, HoldsHash;
    var cs := Chunks(data, env.bs);
    forall i | 0 <= i < |cs| ensures env.known(cs[i]) && HoldsHash(db', f, i, env.hash(cs[i])) {
      assert HoldsHash(db', f, 0 + i, Hashes(cs, env)[i]);
    }
  }

  lemma TotalsOf(db: Db, env: Env)
    requires Inv(db, env)
    ensures Totals(db)
  {
  }

  lemma StageTxn(db: Db, mid: Db, db': Db, env: Env, mine: set<BlockLoc>)
    requires Txn(db, mid, env, {}) && Txn(mid, db', env, mine)
    ensures Txn(db, db', env, mine)
  {
    hide Inv;
    assert Txn(db, mid, env, mine);
    TxnTwice(db, mid, db', env, mine);
  }

  lemma SizedNoneRetired(db: Db, mid: Db, env: Env)
    requires NoneRetired(db) && Txn(db, mid, env, {})
    ensures NoneRetired(mid)
  {
    hide Inv;
    forall id | id in mid.blocks && mid.blocks[id].pack in mid.packs
      ensures mid.packs[mid.blocks[id].pack].state != Retired
    {
      assert mid.blocks[id].SameRecord(db.blocks[id]);
    }
  }

  /** Replaces one file of a batch inside the commit. */
  method PutFile(t: Tables, f: FileId, data: bytes, recs: map<Hash, BlockLoc>, env: Env)
    returns (r: Result<()>)
    requires t.Valid() && t.bs == env.bs && Inv(t.View(), env) && CollisionFree(env)
    requires RecordsFor(recs, env) && AllKnown(env, Chunks(data, env.bs))
    modifies t
    ensures t.Valid()
    ensures r.Ok? <==> FoundFile(Contents(old(t.View()), env), old(t.View()), env, recs, f, data)
    ensures r.Ok? ==> PutStage(old(t.View()), t.View(), env, recs, f, data)
  {
    ghost var db := t.View();
    hide Flat, Inv, Chunks, Hashes, Contents, Kept, FoundFile, Sized, PutStage, Replaced, RecordsFor,
         BlocksOf, Available, BlockLen, Written, PutOne, Ready, CollisionFree, AllKnown, SamePacks, SegsOk, Edits, NewSlots;
    var sized := ResizeFile(t, f, |data|, env);
    if sized.Err? { return Err(Corrupt); }
    ghost var mid := t.View();
    WholeFits(mid, env, Contents(db, env), f, data);
    var hs := Hashes(Chunks(data, env.bs), env);
    TxnSamePacks(db, mid, env, {});
    FoundIsAvailable(db, mid, env, recs, f, data, hs);
    hide Txn;
    r := PutSlots(t, f, data, hs, recs, env);
    if r.Ok? { StageDone(db, mid, t.View(), env, recs, f, data); }
  }

  /** Writes all slots of the resized file. */
  method PutSlots(t: Tables, f: FileId, data: bytes, hs: seq<Hash>, recs: map<Hash, BlockLoc>, ghost env: Env)
    returns (r: Result<()>)
    requires t.Valid() && t.bs == env.bs && Inv(t.View(), env) && RecordsFor(recs, env)
    requires f in t.View().files && t.View().files[f].len == |data| && |hs| == |t.View().files[f].slots|
    requires forall j :: 0 <= j < |hs| ==> |env.content(hs[j])| == BlockLen(|data|, env.bs, 0 + j)
    modifies t
    ensures t.Valid()
    ensures r.Ok? <==> forall j :: 0 <= j < |hs| ==> Available(old(t.View()), recs, hs[j])
    ensures r.Ok? ==> Replaced(old(t.View()), t.View(), env, f, 0, hs, recs)
  {
    hide Flat, Inv, Replaced, RecordsFor, Available, BlockLen;
    r := ReplaceSlots(t, f, |data|, 0, hs, recs, env);
  }

  // ---- The whole batch ----

  predicate Distinct(files: Batch) {
    forall a, b :: 0 <= a < b < |files| ==> files[a].0 != files[b].0
  }

  /** The checks before anything is written: lengths fit and no file is listed twice. */
  method CheckBatch(files: Batch, bs: nat) returns (r: Result<()>)
    requires bs > 0
    ensures r.Ok? <==> Distinct(files) && forall k :: 0 <= k < |files| ==> LenFits(|files[k].1|, bs)
  {
    hide LenFits;
    var seen: set<FileId> := {};
    for k := 0 to |files|
      invariant forall i :: 0 <= i < k ==> LenFits(|files[i].1|, bs)
      invariant forall a, b :: 0 <= a < b < k ==> files[a].0 != files[b].0
      invariant seen == set i | 0 <= i < k :: files[i].0
    {
      if !LenFits(|files[k].1|, bs) { return Err(OutOfRange); }
      if files[k].0 in seen {
        var a :| 0 <= a < k && files[a].0 == files[k].0;
        return Err(Config);
      }
      seen := seen + {files[k].0};
    }
    return Ok(());
  }

  /** The first `k` files are good, each in the store the files before it leave. */
  ghost predicate GoodUpTo(db: Db, env: Env, recs: map<Hash, BlockLoc>, files: Batch, k: nat)
    requires env.bs > 0 && k <= |files|
  {
    forall i :: 0 <= i < k ==>
      GoodFile(PutAll(Contents(db, env), files[..i], env.bs), db, env, recs, files[i].0, files[i].1)
  }

  /** No dedup hit of the batch loses its last reference before it is used. The condition speaks of
      the store, the records and the batch before the commit only. */
  ghost predicate GoodBatch(db: Db, env: Env, recs: map<Hash, BlockLoc>, files: Batch)
    requires env.bs > 0
  {
    GoodUpTo(db, env, recs, files, |files|)
  }

  /** Every block the batch needs is cached when its file's turn comes, or has a record in a registered
      pack. */
  ghost predicate FoundBatch(db: Db, env: Env, recs: map<Hash, BlockLoc>, files: Batch)
    requires env.bs > 0
  {
    FoundUpTo(db, env, recs, files, |files|)
  }

  ghost predicate FoundUpTo(db: Db, env: Env, recs: map<Hash, BlockLoc>, files: Batch, k: nat)
    requires env.bs > 0 && k <= |files|
  {
    GoodUpTo(Unretired(db), env, recs, files, k)
  }

  /** Where the batch stands after `k` files. */
  ghost predicate BatchAt(db: Db, now: Db, env: Env, recs: map<Hash, BlockLoc>, files: Batch, k: nat)
    requires env.bs > 0 && k <= |files|
  {
    && Txn(db, now, env, recs.Values)
    && Contents(now, env) == PutAll(Contents(db, env), files[..k], env.bs)
    && (GoodUpTo(db, env, recs, files, k) && NoneRetired(db) ==> NoneRetired(now))
    && (!GoodUpTo(db, env, recs, files, k) ==> exists i :: 0 <= i < k && BadAt(now, files[i].0))
    && FoundUpTo(db, env, recs, files, k) && RowsAt(db, now, env, files, k)
  }

  /** The rows after `k` files: theirs hold their contents, the others' are untouched. */
  ghost predicate RowsAt(db: Db, now: Db, env: Env, files: Batch, k: nat)
    requires env.bs > 0 && k <= |files|
  {
    && Kept(db, now) && NewSlots(db, now) && OthersSame(db, now, Names(files, k))
    && forall i :: 0 <= i < k ==> RowHolds(now, env, files[i].0, WholeOf(files[i].1, env.bs))
  }

  function Names(files: Batch, k: nat): set<FileId>
    requires k <= |files|
  {
    set i | 0 <= i < k :: files[i].0
  }

  /** A row stays whole when another file is edited. */
  lemma RowStays(now: Db, now': Db, env: Env, f: FileId, g: FileId, c: FileContent)
    requires Ids(now) && Kept(now, now') && now'.files - {f} == now.files - {f} && g != f && RowHolds(now, env, g, c)
    ensures RowHolds(now', env, g, c)
  {
    assert g in now.files - {f} && g in now'.files - {f};
    assert (now'.files - {f})[g] == now'.files[g] && (now.files - {f})[g] == now.files[g];
    forall i | 0 <= i < |c.blocks| ensures HoldsHash(now', g, i, env.hash(c.blocks[i].value)) {
      assert HoldsHash(now, g, i, env.hash(c.blocks[i].value));
      assert Referenced(now'.files, now'.files[g].slots[i]);
    }
  }

  lemma OthersMore(db: Db, now: Db, now': Db, files: Batch, k: nat)
    requires k < |files| && OthersSame(db, now, Names(files, k)) && now'.files - {files[k].0} == now.files - {files[k].0}
    ensures OthersSame(db, now', Names(files, k + 1))
  {
    var f := files[k].0;
    forall g | g !in Names(files, k + 1)
      ensures (g in now'.files <==> g in db.files) && (g in db.files ==> now'.files[g] == db.files[g])
    {
      assert g !in Names(files, k) && g != f;
      assert g in now'.files - {f} <==> g in now'.files;
      assert g in now.files - {f} <==> g in now.files;
      if g in now.files { assert (now'.files - {f})[g] == now'.files[g] && (now.files - {f})[g] == now.files[g]; }
    }
  }

  lemma RowsStep(db: Db, now: Db, now': Db, env: Env, files: Batch, k: nat)
    requires env.bs > 0 && k < |files| && Distinct(files) && Ids(db) && Ids(now) && RowsAt(db, now, env, files, k)
    requires Kept(now, now') && NewSlots(now, now') && now'.files - {files[k].0} == now.files - {files[k].0}
    requires RowHolds(now', env, files[k].0, WholeOf(files[k].1, env.bs))
    ensures RowsAt(db, now', env, files, k + 1)
  {
    hide Kept, NewSlots, RowHolds, WholeOf, Ids, OthersSame, Names;
    KeptTwice(db, now, now');
    OthersMore(db, now, now', files, k);
    forall i | 0 <= i < k + 1 ensures RowHolds(now', env, files[i].0, WholeOf(files[i].1, env.bs)) {
      if i < k { RowStays(now, now', env, files[k].0, files[i].0, WholeOf(files[i].1, env.bs)); }
    }
  }

  /** The batch as an operation of the store. */
  function BatchOp(files: Batch, bs: nat): Op
    requires bs > 0
  {
    OpReplace(seq(|files|, i requires 0 <= i < |files| => (files[i].0, WholeOf(files[i].1, bs))))
  }

  lemma RowsEdit(db: Db, now: Db, env: Env, files: Batch)
    requires env.bs > 0 && Distinct(files) && RowsAt(db, now, env, files, |files|)
    ensures Edits(BatchOp(files, env.bs), db, now, env)
  {
    hide Kept, NewSlots, RowHolds, WholeOf;
    var op := BatchOp(files, env.bs).files;
    assert (set k | 0 <= k < |op| :: op[k].0) == Names(files, |files|) by {
      forall k | 0 <= k < |op| ensures op[k].0 == files[k].0 { }
      forall g | g in Names(files, |files|) ensures g in (set k | 0 <= k < |op| :: op[k].0) {
        var i :| 0 <= i < |files| && files[i].0 == g;
        assert op[i].0 == g;
      }
    }
  }

  lemma GoodFileSame(s: Store, db: Db, db': Db, env: Env, recs: map<Hash, BlockLoc>, f: FileId, data: bytes)
    requires SamePacks(db, db') && env.bs > 0
    ensures GoodFile(s, db, env, recs, f, data) <==> GoodFile(s, db', env, recs, f, data)
  {
    var m := Sized(s, f, |data|, env.bs);
    hide Chunks, StoredIn, Sized;
    forall c: bytes ensures GoodBlock(m, db, env, recs, c) <==> GoodBlock(m, db', env, recs, c) {}
  }

  lemma GoodOneMore(db: Db, env: Env, recs: map<Hash, BlockLoc>, files: Batch, k: nat)
    requires env.bs > 0 && k < |files|
    ensures GoodUpTo(db, env, recs, files, k + 1) <==>
            && GoodUpTo(db, env, recs, files, k)
            && GoodFile(PutAll(Contents(db, env), files[..k], env.bs), db, env, recs, files[k].0, files[k].1)
  {
    hide GoodFile, PutAll, Contents;
  }

  lemma FoundOneMore(db: Db, now: Db, env: Env, recs: map<Hash, BlockLoc>, files: Batch, k: nat)
    requires env.bs > 0 && k < |files| && SamePacks(db, now)
    requires Contents(now, env) == PutAll(Contents(db, env), files[..k], env.bs)
    ensures FoundUpTo(db, env, recs, files, k + 1) <==>
            && FoundUpTo(db, env, recs, files, k)
            && FoundFile(Contents(now, env), now, env, recs, files[k].0, files[k].1)
  {
    hide GoodFile, Contents, PutAll, GoodUpTo;
    UnretiredSame(db, env);
    GoodOneMore(Unretired(db), env, recs, files, k);
    GoodFileSame(Contents(now, env), Unretired(db), Unretired(now), env, recs, files[k].0, files[k].1);
  }

  lemma BatchStep(db: Db, now: Db, now': Db, env: Env, recs: map<Hash, BlockLoc>, files: Batch, k: nat)
    requires env.bs > 0 && k < |files| && Distinct(files)
    requires Ids(db) && BatchAt(db, now, env, recs, files, k)
    requires PutStage(now, now', env, recs, files[k].0, files[k].1)
    requires FoundFile(Contents(now, env), now, env, recs, files[k].0, files[k].1)
    ensures BatchAt(db, now', env, recs, files, k + 1)
  {
    hide GoodFile, FoundFile, FoundUpTo, Contents, BadAt, NoneRetired, Txn, GoodUpTo, PutOne, SamePacks, RowsAt,
         Kept, NewSlots, RowHolds, Ids, Inv,
         WholeOf;
    var s := PutAll(Contents(db, env), files[..k], env.bs);
    GoodOneMore(db, env, recs, files, k);
    TxnSamePacks(db, now, env, recs.Values);
    GoodFileSame(s, db, now, env, recs, files[k].0, files[k].1);
    TxnTwice(db, now, now', env, recs.Values);
    assert Ids(now) by { InvParts(now, env); }
    RowsStep(db, now, now', env, files, k);
    FoundOneMore(db, now, env, recs, files, k);
    assert files[..k + 1][..k] == files[..k];
    if !GoodUpTo(db, env, recs, files, k) {
      var i :| 0 <= i < k && BadAt(now, files[i].0);
      assert BadAt(now', files[i].0);
    }
  }

  lemma TxnSamePacks(db: Db, db': Db, env: Env, mine: set<BlockLoc>)
    requires Txn(db, db', env, mine)
    ensures SamePacks(db, db') && Inv(db', env)
  {
  }

  lemma BatchStart(db: Db, env: Env, recs: map<Hash, BlockLoc>, files: Batch)
    requires Inv(db, env) && env.bs > 0
    ensures BatchAt(db, db, env, recs, files, 0)
  {
    InvParts(db, env);
    hide Inv, Kept, NewSlots;
    NewSlotsNone(db);
  }

  /** At the end of the batch no block lies in a retired pack exactly if the batch was good. */
  lemma BatchEnd(db: Db, now: Db, env: Env, recs: map<Hash, BlockLoc>, files: Batch)
    requires env.bs > 0 && BatchAt(db, now, env, recs, files, |files|) && NoneRetired(db)
    ensures NoneRetired(now) <==> GoodBatch(db, env, recs, files)
  {
    if !GoodBatch(db, env, recs, files) {
      var i :| 0 <= i < |files| && BadAt(now, files[i].0);
      BadIsRetired(now, files[i].0);
    }
  }

  /** A file that fails shows the batch was not good. */
  lemma BatchFails(db: Db, now: Db, env: Env, recs: map<Hash, BlockLoc>, files: Batch, k: nat)
    requires env.bs > 0 && k < |files| && BatchAt(db, now, env, recs, files, k)
    requires !FoundFile(Contents(now, env), now, env, recs, files[k].0, files[k].1)
    ensures !FoundBatch(db, env, recs, files) && !GoodBatch(db, env, recs, files)
  {
    hide GoodFile, FoundFile, Contents, PutAll, Txn, SamePacks, NoneRetired, BadAt, RowsAt;
    TxnSamePacks(db, now, env, recs.Values);
    FoundOneMore(db, now, env, recs, files, k);
    GoodIsFound(db, env, recs, files);
  }

  /** A good batch is found. */
  lemma GoodIsFound(db: Db, env: Env, recs: map<Hash, BlockLoc>, files: Batch)
    requires env.bs > 0
    ensures GoodBatch(db, env, recs, files) ==> FoundBatch(db, env, recs, files)
  {
    hide Contents, PutAll, Sized, StoredIn, Chunks;
    UnretiredSame(db, env);
    if GoodBatch(db, env, recs, files) {
      forall i | 0 <= i < |files|
        ensures GoodFile(PutAll(Contents(db, env), files[..i], env.bs), Unretired(db), env, recs, files[i].0, files[i].1)
      {
        assert GoodFile(PutAll(Contents(db, env), files[..i], env.bs), db, env, recs, files[i].0, files[i].1);
      }
    }
  }

  function AllBlocks(files: Batch, bs: nat): seq<bytes>
    requires bs > 0
  {
    if files == [] then []
    else AllBlocks(files[..|files| - 1], bs) + Chunks(files[|files| - 1].1, bs)
  }

  /** The commit of `put_files`. `Ok(Some(missing))` asks to append those records and retry; nothing
      was changed then. An error, like a panic, aborts the transaction. */
  method PutFiles(t: Tables, files: Batch, recs: map<Hash, BlockLoc>, env: Env)
    returns (r: Result<Option<seq<nat>>>)
    requires t.Valid() && t.bs == env.bs && Inv(t.View(), env) && CollisionFree(env)
    requires RecordsFor(recs, env) && Distinct(files)
    requires forall k :: 0 <= k < |files| ==> AllKnown(env, Chunks(files[k].1, env.bs))
    modifies t
    ensures t.Valid()
    ensures r.Ok? && r.value.Some? ==>
              && t.View() == old(t.View())
              && MissingAre(old(t.View()), recs, Hashes(AllBlocks(files, env.bs), env), r.value.value)
    ensures r.Ok? && r.value.None? ==>
              && Txn(old(t.View()), t.View(), env, recs.Values)
              && Contents(t.View(), env) == PutAll(Contents(old(t.View()), env), files, env.bs)
              && Edits(BatchOp(files, env.bs), old(t.View()), t.View(), env)
              && AllReady(old(t.View()), env, recs, files)
    ensures r.Ok? && r.value.None? <==>
            AllReady(old(t.View()), env, recs, files) && FoundBatch(old(t.View()), env, recs, files)
    ensures r.Err? ==> AllReady(old(t.View()), env, recs, files)
    ensures NoneRetired(old(t.View())) && AllReady(old(t.View()), env, recs, files) ==>
              (r.Ok? && r.value.None? && NoneRetired(t.View()) <==> GoodBatch(old(t.View()), env, recs, files))
  {
    hide Flat, Core, Acct, AllCounted, RecordsFor, AllBlocks, Ready, Contents, BatchAt, PutStage,
         NoneRetired, GoodBatch, GoodFile, FoundBatch, FoundFile, CollisionFree, AllKnown, PutAll, Txn, Distinct,
         Edits, BatchOp, Ids;
    ghost var db := t.View();
    InvParts(db, env);
    var blocks := AllBlocks(files, env.bs);
    var hashes := Hashes(blocks, env);
    var missing := MissingRecords(t, hashes, recs);
    if missing != [] {
      assert missing[0] in missing;
      assert blocks[missing[0]] in blocks && hashes[missing[0]] == env.hash(blocks[missing[0]]);
      assert !AllReady(db, env, recs, files);
      return Ok(Some(missing));
    }
    assert AllReady(db, env, recs, files) by {
      forall c | c in blocks ensures Ready(db, recs, env.hash(c)) {
        var i :| 0 <= i < |blocks| && blocks[i] == c;
        assert hashes[i] == env.hash(c) && i !in missing;
      }
    }
    hide AllReady;
    BatchStart(db, env, recs, files);
    for k := 0 to |files|
      invariant t.Valid() && Inv(t.View(), env)
      invariant BatchAt(db, t.View(), env, recs, files, k)
    {
      ghost var now := t.View();
      var put := PutFile(t, files[k].0, files[k].1, recs, env);
      if put.Err? {
        BatchFails(db, now, env, recs, files, k);
        return Err(put.error);
      }
      BatchStep(db, now, t.View(), env, recs, files, k);
      BatchInv(db, t.View(), env, recs, files, k + 1);
    }
    assert files[..|files|] == files;
    BatchSays(db, t.View(), env, recs, files);
    if NoneRetired(db) { BatchEnd(db, t.View(), env, recs, files); }
    return Ok(None);
  }

  /** `put_files` as one index transaction: all of the batch, or nothing. */
  method PutFilesCommit(t: Tables, files: Batch, recs: map<Hash, BlockLoc>, env: Env)
    returns (r: Result<Option<seq<nat>>>)
    requires t.Valid() && t.bs == env.bs && Inv(t.View(), env) && CollisionFree(env)
    requires RecordsFor(recs, env) && Distinct(files)
    requires forall k :: 0 <= k < |files| ==> AllKnown(env, Chunks(files[k].1, env.bs))
    modifies t
    ensures t.Valid() && Inv(t.View(), env)
    ensures r.Err? || r.value.Some? ==> t.View() == old(t.View())
    ensures r.Err? ==> AllReady(old(t.View()), env, recs, files)
    ensures r.Ok? && r.value.Some? ==>
              MissingAre(old(t.View()), recs, Hashes(AllBlocks(files, env.bs), env), r.value.value)
    ensures r.Ok? && r.value.None? ==>
              && Txn(old(t.View()), t.View(), env, recs.Values)
              && Contents(t.View(), env) == PutAll(Contents(old(t.View()), env), files, env.bs)
              && Edits(BatchOp(files, env.bs), old(t.View()), t.View(), env)
              && AllReady(old(t.View()), env, recs, files)
    ensures r.Ok? && r.value.None? <==>
            AllReady(old(t.View()), env, recs, files) && FoundBatch(old(t.View()), env, recs, files)
    ensures NoneRetired(old(t.View())) && GoodBatch(old(t.View()), env, recs, files) ==> NoneRetired(t.View())
    ensures NoneRetired(old(t.View())) && AllReady(old(t.View()), env, recs, files) ==>
              (r.Ok? && r.value.None? && NoneRetired(t.View()) <==> GoodBatch(old(t.View()), env, recs, files))
  {
    hide Flat, Core, Acct, AllCounted, RecordsFor, AllBlocks, Ready, Contents, BatchAt, PutStage,
         NoneRetired, GoodBatch, GoodFile, FoundBatch, CollisionFree, AllKnown, PutAll, Distinct, Edits, BatchOp;
    var before := t.State();
    r := PutFiles(t, files, recs, env);
    if r.Err? { t.Abort(before); }
  }

  ghost predicate AllReady(db: Db, env: Env, recs: map<Hash, BlockLoc>, files: Batch)
    requires env.bs > 0
  {
    forall c :: c in AllBlocks(files, env.bs) ==> Ready(db, recs, env.hash(c))
  }

  lemma BatchInv(db: Db, now: Db, env: Env, recs: map<Hash, BlockLoc>, files: Batch, k: nat)
    requires env.bs > 0 && k <= |files| && BatchAt(db, now, env, recs, files, k)
    ensures Inv(now, env)
  {
  }

  lemma BatchSays(db: Db, now: Db, env: Env, recs: map<Hash, BlockLoc>, files: Batch)
    requires env.bs > 0 && BatchAt(db, now, env, recs, files, |files|)
    ensures Txn(db, now, env, recs.Values)
    ensures Contents(now, env) == PutAll(Contents(db, env), files, env.bs)
    ensures Distinct(files) ==> Edits(BatchOp(files, env.bs), db, now, env)
    ensures FoundBatch(db, env, recs, files)
  {
    hide FoundUpTo, Edits, BatchOp, RowsAt;
    assert files[..|files|] == files;
    if Distinct(files) { RowsEdit(db, now, env, files); }
  }
}
