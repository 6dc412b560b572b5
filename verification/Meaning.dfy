/** What the index means: a plain map from file to length and partial block contents. */
module Meaning {
  import opened Base
  import opened Manifest
  import opened Ledger
  import opened Segments

  /** A stored file: its length and, per block, its content if cached. */
  datatype FileContent = FileContent(len: nat, blocks: seq<Option<bytes>>)
  type Store = map<FileId, FileContent>

  ghost function SlotContent(blocks: map<nat, BlockLoc>, env: Env, id: nat): Option<bytes> {
    if id in blocks then Some(env.content(blocks[id].hash)) else None
  }

  ghost function RowContent(row: FileRow, blocks: map<nat, BlockLoc>, env: Env): FileContent {
    FileContent(row.len,
                seq(|row.slots|, i requires 0 <= i < |row.slots| =>
                  SlotContent(blocks, env, row.slots[i])))
  }

  ghost function Contents(db: Db, env: Env): Store {
    map f | f in db.files :: RowContent(db.files[f], db.blocks, env)
  }

  // ---- The plain store's operations ----

  function Somes(data: seq<bytes>): seq<Option<bytes>> {
    seq(|data|, j requires 0 <= j < |data| => Some(data[j]))
  }

  function Written(s: Store, f: FileId, first: nat, data: seq<bytes>): Store
    requires f in s && first + |data| <= |s[f].blocks|
  {
    s[f := s[f].(blocks := Spliced(s[f].blocks, first, Somes(data)))]
  }

  function Sized(s: Store, f: FileId, len: nat, bs: nat): Store
    requires bs > 0
  {
    var was := if f in s then s[f] else FileContent(0, []);
    s[f := FileContent(len, Resized(was.blocks, was.len, len, bs, None))]
  }

  function AllReplaced(s: Store, files: seq<(FileId, FileContent)>): Store {
    if files == [] then s
    else
      var n := |files| - 1;
      AllReplaced(s, files[..n])[files[n].0 := files[n].1]
  }

  /** The operations of the plain store. */
  datatype Op =
    | OpSetLen(f: FileId, len: nat) | OpDelete(f: FileId) | OpWrite(f: FileId, first: nat, data: seq<bytes>)
    | OpReplace(files: seq<(FileId, FileContent)>)

  ghost predicate Applies(op: Op, was: Store, now: Store, bs: nat) {
    match op
    case OpSetLen(f, len) => bs > 0 && now == Sized(was, f, len, bs)
    case OpDelete(f) => f in was && now == was - {f}
    case OpWrite(f, first, data) =>
      f in was && first + |data| <= |was[f].blocks| && now == Written(was, f, first, data)
    case OpReplace(files) => now == AllReplaced(was, files)
  }

  // ---- The operations on the rows ----

  /** Slot `i` of `f` holds a block with hash `h`. */
  ghost predicate HoldsHash(db: Db, f: FileId, i: nat, h: Hash) {
    && f in db.files && i < |db.files[f].slots|
    && db.files[f].slots[i] in db.blocks && db.blocks[db.files[f].slots[i]].hash == h
  }

  /** No file but `f`, and of it no slot but those from `first` on, `n` of them, is touched. */
  ghost predicate OnlySlots(db: Db, db': Db, f: FileId, first: nat, n: nat) {
    && f in db.files && f in db'.files && db'.files - {f} == db.files - {f}
    && db'.files[f].len == db.files[f].len && |db'.files[f].slots| == |db.files[f].slots|
    && first + n <= |db'.files[f].slots|
    && forall i :: 0 <= i < |db'.files[f].slots| && !(first <= i < first + n) ==>
         db'.files[f].slots[i] == db.files[f].slots[i]
  }

  /** The row of `f` is whole and holds the blocks of `c`. */
  ghost predicate RowHolds(db: Db, env: Env, f: FileId, c: FileContent) {
    && f in db.files && db.files[f].len == c.len && |db.files[f].slots| == |c.blocks|
    && forall i :: 0 <= i < |c.blocks| ==>
         c.blocks[i].Some? && env.known(c.blocks[i].value) && HoldsHash(db, f, i, env.hash(c.blocks[i].value))
  }

  predicate DistinctNames(files: seq<(FileId, FileContent)>) {
    forall a, b :: 0 <= a < b < |files| ==> files[a].0 != files[b].0
  }

  /** Files that are not in the list keep their rows. */
  ghost predicate OthersSame(db: Db, db': Db, names: set<FileId>) {
    forall g :: g !in names ==> (g in db'.files <==> g in db.files) && (g in db.files ==> db'.files[g] == db.files[g])
  }

  /** What the transaction of an operation leaves in the rows; blocks go by their hashes. */
  ghost predicate Edits(op: Op, db: Db, db': Db, env: Env) {
    && env.bs > 0 && Kept(db, db')
    && match op
       case OpSetLen(f, len) =>
         var row := if f in db.files then db.files[f] else FileRow(0, []);
         db'.files == db.files[f := FileRow(len, Resized(row.slots, row.len, len, env.bs, MISSING))]
       case OpDelete(f) => f in db.files && db'.files == db.files - {f}
       case OpWrite(f, first, data) =>
         && OnlySlots(db, db', f, first, |data|)
         && forall j :: 0 <= j < |data| ==> env.known(data[j]) && HoldsHash(db', f, first + j, env.hash(data[j]))
       case OpReplace(files) =>
         && DistinctNames(files) && OthersSame(db, db', set k | 0 <= k < |files| :: files[k].0)
         && forall k :: 0 <= k < |files| ==> RowHolds(db', env, files[k].0, files[k].1)
  }

  /** No slot refers to a block that was there and that no slot referred to. */
  ghost predicate NewSlots(db: Db, db': Db) {
    forall g, i :: g in db'.files && 0 <= i < |db'.files[g].slots| ==> SlotFrom(db, db', db'.files[g].slots[i])
  }

  ghost predicate SlotFrom(db: Db, db': Db, id: nat) {
    id == MISSING || Referenced(db.files, id) || id in db'.blocks
  }

  // ---- From index rows to contents ----

  /** A row of `db` lives on in `db'` exactly if a slot of `db'` refers to it; ids that `db` had
      given out are not given to other content. */
  ghost predicate Kept(db: Db, db': Db) {
    && db.nextBlock <= db'.nextBlock
    && (forall id :: id in db'.blocks && id < db.nextBlock ==>
                       id in db.blocks && db'.blocks[id].SameRecord(db.blocks[id]))
    && (forall id :: id in db.blocks && Referenced(db'.files, id) ==> id in db'.blocks)
  }

  lemma KeptSlot(db: Db, db': Db, env: Env, id: nat)
    requires Kept(db, db') && id < db.nextBlock && Referenced(db'.files, id)
    ensures SlotContent(db'.blocks, env, id) == SlotContent(db.blocks, env, id)
  {
  }

  /** A file whose slots are untouched keeps its content, whatever blocks it shares. */
  lemma KeptRow(db: Db, db': Db, env: Env, f: FileId)
    requires Ids(db) && Kept(db, db') && f in db.files && f in db'.files
    requires db'.files[f] == db.files[f]
    ensures RowContent(db'.files[f], db'.blocks, env) == RowContent(db.files[f], db.blocks, env)
  {
    var slots := db.files[f].slots;
    forall i | 0 <= i < |slots|
      ensures SlotContent(db'.blocks, env, slots[i]) == SlotContent(db.blocks, env, slots[i])
    {
      KeptSlot(db, db', env, slots[i]);
    }
  }

  /** When only the rows of `f` change, the contents differ at `f` only. */
  lemma OnlyFileContents(db: Db, db': Db, env: Env, f: FileId)
    requires Ids(db) && Kept(db, db') && db'.files - {f} == db.files - {f}
    ensures Contents(db', env) - {f} == Contents(db, env) - {f}
    ensures f in db'.files <==> f in Contents(db', env)
    ensures f in db'.files ==> Contents(db', env)[f] == RowContent(db'.files[f], db'.blocks, env)
  {
    hide RowContent;
    forall g | g in db.files && g != f
      ensures g in db'.files
      ensures RowContent(db'.files[g], db'.blocks, env) == RowContent(db.files[g], db.blocks, env)
    {
      assert g in db.files - {f};
      assert g in db'.files - {f} && db'.files[g] == (db'.files - {f})[g];
      KeptRow(db, db', env, g);
    }
    forall g | g in db'.files && g != f ensures g in db.files {
      assert g in db'.files - {f};
    }
  }

  lemma WrittenContents(db: Db, db': Db, env: Env, f: FileId, first: nat, ids: seq<nat>, data: seq<bytes>)
    requires Ids(db) && Kept(db, db') && f in db.files && |data| == |ids|
    requires first + |ids| <= |db.files[f].slots|
    requires db'.files == db.files[
               f := db.files[f].(slots := Spliced(db.files[f].slots, first, ids))]
    requires forall j :: 0 <= j < |ids| ==>
               ids[j] in db'.blocks && env.content(db'.blocks[ids[j]].hash) == data[j]
    ensures Contents(db', env) == Written(Contents(db, env), f, first, data)
  {
    OnlyFileContents(db, db', env, f);
    var was, now := db.files[f].slots, db'.files[f].slots;
    var a := RowContent(db'.files[f], db'.blocks, env).blocks;
    var b := Spliced(RowContent(db.files[f], db.blocks, env).blocks, first, Somes(data));
    forall i | 0 <= i < |a| ensures a[i] == b[i] {
      if first <= i < first + |ids| {
        assert now[i] == ids[i - first];
      } else {
        assert now[i] == was[i];
        KeptSlot(db, db', env, was[i]);
      }
    }
    ContentsFrom(db, db', env, f, Written(Contents(db, env), f, first, data));
  }

  /** Equal apart from `f`, and equal at `f`. */
  lemma ContentsFrom(db: Db, db': Db, env: Env, f: FileId, s: Store)
    requires f in db'.files && f in s && Contents(db', env)[f] == s[f]
    requires Contents(db', env) - {f} == s - {f}
    ensures Contents(db', env) == s
  {
    var a := Contents(db', env);
    forall g | g in a || g in s ensures g in a && g in s && a[g] == s[g] {
      if g != f {
        assert g in a - {f} <==> g in a;
        assert g in s - {f} <==> g in s;
        assert (a - {f})[g] == a[g] && (s - {f})[g] == s[g];
      }
    }
  }

  lemma SizedContents(db: Db, db': Db, env: Env, f: FileId, len: nat)
    requires Ids(db) && Ids(db') && Kept(db, db') && env.bs > 0
    requires var row := if f in db.files then db.files[f] else FileRow(0, []);
             db'.files == db.files[
               f := FileRow(len, Resized(row.slots, row.len, len, env.bs, MISSING))]
    ensures Contents(db', env) == Sized(Contents(db, env), f, len, env.bs)
  {
    hide BlockCount, DivCeil, BlockLen;
    OnlyFileContents(db, db', env, f);
    var row := if f in db.files then db.files[f] else FileRow(0, []);
    var a := RowContent(db'.files[f], db'.blocks, env).blocks;
    var b := Resized(RowContent(row, db.blocks, env).blocks, row.len, len, env.bs, None);
    forall i | 0 <= i < |a| ensures a[i] == b[i] {
      var id := db'.files[f].slots[i];
      if id != MISSING {
        assert i < |row.slots| && id == row.slots[i];
        KeptSlot(db, db', env, id);
      } else if i < |row.slots| && row.slots[i] == id {
        assert id !in db.blocks && id !in db'.blocks;
      }
    }
    assert Contents(db', env)[f] == FileContent(len, b);
    ContentsFrom(db, db', env, f, Sized(Contents(db, env), f, len, env.bs));
  }

  lemma DeletedContents(db: Db, db': Db, env: Env, f: FileId)
    requires Ids(db) && Kept(db, db') && db'.files == db.files - {f}
    ensures Contents(db', env) == Contents(db, env) - {f}
  {
    OnlyFileContents(db, db', env, f);
    assert f !in Contents(db', env);
  }

  // ---- The rows of an operation mean the plain operation ----

  lemma HoldsContent(db: Db, env: Env, f: FileId, i: nat, c: bytes)
    requires CollisionFree(env) && env.known(c) && HoldsHash(db, f, i, env.hash(c))
    ensures RowContent(db.files[f], db.blocks, env).blocks[i] == Some(c)
  {
  }

  lemma WriteMeans(db: Db, db': Db, env: Env, f: FileId, first: nat, data: seq<bytes>)
    requires Ids(db) && CollisionFree(env) && Kept(db, db') && OnlySlots(db, db', f, first, |data|)
    requires forall j :: 0 <= j < |data| ==> env.known(data[j]) && HoldsHash(db', f, first + j, env.hash(data[j]))
    ensures Applies(OpWrite(f, first, data), Contents(db, env), Contents(db', env), env.bs)
  {
    var ids := seq(|data|, j requires 0 <= j < |data| => db'.files[f].slots[first + j]);
    assert db'.files[f].slots == Spliced(db.files[f].slots, first, ids);
    assert db'.files == db.files[f := db.files[f].(slots := Spliced(db.files[f].slots, first, ids))] by {
      OneRow(db.files, db'.files, f);
    }
    forall j | 0 <= j < |ids| ensures ids[j] in db'.blocks && env.content(db'.blocks[ids[j]].hash) == data[j] {
      assert HoldsHash(db', f, first + j, env.hash(data[j]));
    }
    hide Kept, Spliced, Written;
    WrittenContents(db, db', env, f, first, ids, data);
  }

  lemma OneRow(a: map<FileId, FileRow>, b: map<FileId, FileRow>, f: FileId)
    requires f in b && b - {f} == a - {f}
    ensures b == a[f := b[f]]
  {
    forall g | g != f ensures (g in b <==> g in a) && (g in a ==> b[g] == a[g]) {
      assert g in b - {f} <==> g in b;
      assert g in a - {f} <==> g in a;
      if g in a { assert (b - {f})[g] == b[g] && (a - {f})[g] == a[g]; }
    }
  }

  /** What replacing distinct files makes of the plain store. */
  lemma {:induction false} ReplacedAt(s: Store, files: seq<(FileId, FileContent)>, g: FileId)
    requires DistinctNames(files)
    ensures (forall k :: 0 <= k < |files| ==> files[k].0 != g) ==>
              (g in AllReplaced(s, files) <==> g in s) && (g in s ==> AllReplaced(s, files)[g] == s[g])
    ensures forall k :: 0 <= k < |files| && files[k].0 == g ==>
              g in AllReplaced(s, files) && AllReplaced(s, files)[g] == files[k].1
  {
    if files != [] {
      var n := |files| - 1;
      ReplacedAt(s, files[..n], g);
      forall k | 0 <= k < |files| && files[k].0 == g
        ensures g in AllReplaced(s, files) && AllReplaced(s, files)[g] == files[k].1
      {
        if k < n { assert files[..n][k].0 == g; }
      }
    }
  }

  lemma RowMeans(db: Db, env: Env, f: FileId, c: FileContent)
    requires CollisionFree(env) && RowHolds(db, env, f, c)
    ensures RowContent(db.files[f], db.blocks, env) == c
  {
    var got := RowContent(db.files[f], db.blocks, env);
    forall i | 0 <= i < |c.blocks| ensures got.blocks[i] == c.blocks[i] {
      HoldsContent(db, env, f, i, c.blocks[i].value);
    }
  }

  lemma ReplaceMeans(db: Db, db': Db, env: Env, files: seq<(FileId, FileContent)>)
    requires Ids(db) && CollisionFree(env) && Edits(OpReplace(files), db, db', env)
    ensures Applies(OpReplace(files), Contents(db, env), Contents(db', env), env.bs)
  {
    hide Kept, RowContent, RowHolds, Ids;
    var was, now := Contents(db, env), Contents(db', env);
    var all := AllReplaced(was, files);
    hide AllReplaced;
    forall g ensures (g in now <==> g in all) && (g in now ==> now[g] == all[g]) {
      ReplacedAt(was, files, g);
      if k :| 0 <= k < |files| && files[k].0 == g {
        assert RowHolds(db', env, g, files[k].1);
        RowIn(db', env, g, files[k].1);
        RowMeans(db', env, g, files[k].1);
      } else {
        if g in db.files { KeptRow(db, db', env, g); }
      }
    }
  }

  lemma RowIn(db: Db, env: Env, f: FileId, c: FileContent)
    requires RowHolds(db, env, f, c)
    ensures f in db.files
  {
  }

  /** The transaction of an operation has the meaning of the operation on the plain store, whatever blocks
      the files share. */
  lemma EditsMean(op: Op, db: Db, db': Db, env: Env)
    requires Ids(db) && Ids(db') && CollisionFree(env) && Edits(op, db, db', env)
    ensures Applies(op, Contents(db, env), Contents(db', env), env.bs)
  {
    hide Contents, Ids, Resized, Kept;
    match op
    case OpSetLen(f, len) => SizedContents(db, db', env, f, len);
    case OpDelete(f) => DeletedContents(db, db', env, f); HasContents(db, env, f);
    case OpWrite(f, first, data) => WriteMeans(db, db', env, f, first, data);
    case OpReplace(files) => ReplaceMeans(db, db', env, files);
  }

  lemma HasContents(db: Db, env: Env, f: FileId)
    requires f in db.files
    ensures f in Contents(db, env)
  {
  }

  // ---- Two edits in one transaction ----

  lemma KeptTwice(a: Db, b: Db, c: Db)
    requires Ids(a) && Kept(a, b) && Kept(b, c) && NewSlots(a, b) && NewSlots(b, c)
    ensures Kept(a, c) && NewSlots(a, c)
  {
    forall g, i | g in c.files && 0 <= i < |c.files[g].slots| ensures SlotFrom(a, c, c.files[g].slots[i]) {
      var id := c.files[g].slots[i];
      assert SlotFrom(b, c, id) && Referenced(c.files, id);
      if Referenced(b.files, id) {
        var h, j :| h in b.files && 0 <= j < |b.files[h].slots| && b.files[h].slots[j] == id;
        assert SlotFrom(a, b, id);
      }
    }
    forall id | id in a.blocks && Referenced(c.files, id) ensures id in c.blocks {
      var g, i :| g in c.files && 0 <= i < |c.files[g].slots| && c.files[g].slots[i] == id;
      assert SlotFrom(b, c, id);
    }
  }

  lemma NewSlotsNone(db: Db)
    requires Ids(db)
    ensures Kept(db, db) && NewSlots(db, db)
  {
    forall g, i | g in db.files && 0 <= i < |db.files[g].slots| ensures SlotFrom(db, db, db.files[g].slots[i]) {
      assert Referenced(db.files, db.files[g].slots[i]);
    }
  }

  // ---- What a writer's commit may do to the index ----

  /** Each new row's pack takes records: it was registered and not retired when the transaction looked. */
  ghost predicate NewAccepted(db: Db, db': Db) {
    forall id :: id in db'.blocks && id !in db.blocks ==> Accepts(db, db'.blocks[id].pack)
  }

  /** The other way round, a transaction that leaves no block in a retired pack met packs that take records. */
  lemma NoneRetiredAccepted(db: Db, db': Db, env: Env, mine: set<BlockLoc>)
    requires Txn(db, db', env, mine) && NoneRetired(db')
    ensures NewAccepted(db, db')
  {
    InvParts(db', env);
    hide Inv;
  }

  /** A transaction whose new rows lie in packs that take records puts no block into a retired pack. */
  lemma AcceptedNoneRetired(db: Db, db': Db, env: Env, mine: set<BlockLoc>)
    requires Ids(db) && Txn(db, db', env, mine) && NewAccepted(db, db') && NoneRetired(db)
    ensures NoneRetired(db')
  {
    hide Inv;
    forall id | id in db'.blocks && db'.blocks[id].pack in db'.packs
      ensures db'.packs[db'.blocks[id].pack].state != Retired
    {
      if id in db.blocks && db'.blocks[id].SameRecord(db.blocks[id]) { }
      else { assert db'.blocks[id].pack in db.packs; }
    }
  }

  /** A commit by a writer that has appended the records `mine`: it keeps the invariant, the packs
      and the other metadata, and every block row is an old one or one of its own. */
  ghost predicate Txn(db: Db, db': Db, env: Env, mine: set<BlockLoc>) {
    && Inv(db', env) && SamePacks(db, db')
    && db'.nextPack == db.nextPack && db'.clean == db.clean && db.nextBlock <= db'.nextBlock
    && forall id :: id in db'.blocks ==>
         || (id in db.blocks && db'.blocks[id].SameRecord(db.blocks[id]))
         || (id >= db.nextBlock && db'.blocks[id].(refcount := 0) in mine)
  }

  lemma TxnTwice(a: Db, b: Db, c: Db, env: Env, mine: set<BlockLoc>)
    requires Txn(a, b, env, mine) && Txn(b, c, env, mine)
    ensures Txn(a, c, env, mine)
  {
    hide Inv;
    forall id | id in c.blocks
      ensures || (id in a.blocks && c.blocks[id].SameRecord(a.blocks[id]))
              || (id >= a.nextBlock && c.blocks[id].(refcount := 0) in mine)
    {
      if id in b.blocks { assert b.blocks[id].(refcount := 0) == c.blocks[id].(refcount := 0) || id >= b.nextBlock; }
    }
  }

  // ---- Editing the slots of one file ----

  /** The slots of `f`, none if it does not exist. */
  ghost function SlotsOf(files: map<FileId, FileRow>, f: FileId): seq<nat> {
    if f in files then files[f].slots else []
  }

  /** Slots that come in are to be counted up, slots that go out down. */
  lemma FilesShift(db: Db, db': Db, f: FileId, inc: multiset<nat>, dec: multiset<nat>)
    requires Ids(db) && Acct(db, multiset{}, multiset{})
    requires db' == db.(files := db'.files) && db'.files - {f} == db.files - {f}
    requires forall id :: id != MISSING ==>
               Count(SlotsOf(db'.files, f), id) + dec[id] == Count(SlotsOf(db.files, f), id) + inc[id]
    ensures Acct(db', inc, dec)
  {
    hide Refs;
    forall id | id in db.blocks
      ensures db.blocks[id].refcount + inc[id] == |Refs(db'.files, id)| + dec[id]
    {
      RefsSplit(db.files, f, id);
      RefsSplit(db'.files, f, id);
      assert Count([], id) == 0;
    }
  }

  /** Dropping unreferenced rows keeps every row that is still referred to. */
  lemma KeptFromDropped(db: Db, mid: Db, db': Db)
    requires Ids(db) && mid.blocks == db.blocks && mid.nextBlock == db.nextBlock
    requires Dropped(mid, db')
    ensures Kept(db, db')
  {
  }

  lemma TxnFromDropped(db: Db, mid: Db, db': Db, env: Env, mine: set<BlockLoc>)
    requires mid == db.(files := mid.files) && Inv(db', env) && Dropped(mid, db')
    ensures Txn(db, db', env, mine)
  {
    hide Inv;
  }

  /** A resized file's manifest still fits its blocks. */
  lemma ResizedCore(db: Db, db': Db, env: Env, f: FileId, len: nat)
    requires Core(db, env)
    requires var row := if f in db.files then db.files[f] else FileRow(0, []);
             db' == db.(files := db.files[
               f := FileRow(len, Resized(row.slots, row.len, len, env.bs, MISSING))])
    ensures Core(db', env)
  {
    hide BlockCount, DivCeil, BlockLen;
    var row := if f in db.files then db.files[f] else FileRow(0, []);
    var slots: seq<nat> := db'.files[f].slots;
    forall i | 0 <= i < |slots|
      ensures slots[i] < db.nextBlock
      ensures slots[i] in db.blocks ==> db.blocks[slots[i]].rawLen == BlockLen(len, env.bs, i)
    {
      if slots[i] != MISSING { assert i < |row.slots| && slots[i] == row.slots[i]; }
    }
  }

  lemma ResizedAcct(db: Db, db': Db, env: Env, f: FileId, len: nat)
    requires Core(db, env) && Acct(db, multiset{}, multiset{})
    requires var row := if f in db.files then db.files[f] else FileRow(0, []);
             db' == db.(files := db.files[
               f := FileRow(len, Resized(row.slots, row.len, len, env.bs, MISSING))])
    ensures var row := if f in db.files then db.files[f] else FileRow(0, []);
            Acct(db', multiset{}, multiset(Cached(DroppedSlots(row.slots, row.len, len, env.bs))))
  {
    var row := if f in db.files then db.files[f] else FileRow(0, []);
    assert |row.slots| == BlockCount(row.len, env.bs);
    var gone := DroppedSlots(row.slots, row.len, len, env.bs);
    var dec: multiset<nat> := multiset(Cached(gone));
    hide BlockCount, DivCeil, Resized, DroppedSlots, Cached;
    forall id: nat | id != MISSING
      ensures Count(SlotsOf(db'.files, f), id) + dec[id] == Count(SlotsOf(db.files, f), id)
    {
      ResizeConserves(row.slots, row.len, len, env.bs, id);
      CachedCount(gone, id);
      assert dec[id] == Count(Cached(gone), id);
    }
    FilesShift(db, db', f, multiset{}, dec);
  }

  lemma DeletedAcct(db: Db, db': Db, env: Env, f: FileId)
    requires Core(db, env) && Acct(db, multiset{}, multiset{}) && f in db.files
    requires db' == db.(files := db.files - {f})
    ensures Core(db', env) && Acct(db', multiset{}, multiset(Cached(db.files[f].slots)))
  {
    var dec: multiset<nat> := multiset(Cached(db.files[f].slots));
    assert Core(db', env);
    hide Core, Cached;
    forall id: nat | id != MISSING
      ensures Count(SlotsOf(db'.files, f), id) + dec[id] == Count(SlotsOf(db.files, f), id)
    {
      CachedCount(db.files[f].slots, id);
      assert dec[id] == Count(Cached(db.files[f].slots), id);
      assert Count([], id) == 0;
    }
    FilesShift(db, db', f, multiset{}, dec);
  }

  /** New slots in place of old ones: the new are to be counted up, the old down. */
  lemma WrittenAcct(db: Db, db': Db, f: FileId, first: nat, ids: seq<nat>)
    requires Ids(db) && Acct(db, multiset{}, multiset{}) && f in db.files
    requires first + |ids| <= |db.files[f].slots|
    requires db' == db.(files := db.files[
               f := db.files[f].(slots := Spliced(db.files[f].slots, first, ids))])
    ensures var held := db.files[f].slots[first..first + |ids|];
            Acct(db', multiset(ids), multiset(Cached(held)))
  {
    var was := db.files[f].slots;
    var held := was[first..first + |ids|];
    var inc: multiset<nat> := multiset(ids);
    var dec: multiset<nat> := multiset(Cached(held));
    forall id: nat | id != MISSING
      ensures Count(SlotsOf(db'.files, f), id) + dec[id] == Count(SlotsOf(db.files, f), id) + inc[id]
    {
      CachedCount(held, id);
      SplicedCount(was, first, ids, id);
      assert dec[id] == Count(Cached(held), id) && inc[id] == Count(ids, id);
    }
    hide Ids, Cached, Spliced;
    FilesShift(db, db', f, inc, dec);
  }

  lemma SplicedCount(was: seq<nat>, first: nat, ids: seq<nat>, id: nat)
    requires first + |ids| <= |was|
    ensures Count(Spliced(was, first, ids), id) + Count(was[first..first + |ids|], id)
            == Count(was, id) + Count(ids, id)
  {
    var a, b, c := was[..first], was[first..first + |ids|], was[first + |ids|..];
    assert was == a + b + c;
    CountAppend(a + b, c, id);
    CountAppend(a, b, id);
    CountAppend(a + ids, c, id);
    CountAppend(a, ids, id);
  }

  /** Slots written with blocks of the right length keep the manifest well-formed. */
  lemma WrittenCore(db: Db, db': Db, env: Env, f: FileId, first: nat, ids: seq<nat>)
    requires Core(db, env) && f in db.files && first + |ids| <= |db.files[f].slots|
    requires db' == db.(files := db.files[
               f := db.files[f].(slots := Spliced(db.files[f].slots, first, ids))])
    requires forall j :: 0 <= j < |ids| ==>
               && ids[j] in db.blocks
               && db.blocks[ids[j]].rawLen == BlockLen(db.files[f].len, env.bs, first + j)
    ensures Core(db', env)
  {
    hide BlockCount, DivCeil, BlockLen;
    var was, now: seq<nat> := db.files[f].slots, db'.files[f].slots;
    forall i | 0 <= i < |now|
      ensures now[i] < db.nextBlock
      ensures now[i] in db.blocks ==>
                db.blocks[now[i]].rawLen == BlockLen(db.files[f].len, env.bs, i)
    {
      if first <= i < first + |ids| {
        assert now[i] == ids[i - first];
      } else {
        assert now[i] == was[i];
      }
    }
  }
}
