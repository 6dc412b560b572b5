/** The index tables as one value, the row operations of a write transaction, and the global
    accounting invariant: refcounts, dedup rows, live bytes, ids and block lengths. */
module Ledger {
  import opened Base
  import opened Manifest

  datatype FileId = FileId(name: bytes)
  datatype Hash = Hash(digest: bytes)

  const HEADER_LEN: nat := 40

  /** Row of the `blocks` table. */
  datatype BlockLoc = BlockLoc(
    pack: nat, offset: nat, storedLen: nat, rawLen: nat, refcount: nat, hash: Hash)
  {
    function RecordLen(): nat { HEADER_LEN + storedLen }

    /** Equal up to the refcount: the same record of the same block. */
    predicate SameRecord(other: BlockLoc) { this.(refcount := 0) == other.(refcount := 0) }
  }

  datatype PackState = Active | Sealed | Retired

  /** Row of the `packs` table. */
  datatype PackInfo = PackInfo(live: nat, state: PackState)

  /** A file's manifest, its segments joined. */
  datatype FileRow = FileRow(len: nat, slots: seq<nat>)

  datatype Db = Db(
    files: map<FileId, FileRow>,
    blocks: map<nat, BlockLoc>,
    dedup: map<Hash, nat>,
    packs: map<nat, PackInfo>,
    nextBlock: nat,
    nextPack: nat,
    clean: nat)

  /** What the store is built over: its block size; the block hash, with `content` giving the block
      content of a hash and `known` the blocks that are ever stored; the checksum of stored bytes;
      and the decompressor of stored frames. */
  datatype Env = Env(
    bs: nat,
    hash: bytes -> Hash, content: Hash -> bytes, known: bytes -> bool,
    sum: bytes -> nat, unzip: bytes -> Option<bytes>)

  /** No two blocks that are ever stored have the same (16-byte) hash: `content` undoes it. */
  ghost predicate CollisionFree(env: Env) {
    env.bs > 0 && forall c: bytes :: env.known(c) ==>
      env.content(env.hash(c)) == c && |env.hash(c).digest| == 16
  }

  ghost predicate AllKnown(env: Env, blocks: seq<bytes>) {
    forall j :: 0 <= j < |blocks| ==> env.known(blocks[j])
  }

  // ---- Row operations ----

  function AddLive(db: Db, pack: nat, delta: int): Result<Db> {
    if pack !in db.packs then Err(Corrupt)
    else
      var info := db.packs[pack];
      if info.live + delta < 0 then Err(Corrupt)
      else Ok(db.(packs := db.packs[pack := info.(live := info.live + delta)]))
  }

  /** Inserts a block with refcount 0 and its dedup row; its id is `db.nextBlock`. */
  function InsertBlock(db: Db, loc: BlockLoc): Result<Db> {
    var row := loc.(refcount := 0);
    var id := db.nextBlock;
    AddLive(db.(nextBlock := id + 1, blocks := db.blocks[id := row],
                dedup := db.dedup[row.hash := id]),
            row.pack, row.RecordLen())
  }

  function Incref(db: Db, id: nat): Result<Db> {
    if id !in db.blocks then Err(Corrupt)
    else
      var loc := db.blocks[id];
      Ok(db.(blocks := db.blocks[id := loc.(refcount := loc.refcount + 1)]))
  }

  function RemoveBlock(db: Db, id: nat, loc: BlockLoc): Result<Db> {
    var gone := db.(blocks := db.blocks - {id});
    var clear :=
      if loc.hash in gone.dedup && gone.dedup[loc.hash] == id
      then gone.(dedup := gone.dedup - {loc.hash}) else gone;
    AddLive(clear, loc.pack, -(loc.RecordLen() as int))
  }

  function Decref(db: Db, id: nat): Result<Db> {
    if id !in db.blocks then Ok(db)
    else
      var loc := db.blocks[id];
      if loc.refcount > 1 then
        Ok(db.(blocks := db.blocks[id := loc.(refcount := loc.refcount - 1)]))
      else RemoveBlock(db, id, loc)
  }

  /** `move_records` on one block: repoints it and moves its bytes between the packs' totals. */
  function MoveBlock(db: Db, id: nat, pack: nat, offset: nat): Result<Db> {
    if id !in db.blocks then Ok(db)
    else
      var loc := db.blocks[id];
      var moved := AddLive(db.(blocks := db.blocks[id := loc.(pack := pack, offset := offset)]),
                           loc.pack, -(loc.RecordLen() as int));
      if moved.Err? then moved else AddLive(moved.value, pack, loc.RecordLen())
  }

  // ---- Counting ----

  /** The manifest slots that hold `id`. */
  ghost function Refs(files: map<FileId, FileRow>, id: nat): set<(FileId, nat)> {
    set f, i | f in files && 0 <= i < |files[f].slots| && files[f].slots[i] == id :: (f, i)
  }

  ghost predicate Referenced(files: map<FileId, FileRow>, id: nat) {
    exists f, i :: f in files && 0 <= i < |files[f].slots| && files[f].slots[i] == id
  }

  /** Bytes of block `id` in pack `p`. */
  ghost function Share(blocks: map<nat, BlockLoc>, id: nat, p: nat): nat {
    if id in blocks && blocks[id].pack == p then blocks[id].RecordLen() else 0
  }

  /** Bytes in pack `p` of the blocks with ids below `n`. */
  ghost function LiveBelow(blocks: map<nat, BlockLoc>, p: nat, n: nat): nat {
    if n == 0 then 0 else LiveBelow(blocks, p, n - 1) + Share(blocks, n - 1, p)
  }

  // ---- Invariant ----

  ghost predicate Ids(db: Db) {
    && 1 <= db.nextBlock
    && (forall id :: id in db.blocks ==> 0 < id < db.nextBlock)
    && (forall f, i :: f in db.files && 0 <= i < |db.files[f].slots| ==>
                         db.files[f].slots[i] < db.nextBlock)
  }

  /** `dedup` and `blocks` are inverse maps. */
  ghost predicate Inverse(db: Db) {
    && (forall h :: h in db.dedup ==>
                      db.dedup[h] in db.blocks && db.blocks[db.dedup[h]].hash == h)
    && (forall id :: id in db.blocks ==>
                       db.blocks[id].hash in db.dedup && db.dedup[db.blocks[id].hash] == id)
  }

  /** Every block lies in a registered pack, and each pack's live bytes are a recount. */
  ghost predicate Totals(db: Db) {
    && (forall id :: id in db.blocks ==> db.blocks[id].pack in db.packs)
    && (forall p :: p in db.packs ==>
                      db.packs[p].live == LiveBelow(db.blocks, p, db.nextBlock))
  }

  /** The row's hash is the hash of some block, and its length that block's length. */
  ghost predicate Genuine(loc: BlockLoc, env: Env) {
    && env.known(env.content(loc.hash)) && env.hash(env.content(loc.hash)) == loc.hash
    && loc.rawLen == |env.content(loc.hash)|
  }

  /** Manifests have one slot per block, and a cached slot's block has that block's length. */
  ghost predicate Lengths(db: Db, env: Env) {
    && env.bs > 0
    && (forall f :: f in db.files ==>
                      |db.files[f].slots| == BlockCount(db.files[f].len, env.bs))
    && (forall id :: id in db.blocks ==> Genuine(db.blocks[id], env))
    && (forall f, i :: f in db.files && 0 <= i < |db.files[f].slots|
                       && db.files[f].slots[i] in db.blocks ==>
                         db.blocks[db.files[f].slots[i]].rawLen
                         == BlockLen(db.files[f].len, env.bs, i))
  }

  /** Refcounts agree with the manifests once `inc` is still to be counted up and `dec` down. */
  ghost predicate Acct(db: Db, inc: multiset<nat>, dec: multiset<nat>) {
    forall id :: id in db.blocks ==>
                   db.blocks[id].refcount + inc[id] == |Refs(db.files, id)| + dec[id]
  }

  ghost predicate Core(db: Db, env: Env) {
    Ids(db) && Inverse(db) && Totals(db) && Lengths(db, env)
  }

  ghost predicate AllCounted(db: Db) {
    forall id :: id in db.blocks ==> db.blocks[id].refcount >= 1
  }

  ghost predicate Inv(db: Db, env: Env) {
    Core(db, env) && Acct(db, multiset{}, multiset{}) && AllCounted(db)
  }

  lemma InvParts(db: Db, env: Env)
    requires Inv(db, env)
    ensures Ids(db) && Inverse(db) && Totals(db) && Lengths(db, env) && AllCounted(db)
  {
  }

  /** No block lies in a retired pack. */
  ghost predicate NoneRetired(db: Db) {
    forall id :: id in db.blocks && db.blocks[id].pack in db.packs ==>
                   db.packs[db.blocks[id].pack].state != Retired
  }

  /** `pack_accepts_records`. */
  predicate Accepts(db: Db, pack: nat) {
    pack in db.packs && db.packs[pack].state != Retired
  }

  /** The same packs in the same states; only live bytes may differ. */
  ghost predicate SamePacks(db: Db, db': Db) {
    && db'.packs.Keys == db.packs.Keys
    && (forall p :: p in db.packs ==> db'.packs[p].state == db.packs[p].state)
  }

  /** Everything but blocks, dedup rows and pack totals is untouched. */
  ghost predicate SameRest(db: Db, db': Db) {
    && SamePacks(db, db')
    && db'.files == db.files && db'.nextPack == db.nextPack && db'.clean == db.clean
  }

  // ---- Counting lemmas ----

  lemma {:induction false} LiveChange(
      b: map<nat, BlockLoc>, b': map<nat, BlockLoc>, p: nat, n: nat, id: nat)
    requires forall j :: j != id ==> Share(b, j, p) == Share(b', j, p)
    ensures LiveBelow(b', p, n) ==
            LiveBelow(b, p, n) + (if id < n then Share(b', id, p) - Share(b, id, p) else 0)
  {
    if n > 0 { LiveChange(b, b', p, n - 1, id); }
  }

  lemma {:induction false} LiveAtLeast(b: map<nat, BlockLoc>, p: nat, n: nat, id: nat)
    requires id < n
    ensures LiveBelow(b, p, n) >= Share(b, id, p)
  {
    if id < n - 1 { LiveAtLeast(b, p, n - 1, id); }
  }

  /** A pack without live bytes holds no block. */
  lemma NoLiveNoBlocks(db: Db, p: nat)
    requires Ids(db) && Totals(db) && p in db.packs && db.packs[p].live == 0
    ensures forall id :: id in db.blocks ==> db.blocks[id].pack != p
  {
    forall id | id in db.blocks ensures db.blocks[id].pack != p {
      LiveAtLeast(db.blocks, p, db.nextBlock, id);
    }
  }

  /** A pack without blocks has no live bytes. */
  lemma {:induction false} LiveNone(b: map<nat, BlockLoc>, p: nat, n: nat)
    requires forall id :: id in b ==> b[id].pack != p
    ensures LiveBelow(b, p, n) == 0
  {
    if n > 0 { LiveNone(b, p, n - 1); }
  }

  /** How often `id` occurs. */
  function Count(s: seq<nat>, id: nat): nat { multiset(s)[id] }

  lemma CountAppend(a: seq<nat>, b: seq<nat>, id: nat)
    ensures Count(a + b, id) == Count(a, id) + Count(b, id)
  {
  }

  ghost function SlotSet(s: seq<nat>, id: nat): set<nat> {
    set i | 0 <= i < |s| && s[i] == id
  }

  lemma {:induction false} SlotSetCount(s: seq<nat>, id: nat)
    ensures |SlotSet(s, id)| == Count(s, id)
  {
    if s != [] {
      var n := |s| - 1;
      SlotSetCount(s[..n], id);
      assert s == s[..n] + [s[n]];
      assert SlotSet(s, id) ==
             SlotSet(s[..n], id) + (if s[n] == id then {n} else {});
    }
  }

  ghost function PairSet(f: FileId, s: set<nat>): set<(FileId, nat)> {
    set i | i in s :: (f, i)
  }

  lemma {:induction false} PairSetCount(f: FileId, s: set<nat>)
    ensures |PairSet(f, s)| == |s|
    decreases s
  {
    if s != {} {
      var x :| x in s;
      PairSetCount(f, s - {x});
      assert PairSet(f, s) == PairSet(f, s - {x}) + {(f, x)};
    }
  }

  /** The references of one file are counted apart from those of the others. */
  lemma RefsSplit(files: map<FileId, FileRow>, f: FileId, id: nat)
    ensures |Refs(files, id)| ==
            |Refs(files - {f}, id)| + (if f in files then Count(files[f].slots, id) else 0)
  {
    if f in files {
      var mine := PairSet(f, SlotSet(files[f].slots, id));
      SlotSetCount(files[f].slots, id);
      PairSetCount(f, SlotSet(files[f].slots, id));
      assert Refs(files, id) == Refs(files - {f}, id) + mine;
      assert Refs(files - {f}, id) !! mine;
    } else {
      assert files - {f} == files;
    }
  }

  lemma RefsNone(files: map<FileId, FileRow>, id: nat)
    ensures |Refs(files, id)| > 0 <==> Referenced(files, id)
  {
    if Referenced(files, id) {
      var f, i :| f in files && 0 <= i < |files[f].slots| && files[f].slots[i] == id;
      assert (f, i) in Refs(files, id);
    } else {
      assert Refs(files, id) == {};
    }
  }

  // ---- Each row operation keeps the books ----

  /** Rows that differ in their refcounts only keep everything but the accounts. */
  lemma RecountCore(db: Db, db': Db, env: Env)
    requires Core(db, env)
    requires db' == db.(blocks := db'.blocks) && db'.blocks.Keys == db.blocks.Keys
    requires forall j :: j in db.blocks ==> db'.blocks[j].SameRecord(db.blocks[j])
    ensures Core(db', env)
  {
    hide BlockLen, BlockCount, LiveBelow;
    forall p | p in db.packs
      ensures LiveBelow(db'.blocks, p, db.nextBlock) == LiveBelow(db.blocks, p, db.nextBlock)
    {
      LiveChange(db.blocks, db'.blocks, p, db.nextBlock, db.nextBlock);
    }
  }

  lemma IncrefKeeps(db: Db, env: Env, inc: multiset<nat>, dec: multiset<nat>, id: nat)
    requires Core(db, env) && Acct(db, inc, dec)
    requires id in db.blocks && inc[id] > 0
    ensures Incref(db, id).Ok?
    ensures var db' := Incref(db, id).value;
            && Core(db', env) && Acct(db', inc - multiset{id}, dec)
  {
    hide Core;
    var loc := db.blocks[id];
    var db' := db.(blocks := db.blocks[id := loc.(refcount := loc.refcount + 1)]);
    RecountCore(db, db', env);
  }

  /** Which rows an operation may drop, add or change. */
  ghost predicate Dropped(db: Db, db': Db) {
    && SameRest(db, db') && db'.nextBlock == db.nextBlock
    && db'.blocks.Keys <= db.blocks.Keys
    && (forall j :: j in db'.blocks ==> db'.blocks[j].SameRecord(db.blocks[j]))
    && (forall j :: j in db.blocks && j !in db'.blocks ==> !Referenced(db.files, j))
  }

  lemma RemoveTotals(db: Db, id: nat)
    requires Ids(db) && Totals(db) && id in db.blocks
    ensures RemoveBlock(db, id, db.blocks[id]).Ok?
    ensures Totals(RemoveBlock(db, id, db.blocks[id]).value)
  {
    var gone := db.blocks - {id};
    LiveAtLeast(db.blocks, db.blocks[id].pack, db.nextBlock, id);
    forall p | p in db.packs
      ensures LiveBelow(gone, p, db.nextBlock)
              == LiveBelow(db.blocks, p, db.nextBlock) - Share(db.blocks, id, p)
    {
      LiveChange(db.blocks, gone, p, db.nextBlock, id);
    }
  }

  lemma RemoveKeeps(db: Db, env: Env, id: nat)
    requires Core(db, env) && id in db.blocks
    ensures RemoveBlock(db, id, db.blocks[id]).Ok?
    ensures var db' := RemoveBlock(db, id, db.blocks[id]).value;
            && Core(db', env) && SameRest(db, db') && db'.nextBlock == db.nextBlock
            && db'.blocks == db.blocks - {id}
  {
    RemoveTotals(db, id);
  }

  /** Whatever the tables hold, a block that is removed takes only its own dedup row with it: another block of its
      hash keeps its own. */
  lemma RemoveOwnRow(db: Db, id: nat, loc: BlockLoc)
    requires RemoveBlock(db, id, loc).Ok?
    ensures var db' := RemoveBlock(db, id, loc).value;
            && (forall h :: h in db'.dedup <==> h in db.dedup && !(h == loc.hash && db.dedup[h] == id))
            && (forall h :: h in db'.dedup ==> db'.dedup[h] == db.dedup[h]) && db'.blocks == db.blocks - {id}
  {
  }

  lemma DecrefDown(db: Db, env: Env, dec: multiset<nat>, id: nat)
    requires Core(db, env) && Acct(db, multiset{}, dec) && AllCounted(db)
    requires dec[id] > 0 && id in db.blocks && db.blocks[id].refcount > 1
    ensures Decref(db, id).Ok?
    ensures var db' := Decref(db, id).value;
            Core(db', env) && Acct(db', multiset{}, dec - multiset{id}) && AllCounted(db')
    ensures Dropped(db, Decref(db, id).value)
  {
    hide Core, RemoveBlock;
    var loc := db.blocks[id];
    var db' := db.(blocks := db.blocks[id := loc.(refcount := loc.refcount - 1)]);
    RecountCore(db, db', env);
  }

  lemma DecrefLast(db: Db, env: Env, dec: multiset<nat>, id: nat)
    requires Core(db, env) && Acct(db, multiset{}, dec) && AllCounted(db)
    requires dec[id] > 0 && id in db.blocks && db.blocks[id].refcount <= 1
    ensures Decref(db, id).Ok?
    ensures var db' := Decref(db, id).value;
            Core(db', env) && Acct(db', multiset{}, dec - multiset{id}) && AllCounted(db')
    ensures Dropped(db, Decref(db, id).value)
  {
    hide Core, RemoveBlock;
    RefsNone(db.files, id);
    RemoveKeeps(db, env, id);
  }

  lemma DecrefKeeps(db: Db, env: Env, dec: multiset<nat>, id: nat)
    requires Core(db, env) && Acct(db, multiset{}, dec) && AllCounted(db)
    requires dec[id] > 0
    ensures Decref(db, id).Ok?
    ensures var db' := Decref(db, id).value;
            Core(db', env) && Acct(db', multiset{}, dec - multiset{id}) && AllCounted(db')
    ensures Dropped(db, Decref(db, id).value)
  {
    hide Core, RemoveBlock;
    if id in db.blocks {
      if db.blocks[id].refcount > 1 { DecrefDown(db, env, dec, id); } else { DecrefLast(db, env, dec, id); }
    }
  }

  lemma InsertTotals(db: Db, loc: BlockLoc)
    requires Ids(db) && Totals(db) && loc.pack in db.packs
    ensures InsertBlock(db, loc).Ok? && Totals(InsertBlock(db, loc).value)
  {
    var b' := db.blocks[db.nextBlock := loc.(refcount := 0)];
    var id := db.nextBlock;
    forall p | p in db.packs
      ensures LiveBelow(b', p, id + 1) == LiveBelow(db.blocks, p, id) + Share(b', id, p)
    {
      LiveChange(db.blocks, b', p, id, id);
    }
  }

  lemma InsertKeeps(db: Db, env: Env, loc: BlockLoc)
    requires Core(db, env) && Acct(db, multiset{}, multiset{})
    requires loc.hash !in db.dedup && loc.pack in db.packs
    requires Genuine(loc, env)
    ensures InsertBlock(db, loc).Ok?
    ensures var db' := InsertBlock(db, loc).value;
            && Core(db', env) && Acct(db', multiset{}, multiset{})
            && SameRest(db, db') && db'.nextBlock == db.nextBlock + 1
            && db'.blocks == db.blocks[db.nextBlock := loc.(refcount := 0)]
            && db'.dedup == db.dedup[loc.hash := db.nextBlock]
  {
    hide LiveBelow, BlockLen, BlockCount, Refs, Totals;
    InsertTotals(db, loc);
    NotYetReferenced(db);
  }

  lemma NotYetReferenced(db: Db)
    requires Ids(db)
    ensures |Refs(db.files, db.nextBlock)| == 0
  {
    RefsNone(db.files, db.nextBlock);
  }

  lemma MoveTotals(db: Db, id: nat, pack: nat, offset: nat)
    requires Ids(db) && Totals(db) && id in db.blocks && pack in db.packs
    ensures MoveBlock(db, id, pack, offset).Ok?
    ensures Totals(MoveBlock(db, id, pack, offset).value)
  {
    var loc := db.blocks[id];
    var b' := db.blocks[id := loc.(pack := pack, offset := offset)];
    LiveAtLeast(db.blocks, loc.pack, db.nextBlock, id);
    forall p | p in db.packs
      ensures LiveBelow(b', p, db.nextBlock)
              == LiveBelow(db.blocks, p, db.nextBlock)
                 + Share(b', id, p) - Share(db.blocks, id, p)
    {
      LiveChange(db.blocks, b', p, db.nextBlock, id);
    }
  }

  lemma MoveShape(db: Db, id: nat, pack: nat, offset: nat)
    requires Ids(db) && Totals(db) && id in db.blocks && pack in db.packs
    ensures MoveBlock(db, id, pack, offset).Ok?
    ensures var db' := MoveBlock(db, id, pack, offset).value;
            && SameRest(db, db') && db'.nextBlock == db.nextBlock && db'.dedup == db.dedup
            && db'.blocks == db.blocks[id := db.blocks[id].(pack := pack, offset := offset)]
  {
    LiveAtLeast(db.blocks, db.blocks[id].pack, db.nextBlock, id);
  }

  /** A block's place is no part of the accounts. */
  lemma RelocateKeeps(db: Db, db': Db, env: Env)
    requires Inv(db, env) && Totals(db')
    requires db'.files == db.files && db'.nextBlock == db.nextBlock && db'.dedup == db.dedup
    requires db'.blocks.Keys == db.blocks.Keys
    requires forall j :: j in db.blocks ==>
               && db'.blocks[j].hash == db.blocks[j].hash
               && db'.blocks[j].rawLen == db.blocks[j].rawLen
               && db'.blocks[j].refcount == db.blocks[j].refcount
    ensures Inv(db', env)
  {
  }

  lemma MoveKeeps(db: Db, env: Env, id: nat, pack: nat, offset: nat)
    requires Inv(db, env) && id in db.blocks && pack in db.packs
    ensures MoveBlock(db, id, pack, offset).Ok?
    ensures Inv(MoveBlock(db, id, pack, offset).value, env)
  {
    MoveShape(db, id, pack, offset);
    MoveTotals(db, id, pack, offset);
    RelocateKeeps(db, MoveBlock(db, id, pack, offset).value, env);
  }
}
