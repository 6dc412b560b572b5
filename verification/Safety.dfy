/** What every step of the store keeps, and the theorems over whole runs. */
module Safety {
  import opened Base
  import opened Manifest
  import opened Ledger
  import opened Meaning
  import opened Codec
  import opened System

  // ---- The invariant ----

  ghost predicate Books(env: Env, db: Db) { Inv(db, env) && NoneRetired(db) }

  /** The record is in its pack's file. */
  ghost predicate Placed(env: Env, disk: Disk, loc: BlockLoc) {
    loc.pack in disk && RecordOk(env, disk[loc.pack].data, loc)
  }

  /** The record would survive a crash. */
  ghost predicate Lasting(env: Env, disk: Disk, loc: BlockLoc) {
    && loc.pack in disk && disk[loc.pack].linked && disk[loc.pack].synced <= |disk[loc.pack].data|
    && RecordOk(env, disk[loc.pack].data[..disk[loc.pack].synced], loc)
  }

  ghost predicate Stored(env: Env, disk: Disk, db: Db) {
    forall id :: id in db.blocks ==> Placed(env, disk, db.blocks[id])
  }

  ghost predicate StoredForGood(env: Env, disk: Disk, db: Db) {
    forall id :: id in db.blocks ==> Lasting(env, disk, db.blocks[id])
  }

  ghost predicate NoBlockIn(db: Db, p: nat) {
    forall id :: id in db.blocks ==> db.blocks[id].pack != p
  }

  /** An id that no later pack gets. */
  ghost predicate Used(s: Sys, p: nat) { p < s.nextPack && s.lock != Registering(p) }

  ghost predicate Writable(env: Env, s: Sys, loc: BlockLoc) {
    Used(s, loc.pack) && (Accepts(s.db, loc.pack) ==> Placed(env, s.disk, loc))
  }

  /** What a writer has appended is where it says, as long as its pack takes records. */
  ghost predicate WritersOk(env: Env, s: Sys) {
    forall w, loc :: w in s.writers && loc in s.writers[w] ==> Writable(env, s, loc)
  }

  ghost predicate PickOk(env: Env, s: Sys, k: Pick) {
    Used(s, k.from.pack) && (k.from.pack in s.disk ==> RecordOk(env, s.disk[k.from.pack].data, k.from))
  }

  ghost predicate CopyOk(env: Env, s: Sys, c: Copy) {
    && c.to == c.pick.from.(pack := c.to.pack, offset := c.to.offset)
    && Accepts(s.db, c.to.pack) && Placed(env, s.disk, c.to) && PickOk(env, s, c.pick)
  }

  ghost predicate CompactionOk(env: Env, s: Sys) {
    (forall k :: k in s.picks ==> PickOk(env, s, k)) && (forall c :: c in s.copies ==> CopyOk(env, s, c))
  }

  ghost predicate Below(db: Db) { forall p :: p in db.packs ==> p < db.nextPack }

  ghost predicate Bounds(s: Sys) {
    && Below(s.db) && Below(s.durable) && s.durable.nextPack <= s.db.nextPack
    && (s.mode != Recovering ==>
          && s.db.nextPack <= s.nextPack
          && forall p :: p in s.disk ==> p < s.nextPack)
  }

  /** Only the current pack has unsynced bytes, and none has while a durable commit runs. */
  ghost predicate FilesOk(s: Sys) {
    forall p :: p in s.disk ==>
      && s.disk[p].synced <= |s.disk[p].data| && (s.disk[p].data != [] || s.mode == Recovering ==> s.disk[p].linked)
      && (s.lock == Flushing || Current(s) != Some(p) ==> s.disk[p].synced == |s.disk[p].data|)
  }

  ghost predicate WriterOk(s: Sys) {
    && (s.active.None? || s.abandoned.None?)
    && (s.active.Some? ==>
          && s.active.value in s.disk && s.disk[s.active.value].linked && Accepts(s.db, s.active.value)
          && (!s.lock.Registering? ==> s.db.packs[s.active.value].state == Active))
    && (s.lock.Registering? ==>
          && s.lock.id in s.db.packs && s.db.packs[s.lock.id].state == Active
          && s.lock.id !in s.disk && s.lock.id < s.nextPack && Current(s) != Some(s.lock.id))
    && (Current(s).Some? ==> Current(s).value < s.nextPack)
  }

  ghost predicate RetiredIn(db: Db, p: nat) { p in db.packs ==> db.packs[p].state == Retired }

  ghost predicate DeadOk(s: Sys) {
    && (forall p :: p in s.dead ==> p < s.durable.nextPack && RetiredIn(s.db, p) && RetiredIn(s.durable, p))
    && (s.retiring.Some? ==> s.retiring.value in s.dead)
    && (forall q :: q in s.retired ==> q.0 in s.dead && q.1 <= s.gen)
    && (forall p :: p in s.db.packs && s.db.packs[p].state == Retired ==> p in s.dead)
    && (forall p :: p in s.durable.packs && s.durable.packs[p].state == Retired ==> p in s.dead)
  }

  /** A running read finds every record of its snapshot, and never one in a pack retired before it. */
  ghost predicate ReaderOk(env: Env, s: Sys, r: Reader) {
    && r.gen <= s.gen
    && (r.snap.Some? ==>
          && Inv(r.snap.value, env) && Stored(env, s.disk, r.snap.value)
          && forall q :: q in s.retired && q.1 <= r.gen ==> NoBlockIn(r.snap.value, q.0))
  }

  ghost predicate ReadersOk(env: Env, s: Sys) {
    forall r :: r in s.readers ==> ReaderOk(env, s, s.readers[r])
  }

  ghost predicate SysInv(env: Env, s: Sys) {
    && Books(env, s.db) && Books(env, s.durable)
    && Stored(env, s.disk, s.db) && StoredForGood(env, s.disk, s.durable)
    && WritersOk(env, s) && CompactionOk(env, s) && ReadersOk(env, s)
    && Bounds(s) && FilesOk(s) && WriterOk(s) && DeadOk(s)
    && (s.mode == Recovering ==> s == Crashed(s.durable, s.disk, s.dead))
  }

  lemma SysParts(env: Env, s: Sys)
    requires SysInv(env, s)
    ensures FilesOk(s) && WriterOk(s)
  {
  }

  lemma FilesSame(s: Sys, s': Sys)
    requires FilesOk(s) && s'.disk == s.disk && s'.lock == s.lock && Current(s') == Current(s) && s'.mode == s.mode
    ensures FilesOk(s')
  {
  }

  // ---- Files that only grow ----

  ghost predicate Extends(disk: Disk, disk': Disk) {
    forall p :: p in disk ==>
      && p in disk' && disk[p].data <= disk'[p].data && disk[p].synced <= disk'[p].synced
      && (disk[p].linked ==> disk'[p].linked) && disk'[p].synced <= |disk'[p].data|
  }

  lemma PlacedGrows(env: Env, disk: Disk, disk': Disk, loc: BlockLoc)
    requires Extends(disk, disk') && Placed(env, disk, loc)
    ensures Placed(env, disk', loc)
  {
    RecordOkStays(env, disk[loc.pack].data, disk'[loc.pack].data, loc);
  }

  lemma LastingGrows(env: Env, disk: Disk, disk': Disk, loc: BlockLoc)
    requires Extends(disk, disk') && Lasting(env, disk, loc)
    ensures Lasting(env, disk', loc)
  {
    var f, f' := disk[loc.pack], disk'[loc.pack];
    assert f.data[..f.synced] <= f'.data[..f'.synced];
    RecordOkStays(env, f.data[..f.synced], f'.data[..f'.synced], loc);
  }

  lemma StoredGrows(env: Env, disk: Disk, disk': Disk, db: Db)
    requires Extends(disk, disk') && Stored(env, disk, db)
    ensures Stored(env, disk', db)
  {
    hide Placed, Extends;
    forall id | id in db.blocks ensures Placed(env, disk', db.blocks[id]) {
      PlacedGrows(env, disk, disk', db.blocks[id]);
    }
  }

  lemma StoredForGoodGrows(env: Env, disk: Disk, disk': Disk, db: Db)
    requires Extends(disk, disk') && StoredForGood(env, disk, db)
    ensures StoredForGood(env, disk', db)
  {
    hide Lasting, Extends;
    forall id | id in db.blocks ensures Lasting(env, disk', db.blocks[id]) {
      LastingGrows(env, disk, disk', db.blocks[id]);
    }
  }

  /** The state changes only in its files, which grow, and in the writer. */
  ghost predicate WriterStep(s: Sys, s': Sys) {
    && s' == s.(disk := s'.disk, active := s'.active, abandoned := s'.abandoned, lock := s'.lock)
    && Extends(s.disk, s'.disk)
    && (forall p :: p in s'.disk && p !in s.disk ==> s.lock == Registering(p))
    && (s'.lock.Registering? ==> s'.lock == s.lock)
  }

  lemma WritableGrows(env: Env, s: Sys, s': Sys, loc: BlockLoc)
    requires WriterStep(s, s') && Writable(env, s, loc)
    ensures Writable(env, s', loc)
  {
    if Accepts(s.db, loc.pack) { PlacedGrows(env, s.disk, s'.disk, loc); }
  }

  lemma PickGrows(env: Env, s: Sys, s': Sys, k: Pick)
    requires WriterStep(s, s') && PickOk(env, s, k)
    ensures PickOk(env, s', k)
  {
    if k.from.pack in s'.disk {
      RecordOkStays(env, s.disk[k.from.pack].data, s'.disk[k.from.pack].data, k.from);
    }
  }

  lemma ReaderGrows(env: Env, s: Sys, s': Sys, r: Reader)
    requires WriterStep(s, s') && ReaderOk(env, s, r)
    ensures ReaderOk(env, s', r)
  {
    hide Extends, Stored;
    if r.snap.Some? { StoredGrows(env, s.disk, s'.disk, r.snap.value); }
  }

  /** What is stored stays stored when files grow. */
  lemma WriterStepKeeps(env: Env, s: Sys, s': Sys)
    requires SysInv(env, s) && s.mode != Recovering && WriterStep(s, s')
    ensures Books(env, s'.db) && Books(env, s'.durable)
    ensures Stored(env, s'.disk, s'.db) && StoredForGood(env, s'.disk, s'.durable)
    ensures WritersOk(env, s') && CompactionOk(env, s') && ReadersOk(env, s')
  {
    hide Extends, Stored, StoredForGood, Books, ReaderOk, Writable, PickOk, Placed, Accepts;
    StoredGrows(env, s.disk, s'.disk, s.db);
    StoredForGoodGrows(env, s.disk, s'.disk, s.durable);
    forall w, loc | w in s'.writers && loc in s'.writers[w] ensures Writable(env, s', loc) {
      WritableGrows(env, s, s', loc);
    }
    forall k | k in s'.picks ensures PickOk(env, s', k) { PickGrows(env, s, s', k); }
    forall c | c in s'.copies ensures CopyOk(env, s', c) {
      PickGrows(env, s, s', c.pick);
      PlacedGrows(env, s.disk, s'.disk, c.to);
    }
    forall r | r in s'.readers ensures ReaderOk(env, s', s'.readers[r]) {
      ReaderGrows(env, s, s', s.readers[r]);
    }
  }

  // ---- Steps of the writer ----

  lemma GrownExtends(s: Sys, p: Option<nat>, more: bytes)
    requires FilesOk(s)
    ensures Extends(s.disk, Grown(s.disk, p, more)) && Grown(s.disk, p, more).Keys == s.disk.Keys
  {
  }

  lemma SyncedExtends(s: Sys, p: Option<nat>)
    requires FilesOk(s)
    ensures Extends(s.disk, Synced(s.disk, p)) && Synced(s.disk, p).Keys == s.disk.Keys
  {
  }

  lemma WriterDone(env: Env, s: Sys, s': Sys)
    requires SysInv(env, s) && s.mode != Recovering && WriterStep(s, s') && FilesOk(s') && WriterOk(s')
    ensures SysInv(env, s')
  {
    hide Books, Stored, StoredForGood, WritersOk, CompactionOk, ReadersOk, FilesOk, RetiredIn, Accepts, Extends;
    WriterStepKeeps(env, s, s');
  }

  lemma StartFiles(s: Sys, linked: bool)
    requires FilesOk(s) && WriterOk(s) && s.lock.Registering? && s.mode != Recovering
    ensures FilesOk(AfterStart(s, s.lock.id, linked))
  {
  }

  lemma StartWriter(s: Sys, linked: bool)
    requires FilesOk(s) && WriterOk(s) && s.lock.Registering?
    ensures WriterStep(s, AfterStart(s, s.lock.id, linked)) && WriterOk(AfterStart(s, s.lock.id, linked))
  {
    hide FilesOk;
    SyncedExtends(s, Current(s));
  }

  lemma StartKeeps(env: Env, s: Sys, linked: bool)
    requires SysInv(env, s) && s.mode != Recovering && s.lock.Registering?
    ensures SysInv(env, AfterStart(s, s.lock.id, linked))
  {
    hide SysInv, FilesOk, WriterOk, WriterStep;
    SysParts(env, s);
    StartFiles(s, linked);
    StartWriter(s, linked);
    WriterDone(env, s, AfterStart(s, s.lock.id, linked));
  }

  lemma StartFailsKeeps(env: Env, s: Sys)
    requires SysInv(env, s) && s.mode != Recovering && s.lock.Registering?
    ensures SysInv(env, AfterStartFails(s))
  {
    hide SysInv;
    SysParts(env, s);
    SyncedExtends(s, Current(s));
    WriterDone(env, s, AfterStartFails(s));
  }

  lemma AbandonKeeps(env: Env, s: Sys, more: bytes)
    requires SysInv(env, s) && s.mode != Recovering && s.lock != Flushing
    ensures SysInv(env, AfterAbandon(s, more))
  {
    hide SysInv;
    SysParts(env, s);
    GrownExtends(s, s.active, more);
    WriterDone(env, s, AfterAbandon(s, more));
  }

  lemma SyncKeeps(env: Env, s: Sys)
    requires SysInv(env, s) && s.mode != Recovering && s.lock == Free
    ensures SysInv(env, AfterSync(s))
  {
    hide SysInv;
    SysParts(env, s);
    SyncedExtends(s, Current(s));
    WriterDone(env, s, AfterSync(s));
  }

  lemma FlushAbortsKeeps(env: Env, s: Sys)
    requires SysInv(env, s) && s.mode != Recovering && s.lock == Flushing
    ensures SysInv(env, s.(lock := Free))
  {
    hide SysInv;
    SysParts(env, s);
    WriterDone(env, s, s.(lock := Free));
  }

  lemma RegisterFailsKeeps(env: Env, s: Sys)
    requires SysInv(env, s) && s.mode != Recovering && s.lock == Free
    ensures SysInv(env, s.(nextPack := s.nextPack + 1))
  {
    hide Books, Stored, StoredForGood, Placed, RetiredIn, Accepts, FilesOk;
    var s' := s.(nextPack := s.nextPack + 1);
    assert FilesOk(s') by { FilesSame(s, s'); }
    forall w, loc | w in s'.writers && loc in s'.writers[w] ensures Writable(env, s', loc) {
      assert Writable(env, s, loc);
    }
    forall k | k in s'.picks ensures PickOk(env, s', k) { assert PickOk(env, s, k); }
    forall c | c in s'.copies ensures CopyOk(env, s', c) { assert CopyOk(env, s, c); }
    forall r | r in s'.readers ensures ReaderOk(env, s', s'.readers[r]) {
      assert ReaderOk(env, s, s.readers[r]);
    }
  }

  /** Bytes written to the active pack. */
  lemma WriteKeeps(env: Env, s: Sys, more: bytes)
    requires SysInv(env, s) && s.mode != Recovering && s.lock != Flushing
    ensures SysInv(env, AfterWrite(s, more))
  {
    hide SysInv;
    SysParts(env, s);
    GrownExtends(s, s.active, more);
    WriterDone(env, s, AfterWrite(s, more));
  }

  lemma RecordKeeps(env: Env, s: Sys, w: nat, mine: set<BlockLoc>)
    requires SysInv(env, s) && s.mode != Recovering
    requires forall loc :: loc in mine ==> Writable(env, s, loc)
    ensures SysInv(env, s.(writers := s.writers[w := mine]))
  {
    hide Books, Stored, StoredForGood, Placed, RetiredIn, Accepts, FilesOk;
    var s' := s.(writers := s.writers[w := mine]);
    FilesSame(s, s');
    forall v, loc | v in s'.writers && loc in s'.writers[v] ensures Writable(env, s', loc) {
      assert Writable(env, s, loc);
    }
    OthersSame(env, s, s');
  }

  /** Compaction and readers depend on these parts only. */
  lemma OthersSame(env: Env, s: Sys, s': Sys)
    requires CompactionOk(env, s) && ReadersOk(env, s)
    requires s'.disk == s.disk && s'.lock == s.lock && s'.nextPack == s.nextPack && s'.db == s.db
    requires s'.picks <= s.picks && s'.copies <= s.copies
    requires s'.readers == s.readers && s'.gen == s.gen && s'.retired == s.retired
    ensures CompactionOk(env, s') && ReadersOk(env, s')
  {
    hide Placed, Accepts, Stored, NoBlockIn;
    forall k | k in s'.picks ensures PickOk(env, s', k) { assert PickOk(env, s, k); }
    forall c | c in s'.copies ensures CopyOk(env, s', c) { assert CopyOk(env, s, c); }
    forall r | r in s'.readers ensures ReaderOk(env, s', s'.readers[r]) {
      assert ReaderOk(env, s, s.readers[r]);
    }
  }

  /** A record that lies in a file is handed to its writer. */
  lemma IssueKeeps(env: Env, s: Sys, w: nat, loc: BlockLoc)
    requires SysInv(env, s) && s.mode != Recovering && loc.pack in s.disk && RecordOk(env, s.disk[loc.pack].data, loc)
    ensures SysInv(env, s.(writers := s.writers[w := Mine(s, w) + {loc}]))
  {
    hide SysInv, RecordOk;
    OnDiskUsed(env, s, loc.pack);
    forall l | l in Mine(s, w) + {loc} ensures Writable(env, s, l) {
      if l != loc { WritableMine(env, s, w, l); }
    }
    RecordKeeps(env, s, w, Mine(s, w) + {loc});
  }

  lemma OnDiskUsed(env: Env, s: Sys, p: nat)
    requires SysInv(env, s) && s.mode != Recovering && p in s.disk
    ensures Used(s, p)
  {
    hide Books, Stored, StoredForGood, WritersOk, CompactionOk, ReadersOk, FilesOk, DeadOk;
  }

  lemma WritableMine(env: Env, s: Sys, w: nat, loc: BlockLoc)
    requires SysInv(env, s) && loc in Mine(s, w)
    ensures Writable(env, s, loc)
  {
  }

  lemma ForgetKeeps(env: Env, s: Sys, w: nat, keep: set<BlockLoc>)
    requires SysInv(env, s) && s.mode != Recovering && keep <= Mine(s, w)
    ensures SysInv(env, s.(writers := s.writers[w := keep]))
  {
    hide SysInv, Writable;
    forall l | l in keep ensures Writable(env, s, l) { WritableMine(env, s, w, l); }
    RecordKeeps(env, s, w, keep);
  }

  // ---- Steps of compaction ----

  lemma ChosenOk(env: Env, s: Sys, id: nat)
    requires SysInv(env, s) && s.mode != Recovering && id in s.db.blocks
    ensures PickOk(env, s, Pick(id, s.db.blocks[id]))
  {
    hide Books, StoredForGood, WritersOk, CompactionOk, ReadersOk, DeadOk, RecordOk;
    assert Placed(env, s.disk, s.db.blocks[id]);
  }

  lemma ChooseKeeps(env: Env, s: Sys, id: nat)
    requires SysInv(env, s) && s.mode != Recovering && id in s.db.blocks
    ensures SysInv(env, s.(picks := s.picks + {Pick(id, s.db.blocks[id])}))
  {
    hide Books, StoredForGood, Stored, RetiredIn, FilesOk, ReaderOk, Placed, Writable, PickOk;
    var s' := s.(picks := s.picks + {Pick(id, s.db.blocks[id])});
    FilesSame(s, s');
    ChosenOk(env, s, id);
    forall k | k in s'.picks ensures PickOk(env, s', k) { PickSame(env, s, s', k); }
    forall c | c in s'.copies ensures CopyOk(env, s', c) { PickSame(env, s, s', c.pick); }
    WritersSame(env, s, s');
    ReadersSame(env, s, s');
  }

  lemma WritersSame(env: Env, s: Sys, s': Sys)
    requires WritersOk(env, s)
    requires s'.disk == s.disk && s'.lock == s.lock && s'.nextPack == s.nextPack && s'.db == s.db
    requires s'.writers == s.writers
    ensures WritersOk(env, s')
  {
    hide Placed, Accepts;
    forall v, loc | v in s'.writers && loc in s'.writers[v] ensures Writable(env, s', loc) {
      assert Writable(env, s, loc);
    }
  }

  lemma ReadersSame(env: Env, s: Sys, s': Sys)
    requires ReadersOk(env, s) && s'.disk == s.disk
    requires s'.readers == s.readers && s'.gen == s.gen && s'.retired <= s.retired
    ensures ReadersOk(env, s')
  {
    hide Stored, NoBlockIn;
    forall r | r in s'.readers ensures ReaderOk(env, s', s'.readers[r]) {
      assert ReaderOk(env, s, s.readers[r]);
    }
  }

  /** A copied record reads like the one it was copied from. */
  lemma CopiedReads(env: Env, disk: Disk, c: Copy, data: bytes)
    requires Copied(disk, c, data) && RecordOk(env, disk[c.pick.from.pack].data, c.pick.from)
    ensures RecordOk(env, data, c.to)
  {
  }

  lemma CopyKeeps(env: Env, s: Sys, c: Copy)
    requires SysInv(env, s) && s.mode != Recovering
    requires Accepts(s.db, c.to.pack) && c.to.pack in s.disk && c.pick in s.picks
    requires Copied(s.disk, c, s.disk[c.to.pack].data)
    ensures SysInv(env, s.(copies := s.copies + {c}))
  {
    hide Books, Stored, StoredForGood, WritersOk, ReadersOk, Bounds, FilesOk, WriterOk, DeadOk, RecordOk;
    assert PickOk(env, s, c.pick);
    CopiedReads(env, s.disk, c, s.disk[c.to.pack].data);
    CopyAdded(env, s, c);
  }

  lemma CopyAdded(env: Env, s: Sys, c: Copy)
    requires SysInv(env, s) && s.mode != Recovering && c.pick in s.picks && Accepts(s.db, c.to.pack)
    requires c.to == c.pick.from.(pack := c.to.pack, offset := c.to.offset) && Placed(env, s.disk, c.to)
    ensures SysInv(env, s.(copies := s.copies + {c}))
  {
    hide Books, StoredForGood, Stored, RetiredIn, FilesOk, ReaderOk, Placed, Writable, PickOk;
    var s' := s.(copies := s.copies + {c});
    FilesSame(s, s');
    forall k | k in s'.picks ensures PickOk(env, s', k) { PickSame(env, s, s', k); }
    forall d | d in s'.copies ensures CopyOk(env, s', d) { PickSame(env, s, s', d.pick); }
    WritersSame(env, s, s');
    ReadersSame(env, s, s');
  }

  lemma PickSame(env: Env, s: Sys, s': Sys, k: Pick)
    requires PickOk(env, s, k) && s'.disk == s.disk && s'.lock == s.lock && s'.nextPack == s.nextPack
    ensures PickOk(env, s', k)
  {
  }

  // ---- Index commits ----

  /** Commits that leave the packs and their states alone. */
  lemma DbKeeps(env: Env, s: Sys, s': Sys)
    requires SysInv(env, s) && s.mode != Recovering
    requires s' == s.(db := s'.db, picks := s'.picks, copies := s'.copies)
    requires s'.picks <= s.picks && s'.copies <= s.copies
    requires Books(env, s'.db) && Stored(env, s.disk, s'.db)
    requires SamePacks(s.db, s'.db) && s'.db.nextPack == s.db.nextPack
    ensures SysInv(env, s')
  {
    hide Books, Stored, StoredForGood, Placed, RecordOk, FilesOk, ReadersOk, ReaderOk;
    FilesSame(s, s');
    ReadersSame(env, s, s');
    forall v, loc | v in s'.writers && loc in s'.writers[v] ensures Writable(env, s', loc) {
      assert Writable(env, s, loc);
    }
    forall k | k in s'.picks ensures PickOk(env, s', k) { assert PickOk(env, s, k); }
    forall c | c in s'.copies ensures CopyOk(env, s', c) { assert CopyOk(env, s, c); }
  }

  lemma CommitStored(env: Env, s: Sys, w: nat, db': Db)
    requires SysInv(env, s) && Txn(s.db, db', env, Mine(s, w)) && NoneRetired(db')
    ensures Stored(env, s.disk, db')
  {
    hide RecordOk, Lengths, Acct, StoredForGood, CompactionOk, ReadersOk, FilesOk, DeadOk, Bounds, WriterOk;
    forall id | id in db'.blocks ensures Placed(env, s.disk, db'.blocks[id]) {
      var loc := db'.blocks[id];
      if id in s.db.blocks && loc.SameRecord(s.db.blocks[id]) {
        assert Placed(env, s.disk, s.db.blocks[id]);
        RecordOkSame(env, s.disk[loc.pack].data, loc, s.db.blocks[id]);
      } else {
        var mine := loc.(refcount := 0);
        assert Writable(env, s, mine);
        assert Accepts(s.db, mine.pack);
        RecordOkSame(env, s.disk[loc.pack].data, loc, mine);
      }
    }
  }

  lemma CommitKeeps(env: Env, s: Sys, w: nat, s': Sys)
    requires SysInv(env, s) && s.mode != Recovering
    requires Txn(s.db, s'.db, env, Mine(s, w)) && NewAccepted(s.db, s'.db)
    requires s' == s.(db := s'.db)
    ensures SysInv(env, s')
  {
    hide Stored, Inv, NoneRetired, SamePacks, NewAccepted, Ids;
    InvParts(s.db, env);
    AcceptedNoneRetired(s.db, s'.db, env, Mine(s, w));
    CommitStored(env, s, w, s'.db);
    DbKeeps(env, s, s');
  }

  /** A healed block leaves the books in order. */
  lemma HealBooks(env: Env, db: Db, id: nat)
    requires Books(env, db) && id in db.blocks
    ensures RemoveBlock(db, id, db.blocks[id]).Ok?
    ensures var db' := RemoveBlock(db, id, db.blocks[id]).value;
            && Books(env, db') && SameRest(db, db') && db'.nextBlock == db.nextBlock
            && db'.blocks == db.blocks - {id}
  {
    hide Core, RemoveBlock;
    RemoveKeeps(db, env, id);
  }

  lemma HealKeeps(env: Env, s: Sys, id: nat, s': Sys)
    requires SysInv(env, s) && s.mode != Recovering
    requires id in s.db.blocks && RemoveBlock(s.db, id, s.db.blocks[id]) == Ok(s'.db)
    requires s' == s.(db := s'.db)
    ensures SysInv(env, s')
  {
    hide Books, RemoveBlock, Placed, SamePacks;
    HealBooks(env, s.db, id);
    DbKeeps(env, s, s');
  }

  lemma MovedPlaced(env: Env, s: Sys, c: Copy, id: nat, now: BlockLoc)
    requires SysInv(env, s) && id in s.db.blocks && c in s.copies && MovedBy(c, id, s.db.blocks[id], now)
    ensures Placed(env, s.disk, now) && Accepts(s.db, now.pack)
  {
    hide RecordOk, Books, StoredForGood, WritersOk, ReadersOk, FilesOk, DeadOk, Bounds, WriterOk;
    var was, from := s.db.blocks[id], c.pick.from;
    assert Placed(env, s.disk, was) && CopyOk(env, s, c);
    RecordsAgree(env, s.disk[was.pack].data, was, from);
    RecordOkSame(env, s.disk[now.pack].data, now, c.to);
  }

  lemma MoveKeeps(env: Env, s: Sys, s': Sys)
    requires SysInv(env, s) && s.mode != Recovering && Moved(s.db, s'.db, env, s.copies)
    requires s' == s.(db := s'.db, picks := {}, copies := {})
    ensures SysInv(env, s')
  {
    hide Inv, Placed, SysInv, MovedBy, SamePacks;
    forall id | id in s'.db.blocks ensures Placed(env, s.disk, s'.db.blocks[id]) {
      MovedRow(env, s, s'.db, id);
    }
    forall id | id in s'.db.blocks && s'.db.blocks[id].pack in s'.db.packs
      ensures s'.db.packs[s'.db.blocks[id].pack].state != Retired
    {
      MovedRow(env, s, s'.db, id);
    }
    DbKeeps(env, s, s');
  }

  lemma MovedRow(env: Env, s: Sys, db': Db, id: nat)
    requires SysInv(env, s) && Moved(s.db, db', env, s.copies) && id in db'.blocks
    ensures Placed(env, s.disk, db'.blocks[id]) && Accepts(db', db'.blocks[id].pack)
  {
    hide RecordOk, Ids, Inverse, Lengths, Acct, StoredForGood, WritersOk, ReadersOk, FilesOk, DeadOk, Bounds,
         WriterOk, MovedBy, LiveBelow;
    if db'.blocks[id] == s.db.blocks[id] {
      assert Placed(env, s.disk, s.db.blocks[id]);
    } else {
      var c :| c in s.copies && MovedBy(c, id, s.db.blocks[id], db'.blocks[id]);
      MovedPlaced(env, s, c, id, db'.blocks[id]);
    }
  }

  // ---- Commits that change pack rows ----

  /** Pack rows may change freely as long as rows with blocks keep their totals and are not retired. */
  lemma PacksKeep(env: Env, db: Db, db': Db)
    requires Books(env, db) && db' == db.(packs := db'.packs, nextPack := db'.nextPack, clean := db'.clean)
    requires forall p :: p in db'.packs ==>
               || (p in db.packs && db'.packs[p].live == db.packs[p].live)
               || (db'.packs[p].live == 0 && NoBlockIn(db, p))
    requires forall p :: Accepts(db, p) ==> Accepts(db', p) || NoBlockIn(db, p)
    ensures Books(env, db')
  {
    hide BlockLen, BlockCount, Refs, LiveBelow;
    forall p | p in db'.packs ensures db'.packs[p].live == LiveBelow(db.blocks, p, db.nextBlock) {
      if !(p in db.packs && db'.packs[p].live == db.packs[p].live) {
        LiveNone(db.blocks, p, db.nextBlock);
      }
    }
    forall id | id in db'.blocks ensures Accepts(db', db.blocks[id].pack) {
      assert Accepts(db, db.blocks[id].pack);
    }
  }

  lemma NewPackEmpty(env: Env, s: Sys)
    requires SysInv(env, s) && s.mode != Recovering
    ensures s.nextPack !in s.db.packs && s.nextPack !in s.disk && NoBlockIn(s.db, s.nextPack)
  {
    hide Books, StoredForGood, WritersOk, CompactionOk, ReadersOk, FilesOk, DeadOk, RecordOk;
    forall id | id in s.db.blocks ensures s.db.blocks[id].pack != s.nextPack {
      assert Placed(env, s.disk, s.db.blocks[id]);
    }
  }

  /** The hypothesis on registration: the current pack is not one that was retired meanwhile. */
  ghost predicate CurrentLives(s: Sys) {
    Current(s).Some? && Current(s).value in s.db.packs ==> s.db.packs[Current(s).value].state != Retired
  }

  lemma RegisterBooks(env: Env, s: Sys)
    requires SysInv(env, s) && s.mode != Recovering && CurrentLives(s)
    ensures Books(env, Registered(s.db, Current(s), s.nextPack))
  {
    hide Books, SysInv, NoBlockIn;
    NewPackEmpty(env, s);
    assert Books(env, s.db) by { SysBooks(env, s); }
    PacksKeep(env, s.db, Registered(s.db, Current(s), s.nextPack));
  }

  lemma SysBooks(env: Env, s: Sys)
    requires SysInv(env, s)
    ensures Books(env, s.db) && Books(env, s.durable)
    ensures Stored(env, s.disk, s.db) && StoredForGood(env, s.disk, s.durable)
  {
  }

  /** What writers, compaction and readers rely on, over a commit that changes pack rows. */
  lemma RowsStep(env: Env, s: Sys, s': Sys)
    requires WritersOk(env, s) && CompactionOk(env, s) && ReadersOk(env, s)
    requires s'.disk == s.disk && s'.writers == s.writers && s'.picks == s.picks && s'.copies == s.copies
    requires s'.readers == s.readers && s'.gen == s.gen && s'.retired <= s.retired
    requires forall p :: Used(s, p) ==> Used(s', p) && (Accepts(s'.db, p) ==> Accepts(s.db, p))
    requires s.copies == {} || forall p :: Accepts(s.db, p) ==> Accepts(s'.db, p)
    ensures WritersOk(env, s') && CompactionOk(env, s') && ReadersOk(env, s')
  {
    hide Placed, RecordOk, Accepts, Used;
    ReadersSame(env, s, s');
    forall v, loc | v in s'.writers && loc in s'.writers[v] ensures Writable(env, s', loc) {
      assert Writable(env, s, loc);
    }
    forall k | k in s'.picks ensures PickOk(env, s', k) { assert PickOk(env, s, k); }
    forall c | c in s'.copies ensures CopyOk(env, s', c) { assert CopyOk(env, s, c); }
  }

  lemma RegisterKeeps(env: Env, s: Sys)
    requires SysInv(env, s) && s.mode != Recovering && s.lock == Free && CurrentLives(s)
    ensures SysInv(env, AfterRegister(s))
  {
    hide Books, Stored, StoredForGood, FilesOk, WritersOk, CompactionOk, ReadersOk, NoBlockIn;
    var s' := AfterRegister(s);
    NewPackEmpty(env, s);
    RegisterBooks(env, s);
    assert Stored(env, s.disk, s'.db) by { StoredSame(env, s.disk, s.db, s'.db); }
    FilesSame2(s, s');
    RowsStep(env, s, s');
  }

  lemma FilesSame2(s: Sys, s': Sys)
    requires FilesOk(s) && s'.disk == s.disk && Current(s') == Current(s)
    requires s.lock == Free && s'.lock != Flushing && s'.mode == s.mode
    ensures FilesOk(s')
  {
  }

  lemma StoredSame(env: Env, disk: Disk, db: Db, db': Db)
    requires Stored(env, disk, db) && db'.blocks == db.blocks
    ensures Stored(env, disk, db')
  {
  }

  lemma RecordNonEmpty(env: Env, file: bytes, loc: BlockLoc)
    requires RecordOk(env, file, loc)
    ensures file != []
  {
  }

  /** Once everything is synced, what is stored would survive a crash. */
  lemma SyncedIsLasting(env: Env, s: Sys, db: Db)
    requires FilesOk(s) && s.lock == Flushing && Stored(env, s.disk, s.db) && db.blocks == s.db.blocks
    ensures Stored(env, s.disk, db) && StoredForGood(env, s.disk, db)
  {
    hide RecordOk;
    forall id | id in db.blocks ensures Lasting(env, s.disk, db.blocks[id]) && Placed(env, s.disk, db.blocks[id]) {
      var f := s.disk[db.blocks[id].pack];
      assert Placed(env, s.disk, db.blocks[id]);
      assert f.data[..f.synced] == f.data;
      RecordNonEmpty(env, f.data, db.blocks[id]);
    }
  }

  lemma FlushCommitKeeps(env: Env, s: Sys, clean: nat)
    requires SysInv(env, s) && s.mode == Running && s.lock == Flushing
    ensures SysInv(env, AfterFlush(s, s.db.(clean := clean)).(mode := if clean == 0 then Running else Closed))
  {
    hide Books, Stored, StoredForGood, FilesOk, WritersOk, CompactionOk, ReadersOk, NoBlockIn;
    var db := s.db.(clean := clean);
    var s' := AfterFlush(s, db).(mode := if clean == 0 then Running else Closed);
    PacksKeep(env, s.db, db);
    SyncedIsLasting(env, s, db);
    FlushedFiles(s, s');
    RowsStep(env, s, s');
  }

  lemma FlushedFiles(s: Sys, s': Sys)
    requires FilesOk(s) && s.lock == Flushing && s'.disk == s.disk && s'.mode != Recovering
    ensures FilesOk(s')
  {
  }

  lemma RetireBooks(env: Env, db: Db, p: nat)
    requires Books(env, db) && p in db.packs && db.packs[p] == PackInfo(0, Sealed)
    ensures NoBlockIn(db, p) && Books(env, db.(packs := db.packs[p := PackInfo(0, Retired)]))
  {
    NoLiveNoBlocks(db, p);
    hide Books;
    PacksKeep(env, db, db.(packs := db.packs[p := PackInfo(0, Retired)]));
  }

  lemma RetireKeeps(env: Env, s: Sys, p: nat)
    requires SysInv(env, s) && s.mode == Running && s.lock == Flushing && s.copies == {} && s.retiring.None?
    requires p in s.db.packs && s.db.packs[p] == PackInfo(0, Sealed)
    ensures SysInv(env, AfterRetire(s, p))
  {
    hide Books, Stored, StoredForGood, FilesOk, WritersOk, CompactionOk, ReadersOk, NoBlockIn;
    var s' := AfterRetire(s, p);
    RetireBooks(env, s.db, p);
    SyncedIsLasting(env, s, s'.db);
    FlushedFiles(s, s');
    RowsStep(env, s, s');
  }

  // ---- Reclamation and readers ----

  lemma RetiredIsEmpty(env: Env, db: Db, p: nat)
    requires Books(env, db) && RetiredIn(db, p)
    ensures NoBlockIn(db, p)
  {
  }

  /** No block lies in a pack that was ever retired. */
  lemma DeadIsEmpty(env: Env, s: Sys, p: nat)
    requires SysInv(env, s) && p in s.dead
    ensures NoBlockIn(s.db, p) && NoBlockIn(s.durable, p)
  {
    hide Books, Stored, StoredForGood, WritersOk, CompactionOk, ReadersOk, FilesOk, RetiredIn;
    RetiredIsEmpty(env, s.db, p);
    RetiredIsEmpty(env, s.durable, p);
  }

  lemma AdvanceKeeps(env: Env, s: Sys)
    requires SysInv(env, s) && s.mode != Recovering && s.retiring.Some?
    ensures SysInv(env, AfterAdvance(s, s.retiring.value))
  {
    hide Books, Stored, StoredForGood, FilesOk, NoBlockIn, Accepts, RetiredIn, Placed, PickOk, Writable;
    var s' := AfterAdvance(s, s.retiring.value);
    FilesSame(s, s');
    WritersSame(env, s, s');
    CompactionSame(env, s, s');
    forall r | r in s'.readers ensures ReaderOk(env, s', s'.readers[r]) {
      assert ReaderOk(env, s, s.readers[r]);
    }
  }

  lemma CompactionSame(env: Env, s: Sys, s': Sys)
    requires CompactionOk(env, s)
    requires s'.disk == s.disk && s'.lock == s.lock && s'.nextPack == s.nextPack && s'.db == s.db
    requires s'.picks == s.picks && s'.copies == s.copies
    ensures CompactionOk(env, s')
  {
    hide PickOk, Placed, Accepts;
    forall k | k in s'.picks ensures PickOk(env, s', k) { PickSame(env, s, s', k); }
    forall c | c in s'.copies ensures CopyOk(env, s', c) {
      assert CopyOk(env, s, c);
      PickSame(env, s, s', c.pick);
    }
  }

  /** Steps that touch only the registry of readers. */
  lemma ReadersKeep(env: Env, s: Sys, readers: map<nat, Reader>)
    requires SysInv(env, s) && s.mode != Recovering
    requires forall r :: r in readers ==> ReaderOk(env, s, readers[r])
    ensures SysInv(env, s.(readers := readers))
  {
    hide Books, Stored, StoredForGood, FilesOk, NoBlockIn, Accepts, RetiredIn, WritersOk, CompactionOk;
    var s' := s.(readers := readers);
    FilesSame(s, s');
    WritersSame(env, s, s');
    CompactionSame(env, s, s');
    forall r | r in s'.readers ensures ReaderOk(env, s', s'.readers[r]) {
      assert ReaderOk(env, s, readers[r]);
    }
  }

  /** A snapshot taken now is readable, and has no block in any pack already queued for deletion. */
  lemma SnapshotOk(env: Env, s: Sys, gen: nat)
    requires SysInv(env, s) && gen <= s.gen
    ensures ReaderOk(env, s, Reader(gen, Some(s.db)))
  {
    hide Inv, Stored, StoredForGood, FilesOk, NoBlockIn, Accepts, RetiredIn, WritersOk, CompactionOk;
    forall q | q in s.retired && q.1 <= gen ensures NoBlockIn(s.db, q.0) { DeadIsEmpty(env, s, q.0); }
  }

  lemma SnapKeeps(env: Env, s: Sys, r: nat)
    requires SysInv(env, s) && s.mode != Recovering && r in s.readers
    ensures SysInv(env, s.(readers := s.readers[r := s.readers[r].(snap := Some(s.db))]))
  {
    hide Books, Stored, StoredForGood, FilesOk, NoBlockIn, WritersOk, CompactionOk, DeadOk, WriterOk;
    assert ReaderOk(env, s, s.readers[r]);
    SnapshotOk(env, s, s.readers[r].gen);
    ReadersKeep(env, s, s.readers[r := s.readers[r].(snap := Some(s.db))]);
  }

  lemma StoredWithout(env: Env, disk: Disk, db: Db, p: nat)
    requires NoBlockIn(db, p)
    ensures Stored(env, disk, db) ==> Stored(env, disk - {p}, db)
    ensures StoredForGood(env, disk, db) ==> StoredForGood(env, disk - {p}, db)
  {
    hide RecordOk;
    if Stored(env, disk, db) {
      forall id | id in db.blocks ensures Placed(env, disk - {p}, db.blocks[id]) {
        assert Placed(env, disk, db.blocks[id]);
      }
    }
    if StoredForGood(env, disk, db) {
      forall id | id in db.blocks ensures Lasting(env, disk - {p}, db.blocks[id]) {
        assert Lasting(env, disk, db.blocks[id]);
      }
    }
  }

  /** The rule for deleting a file spares every running read. */
  lemma DeleteReaders(env: Env, s: Sys, p: nat, g: nat)
    requires SysInv(env, s) && (p, g) in s.retired && forall r :: r in s.readers ==> s.readers[r].gen >= g
    ensures forall r :: r in s.readers && s.readers[r].snap.Some? ==> NoBlockIn(s.readers[r].snap.value, p)
    ensures ReadersOk(env, s.(disk := s.disk - {p}))
  {
    hide Books, Stored, StoredForGood, FilesOk, NoBlockIn, WritersOk, CompactionOk, DeadOk, WriterOk;
    forall r | r in s.readers && s.readers[r].snap.Some?
      ensures NoBlockIn(s.readers[r].snap.value, p) && Stored(env, s.disk - {p}, s.readers[r].snap.value)
    {
      assert ReaderOk(env, s, s.readers[r]) && (p, g).1 <= s.readers[r].gen;
      StoredWithout(env, s.disk, s.readers[r].snap.value, p);
    }
    forall r | r in s.readers ensures ReaderOk(env, s.(disk := s.disk - {p}), s.readers[r]) {
      assert ReaderOk(env, s, s.readers[r]);
    }
  }

  lemma DeleteOthers(env: Env, s: Sys, p: nat)
    requires WritersOk(env, s) && CompactionOk(env, s) && !Accepts(s.db, p)
    ensures WritersOk(env, s.(disk := s.disk - {p})) && CompactionOk(env, s.(disk := s.disk - {p}))
  {
    hide RecordOk;
    var s' := s.(disk := s.disk - {p});
    forall v, loc | v in s'.writers && loc in s'.writers[v] ensures Writable(env, s', loc) {
      assert Writable(env, s, loc);
    }
    forall k | k in s'.picks ensures PickOk(env, s', k) { assert PickOk(env, s, k); }
    forall c | c in s'.copies ensures CopyOk(env, s', c) { assert CopyOk(env, s, c); }
  }

  lemma DeleteKeeps(env: Env, s: Sys, p: nat, g: nat)
    requires SysInv(env, s) && s.mode != Recovering
    requires (p, g) in s.retired && forall r :: r in s.readers ==> s.readers[r].gen >= g
    ensures SysInv(env, s.(disk := s.disk - {p}))
  {
    hide Books, Stored, StoredForGood, NoBlockIn, WritersOk, CompactionOk, ReadersOk;
    assert (p, g).0 in s.dead && RetiredIn(s.db, p);
    DeadIsEmpty(env, s, p);
    StoredWithout(env, s.disk, s.db, p);
    StoredWithout(env, s.disk, s.durable, p);
    DeleteReaders(env, s, p, g);
    DeleteOthers(env, s, p);
  }

  lemma RemoveRowKeeps(env: Env, s: Sys, p: nat, g: nat)
    requires SysInv(env, s) && s.mode != Recovering && (p, g) in s.retired && p !in s.disk
    ensures SysInv(env, AfterRemoveRow(s, p, g))
  {
    hide Books, Stored, StoredForGood, FilesOk, NoBlockIn, WritersOk, CompactionOk, ReadersOk;
    var s' := AfterRemoveRow(s, p, g);
    assert (p, g).0 in s.dead && RetiredIn(s.db, p);
    DeadIsEmpty(env, s, p);
    PacksKeep(env, s.db, s'.db);
    StoredSame(env, s.disk, s.db, s'.db);
    FilesSame(s, s');
    RowsStep(env, s, s');
  }

  // ---- Crash and recovery ----

  lemma CrashStored(env: Env, disk: Disk, disk': Disk, db: Db)
    requires StoredForGood(env, disk, db) && Survives(disk, disk')
    ensures Stored(env, disk', db) && StoredForGood(env, disk', db)
  {
    hide RecordOk;
    forall id | id in db.blocks
      ensures Placed(env, disk', db.blocks[id]) && Lasting(env, disk', db.blocks[id])
    {
      var loc := db.blocks[id];
      assert Lasting(env, disk, loc);
      var f, f' := disk[loc.pack], disk'[loc.pack];
      RecordOkStays(env, f.data[..f.synced], f'.data, loc);
      assert f'.data[..f'.synced] == f'.data;
    }
  }

  lemma CrashKeeps(env: Env, s: Sys, disk: Disk)
    requires SysInv(env, s) && Survives(s.disk, disk)
    ensures SysInv(env, Crashed(s.durable, disk, s.dead))
  {
    hide Books, Stored, StoredForGood, NoBlockIn;
    CrashStored(env, s.disk, disk, s.durable);
  }

  lemma RecoverDeleteKeeps(env: Env, s: Sys, p: nat)
    requires SysInv(env, s) && s.mode == Recovering && RetiredIn(s.durable, p)
    ensures SysInv(env, s.(disk := s.disk - {p}))
  {
    hide Books, Stored, StoredForGood, NoBlockIn;
    RetiredIsEmpty(env, s.durable, p);
    StoredWithout(env, s.disk, s.durable, p);
  }

  /** A pack with live bytes has a block, and so its file. */
  lemma {:induction false} SomeLive(b: map<nat, BlockLoc>, p: nat, n: nat)
    requires LiveBelow(b, p, n) > 0
    ensures exists id :: id in b && b[id].pack == p
  {
    if Share(b, n - 1, p) == 0 { SomeLive(b, p, n - 1); }
  }

  /** Recovery never finds a pack missing. */
  lemma NoPackMissing(env: Env, s: Sys)
    requires SysInv(env, s)
    ensures !PackMissing(s.durable, s.disk)
  {
    hide RecordOk, Ids, Inverse, Lengths, Acct, Stored, WritersOk, CompactionOk, ReadersOk, FilesOk;
    forall p | p in s.durable.packs && s.durable.packs[p].live != 0 ensures p in s.disk {
      SomeLive(s.durable.blocks, p, s.durable.nextBlock);
      var id :| id in s.durable.blocks && s.durable.blocks[id].pack == p;
      assert Lasting(env, s.disk, s.durable.blocks[id]);
    }
  }

  lemma RecoveryBooks(env: Env, s: Sys, resume: Option<nat>)
    requires SysInv(env, s)
    ensures Books(env, s.durable.(packs := RecoveredPacks(s.durable, s.disk, resume), clean := 0))
  {
    hide RecordOk, Books, Stored, WritersOk, CompactionOk, ReadersOk, FilesOk, WriterOk, DeadOk, Bounds;
    forall p | p !in s.disk ensures NoBlockIn(s.durable, p) {
      forall id | id in s.durable.blocks ensures s.durable.blocks[id].pack != p {
        assert Lasting(env, s.disk, s.durable.blocks[id]);
      }
    }
    hide NoBlockIn, StoredForGood;
    PacksKeep(env, s.durable, s.durable.(packs := RecoveredPacks(s.durable, s.disk, resume), clean := 0));
  }

  lemma RecoveryKeeps(env: Env, s: Sys, seen: nat, resume: Option<nat>)
    requires SysInv(env, s) && s.mode == Recovering
    requires forall p :: p in s.durable.packs || p in s.disk ==> p <= seen
    requires Resumes(OnDisk(s.durable, s.disk), resume)
    ensures SysInv(env, AfterRecovery(s, seen, resume))
  {
    hide Books, Stored, StoredForGood, NoBlockIn;
    var s' := AfterRecovery(s, seen, resume);
    RecoveryBooks(env, s, resume);
    StoredSame(env, s.disk, s.db, s'.db);
    StoredForGoodSame(env, s.disk, s.durable, s'.durable);
  }

  lemma StoredForGoodSame(env: Env, disk: Disk, db: Db, db': Db)
    requires StoredForGood(env, disk, db) && db'.blocks == db.blocks
    ensures StoredForGood(env, disk, db')
  {
  }
}
