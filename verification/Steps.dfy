/** Running the code is a step of the store: each method here takes the store in a state that its steps
    can reach, runs the code's transaction or tracker call, and ends in the next state. */
module Steps {
  import opened Base
  import opened Ledger
  import opened Segments
  import opened Index
  import opened Meaning
  import opened Codec
  import opened Commits
  import opened Writes
  import opened PutFiles
  import opened System
  import opened Safety
  import opened Runs
  import opened Compaction
  import opened Tracker
  import Recover
  import Healing
  import WriteAll

  // ---- Commits ----

  lemma TxnMore(db: Db, db': Db, env: Env, mine: set<BlockLoc>, more: set<BlockLoc>)
    requires Txn(db, db', env, mine) && mine <= more
    ensures Txn(db, db', env, more)
  {
    hide Inv, SamePacks;
  }

  lemma CommitIsStep(env: Env, s: Sys, w: nat, mine: set<BlockLoc>, db': Db, op: Op)
    requires SysInv(env, s) && s.mode == Running && mine <= Mine(s, w) && Txn(s.db, db', env, mine)
    requires NewAccepted(s.db, db') && Edits(op, s.db, db', env)
    ensures Step(env, s, Commit(w, op), s.(db := db')) && SysInv(env, s.(db := db'))
  {
    hide SysInv, Txn, Moved, Copied, Genuine, RecordOk, NoneRetired, Edits, NewAccepted;
    TxnMore(s.db, db', env, mine, Mine(s, w));
    CommitKeeps(env, s, w, s.(db := db'));
  }

  /** Without records of its own a transaction has no new rows. */
  lemma NoRecords(db: Db, db': Db, env: Env)
    requires Txn(db, db', env, {})
    ensures NewAccepted(db, db')
  {
    hide Inv;
  }

  lemma IndexOk(env: Env, s: Sys)
    requires SysInv(env, s)
    ensures Inv(s.db, env) && NoneRetired(s.db) && Books(env, s.db)
  {
    hide Inv, NoneRetired;
  }

  /** `set_len`. */
  method SetLenStep(t: Tables, f: FileId, len: nat, ghost s: Sys, ghost env: Env) returns (r: Result<()>, ghost s': Sys)
    requires t.Valid() && t.bs == env.bs && SysInv(env, s) && s.mode == Running && t.View() == s.db
    modifies t
    ensures t.Valid() && s' == s.(db := t.View()) && SysInv(env, s')
    ensures if r.Ok? then Step(env, s, Commit(0, OpSetLen(f, len)), s') else s' == s
  {
    hide SysInv, Flat, Inv, NoneRetired, Txn, Edits, Contents, Step, NewAccepted;
    IndexOk(env, s);
    r := SetLen(t, f, len, env);
    s' := s.(db := t.View());
    if r.Ok? {
      NoRecords(s.db, t.View(), env);
      CommitIsStep(env, s, 0, {}, t.View(), OpSetLen(f, len));
    }
  }

  /** `delete`. */
  method DeleteStep(t: Tables, f: FileId, ghost s: Sys, ghost env: Env) returns (r: Result<()>, ghost s': Sys)
    requires t.Valid() && t.bs == env.bs && SysInv(env, s) && s.mode == Running && t.View() == s.db
    modifies t
    ensures t.Valid() && s' == s.(db := t.View()) && SysInv(env, s')
    ensures if r.Ok? then Step(env, s, Commit(0, OpDelete(f)), s') else s' == s
  {
    hide SysInv, Flat, Inv, NoneRetired, Txn, Edits, Contents, Step, NewAccepted;
    IndexOk(env, s);
    r := Delete(t, f, env);
    s' := s.(db := t.View());
    if r.Ok? {
      NoRecords(s.db, t.View(), env);
      CommitIsStep(env, s, 0, {}, t.View(), OpDelete(f));
    }
  }

  /** The commit of `write_chunk` by writer `w`, from records it appended. */
  method WriteStep(t: Tables, f: FileId, first: nat, chunk: bytes, recs: map<Hash, BlockLoc>, ghost w: nat, ghost s: Sys,
                   env: Env)
    returns (r: Result<Option<seq<nat>>>, ghost s': Sys)
    requires t.Valid() && t.bs == env.bs && SysInv(env, s) && s.mode == Running && t.View() == s.db && CollisionFree(env)
    requires RecordsFor(recs, env) && recs.Values <= Mine(s, w) && chunk != [] && AllKnown(env, Chunks(chunk, env.bs))
    modifies t
    ensures t.Valid() && s' == s.(db := t.View()) && SysInv(env, s')
    ensures if r.Ok? && r.value.None? then Step(env, s, Commit(w, OpWrite(f, first, Chunks(chunk, env.bs))), s') else s' == s
  {
    hide SysInv, Flat, Inv, NoneRetired, Txn, Edits, Contents, Step, NewAccepted, Chunks, CollisionFree, AllKnown,
         RecordsFor,
         Mine, ValidateWrite, MissingAre, Written;
    IndexOk(env, s);
    r := WriteChunk(t, f, first, chunk, recs, env);
    s' := s.(db := t.View());
    if r.Ok? && r.value.None? {
      CommitIsStep(env, s, w, recs.Values, t.View(), OpWrite(f, first, Chunks(chunk, env.bs)));
    }
  }

  /** The committing round of a writer that retries is a step from the state the writer met. */
  lemma RetryIsStep(env: Env, s: Sys, w: nat, db': Db, f: FileId, first: nat, chunk: bytes, recs: map<Hash, BlockLoc>)
    requires SysInv(env, s) && s.mode == Running && recs.Values <= Mine(s, w)
    requires WriteAll.ChunkCommitted(s.db, db', env, f, first, chunk, recs)
    ensures Step(env, s, Commit(w, OpWrite(f, first, Chunks(chunk, env.bs))), s.(db := db')) && SysInv(env, s.(db := db'))
  {
    hide SysInv, Step, Txn, Edits, NewAccepted, Contents, Chunks, ValidateWrite, NoneRetired, Mine;
    CommitIsStep(env, s, w, recs.Values, db', OpWrite(f, first, Chunks(chunk, env.bs)));
  }

  /** `put_files`: a batch that commits is a step of the store if and only if it is good. */
  method PutStep(t: Tables, files: Batch, recs: map<Hash, BlockLoc>, ghost w: nat, ghost s: Sys, env: Env)
    returns (r: Result<Option<seq<nat>>>, ghost s': Sys)
    requires t.Valid() && t.bs == env.bs && SysInv(env, s) && s.mode == Running && t.View() == s.db && CollisionFree(env)
    requires RecordsFor(recs, env) && recs.Values <= Mine(s, w) && Distinct(files)
    requires forall k :: 0 <= k < |files| ==> AllKnown(env, Chunks(files[k].1, env.bs))
    modifies t
    ensures t.Valid() && s' == s.(db := t.View())
    ensures if r.Ok? && r.value.None?
            then Step(env, s, Commit(w, BatchOp(files, env.bs)), s') <==> GoodBatch(s.db, env, recs, files)
            else s' == s
    ensures GoodBatch(s.db, env, recs, files) ==> SysInv(env, s')
  {
    hide SysInv, Flat, Inv, NoneRetired, Txn, Edits, Contents, Step, NewAccepted, Chunks, CollisionFree, AllKnown,
         RecordsFor,
         Mine, PutAll, GoodBatch, AllReady, BatchOp, Distinct;
    IndexOk(env, s);
    r := PutFilesCommit(t, files, recs, env);
    s' := s.(db := t.View());
    if r.Ok? && r.value.None? {
      if GoodBatch(s.db, env, recs, files) {
        NoneRetiredAccepted(s.db, t.View(), env, recs.Values);
        CommitIsStep(env, s, w, recs.Values, t.View(), BatchOp(files, env.bs));
      } else if Step(env, s, Commit(w, BatchOp(files, env.bs)), s') {
        StepAccepts(env, s, w, BatchOp(files, env.bs), s');
        OldIds(env, s);
        AcceptedNoneRetired(s.db, t.View(), env, recs.Values);
      }
    }
  }

  lemma StepAccepts(env: Env, s: Sys, w: nat, op: Op, s': Sys)
    requires s.mode == Running && Step(env, s, Commit(w, op), s')
    ensures NewAccepted(s.db, s'.db)
  {
    hide Txn, Moved, Copied, Genuine, RecordOk, NoneRetired, Edits, NewAccepted;
  }

  lemma OldIds(env: Env, s: Sys)
    requires Inv(s.db, env)
    ensures Ids(s.db)
  {
  }

  // ---- Healing and compaction ----

  /** `heal`. */
  method HealStep(t: Tables, id: nat, loc: BlockLoc, ghost s: Sys, env: Env) returns (removed: bool, ghost s': Sys)
    requires t.Valid() && t.bs == env.bs && SysInv(env, s) && s.mode != Recovering && t.View() == s.db
    modifies t
    ensures t.Valid() && s' == s.(db := t.View()) && SysInv(env, s')
    ensures if removed then Step(env, s, Heal(id), s') else s' == s
  {
    hide SysInv, Flat, Inv, NoneRetired, Contents, Step, RemoveBlock, Forgets, SameRest, Books;
    IndexOk(env, s);
    removed := Healing.Heal(t, id, loc, env);
    s' := s.(db := t.View());
    if removed { HealIsStep(env, s, id, s'); }
  }

  lemma HealIsStep(env: Env, s: Sys, id: nat, s': Sys)
    requires SysInv(env, s) && s.mode != Recovering && id in s.db.blocks
    requires RemoveBlock(s.db, id, s.db.blocks[id]) == Ok(s'.db) && s' == s.(db := s'.db)
    ensures Step(env, s, Heal(id), s') && SysInv(env, s')
  {
    hide SysInv, Txn, Moved, Copied, Genuine, RecordOk, RemoveBlock, Edits, NewAccepted;
    HealKeeps(env, s, id, s');
  }

  /** The commit of `move_records`, for the records compaction picked and copied. */
  method MoveStep(env: Env, db: Db, live: seq<LiveRecord>, places: seq<(nat, nat)>, ghost s: Sys)
    returns (db': Db, ghost s': Sys)
    requires SysInv(env, s) && s.mode == Running && s.db == db && DistinctPicks(live) && |places| == |live|
    requires s.copies == set c | c in CopiesOf(live, places)
    ensures s' == s.(db := db', picks := {}, copies := {}) && Step(env, s, Move, s') && SysInv(env, s')
    ensures MovedExactly(db, db', CopiesOf(live, places)) && Contents(db', env) == Contents(db, env)
  {
    hide SysInv, Inv, Step, Contents, MovedExactly, DistinctPicks, DistinctIds, NoneRetired, Moved, CopiesOf;
    IndexOk(env, s);
    var copies := CopiesOf(live, places);
    PickedDistinct(live, places);
    CopiesPlaced(env, s, copies);
    var r := MoveRecords(env, db, copies);
    db' := r.value;
    s' := s.(db := db', picks := {}, copies := {});
    MoveIsStep(env, db, db', copies);
    MoveDone(env, s, s');
    MoveInvisible(env, db, db', s.copies);
  }

  lemma CopiesPlaced(env: Env, s: Sys, copies: seq<Copy>)
    requires SysInv(env, s) && s.copies == set c | c in copies
    ensures forall c :: c in copies ==> c.to.pack in s.db.packs
  {
    hide Books, Stored, StoredForGood, WritersOk, ReadersOk, Bounds, FilesOk, WriterOk, DeadOk, Placed, PickOk;
    forall c | c in copies ensures c.to.pack in s.db.packs { assert CopyOk(env, s, c); }
  }

  lemma MoveDone(env: Env, s: Sys, s': Sys)
    requires SysInv(env, s) && s.mode == Running && Moved(s.db, s'.db, env, s.copies)
    requires s' == s.(db := s'.db, picks := {}, copies := {})
    ensures Step(env, s, Move, s') && SysInv(env, s')
  {
    hide SysInv, Txn, Moved, Copied, Genuine, RecordOk, RemoveBlock, Edits, NewAccepted;
    Safety.MoveKeeps(env, s, s');
  }

  // ---- Reads and deletion ----

  /** The tracker is the store's: its generation, and its running reads. */
  ghost predicate TrackerOf(tracker: ReadTracker, s: Sys)
    reads tracker
  {
    tracker.Valid() && tracker.generation == s.gen && Tracks(tracker.running, s.readers)
  }

  /** A read begins. */
  method EnterStep(tracker: ReadTracker, ghost r: nat, ghost s: Sys, ghost env: Env) returns (g: nat, ghost s': Sys)
    requires TrackerOf(tracker, s) && s.mode != Recovering && r !in s.readers
    modifies tracker
    ensures TrackerOf(tracker, s') && Step(env, s, Enter(r), s') && s'.readers[r].gen == g
  {
    hide Tracks, Txn, Moved, Copied, Genuine, RecordOk, RemoveBlock, Edits, NewAccepted;
    g := tracker.Enter();
    EnterTracks(old(tracker.running), s.readers, r, g);
    s' := s.(readers := s.readers[r := Reader(g, None)]);
  }

  /** A read takes its snapshot, which the tracker does not see. */
  lemma SnapStep(tracker: ReadTracker, r: nat, s: Sys, env: Env, s': Sys)
    requires TrackerOf(tracker, s) && s.mode != Recovering && Step(env, s, Snap(r), s')
    ensures TrackerOf(tracker, s')
  {
    hide Tracks, Txn, Moved, Copied, Genuine, RecordOk, RemoveBlock, Edits, NewAccepted;
    SnapTracks(tracker.running, s.readers, r, s.db);
  }

  /** A read ends. */
  method LeaveStep(tracker: ReadTracker, g: nat, ghost r: nat, ghost s: Sys, ghost env: Env) returns (ghost s': Sys)
    requires TrackerOf(tracker, s) && s.mode != Recovering && r in s.readers && s.readers[r].gen == g
    modifies tracker
    ensures TrackerOf(tracker, s') && Step(env, s, Exit(r), s')
  {
    hide Tracks, Txn, Moved, Copied, Genuine, RecordOk, RemoveBlock, Edits, NewAccepted;
    LeaveTracks(tracker.running, s.readers, r);
    tracker.Leave(g);
    s' := s.(readers := s.readers - {r});
  }

  /** A retired pack is queued. */
  method AdvanceStep(tracker: ReadTracker, ghost s: Sys, ghost env: Env) returns (g: nat, ghost s': Sys)
    requires TrackerOf(tracker, s) && s.mode == Running && s.retiring.Some?
    modifies tracker
    ensures TrackerOf(tracker, s') && Step(env, s, Advance, s') && (s.retiring.value, g) in s'.retired
  {
    hide Tracks, Txn, Moved, Copied, Genuine, RecordOk, RemoveBlock, Edits, NewAccepted;
    g := tracker.Advance();
    s' := AfterAdvance(s, s.retiring.value);
  }

  /** The tracker lets a queued pack's file go exactly when the store's deletion step may happen. */
  method DeleteFileStep(tracker: ReadTracker, pack: nat, g: nat, ghost s: Sys, ghost env: Env)
    returns (clear: bool, ghost s': Sys)
    requires TrackerOf(tracker, s) && s.mode == Running && (pack, g) in s.retired
    ensures s' == s.(disk := s.disk - {pack}) && (clear <==> Step(env, s, DeleteFile(pack, g), s'))
  {
    hide Tracks, Txn, Moved, Copied, Genuine, RecordOk, RemoveBlock, Edits, NewAccepted;
    clear := tracker.IsClearBefore(g);
    ClearIsGuard(tracker.running, s.readers, g);
    s' := s.(disk := s.disk - {pack});
  }

  // ---- Recovery ----

  /** The files `recover` deletes go one step at a time. */
  lemma {:induction false} SweepSteps(env: Env, db: Db, disk: Disk, disk': Disk, dead: set<nat>)
    returns (run: seq<Sys>, events: seq<Event>)
    requires Recover.Swept(db, disk, disk')
    ensures Steps(env, run, events) && |run| == |events| + 1
    ensures run[0] == Crashed(db, disk, dead) && run[|events|] == Crashed(db, disk', dead)
    decreases disk.Keys - disk'.Keys
  {
    hide Step, Steps, Crashed, RetiredIn;
    if p :| p in disk && p !in disk' {
      var rest := disk'[p := disk[p]];
      assert disk.Keys - rest.Keys == disk.Keys - disk'.Keys - {p} && p in disk.Keys - disk'.Keys;
      run, events := SweepSteps(env, db, disk, rest, dead);
      assert rest - {p} == disk';
      SweepStep(env, db, rest, dead, p);
      StepsThen(env, run, events, RecoverDelete(p), Crashed(db, disk', dead));
      run, events := run + [Crashed(db, disk', dead)], events + [RecoverDelete(p)];
    } else {
      assert disk' == disk;
      run, events := [Crashed(db, disk, dead)], [];
      NoSteps(env, run[0]);
    }
  }

  lemma SweepStep(env: Env, db: Db, disk: Disk, dead: set<nat>, p: nat)
    requires RetiredIn(db, p)
    ensures Step(env, Crashed(db, disk, dead), RecoverDelete(p), Crashed(db, disk - {p}, dead))
  {
    hide RunningStep;
  }

  /** `recover` on what a crash left: it does not fail, and the recovery steps lead to the state it sets up. */
  method RecoverSteps(db: Db, disk: Disk, stuck: set<nat>, ghost dead: set<nat>, ghost env: Env)
    returns (r: Result<Recover.Recovered>, ghost run: seq<Sys>, ghost events: seq<Event>)
    requires SysInv(env, Crashed(db, disk, dead))
    ensures r.Ok? && Steps(env, run, events) && |run| == |events| + 1 && run[0] == Crashed(db, disk, dead)
    ensures var s := run[|events|];
            && s.mode == Running && s.db == s.durable == r.value.db && s.disk == r.value.disk
            && s.active == r.value.resume && s.nextPack == r.value.next
  {
    hide PackMissing, Resumes, RecoveredPacks, OnDisk, RunningStep, Steps, SysInv, Recover.Swept, Survives;
    NoPackMissing(env, Crashed(db, disk, dead));
    r := Recover.Recover(db, disk, stuck);
    var v := r.value;
    run, events := SweepSteps(env, db, disk, v.disk, dead);
    ghost var s := Crashed(db, v.disk, dead);
    ghost var s' := AfterRecovery(s, v.seen, v.resume);
    SeenAll(db, disk, v.disk, v.seen);
    assert Step(env, s, RecoverFinish(v.seen), s');
    StepsThen(env, run, events, RecoverFinish(v.seen), s');
    run, events := run + [s'], events + [RecoverFinish(v.seen)];
  }

  lemma SeenAll(db: Db, disk: Disk, disk': Disk, seen: nat)
    requires Recover.Swept(db, disk, disk') && forall p :: p in db.packs || p in disk ==> p <= seen
    ensures forall p :: p in db.packs || p in disk' ==> p <= seen
  {
  }
}
