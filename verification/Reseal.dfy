/** Why registration needs its hypothesis: a run in which a failed sync lets a retired pack be sealed
    again, so that a committed block loses its file. */
module Reseal {
  import opened Base
  import opened Manifest
  import opened Ledger
  import opened Meaning
  import opened Codec
  import opened System
  import opened Safety
  import opened Runs

  const FILE: FileId := FileId([])

  /** Pack 1 has been retired and sealed again, pack 3 is open; one file has its one block in pack 1. */
  function Committed(loc: BlockLoc, len: nat): Db {
    Db(map[FILE := FileRow(len, [1])], map[1 := loc.(refcount := 1)], map[loc.hash := 1],
       map[1 := PackInfo(loc.RecordLen(), Sealed), 2 := PackInfo(0, Active), 3 := PackInfo(0, Active)], 2, 4, 0)
  }

  lemma CommittedBooks(env: Env, loc: BlockLoc, len: nat)
    requires env.bs > 0 && 0 < len <= env.bs && Genuine(loc, env) && loc.rawLen == len && loc.pack == 1
    ensures Inv(Committed(loc, len), env) && NoneRetired(Committed(loc, len))
  {
    hide BlockCount, BlockLen, DivCeil;
    var db := Committed(loc, len);
    OneBlock(len, env.bs);
    assert Refs(db.files, 1) == {(FILE, 0)};
    forall p | p in db.packs ensures db.packs[p].live == LiveBelow(db.blocks, p, 2) {
      assert LiveBelow(db.blocks, p, 2) == LiveBelow(db.blocks, p, 0) + Share(db.blocks, 0, p) + Share(db.blocks, 1, p);
    }
  }

  lemma OneBlock(len: nat, bs: nat)
    requires 0 < len <= bs
    ensures BlockCount(len, bs) == 1 && BlockLen(len, bs, 0) == len
  {
    CeilBounds(len, bs);
  }

  /** The state after recovery of a new store, then after each of the events below. */
  function Start(): Sys { AfterRecovery(Fresh(), 0, None) }

  function Appended(loc: BlockLoc, rec: bytes): Sys {
    var s := AfterStart(AfterRegister(Start()), 1, true);
    AfterWrite(s, rec).(writers := map[0 := {loc}])
  }

  function Abandoned(loc: BlockLoc, rec: bytes): Sys {
    AfterAbandon(AfterRegister(Appended(loc, rec)), [])
  }

  function RetiredAnyway(loc: BlockLoc, rec: bytes): Sys {
    AfterAdvance(AfterRetire(AfterSync(Abandoned(loc, rec)), 1), 1)
  }

  function Resealed(loc: BlockLoc, rec: bytes): Sys {
    AfterStart(AfterRegister(RetiredAnyway(loc, rec)), 3, true)
  }

  lemma Facts(loc: BlockLoc, rec: bytes)
    ensures Start() == Crashed(Fresh().db, map[], {}).(mode := Running, nextPack := 1)
    ensures Appended(loc, rec) == Start().(
              db := Fresh().db.(packs := map[1 := PackInfo(0, Active)], nextPack := 2),
              disk := map[1 := PackFile(rec, 0, true)], active := Some(1), nextPack := 2,
              writers := map[0 := {loc}])
    ensures Abandoned(loc, rec) == Appended(loc, rec).(
              db := Fresh().db.(packs := map[1 := PackInfo(0, Sealed), 2 := PackInfo(0, Active)], nextPack := 3),
              active := None, abandoned := Some(1), nextPack := 3)
  {
    assert RecoveredPacks(Fresh().db, map[], None) == map[];
    assert [] + rec == rec && rec + [] == rec;
  }

  lemma MoreFacts(loc: BlockLoc, rec: bytes)
    ensures RetiredAnyway(loc, rec) == Abandoned(loc, rec).(
              db := RetiredAnyway(loc, rec).db, durable := RetiredAnyway(loc, rec).db,
              disk := map[1 := PackFile(rec, |rec|, true)], gen := 1, retired := {(1, 1)}, dead := {1})
    ensures RetiredAnyway(loc, rec).db
            == Fresh().db.(packs := map[1 := PackInfo(0, Retired), 2 := PackInfo(0, Active)], nextPack := 3)
    ensures Resealed(loc, rec) == RetiredAnyway(loc, rec).(
              db := Fresh().db.(packs := map[1 := PackInfo(0, Sealed), 2 := PackInfo(0, Active), 3 := PackInfo(0, Active)],
                                nextPack := 4),
              disk := map[1 := PackFile(rec, |rec|, true), 3 := PackFile([], 0, true)],
              active := Some(3), abandoned := None, nextPack := 4)
  {
    Facts(loc, rec);
  }

  // Single steps from running states.

  lemma DoRegister(env: Env, s: Sys)
    requires s.mode == Running && s.lock == Free
    ensures Step(env, s, Register, AfterRegister(s))
  {
  }

  lemma DoStart(env: Env, s: Sys)
    requires s.mode == Running && s.lock.Registering?
    ensures Step(env, s, StartOk, AfterStart(s, s.lock.id, true))
    ensures Current(s).Some? ==> Step(env, s, StartSyncFails([]), AfterAbandon(s, []))
  {
  }

  lemma DoRetire(env: Env, s: Sys, p: nat)
    requires s.mode == Running && s.lock == Flushing && s.copies == {} && s.retiring.None?
    requires p in s.db.packs && s.db.packs[p] == PackInfo(0, Sealed)
    ensures var r := AfterRetire(s, p);
            Step(env, s, Retire(p), r) && Step(env, r, Advance, AfterAdvance(r, p))
  {
  }

  lemma DoWrite(env: Env, s: Sys, more: bytes)
    requires s.mode == Running && s.lock == Free && s.active.Some?
    ensures Step(env, s, Write(more), AfterWrite(s, more))
  {
    hide Txn, Moved, Copied, Genuine, RecordOk, NoneRetired, Edits, NewAccepted;
  }

  lemma DoIssue(env: Env, s: Sys, w: nat, loc: BlockLoc)
    requires s.mode == Running && loc.pack in s.disk && loc.refcount == 0
    requires Genuine(loc, env) && RecordOk(env, s.disk[loc.pack].data, loc)
    ensures Step(env, s, Issue(w, loc), s.(writers := s.writers[w := Mine(s, w) + {loc}]))
  {
    hide Txn, Moved, Copied, Genuine, RecordOk, NoneRetired, Edits, NewAccepted;
  }

  lemma StartStep(env: Env)
    ensures Step(env, Fresh(), RecoverFinish(0), Start())
  {
    hide RunningStep;
  }

  lemma FirstSteps(env: Env, loc: BlockLoc, rec: bytes)
    requires loc.pack == 1 && loc.refcount == 0 && Genuine(loc, env) && RecordOk(env, rec, loc)
    ensures Step(env, Fresh(), RecoverFinish(0), Start())
    ensures var s := AfterStart(AfterRegister(Start()), 1, true);
            && Step(env, s, Write(rec), AfterWrite(s, rec))
            && Step(env, AfterWrite(s, rec), Issue(0, loc), Appended(loc, rec))
  {
    hide Genuine, RecordOk, Step;
    StartStep(env);
    Facts(loc, rec);
    var s := AfterStart(AfterRegister(Start()), 1, true);
    DoWrite(env, s, rec);
    DoIssue(env, AfterWrite(s, rec), 0, loc);
    assert [] + rec == rec;
    assert Mine(s, 0) + {loc} == {loc};
  }

  lemma MiddleSteps(env: Env, loc: BlockLoc, rec: bytes)
    ensures var s := AfterRegister(Start());
            Step(env, Start(), Register, s) && Step(env, s, StartOk, AfterStart(s, 1, true))
    ensures var s := AfterRegister(Appended(loc, rec));
            Step(env, Appended(loc, rec), Register, s) && Step(env, s, StartSyncFails([]), Abandoned(loc, rec))
    ensures var s := AfterSync(Abandoned(loc, rec));
            && Step(env, s, Retire(1), AfterRetire(s, 1))
            && Step(env, AfterRetire(s, 1), Advance, RetiredAnyway(loc, rec))
  {
    hide Step;
    Facts(loc, rec);
    DoRegister(env, Start());
    DoStart(env, AfterRegister(Start()));
    DoRegister(env, Appended(loc, rec));
    DoStart(env, AfterRegister(Appended(loc, rec)));
    DoRetire(env, AfterSync(Abandoned(loc, rec)), 1);
  }

  lemma DoSync(env: Env, s: Sys)
    requires s.mode == Running && s.lock == Free
    ensures Step(env, s, FlushSync, AfterSync(s))
  {
    hide Txn, Moved, Copied, Genuine, RecordOk, NoneRetired;
  }

  lemma ResealSteps(env: Env, loc: BlockLoc, rec: bytes)
    ensures Step(env, Abandoned(loc, rec), FlushSync, AfterSync(Abandoned(loc, rec)))
    ensures var s := RetiredAnyway(loc, rec);
            Step(env, s, Register, AfterRegister(s)) && Step(env, AfterRegister(s), StartOk, Resealed(loc, rec))
  {
    hide Step, RetiredAnyway, Abandoned, Appended, Start;
    Facts(loc, rec);
    DoSync(env, Abandoned(loc, rec));
    MoreFacts(loc, rec);
    DoRegister(env, RetiredAnyway(loc, rec));
    DoStart(env, AfterRegister(RetiredAnyway(loc, rec)));
  }

  lemma DoCommit(env: Env, s: Sys, db: Db, op: Op)
    requires s.mode == Running && Txn(s.db, db, env, Mine(s, 0)) && NewAccepted(s.db, db) && Edits(op, s.db, db, env)
    ensures Step(env, s, Commit(0, op), s.(db := db))
  {
    hide Txn, Moved, Copied, Genuine, RecordOk, NoneRetired, Edits, NewAccepted, Contents;
  }

  /** The commit puts the one file into the store. */
  function TheFile(env: Env, loc: BlockLoc, len: nat): Op {
    OpReplace([(FILE, FileContent(len, [Some(env.content(loc.hash))]))])
  }

  lemma CommittedEdits(env: Env, db: Db, loc: BlockLoc, len: nat)
    requires db.files == map[] && db.blocks == map[] && db.nextBlock <= 1 && env.bs > 0 && Genuine(loc, env)
    requires loc.pack in db.packs && db.packs[loc.pack].state != Retired
    ensures Edits(TheFile(env, loc, len), db, Committed(loc, len), env) && NewAccepted(db, Committed(loc, len))
  {
    var now, c := Committed(loc, len), FileContent(len, [Some(env.content(loc.hash))]);
    var files := [(FILE, c)];
    assert RowHolds(now, env, FILE, c);
    assert files[0].0 in (set k | 0 <= k < |files| :: files[k].0);
  }

  lemma DoDelete(env: Env, s: Sys, p: nat, g: nat)
    requires s.mode == Running && (p, g) in s.retired && s.readers == map[]
    ensures Step(env, s, DeleteFile(p, g), s.(disk := s.disk - {p}))
  {
    hide Txn, Moved, Copied, Genuine, RecordOk, NoneRetired;
  }

  lemma CommittedTxn(env: Env, db: Db, loc: BlockLoc, len: nat)
    requires Inv(Committed(loc, len), env) && loc.refcount == 0
    requires db == Fresh().db.(
                     packs := map[1 := PackInfo(0, Sealed), 2 := PackInfo(0, Active), 3 := PackInfo(0, Active)], nextPack := 4)
    ensures Txn(db, Committed(loc, len), env, {loc})
  {
    hide Inv;
  }

  lemma LastSteps(env: Env, loc: BlockLoc, rec: bytes, len: nat)
    requires env.bs > 0 && 0 < len <= env.bs && Genuine(loc, env) && loc.rawLen == len
    requires loc.pack == 1 && loc.refcount == 0
    ensures var s := Resealed(loc, rec).(db := Committed(loc, len));
            && Step(env, Resealed(loc, rec), Commit(0, TheFile(env, loc, len)), s)
            && Step(env, s, DeleteFile(1, 1), s.(disk := s.disk - {1}))
  {
    hide Genuine, Inv, Step, Txn, Edits, NewAccepted, Contents, Committed, Resealed, RetiredAnyway, Abandoned,
         Appended, Start;
    MoreFacts(loc, rec);
    Facts(loc, rec);
    CommittedBooks(env, loc, len);
    var s := Resealed(loc, rec);
    assert Mine(s, 0) == {loc};
    CommittedTxn(env, s.db, loc, len);
    CommittedEdits(env, s.db, loc, len);
    DoCommit(env, s, Committed(loc, len), TheFile(env, loc, len));
    DoDelete(env, s.(db := Committed(loc, len)), 1, 1);
  }

  /** The hypothesis cannot be dropped: from a new store, a sync failure between two registrations
      leads to a committed block whose pack file is deleted. */
  lemma ResealLosesBlock(env: Env, data: bytes, frame: bytes) returns (run: seq<Sys>, events: seq<Event>)
    requires CollisionFree(env) && env.known(data) && env.unzip(frame) == Some(data) && 0 < |data| <= env.bs
    requires FromFrame(env, data, env.hash(data), frame).header.Fits()
    ensures Run(env, run, events) && run[|run| - 1].mode == Running
    ensures !Stored(env, run[|run| - 1].disk, run[|run| - 1].db)
    ensures exists i :: 0 <= i < |events| && !Allowed(run[i], events[i])
  {
    hide Step, Stored, AfterStart, AfterRegister, AfterRetire, AfterAdvance, AfterAbandon, AfterWrite, AfterSync,
         Start, Appended, Abandoned, RetiredAnyway, Resealed, Committed, RecordOk, Genuine;
    var block := FromFrame(env, data, env.hash(data), frame);
    var rec := RecordBytes(block);
    var loc := BlockLoc(1, 0, |block.payload|, |data|, 0, env.hash(data));
    assert rec <= rec[0..];
    AppendedReads(env, rec, data, frame, loc);
    FirstSteps(env, loc, rec);
    MiddleSteps(env, loc, rec);
    ResealSteps(env, loc, rec);
    LastSteps(env, loc, rec, |data|);
    var a, b, c := Appended(loc, rec), Abandoned(loc, rec), RetiredAnyway(loc, rec);
    var d := Resealed(loc, rec);
    var e := d.(db := Committed(loc, |data|));
    var open := AfterStart(AfterRegister(Start()), 1, true);
    run := [Fresh(), Start(), AfterRegister(Start()), open, AfterWrite(open, rec), a,
            AfterRegister(a), b, AfterSync(b), AfterRetire(AfterSync(b), 1), c,
            AfterRegister(c), d, e, e.(disk := e.disk - {1})];
    events := [RecoverFinish(0), Register, StartOk, Write(rec), Issue(0, loc), Register, StartSyncFails([]), FlushSync,
               Retire(1), Advance, Register, StartOk,
               Commit(0, TheFile(env, loc, |data|)), DeleteFile(1, 1)];
    LostState(env, loc, rec, |data|);
    assert !Allowed(run[10], events[10]);
  }

  lemma LostState(env: Env, loc: BlockLoc, rec: bytes, len: nat)
    requires loc.pack == 1
    ensures var e := Resealed(loc, rec).(db := Committed(loc, len));
            e.mode == Running && !Stored(env, e.disk - {1}, e.db)
    ensures !CurrentLives(RetiredAnyway(loc, rec))
  {
    MoreFacts(loc, rec);
    Facts(loc, rec);
    var e := Resealed(loc, rec).(db := Committed(loc, len));
    assert !Placed(env, e.disk - {1}, e.db.blocks[1]);
  }
}
