/** A run of the store that ends where `put_files` commits a block into a retired pack. */
module StaleRun {
  import opened Base
  import opened Ledger
  import opened Meaning
  import opened Codec
  import opened System
  import opened Runs
  import opened Commits
  import opened PutFiles
  import opened LostHit
  import Reseal

  /** The records of `x` and `y` made from their frames. */
  function Rec(env: Env, x: bytes, fx: bytes): EncodedBlock { FromFrame(env, x, env.hash(x), fx) }

  ghost predicate Encodes(env: Env, x: bytes, fx: bytes) {
    env.known(x) && |x| == env.bs && env.unzip(fx) == Some(x) && Rec(env, x, fx).header.Fits()
  }

  // ---- The states ----

  /** Writer 1 has appended its record of `y` to pack 1. */
  function First(la: BlockLoc, ry: bytes): Sys {
    AfterWrite(AfterStart(AfterRegister(Reseal.Start()), 1, true), ry).(writers := map[1 := {la}])
  }

  /** Pack 2 is open and holds the records of `x` and `y` that writer 0 has appended. */
  function Second(la: BlockLoc, ry: bytes, both: bytes, lx: BlockLoc, ly: BlockLoc): Sys {
    AfterWrite(Open(la, ry), both).(writers := map[1 := {la}, 0 := {lx, ly}])
  }

  function Open(la: BlockLoc, ry: bytes): Sys { AfterStart(AfterRegister(First(la, ry)), 2, true) }

  /** Writer 0 has committed the file, and then pack 1 is retired. */
  function Last(s: Sys, db: Db): Sys { AfterAdvance(AfterRetire(AfterSync(s.(db := db)), 1), 1) }

  lemma FirstFacts(la: BlockLoc, ry: bytes)
    ensures First(la, ry) == Reseal.Start().(
              db := Fresh().db.(packs := map[1 := PackInfo(0, Active)], nextPack := 2),
              disk := map[1 := PackFile(ry, 0, true)], active := Some(1), nextPack := 2, writers := map[1 := {la}])
  {
    Reseal.Facts(la, ry);
    assert [] + ry == ry;
  }

  lemma OpenFacts(la: BlockLoc, ry: bytes)
    ensures Open(la, ry) == First(la, ry).(
              db := Fresh().db.(packs := map[1 := PackInfo(0, Sealed), 2 := PackInfo(0, Active)], nextPack := 3),
              disk := map[1 := PackFile(ry, |ry|, true), 2 := PackFile([], 0, true)], active := Some(2), nextPack := 3)
  {
    FirstFacts(la, ry);
    Reseal.Facts(la, ry);
  }

  lemma SecondFacts(la: BlockLoc, ry: bytes, both: bytes, lx: BlockLoc, ly: BlockLoc)
    ensures Second(la, ry, both, lx, ly) == Open(la, ry).(
              disk := map[1 := PackFile(ry, |ry|, true), 2 := PackFile(both, 0, true)],
              writers := map[1 := {la}, 0 := {lx, ly}])
  {
    hide Open;
    OpenFacts(la, ry);
    assert [] + both == both;
  }

  // ---- The steps ----

  lemma FirstSteps(env: Env, la: BlockLoc, ry: bytes)
    requires la.pack == 1 && la.refcount == 0 && Genuine(la, env) && RecordOk(env, ry, la)
    ensures var s := AfterStart(AfterRegister(Reseal.Start()), 1, true);
            && Step(env, s, Write(ry), AfterWrite(s, ry))
            && Step(env, AfterWrite(s, ry), Issue(1, la), First(la, ry))
  {
    hide Step, Genuine, RecordOk;
    Reseal.Facts(la, ry);
    FirstFacts(la, ry);
    var s := AfterStart(AfterRegister(Reseal.Start()), 1, true);
    Reseal.DoWrite(env, s, ry);
    Reseal.DoIssue(env, AfterWrite(s, ry), 1, la);
    assert Mine(s, 1) + {la} == {la};
  }

  lemma OpenSteps(env: Env, la: BlockLoc, ry: bytes)
    ensures var s := First(la, ry);
            && Step(env, s, Register, AfterRegister(s)) && Step(env, AfterRegister(s), StartOk, Open(la, ry))
            && Allowed(s, Register)
  {
    hide Step, AfterStart, First;
    FirstFacts(la, ry);
    Reseal.Facts(la, ry);
    Reseal.DoRegister(env, First(la, ry));
    Reseal.DoStart(env, AfterRegister(First(la, ry)));
  }

  lemma SecondSteps(env: Env, la: BlockLoc, ry: bytes, both: bytes, lx: BlockLoc, ly: BlockLoc)
    requires lx.pack == 2 && lx.refcount == 0 && Genuine(lx, env) && RecordOk(env, both, lx)
    requires ly.pack == 2 && ly.refcount == 0 && Genuine(ly, env) && RecordOk(env, both, ly)
    ensures var a := AfterWrite(Open(la, ry), both);
            var b := a.(writers := a.writers[0 := {lx}]);
            && Step(env, Open(la, ry), Write(both), a) && Step(env, a, Issue(0, lx), b)
            && Step(env, b, Issue(0, ly), Second(la, ry, both, lx, ly))
  {
    hide Step, Genuine, RecordOk, Open;
    OpenFacts(la, ry);
    FirstFacts(la, ry);
    Reseal.Facts(la, ry);
    SecondFacts(la, ry, both, lx, ly);
    var s := Open(la, ry);
    var a := AfterWrite(s, both);
    var b := a.(writers := a.writers[0 := {lx}]);
    Reseal.DoWrite(env, s, both);
    assert a.disk[2].data == both;
    Reseal.DoIssue(env, a, 0, lx);
    assert Mine(a, 0) + {lx} == {lx};
    Reseal.DoIssue(env, b, 0, ly);
    assert Mine(b, 0) + {ly} == {lx, ly};
    assert b.writers[0 := {lx, ly}] == map[1 := {la}, 0 := {lx, ly}];
  }

  /** The file of writer 0: `x`, then `y`. */
  function Both(f: FileId, x: bytes, y: bytes): Op { OpReplace([(f, FileContent(|x| + |y|, [Some(x), Some(y)]))]) }

  lemma CommitEdits(env: Env, f: FileId, x: bytes, y: bytes, sx: nat, sy: nat, db: Db)
    requires CollisionFree(env) && env.known(x) && env.known(y) && x != y && env.bs > 0
    requires db == Fresh().db.(packs := map[1 := PackInfo(0, Sealed), 2 := PackInfo(0, Active)], nextPack := 3)
    ensures var now := WithOther(env, f, x, y, sx, sy, Sealed);
            Edits(Both(f, x, y), db, now, env) && NewAccepted(db, now)
  {
    TwoHashes(env, x, y);
    hide CollisionFree;
    var now, c := WithOther(env, f, x, y, sx, sy, Sealed), FileContent(|x| + |y|, [Some(x), Some(y)]);
    var files := [(f, c)];
    assert HoldsHash(now, f, 0, env.hash(x)) && HoldsHash(now, f, 1, env.hash(y));
    assert RowHolds(now, env, f, c);
    assert files[0].0 in (set k | 0 <= k < |files| :: files[k].0);
  }

  lemma CommitTxn(env: Env, f: FileId, x: bytes, y: bytes, sx: nat, sy: nat, db: Db)
    requires Inv(WithOther(env, f, x, y, sx, sy, Sealed), env)
    requires db == Fresh().db.(packs := map[1 := PackInfo(0, Sealed), 2 := PackInfo(0, Active)], nextPack := 3)
    ensures Txn(db, WithOther(env, f, x, y, sx, sy, Sealed), env, {RowX(env, x, sx), RowY(env, x, y, sx, sy)})
  {
    hide Inv;
  }

  lemma LastSteps(env: Env, s: Sys, f: FileId, x: bytes, y: bytes, sx: nat, sy: nat)
    requires CollisionFree(env) && env.known(x) && env.known(y) && x != y && |x| == |y| == env.bs
    requires s.mode == Running && s.lock == Free && s.copies == {} && s.retiring.None? && s.gen == 0
    requires s.db == Fresh().db.(packs := map[1 := PackInfo(0, Sealed), 2 := PackInfo(0, Active)], nextPack := 3)
    requires Mine(s, 0) == {RowX(env, x, sx), RowY(env, x, y, sx, sy)}
    ensures var c := s.(db := WithOther(env, f, x, y, sx, sy, Sealed));
            var r := AfterRetire(AfterSync(c), 1);
            && Step(env, s, Commit(0, Both(f, x, y)), c) && Step(env, c, FlushSync, AfterSync(c))
            && Step(env, AfterSync(c), Retire(1), r) && Step(env, r, Advance, Last(s, c.db))
            && Last(s, c.db).db == WithOther(env, f, x, y, sx, sy, Retired)
  {
    hide Step, Inv, NoneRetired, Txn, Edits, NewAccepted, CollisionFree, TwoBlocks;
    TwoBlocksBooks(env, f, x, y, sx, sy);
    OtherBooks(env, f, x, y, sx, sy, Sealed);
    var c := s.(db := WithOther(env, f, x, y, sx, sy, Sealed));
    CommitTxn(env, f, x, y, sx, sy, s.db);
    CommitEdits(env, f, x, y, sx, sy, s.db);
    Reseal.DoCommit(env, s, c.db, Both(f, x, y));
    Reseal.DoSync(env, c);
    Reseal.DoRetire(env, AfterSync(c), 1);
    assert c.db.packs[1 := PackInfo(0, Retired)] == WithOther(env, f, x, y, sx, sy, Retired).packs;
  }

  lemma StartSteps(env: Env, la: BlockLoc, ry: bytes)
    requires la.pack == 1 && la.refcount == 0 && Genuine(la, env) && RecordOk(env, ry, la)
    ensures Step(env, Fresh(), RecoverFinish(0), Reseal.Start())
    ensures var s := AfterRegister(Reseal.Start());
            Step(env, Reseal.Start(), Register, s) && Step(env, s, StartOk, AfterStart(s, 1, true))
    ensures Allowed(Reseal.Start(), Register)
  {
    hide Step, Genuine, RecordOk;
    Reseal.FirstSteps(env, la, ry);
    Reseal.MiddleSteps(env, la, ry);
    Reseal.Facts(la, ry);
  }

  /** Where each record lies and reads back. */
  lemma RecordsRead(env: Env, x: bytes, y: bytes, fx: bytes, fy: bytes)
    requires CollisionFree(env) && Encodes(env, x, fx) && Encodes(env, y, fy)
    ensures var rx, ry := RecordBytes(Rec(env, x, fx)), RecordBytes(Rec(env, y, fy));
            var sx, sy := |Rec(env, x, fx).payload|, |Rec(env, y, fy).payload|;
            && Genuine(Stale(env, y, sy), env) && RecordOk(env, ry, Stale(env, y, sy))
            && Genuine(RowX(env, x, sx), env) && RecordOk(env, rx + ry, RowX(env, x, sx))
            && Genuine(RowY(env, x, y, sx, sy), env) && RecordOk(env, rx + ry, RowY(env, x, y, sx, sy))
  {
    hide Genuine, RecordOk, EncodeHeader;
    var rx, ry := RecordBytes(Rec(env, x, fx)), RecordBytes(Rec(env, y, fy));
    var sx, sy := |Rec(env, x, fx).payload|, |Rec(env, y, fy).payload|;
    assert ry <= ry[0..] && rx <= (rx + ry)[0..] && (rx + ry)[|rx|..] == ry;
    AppendedReads(env, ry, y, fy, Stale(env, y, sy));
    AppendedReads(env, rx + ry, x, fx, RowX(env, x, sx));
    AppendedReads(env, rx + ry, y, fy, RowY(env, x, y, sx, sy));
  }

  /** From a new store, without any failure: writer 1 finds `y` not stored and appends it, writer 0 stores `xy`
      from records of its own, and the pack of writer 1 is retired before it commits. Its batch `[(f, y)]` then
      passes the check, and commits a block into the retired pack. */
  lemma StaleReached(env: Env, f: FileId, x: bytes, y: bytes, fx: bytes, fy: bytes)
    returns (run: seq<Sys>, events: seq<Event>)
    requires CollisionFree(env) && Encodes(env, x, fx) && Encodes(env, y, fy) && x != y && env.bs > 0
    ensures SafeRun(env, run, events)
    ensures var s, recs := run[|events|], StaleRecord(env, y, |Rec(env, y, fy).payload|);
            && s.mode == Running && recs.Values <= Mine(s, 1) && RecordsFor(recs, env)
            && AllReady(s.db, env, recs, [(f, y)])
            && FoundBatch(s.db, env, recs, [(f, y)]) && !GoodBatch(s.db, env, recs, [(f, y)])
  {
    hide Step, AfterStart, AfterRegister, AfterRetire, AfterSync, AfterWrite, First, Open, Second, Last, RecordOk, Genuine,
         CollisionFree, AllReady, FoundBatch, GoodBatch, RecordsFor, WithOther, Rec, RecordBytes, Encodes;
    EncodesParts(env, x, fx);
    EncodesParts(env, y, fy);
    var rx, ry := RecordBytes(Rec(env, x, fx)), RecordBytes(Rec(env, y, fy));
    var sx, sy := |Rec(env, x, fx).payload|, |Rec(env, y, fy).payload|;
    var la, lx, ly := Stale(env, y, sy), RowX(env, x, sx), RowY(env, x, y, sx, sy);
    RecordsRead(env, x, y, fx, fy);
    StartSteps(env, la, ry);
    FirstSteps(env, la, ry);
    OpenSteps(env, la, ry);
    SecondSteps(env, la, ry, rx + ry, lx, ly);
    var s := Second(la, ry, rx + ry, lx, ly);
    SecondIs(la, ry, rx + ry, lx, ly);
    LastSteps(env, s, f, x, y, sx, sy);
    StaleHit(env, f, x, y, sx, sy);
    var c := s.(db := WithOther(env, f, x, y, sx, sy, Sealed));
    var begun, open := AfterStart(AfterRegister(Reseal.Start()), 1, true), Open(la, ry);
    var a := AfterWrite(open, rx + ry);
    run := [Fresh(), Reseal.Start(), AfterRegister(Reseal.Start()), begun, AfterWrite(begun, ry), First(la, ry),
            AfterRegister(First(la, ry)), open, a, a.(writers := a.writers[0 := {lx}]), s,
            c, AfterSync(c), AfterRetire(AfterSync(c), 1), Last(s, c.db)];
    events := [RecoverFinish(0), Register, StartOk, Write(ry), Issue(1, la), Register, StartOk,
               Write(rx + ry), Issue(0, lx), Issue(0, ly), Commit(0, Both(f, x, y)), FlushSync, Retire(1), Advance];
    LastIs(s, c.db, la);
  }

  lemma EncodesParts(env: Env, x: bytes, fx: bytes)
    requires Encodes(env, x, fx)
    ensures env.known(x) && |x| == env.bs && Rec(env, x, fx).header.Fits()
  {
  }

  lemma SecondIs(la: BlockLoc, ry: bytes, both: bytes, lx: BlockLoc, ly: BlockLoc)
    ensures var s := Second(la, ry, both, lx, ly);
            && s.mode == Running && s.lock == Free && s.copies == {} && s.retiring.None? && s.gen == 0
            && s.db == Fresh().db.(packs := map[1 := PackInfo(0, Sealed), 2 := PackInfo(0, Active)], nextPack := 3)
            && Mine(s, 0) == {lx, ly} && Mine(s, 1) == {la}
  {
    hide First, Open, Second;
    SecondFacts(la, ry, both, lx, ly);
    OpenFacts(la, ry);
    FirstFacts(la, ry);
    Reseal.Facts(la, ry);
  }

  lemma LastIs(s: Sys, db: Db, la: BlockLoc)
    requires s.mode == Running && Mine(s, 1) == {la}
    ensures Last(s, db).mode == Running && Mine(Last(s, db), 1) == {la}
  {
  }
}
