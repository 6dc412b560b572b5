/** `put_files` as a whole: its checks, the rounds of append and commit, and the flush after them. */
module PutRetry {
  import opened Base
  import opened Manifest
  import opened Ledger
  import opened Segments
  import opened Index
  import opened Meaning
  import opened Commits
  import opened Writes
  import opened WriteAll
  import opened PutFiles

  ghost predicate BatchKnown(env: Env, files: Batch)
    requires env.bs > 0
  {
    forall k :: 0 <= k < |files| ==> AllKnown(env, Chunks(files[k].1, env.bs))
  }

  lemma {:induction false} BlocksKnown(env: Env, files: Batch)
    requires env.bs > 0 && BatchKnown(env, files)
    ensures AllKnown(env, AllBlocks(files, env.bs))
  {
    hide Chunks;
    if files != [] {
      var n := |files| - 1;
      BlocksKnown(env, files[..n]);
      assert AllKnown(env, Chunks(files[n].1, env.bs));
    }
  }

  /** What `put_files` refuses before it writes anything. */
  predicate Allowed(files: Batch, bs: nat)
    requires bs > 0
  {
    Distinct(files) && forall k :: 0 <= k < |files| ==> LenFits(|files[k].1|, bs)
  }

  /** What a committed batch did to the store it found. */
  ghost predicate BatchCommitted(before: Db, after: Db, env: Env, files: Batch, recs: map<Hash, BlockLoc>) {
    && env.bs > 0 && Txn(before, after, env, recs.Values)
    && Contents(after, env) == PutAll(Contents(before, env), files, env.bs)
    && Edits(BatchOp(files, env.bs), before, after, env)
    && AllReady(before, env, recs, files) && FoundBatch(before, env, recs, files)
    && (NoneRetired(before) ==> (NoneRetired(after) <==> GoodBatch(before, env, recs, files)))
  }

  /** The commit found every block beforehand, and then a block its own resizing had freed. */
  ghost predicate LostOne(before: Db, env: Env, files: Batch, recs: map<Hash, BlockLoc>) {
    env.bs > 0 && AllReady(before, env, recs, files) && !FoundBatch(before, env, recs, files)
  }

  lemma ReadyAll(db: Db, env: Env, recs: map<Hash, BlockLoc>, files: Batch, blocks: seq<bytes>)
    requires env.bs > 0 && blocks == AllBlocks(files, env.bs)
    ensures AllReady(db, env, recs, files) <==>
            forall j :: 0 <= j < |blocks| ==> Ready(db, recs, Hashes(blocks, env)[j])
  {
    hide Ready;
    forall j | 0 <= j < |blocks| ensures Hashes(blocks, env)[j] == env.hash(blocks[j]) && blocks[j] in blocks { }
    if c :| c in blocks && !Ready(db, recs, env.hash(c)) {
      var j :| 0 <= j < |blocks| && blocks[j] == c;
      assert !Ready(db, recs, Hashes(blocks, env)[j]);
    }
  }

  /** The rounds of `put_files`: append, commit, and again while a record is gone by then. */
  method PutRounds(t: Tables, files: Batch, w: World, env: Env)
    returns (r: Result<()>, next: nat, ghost recs: map<Hash, BlockLoc>)
    requires t.Valid() && t.bs == env.bs && Inv(t.View(), env) && CollisionFree(env)
    requires WorldOk(w, env) && Distinct(files) && BatchKnown(env, files)
    modifies t
    ensures t.Valid() && Inv(t.View(), env) && next <= w.limit
    ensures r.Ok? ==>
              && 0 < next && BatchCommitted(At(w, next - 1, env), t.View(), env, files, recs)
              && RecordsFor(recs, env) && FromRounds(recs, w, 0, next)
    ensures r.Err? ==> t.View() == if next == 0 then old(t.View()) else At(w, next - 1, env)
    ensures r.Err? ==> next == w.limit || (0 < next && LostOne(At(w, next - 1, env), env, files, recs))
    ensures 0 < w.limit && Undisturbed(w, 0, env, AllBlocks(files, env.bs)) ==>
              next == 1 && (r.Ok? <==> FoundBatch(At(w, 0, env), env, recs, files))
  {
    hide Inv, RecordsFor, AllBlocks, Flat, NoneRetired, CollisionFree, AllKnown, BatchKnown, Contents, Ready, WorldOk, Txn,
         Undisturbed, Appended, Without, FromRounds, Sought, Found, MissingAre, ViewOf, Edits, SegsOk, NewAt, Distinct,
         AllReady, FoundBatch, GoodBatch, PutAll, BatchOp, BatchCommitted, LostOne, Hashes;
    next, recs := 0, map[];
    var blocks := AllBlocks(files, env.bs);
    BlocksKnown(env, files);
    var hashes := Hashes(blocks, env);
    var need := FindNew(w.looks(0).dedup, hashes);
    var held: map<Hash, BlockLoc> := map[];
    ghost var seen := w.looks(0).dedup;
    NoRecords(env, w, 0);
    while next < w.limit
      invariant t.Valid() && Inv(t.View(), env) && next <= w.limit
      invariant t.View() == if next == 0 then old(t.View()) else At(w, next - 1, env)
      invariant RecordsFor(held, env) && FromRounds(held, w, 0, next) && Sought(seen, held, hashes, need)
      invariant next == 0 ==> seen == w.looks(0).dedup
      invariant next > 0 ==> !Undisturbed(w, 0, env, blocks)
    {
      AppendFinds(seen, held, hashes, need, w, 0, next);
      WriteAll.AppendRecords(env, held, blocks, need, w, next);
      held := Appended(held, hashes, need, w, next);
      Begin(t, w.states(next), w, next, env);
      if next == 0 && Undisturbed(w, 0, env, blocks) { UndisturbedReady(w, 0, env, blocks, held); }
      ghost var before := t.View();
      ReadyAll(before, env, held, files, blocks);
      next := next + 1;
      recs := held;
      var done := CommitOnce(t, files, held, env);
      if done.Err? { return Err(done.error), next, recs; }
      if done.value.None? { return Ok(()), next, recs; }
      MissingParts(before, held, hashes, done.value.value);
      RetrySought(before, held, hashes, done.value.value, w, 0, next);
      FewerRecords(env, held, hashes, done.value.value);
      seen, held, need := before.dedup, Without(held, hashes, done.value.value), done.value.value;
    }
    return Err(Error.Io), next, recs;
  }

  /** One commit of the loop. */
  method CommitOnce(t: Tables, files: Batch, recs: map<Hash, BlockLoc>, env: Env) returns (r: Result<Option<seq<nat>>>)
    requires t.Valid() && t.bs == env.bs && Inv(t.View(), env) && CollisionFree(env)
    requires RecordsFor(recs, env) && Distinct(files) && BatchKnown(env, files)
    modifies t
    ensures t.Valid() && Inv(t.View(), env)
    ensures r.Err? ==> t.View() == old(t.View()) && LostOne(t.View(), env, files, recs)
    ensures r.Ok? && r.value.Some? ==>
              && t.View() == old(t.View())
              && MissingAre(t.View(), recs, Hashes(AllBlocks(files, env.bs), env), r.value.value)
    ensures r.Ok? && r.value.None? ==> BatchCommitted(old(t.View()), t.View(), env, files, recs)
    ensures r.Err? || r.value.None? ==>
              AllReady(old(t.View()), env, recs, files) && (r.Ok? <==> FoundBatch(old(t.View()), env, recs, files))
  {
    hide Flat, Inv, RecordsFor, AllBlocks, Ready, Contents, NoneRetired, GoodBatch, FoundBatch, CollisionFree, AllKnown,
         PutAll, Distinct, Edits, BatchOp, Txn, AllReady, MissingAre, Hashes, Chunks;
    r := PutFilesCommit(t, files, recs, env);
  }

  /** `put_files`: refused, or one commit of the whole batch into the store its last round met. `done` says
      that it committed; an error after that is the flush's. */
  method PutAllFiles(t: Tables, files: Batch, w: World, env: Env)
    returns (r: Result<()>, done: bool, next: nat, ghost recs: map<Hash, BlockLoc>)
    requires t.Valid() && t.bs == env.bs && Inv(t.View(), env) && CollisionFree(env)
    requires WorldOk(w, env) && BatchKnown(env, files)
    modifies t
    ensures t.Valid() && Inv(t.View(), env)
    ensures !Allowed(files, env.bs) ==> r.Err? && !done && t.View() == old(t.View())
    ensures r.Ok? ==> done
    ensures done ==>
              && 0 < next && BatchCommitted(At(w, next - 1, env), t.View(), env, files, recs)
              && RecordsFor(recs, env) && FromRounds(recs, w, 0, next)
    ensures r.Err? && done ==> !w.flushes(next - 1)
    ensures !done ==> t.View() == if next == 0 then old(t.View()) else At(w, next - 1, env)
    ensures !done && Allowed(files, env.bs) ==>
              next == w.limit || (0 < next && LostOne(At(w, next - 1, env), env, files, recs))
    ensures Allowed(files, env.bs) && 0 < w.limit && Undisturbed(w, 0, env, AllBlocks(files, env.bs)) ==>
              next == 1 && (done <==> FoundBatch(At(w, 0, env), env, recs, files))
  {
    hide Inv, RecordsFor, AllBlocks, Flat, CollisionFree, BatchKnown, WorldOk, Undisturbed, FromRounds, ViewOf, Distinct,
         LenFits, AllReady, FoundBatch, Txn, Contents, PutAll, Edits, BatchOp, NoneRetired, GoodBatch;
    done, next, recs := false, 0, map[];
    r := CheckBatch(files, t.bs);
    if r.Err? { return; }
    r, next, recs := PutRounds(t, files, w, env);
    if r.Err? { return; }
    done := true;
    if !w.flushes(next - 1) { r := Err(Error.Io); }
  }
}
