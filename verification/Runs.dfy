/** The theorems over every run of the store. */
module Runs {
  import opened Base
  import opened Ledger
  import opened Meaning
  import opened Codec
  import opened System
  import opened Safety

  /** The one hypothesis on steps: registration does not reseal a retired pack. */
  ghost predicate Allowed(s: Sys, e: Event) { e.Register? ==> CurrentLives(s) }

  /** The events of the pack writer. */
  predicate OfWriter(e: Event) {
    || e.Register? || e.RegisterFails? || e.StartOk? || e.StartSyncFails? || e.StartCreateFails? || e.StartDirFails?
    || e.Write? || e.AppendFails? || e.FlushSync? || e.FlushFails? || e.FlushAborts? || e.FlushCommit?
  }

  /** The events of reads and of deletion. */
  predicate OfReaders(e: Event) { e.Enter? || e.Snap? || e.Exit? || e.DeleteFile? || e.RemoveRow? || e.Advance? }

  lemma WriterKeeps(env: Env, s: Sys, e: Event, s': Sys)
    requires SysInv(env, s) && s.mode == Running && RunningStep(env, s, e, s') && Allowed(s, e) && OfWriter(e)
    ensures SysInv(env, s')
  {
    hide SysInv, RecordOk, Genuine, Mine, AfterRegister, AfterStart, AfterStartFails, AfterAbandon, AfterWrite, AfterSync,
         AfterFlush;
    match e
    case Register => RegisterKeeps(env, s);
    case RegisterFails => RegisterFailsKeeps(env, s);
    case StartOk => StartKeeps(env, s, true);
    case StartDirFails => StartKeeps(env, s, false);
    case StartCreateFails => StartFailsKeeps(env, s);
    case StartSyncFails(more) => AbandonKeeps(env, s, more);
    case Write(more) => WriteKeeps(env, s, more);
    case AppendFails(more) => AbandonKeeps(env, s, more);
    case FlushSync => SyncKeeps(env, s);
    case FlushFails(more) => AbandonKeeps(env, s, more);
    case FlushAborts => FlushAbortsKeeps(env, s);
    case FlushCommit(clean) => FlushCommitKeeps(env, s, clean);
  }

  lemma ReaderKeeps(env: Env, s: Sys, e: Event, s': Sys)
    requires SysInv(env, s) && s.mode != Recovering && RunningStep(env, s, e, s') && OfReaders(e)
    requires s.mode == Closed ==> e.Enter? || e.Snap? || e.Exit?
    ensures SysInv(env, s')
  {
    hide SysInv, AfterAdvance, AfterRemoveRow;
    match e
    case Advance => AdvanceKeeps(env, s);
    case DeleteFile(p, g) => DeleteKeeps(env, s, p, g);
    case RemoveRow(p, g) => RemoveRowKeeps(env, s, p, g);
    case Enter(r) => EnterKeeps(env, s, r);
    case Snap(r) => SnapKeeps(env, s, r);
    case Exit(r) => ExitKeeps(env, s, r);
  }

  lemma IndexKeeps(env: Env, s: Sys, e: Event, s': Sys)
    requires SysInv(env, s) && s.mode != Recovering && RunningStep(env, s, e, s') && !OfWriter(e) && !OfReaders(e)
    requires s.mode == Closed ==> e.Heal?
    ensures SysInv(env, s')
  {
    hide SysInv, Txn, Edits, NewAccepted, Moved, Copied, Mine, RecordOk, Genuine, AfterRetire, RemoveBlock;
    match e
    case Issue(w, loc) => IssueKeeps(env, s, w, loc);
    case Forget(w, keep) => ForgetKeeps(env, s, w, keep);
    case Commit(w, _) => CommitKeeps(env, s, w, s');
    case Heal(id) => HealKeeps(env, s, id, s');
    case Choose(id) => ChooseKeeps(env, s, id);
    case CopyOut(c) => CopyKeeps(env, s, c);
    case Move => Safety.MoveKeeps(env, s, s');
    case Retire(p) => RetireKeeps(env, s, p);
  }

  lemma RunningStepKeeps(env: Env, s: Sys, e: Event, s': Sys)
    requires SysInv(env, s) && s.mode != Recovering && RunningStep(env, s, e, s') && Allowed(s, e)
    requires s.mode == Closed ==> e.Enter? || e.Snap? || e.Exit? || e.Heal?
    ensures SysInv(env, s')
  {
    hide SysInv, RunningStep;
    if OfWriter(e) { WriterKeeps(env, s, e, s'); }
    else if OfReaders(e) { ReaderKeeps(env, s, e, s'); }
    else { IndexKeeps(env, s, e, s'); }
  }

  lemma EnterKeeps(env: Env, s: Sys, r: nat)
    requires SysInv(env, s) && s.mode != Recovering
    ensures SysInv(env, s.(readers := s.readers[r := Reader(s.gen, None)]))
  {
    hide Books, Stored, StoredForGood, FilesOk, NoBlockIn, WritersOk, CompactionOk, DeadOk, WriterOk;
    ReadersKeep(env, s, s.readers[r := Reader(s.gen, None)]);
  }

  lemma ExitKeeps(env: Env, s: Sys, r: nat)
    requires SysInv(env, s) && s.mode != Recovering
    ensures SysInv(env, s.(readers := s.readers - {r}))
  {
    hide Books, Stored, StoredForGood, FilesOk, NoBlockIn, WritersOk, CompactionOk, DeadOk, WriterOk;
    ReadersKeep(env, s, s.readers - {r});
  }

  /** Every step of the store, crashes and recovery included, keeps the invariant. */
  lemma StepKeeps(env: Env, s: Sys, e: Event, s': Sys)
    requires SysInv(env, s) && Step(env, s, e, s') && Allowed(s, e)
    ensures SysInv(env, s')
  {
    hide SysInv, RunningStep, Survives, Crashed, AfterRecovery, Resumes, PackMissing;
    if e.Crash? {
      CrashKeeps(env, s, s'.disk);
    } else if s.mode == Recovering {
      if e.RecoverDelete? { RecoverDeleteKeeps(env, s, e.pack); }
      else { RecoveryKeeps(env, s, e.seen, s'.active); }
    } else {
      RunningStepKeeps(env, s, e, s');
    }
  }

  lemma FreshInv(env: Env)
    requires env.bs > 0
    ensures SysInv(env, Fresh())
  {
    hide RecordOk;
  }

  ghost predicate SafeRun(env: Env, run: seq<Sys>, events: seq<Event>) {
    env.bs > 0 && Run(env, run, events) && forall i :: 0 <= i < |events| ==> Allowed(run[i], events[i])
  }

  lemma {:induction false} RunInv(env: Env, run: seq<Sys>, events: seq<Event>, i: nat)
    requires SafeRun(env, run, events) && i < |run|
    ensures SysInv(env, run[i])
  {
    hide SysInv, Step, Allowed;
    if i == 0 { FreshInv(env); }
    else {
      RunInv(env, run, events, i - 1);
      StepKeeps(env, run[i - 1], events[i - 1], run[i]);
    }
  }

  // ---- Crash safety ----

  /** After a crash at any point of any run: the durable index is in order, each of its records lies
      whole in the surviving bytes of its pack, no deleted pack is referenced, and recovery does not
      find a pack missing. */
  lemma CrashSafety(env: Env, run: seq<Sys>, events: seq<Event>, i: nat)
    requires SafeRun(env, run, events) && i < |run| && run[i].mode == Recovering
    ensures Inv(run[i].db, env) && Stored(env, run[i].disk, run[i].db)
    ensures forall p :: p in run[i].dead ==> NoBlockIn(run[i].db, p)
    ensures !PackMissing(run[i].durable, run[i].disk)
  {
    RunInv(env, run, events, i);
    NoPackMissing(env, run[i]);
    hide Inv, Stored, Step;
    forall p | p in run[i].dead ensures NoBlockIn(run[i].db, p) { DeadIsEmpty(env, run[i], p); }
  }

  /** Recovery leaves the contents alone, and new packs never collide with a row or a file. */
  lemma RecoverySafety(env: Env, run: seq<Sys>, events: seq<Event>, i: nat)
    requires SafeRun(env, run, events) && i < |events| && events[i].RecoverFinish?
    ensures run[i].mode == Recovering && Contents(run[i + 1].db, env) == Contents(run[i].durable, env)
    ensures Inv(run[i + 1].db, env) && StoredForGood(env, run[i + 1].disk, run[i + 1].db)
    ensures forall p :: p in run[i].durable.packs || p in run[i].disk ==> p < run[i + 1].nextPack
  {
    RunInv(env, run, events, i + 1);
    assert Step(env, run[i], events[i], run[i + 1]);
    hide Inv, StoredForGood, WritersOk, CompactionOk, ReadersOk;
  }

  lemma Bounded(a: set<nat>) returns (n: nat)
    ensures forall p :: p in a ==> p <= n
    decreases a
  {
    if a == {} { n := 0; }
    else {
      var x :| x in a;
      var m := Bounded(a - {x});
      n := Max(m, x);
      forall p | p in a ensures p <= n { assert p == x || p in a - {x}; }
    }
  }

  /** The largest element, if any. */
  lemma Largest(a: set<nat>) returns (n: Option<nat>)
    ensures n.None? ==> a == {}
    ensures n.Some? ==> n.value in a && forall p :: p in a ==> p <= n.value
    decreases a
  {
    if a == {} { n := None; }
    else {
      var x :| x in a;
      var m := Largest(a - {x});
      n := if m.None? || m.value < x then Some(x) else m;
      forall p | p in a ensures p <= n.value { assert p == x || p in a - {x}; }
    }
  }

  /** Recovery can always finish, whatever was left by the crash. */
  lemma RecoveryFinishes(env: Env, run: seq<Sys>, events: seq<Event>, i: nat) returns (seen: nat, after: Sys)
    requires SafeRun(env, run, events) && i < |run| && run[i].mode == Recovering
    ensures Step(env, run[i], RecoverFinish(seen), after) && after.mode == Running
  {
    hide SysInv, RunningStep;
    var s := run[i];
    RunInv(env, run, events, i);
    NoPackMissing(env, s);
    seen := Bounded(s.durable.packs.Keys + s.disk.Keys);
    var packs := map p | p in s.durable.packs && p in s.disk :: s.durable.packs[p];
    var open := set p | p in packs && packs[p].state == Active;
    var newest := Largest(open);
    forall q | q in packs && packs[q].state == Active ensures q in open { }
    var resume := if s.durable.clean == 0 then None else newest;
    assert Resumes(OnDisk(s.durable, s.disk), resume);
    hide PackMissing, Resumes, RecoveredPacks;
    after := AfterRecovery(s, seen, resume);
  }

  // ---- Retirement safety ----

  lemma DeadWriter(env: Env, s: Sys, e: Event, s': Sys)
    requires RunningStep(env, s, e, s') && OfWriter(e)
    ensures s'.dead == s.dead
  {
    hide RecordOk, Registered, Genuine, Mine, Grown, Synced, Current;
  }

  lemma DeadOther(env: Env, s: Sys, e: Event, s': Sys)
    requires RunningStep(env, s, e, s') && !OfWriter(e)
    ensures s.dead <= s'.dead
  {
    hide Txn, Moved, Copied, RemoveBlock, Genuine, Edits, NewAccepted, Mine, Grown;
  }

  lemma DeadGrows(env: Env, s: Sys, e: Event, s': Sys)
    requires Step(env, s, e, s')
    ensures s.dead <= s'.dead
  {
    hide RunningStep, Survives, Resumes, PackMissing, RecoveredPacks, OnDisk;
    if !e.Crash? && s.mode != Recovering {
      if OfWriter(e) { DeadWriter(env, s, e, s'); } else { DeadOther(env, s, e, s'); }
    }
  }

  lemma {:induction false} DeadForever(env: Env, run: seq<Sys>, events: seq<Event>, i: nat, j: nat)
    requires SafeRun(env, run, events) && i <= j < |run|
    ensures run[i].dead <= run[j].dead
  {
    hide Step, Allowed;
    if i < j {
      DeadForever(env, run, events, i, j - 1);
      DeadGrows(env, run[j - 1], events[j - 1], run[j]);
    }
  }

  /** Once a pack is retired no block points into it, now or ever after, in the index or in what a
      crash would leave of it, whoever commits. */
  lemma RetirementSafety(env: Env, run: seq<Sys>, events: seq<Event>, i: nat, j: nat, p: nat)
    requires SafeRun(env, run, events) && i <= j < |run|
    requires p in run[i].db.packs && run[i].db.packs[p].state == Retired
    ensures NoBlockIn(run[j].db, p) && NoBlockIn(run[j].durable, p)
  {
    hide Step, Allowed, Books, Stored, StoredForGood, WritersOk, CompactionOk, ReadersOk, NoBlockIn;
    RunInv(env, run, events, i);
    RunInv(env, run, events, j);
    DeadForever(env, run, events, i, j);
    DeadIsEmpty(env, run[j], p);
  }

  // ---- Reader-safe reclamation ----

  /** A running read's snapshot is in order, and every record of it is in its file, at every point of
      every run. */
  lemma ReaderSafety(env: Env, run: seq<Sys>, events: seq<Event>, i: nat, r: nat)
    requires SafeRun(env, run, events) && i < |run| && r in run[i].readers && run[i].readers[r].snap.Some?
    ensures Inv(run[i].readers[r].snap.value, env) && Stored(env, run[i].disk, run[i].readers[r].snap.value)
  {
    hide Step, Allowed, Inv, Stored, Books, StoredForGood, WritersOk, CompactionOk;
    RunInv(env, run, events, i);
    assert ReaderOk(env, run[i], run[i].readers[r]);
  }

  /** A file is deleted only when neither the index nor any running read has a block in it. */
  lemma DeletionSafety(env: Env, run: seq<Sys>, events: seq<Event>, i: nat, p: nat)
    requires SafeRun(env, run, events) && i < |events| && !events[i].Crash?
    requires p in run[i].disk && p !in run[i + 1].disk
    ensures NoBlockIn(run[i].db, p) && NoBlockIn(run[i].durable, p)
    ensures forall r :: r in run[i].readers && run[i].readers[r].snap.Some? ==>
              NoBlockIn(run[i].readers[r].snap.value, p)
  {
    hide SysInv, NoBlockIn, Txn, Moved, Copied, RecordOk, RemoveBlock, Registered, Resumes, PackMissing, Survives;
    var s, e, s' := run[i], events[i], run[i + 1];
    RunInv(env, run, events, i);
    assert Step(env, s, e, s');
    DeletedBy(env, s, e, s', p);
    if e.DeleteFile? {
      DeleteReaders(env, s, e.pack, e.g);
      QueuedIsDead(env, s, e.pack, e.g);
      DeadIsEmpty(env, s, p);
    } else {
      RecoveringState(env, s);
      RetiredIsEmpty(env, s.durable, p);
    }
  }

  lemma QueuedIsDead(env: Env, s: Sys, p: nat, g: nat)
    requires SysInv(env, s) && (p, g) in s.retired
    ensures p in s.dead
  {
    assert (p, g).0 in s.dead;
  }

  lemma RecoveringState(env: Env, s: Sys)
    requires SysInv(env, s) && s.mode == Recovering
    ensures s.readers == map[] && s.db == s.durable && Books(env, s.durable)
  {
  }

  lemma FilesWriter(env: Env, s: Sys, e: Event, s': Sys)
    requires RunningStep(env, s, e, s') && OfWriter(e)
    ensures s.disk.Keys <= s'.disk.Keys
  {
    hide RecordOk, Registered, Genuine, Mine, Current;
  }

  lemma FilesOther(env: Env, s: Sys, e: Event, s': Sys)
    requires RunningStep(env, s, e, s') && !OfWriter(e)
    ensures if e.DeleteFile? then s'.disk == s.disk - {e.pack} else s.disk.Keys <= s'.disk.Keys
  {
    hide Txn, Moved, Copied, RemoveBlock, Genuine, Edits, NewAccepted, Mine;
  }

  lemma DeletedBy(env: Env, s: Sys, e: Event, s': Sys, p: nat)
    requires Step(env, s, e, s') && !e.Crash? && p in s.disk && p !in s'.disk
    ensures (e.DeleteFile? && e.pack == p && s.mode != Recovering)
            || (e.RecoverDelete? && e.pack == p && s.mode == Recovering && RetiredIn(s.durable, p))
  {
    hide RunningStep, Resumes, PackMissing, RecoveredPacks, OnDisk;
    if s.mode != Recovering {
      if OfWriter(e) { FilesWriter(env, s, e, s'); } else { FilesOther(env, s, e, s'); }
    }
  }

  // ---- What the steps mean ----

  /** The same files and lengths; each block the same, or forgotten. */
  ghost predicate Forgets(was: Store, now: Store) {
    && now.Keys == was.Keys
    && forall f :: f in was ==>
         && now[f].len == was[f].len && |now[f].blocks| == |was[f].blocks|
         && forall i :: 0 <= i < |was[f].blocks| ==>
              now[f].blocks[i] == was[f].blocks[i] || now[f].blocks[i] == None
  }

  lemma MovedContents(env: Env, db: Db, db': Db)
    requires db'.files == db.files && db'.blocks.Keys == db.blocks.Keys
    requires forall id :: id in db.blocks ==> db'.blocks[id].hash == db.blocks[id].hash
    ensures Contents(db', env) == Contents(db, env)
  {
    forall f | f in db.files
      ensures RowContent(db.files[f], db'.blocks, env) == RowContent(db.files[f], db.blocks, env)
    {
    }
  }

  /** Compaction is invisible: repointing blocks to their copies changes no file. */
  lemma MoveInvisible(env: Env, db: Db, db': Db, copies: set<Copy>)
    requires Moved(db, db', env, copies)
    ensures Contents(db', env) == Contents(db, env)
  {
    hide Inv, SamePacks, Contents;
    MovedContents(env, db, db');
  }

  lemma HealForgets(env: Env, db: Db, id: nat)
    requires Inv(db, env) && id in db.blocks
    ensures RemoveBlock(db, id, db.blocks[id]).Ok?
    ensures Forgets(Contents(db, env), Contents(RemoveBlock(db, id, db.blocks[id]).value, env))
  {
    hide Core, RemoveBlock, Acct, SamePacks;
    RemoveKeeps(db, env, id);
  }

  /** A commit is stated on rows and hashes; it has the meaning of its operation. */
  lemma CommitMeans(env: Env, s: Sys, e: Event, s': Sys)
    requires SysInv(env, s) && Step(env, s, e, s') && e.Commit? && CollisionFree(env)
    ensures Applies(e.op, Contents(s.db, env), Contents(s'.db, env), env.bs)
  {
    hide Copied, Survives, Resumes, PackMissing, RecordOk, RemoveBlock, Moved, Inv, Contents, Applies, Edits,
         NewAccepted, Ids,
         NoneRetired, Stored, StoredForGood, WritersOk, CompactionOk, ReadersOk, FilesOk, WriterOk, DeadOk, Bounds,
         SamePacks;
    InvParts(s.db, env);
    InvParts(s'.db, env);
    EditsMean(e.op, s.db, s'.db, env);
  }

  /** The store refines a plain map from file to length and partial contents: a commit is its operation,
      healing forgets a block, a crash goes back to the last durable commit, and nothing else is seen. */
  lemma StepMeaning(env: Env, s: Sys, e: Event, s': Sys)
    requires SysInv(env, s) && Step(env, s, e, s')
    ensures e.Commit? && CollisionFree(env) ==> Applies(e.op, Contents(s.db, env), Contents(s'.db, env), env.bs)
    ensures e.Crash? ==> Contents(s'.db, env) == Contents(s.durable, env)
    ensures e.Heal? ==> Forgets(Contents(s.db, env), Contents(s'.db, env))
    ensures !e.Commit? && !e.Crash? && !e.Heal? ==> Contents(s'.db, env) == Contents(s.db, env)
  {
    hide Txn, Copied, Survives, Resumes, PackMissing, RecordOk, RemoveBlock, Forgets, Moved, Inv, Contents, Applies,
         Edits, NewAccepted, NoneRetired, Stored, StoredForGood, WritersOk, CompactionOk, ReadersOk, FilesOk,
         WriterOk, DeadOk, Bounds;
    if e.Commit? {
      if CollisionFree(env) { CommitMeans(env, s, e, s'); }
    } else if e.Heal? && s.mode != Recovering { HealForgets(env, s.db, e.id); }
    else if e.Move? && s.mode != Recovering { MoveInvisible(env, s.db, s'.db, s.copies); }
    else if !e.Crash? && !e.Commit? {
      if s.mode == Recovering { RecoveringState(env, s); }
      SameTables(env, s, e, s');
      MovedContents(env, s.db, s'.db);
    }
  }

  // ---- What a crash goes back to ----

  lemma DurableWriter(env: Env, s: Sys, e: Event, s': Sys)
    requires RunningStep(env, s, e, s') && OfWriter(e)
    ensures s'.durable == s.durable || s'.durable == s'.db
  {
    hide Txn, Moved, Copied, RecordOk, RemoveBlock, Registered, Genuine, Mine, Grown, Synced, Current, Edits, NewAccepted;
  }

  lemma DurableOther(env: Env, s: Sys, e: Event, s': Sys)
    requires RunningStep(env, s, e, s') && !OfWriter(e)
    ensures s'.durable == s.durable || s'.durable == s'.db
  {
    hide Txn, Moved, Copied, RecordOk, RemoveBlock, Registered, Genuine, Mine, Grown, Synced, Current, Edits, NewAccepted;
  }

  /** The durable index only changes to the index of that moment. */
  lemma DurableStep(env: Env, s: Sys, e: Event, s': Sys)
    requires Step(env, s, e, s')
    ensures s'.durable == s.durable || s'.durable == s'.db
  {
    hide RunningStep, Survives, Resumes, PackMissing, RecoveredPacks, OnDisk;
    if !e.Crash? && s.mode != Recovering {
      if OfWriter(e) { DurableWriter(env, s, e, s'); } else { DurableOther(env, s, e, s'); }
    }
  }

  /** After a durable commit no crash goes back behind it: the durable index is the index of some moment
      since, so that moment's contents are what a crash leaves. */
  lemma {:induction false} DurableSince(env: Env, run: seq<Sys>, events: seq<Event>, k: nat, i: nat) returns (j: nat)
    requires Run(env, run, events) && k <= i < |run| && run[k].durable == run[k].db
    ensures k <= j <= i && run[i].durable == run[j].db
    decreases i
  {
    hide Step;
    if i == k { j := k; }
    else {
      j := DurableSince(env, run, events, k, i - 1);
      assert Step(env, run[i - 1], events[i - 1], run[i]);
      DurableStep(env, run[i - 1], events[i - 1], run[i]);
      if run[i].durable != run[i - 1].durable { j := i; }
    }
  }

  /** A flush makes everything before it durable: after any later crash the store holds what it held at
      some moment since the flush. */
  lemma FlushLasts(env: Env, run: seq<Sys>, events: seq<Event>, k: nat, i: nat) returns (j: nat)
    requires SafeRun(env, run, events) && k < i < |events| && events[k].FlushCommit? && events[i].Crash?
    ensures k < j <= i && Contents(run[i + 1].db, env) == Contents(run[j].db, env)
  {
    hide Step, Contents, SysInv;
    assert run[k + 1].durable == run[k + 1].db by { FlushIsDurable(env, run[k], events[k], run[k + 1]); }
    j := DurableSince(env, run, events, k + 1, i);
    RunInv(env, run, events, i);
    StepMeaning(env, run[i], events[i], run[i + 1]);
  }

  lemma FlushIsDurable(env: Env, s: Sys, e: Event, s': Sys)
    requires Step(env, s, e, s') && e.FlushCommit?
    ensures s'.durable == s'.db
  {
    hide Txn, Moved, Copied, Survives, Resumes, PackMissing, RecordOk, RemoveBlock, Registered, Genuine, NoneRetired,
         RecoveredPacks, OnDisk, Mine, Grown, Synced, Current, Edits, NewAccepted;
  }

  lemma SameTables(env: Env, s: Sys, e: Event, s': Sys)
    requires Step(env, s, e, s') && !e.Commit? && !e.Heal? && !e.Move? && !e.Crash?
    requires s.mode == Recovering ==> s.db == s.durable
    ensures s'.db.files == s.db.files && s'.db.blocks == s.db.blocks
  {
    hide RunningStep, Survives, Resumes, PackMissing, RecoveredPacks, OnDisk;
    if s.mode != Recovering {
      if OfWriter(e) { TablesWriter(env, s, e, s'); } else { TablesOther(env, s, e, s'); }
    }
  }

  lemma TablesWriter(env: Env, s: Sys, e: Event, s': Sys)
    requires RunningStep(env, s, e, s') && OfWriter(e)
    ensures s'.db.files == s.db.files && s'.db.blocks == s.db.blocks
  {
    hide Copied, RecordOk, Genuine, Grown, Synced, Current, Mine, Txn, Moved, RemoveBlock, Edits, NewAccepted;
  }

  lemma TablesOther(env: Env, s: Sys, e: Event, s': Sys)
    requires RunningStep(env, s, e, s') && !OfWriter(e) && !e.Commit? && !e.Heal? && !e.Move?
    ensures s'.db.files == s.db.files && s'.db.blocks == s.db.blocks
  {
    hide Copied, RecordOk, Genuine, Grown, Synced, Current, Mine, Txn, Moved, RemoveBlock, Edits, NewAccepted;
  }

  // ---- The hypothesis on registration ----

  ghost predicate DeadStayRetired(s: Sys) { forall p :: p in s.dead ==> RetiredIn(s.db, p) }

  /** Registering a pack keeps retired packs retired exactly if the current pack is not one of them. */
  lemma ResealExact(env: Env, s: Sys)
    requires SysInv(env, s) && s.mode == Running && s.lock == Free
    ensures DeadStayRetired(AfterRegister(s)) <==> CurrentLives(s)
  {
    hide Books, Stored, StoredForGood, WritersOk, CompactionOk, ReadersOk, FilesOk;
    if CurrentLives(s) { RegisterKeeps(env, s); }
    else {
      var p := Current(s).value;
      assert p in s.dead;
      assert !RetiredIn(AfterRegister(s).db, p);
    }
  }

  /** The current pack's row is active, except between a registration and the start of its pack. */
  ghost predicate CurrentActive(s: Sys) {
    !s.lock.Registering? && Current(s).Some? && Current(s).value in s.db.packs ==>
      s.db.packs[Current(s).value].state == Active
  }

  /** The events that change the current pack or its row. */
  predicate Starts(e: Event) { e.Register? || e.StartOk? || e.StartDirFails? || e.StartCreateFails? }

  lemma SameCurrent(env: Env, s: Sys, e: Event, s': Sys)
    requires WriterOk(s) && RunningStep(env, s, e, s') && OfWriter(e) && !Starts(e)
    ensures Current(s') == Current(s) && s'.db.packs == s.db.packs && (e.FlushCommit? || s'.mode == s.mode)
    ensures s.lock.Registering? && !e.StartSyncFails? ==> s'.lock == s.lock
  {
    hide Grown, Synced, AfterAbandon, AfterRegister, AfterStart, AfterStartFails, AfterRetire, AfterAdvance, AfterRemoveRow,
         Txn, Moved, Copied, RemoveBlock, Edits, NewAccepted, RecordOk, Genuine, Mine;
    if e.AppendFails? || e.FlushFails? || e.StartSyncFails? { AbandonSame(s, e.more); }
  }

  lemma AbandonSame(s: Sys, more: bytes)
    requires WriterOk(s)
    ensures var s' := AfterAbandon(s, more);
            Current(s') == Current(s) && s'.db == s.db && s'.mode == s.mode && s'.lock == Free
  {
  }

  lemma NewCurrent(env: Env, s: Sys, e: Event, s': Sys)
    requires WriterOk(s) && RunningStep(env, s, e, s') && Starts(e)
    ensures CurrentLives(s') && CurrentActive(s') && s'.mode == s.mode
  {
    hide Grown, Synced;
  }

  lemma ActiveWriter(env: Env, s: Sys, e: Event, s': Sys)
    requires WriterOk(s) && RunningStep(env, s, e, s') && CurrentActive(s) && OfWriter(e) && !e.StartSyncFails?
    ensures CurrentActive(s')
  {
    hide RunningStep, Current, WriterOk;
    if Starts(e) { NewCurrent(env, s, e, s'); } else { SameCurrent(env, s, e, s'); }
  }

  /** The other steps leave the current pack and the states of the rows alone, short of a retirement. */
  lemma ActiveOther(env: Env, s: Sys, e: Event, s': Sys)
    requires SysInv(env, s) && RunningStep(env, s, e, s') && CurrentActive(s) && !OfWriter(e)
    ensures CurrentActive(s')
  {
    hide SysInv, Txn, Moved, Copied, RemoveBlock, Genuine, Edits, NewAccepted, Mine, Grown;
    if e.Commit? { CommitSamePacks(env, s, e, s'); }
    else if e.Heal? { HealSamePacks(env, s, e, s'); }
    else if e.Move? { MoveSamePacks(env, s, e, s'); }
  }

  lemma ActiveRecovered(env: Env, s: Sys, e: Event, s': Sys)
    requires Step(env, s, e, s') && CurrentActive(s)
    requires e.Crash? || (s.mode == Recovering && s == Crashed(s.durable, s.disk, s.dead))
    ensures CurrentActive(s')
  {
    hide RunningStep, Survives, PackMissing;
  }

  lemma CurrentActiveKept(env: Env, s: Sys, e: Event, s': Sys)
    requires SysInv(env, s) && Step(env, s, e, s') && CurrentActive(s) && !e.StartSyncFails?
    ensures CurrentActive(s')
  {
    hide RunningStep, Survives, PackMissing, Resumes, CurrentActive, Crashed, AfterRecovery, Books, Stored, StoredForGood,
         WritersOk, CompactionOk, ReadersOk, FilesOk, WriterOk, DeadOk, Bounds;
    if e.Crash? || s.mode == Recovering { ActiveRecovered(env, s, e, s'); }
    else if OfWriter(e) { ActiveWriter(env, s, e, s'); }
    else { ActiveOther(env, s, e, s'); }
  }

  lemma CommitSamePacks(env: Env, s: Sys, e: Event, s': Sys)
    requires RunningStep(env, s, e, s') && e.Commit?
    ensures SamePacks(s.db, s'.db)
  {
  }

  lemma MoveSamePacks(env: Env, s: Sys, e: Event, s': Sys)
    requires RunningStep(env, s, e, s') && e.Move?
    ensures SamePacks(s.db, s'.db)
  {
  }

  lemma HealSamePacks(env: Env, s: Sys, e: Event, s': Sys)
    requires SysInv(env, s) && RunningStep(env, s, e, s') && e.Heal?
    ensures SamePacks(s.db, s'.db)
  {
    hide RemoveBlock, Core;
    RemoveKeeps(s.db, env, e.id);
  }

  /** If syncing never fails while a pack is being started, every run is safe. */
  lemma {:induction false} SyncedStartsAreSafe(env: Env, run: seq<Sys>, events: seq<Event>, i: nat)
    requires env.bs > 0 && Run(env, run, events) && i < |run|
    requires forall j :: 0 <= j < |events| ==> !events[j].StartSyncFails?
    ensures SysInv(env, run[i]) && CurrentActive(run[i])
    ensures forall j :: 0 <= j < i ==> Allowed(run[j], events[j])
  {
    hide SysInv, Step;
    if i == 0 { FreshInv(env); }
    else {
      SyncedStartsAreSafe(env, run, events, i - 1);
      var s, e, s' := run[i - 1], events[i - 1], run[i];
      assert Step(env, s, e, s');
      assert Allowed(s, e) by { RegisterFree(env, s, e, s'); }
      StepKeeps(env, s, e, s');
      CurrentActiveKept(env, s, e, s');
    }
  }

  lemma RegisterFree(env: Env, s: Sys, e: Event, s': Sys)
    requires Step(env, s, e, s')
    ensures e.Register? ==> s.lock == Free
  {
    hide Txn, Copied, Survives, Resumes, PackMissing, RecordOk, RemoveBlock, Moved;
  }
}
