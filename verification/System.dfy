/** The whole store as a state machine: index commits, the pack writer, readers, compaction, file
    deletion, crashes and recovery, one step per lock section or transaction. */
module System {
  import opened Base
  import opened Ledger
  import opened Meaning
  import opened Codec

  /** A pack file: its bytes, how many of them are known durable, and whether its directory entry is. */
  datatype PackFile = PackFile(data: bytes, synced: nat, linked: bool)
  type Disk = map<nat, PackFile>

  /** Who holds the writer lock across an index commit. */
  datatype Lock = Free | Registering(id: nat) | Flushing

  /** A running read: the generation it entered in and, once taken, its snapshot. */
  datatype Reader = Reader(gen: nat, snap: Option<Db>)

  /** A live block compaction is to move, and one it has copied and not yet committed. */
  datatype Pick = Pick(id: nat, from: BlockLoc)
  datatype Copy = Copy(pick: Pick, to: BlockLoc)

  datatype Mode = Running | Closed | Recovering

  /** `dead` collects the packs ever retired; no step looks at it. */
  datatype Sys = Sys(
    mode: Mode,
    db: Db,
    durable: Db,
    disk: Disk,
    active: Option<nat>,
    abandoned: Option<nat>,
    nextPack: nat,
    lock: Lock,
    writers: map<nat, set<BlockLoc>>,
    picks: set<Pick>,
    copies: set<Copy>,
    retiring: Option<nat>,
    retired: set<(nat, nat)>,
    gen: nat,
    readers: map<nat, Reader>,
    dead: set<nat>)

  datatype Event =
    | Register | RegisterFails | StartOk | StartSyncFails(more: bytes) | StartCreateFails | StartDirFails
    | Write(more: bytes) | AppendFails(more: bytes) | Issue(w: nat, loc: BlockLoc)
    | Forget(w: nat, keep: set<BlockLoc>)
    | Commit(w: nat, op: Op) | Heal(id: nat)
    | Choose(id: nat) | CopyOut(copy: Copy) | Move
    | FlushSync | FlushFails(more: bytes) | FlushAborts | FlushCommit(clean: nat)
    | Retire(pack: nat) | Advance | DeleteFile(pack: nat, g: nat) | RemoveRow(pack: nat, g: nat)
    | Enter(r: nat) | Snap(r: nat) | Exit(r: nat)
    | Crash | RecoverDelete(pack: nat) | RecoverFinish(seen: nat)

  // ---- The steps ----

  /** The pack to seal when the next pack starts. */
  function Current(s: Sys): Option<nat> {
    if s.active.Some? then s.active else s.abandoned
  }

  /** The registration commit: seals the current pack whatever its state, and adds the new one. */
  function Registered(db: Db, cur: Option<nat>, id: nat): Db {
    var sealed :=
      if cur.Some? && cur.value in db.packs
      then db.packs[cur.value := db.packs[cur.value].(state := Sealed)] else db.packs;
    db.(packs := sealed[id := PackInfo(0, Active)], nextPack := id + 1)
  }

  function Grown(disk: Disk, p: Option<nat>, more: bytes): Disk {
    if p.Some? && p.value in disk
    then disk[p.value := disk[p.value].(data := disk[p.value].data + more)] else disk
  }

  function Synced(disk: Disk, p: Option<nat>): Disk {
    if p.Some? && p.value in disk
    then disk[p.value := disk[p.value].(synced := |disk[p.value].data|)] else disk
  }

  function Mine(s: Sys, w: nat): set<BlockLoc> {
    if w in s.writers then s.writers[w] else {}
  }

  /** Rows move to their copies where their place is still the one copied from. */
  ghost predicate Moved(db: Db, db': Db, env: Env, copies: set<Copy>) {
    && Inv(db', env) && SameRest(db, db') && db'.nextBlock == db.nextBlock && db'.dedup == db.dedup
    && db'.blocks.Keys == db.blocks.Keys
    && forall id :: id in db.blocks ==>
         || db'.blocks[id] == db.blocks[id]
         || exists c :: c in copies && MovedBy(c, id, db.blocks[id], db'.blocks[id])
  }

  ghost predicate MovedBy(c: Copy, id: nat, was: BlockLoc, now: BlockLoc) {
    && c.pick.id == id && was.pack == c.pick.from.pack && was.offset == c.pick.from.offset
    && now == was.(pack := c.to.pack, offset := c.to.offset)
  }

  /** The copied bytes are the record's bytes. */
  ghost predicate Copied(disk: Disk, c: Copy, data: bytes) {
    var from, to := c.pick.from, c.to;
    && to == from.(pack := to.pack, offset := to.offset)
    && from.pack in disk
    && from.offset + from.RecordLen() <= |disk[from.pack].data|
    && to.offset + to.RecordLen() <= |data|
    && data[to.offset..to.offset + to.RecordLen()]
       == disk[from.pack].data[from.offset..from.offset + from.RecordLen()]
  }

  /** A crash keeps durable directory entries and synced bytes; the rest of a file is anything. */
  ghost predicate Survives(disk: Disk, disk': Disk) {
    && (forall p :: p in disk && disk[p].linked ==> p in disk')
    && (forall p :: p in disk' ==>
          && p in disk && disk[p].synced <= |disk[p].data|
          && disk[p].data[..disk[p].synced] <= disk'[p].data && |disk'[p].data| <= |disk[p].data|
          && disk'[p].synced == |disk'[p].data| && disk'[p].linked)
  }

  /** Only the durable index and the files are left. */
  function Crashed(durable: Db, disk: Disk, dead: set<nat>): Sys {
    Sys(Recovering, durable, durable, disk, None, None, 0, Free, map[], {}, {}, None, {}, 0, map[], dead)
  }

  /** The rows of packs that have a file. */
  function OnDisk(db: Db, disk: Disk): Db {
    db.(packs := map p | p in db.packs && p in disk :: db.packs[p])
  }

  /** The pack that appending resumes at: the newest active one, after a clean shutdown only. */
  ghost predicate Resumes(db: Db, p: Option<nat>) {
    if db.clean == 0 then p.None?
    else if p.None? then forall q :: q in db.packs ==> db.packs[q].state != Active
    else
      && p.value in db.packs && db.packs[p.value].state == Active
      && forall q :: q in db.packs && db.packs[q].state == Active ==> q <= p.value
  }

  /** The `packs` table after recovery: rows of deleted retired packs and of missing empty packs go,
      and active packs are sealed unless resumed. */
  function RecoveredPacks(db: Db, disk: Disk, resume: Option<nat>): map<nat, PackInfo> {
    map p | p in db.packs && p in disk ::
      if db.packs[p].state == Active && resume != Some(p) then db.packs[p].(state := Sealed)
      else db.packs[p]
  }

  function AfterRecovery(s: Sys, seen: nat, resume: Option<nat>): Sys {
    var db := s.durable.(packs := RecoveredPacks(s.durable, s.disk, resume), clean := 0);
    s.(mode := Running, db := db, durable := db, active := resume,
       nextPack := Max(s.durable.nextPack, seen + 1))
  }

  /** Recovery stops with an error: a pack with live bytes has no file. */
  ghost predicate PackMissing(db: Db, disk: Disk) {
    exists p :: p in db.packs && p !in disk && db.packs[p].state != Retired && db.packs[p].live != 0
  }

  ghost predicate Step(env: Env, s: Sys, e: Event, s': Sys) {
    if e.Crash? then
      Survives(s.disk, s'.disk) && s' == Crashed(s.durable, s'.disk, s.dead)
    else if s.mode == Recovering then
      match e
      case RecoverDelete(p) =>
        && (p in s.durable.packs ==> s.durable.packs[p].state == Retired)
        && s' == s.(disk := s.disk - {p})
      case RecoverFinish(seen) =>
        && !PackMissing(s.durable, s.disk)
        && (forall p :: p in s.durable.packs || p in s.disk ==> p <= seen)
        && Resumes(OnDisk(s.durable, s.disk), s'.active)
        && s' == AfterRecovery(s, seen, s'.active)
      case _ => false
    else
      && (s.mode == Closed ==> e.Enter? || e.Snap? || e.Exit? || e.Heal?)
      && RunningStep(env, s, e, s')
  }

  // The new states of the deterministic steps.

  function AfterRegister(s: Sys): Sys {
    s.(db := Registered(s.db, Current(s), s.nextPack), nextPack := s.nextPack + 1,
       lock := Registering(s.nextPack))
  }

  /** `start_pack` got as far as creating the file, durably (`linked`) or not. */
  function AfterStart(s: Sys, id: nat, linked: bool): Sys {
    s.(disk := Synced(s.disk, Current(s))[id := PackFile([], 0, linked)],
       active := if linked then Some(id) else None, abandoned := if linked then None else Some(id),
       lock := Free)
  }

  function AfterStartFails(s: Sys): Sys {
    s.(disk := Synced(s.disk, Current(s)), active := None, abandoned := None, lock := Free)
  }

  /** An I/O error while appending, flushing or syncing: some of the bytes may have been written. */
  function AfterAbandon(s: Sys, more: bytes): Sys {
    s.(disk := Grown(s.disk, s.active, more), active := None, abandoned := Current(s), lock := Free)
  }

  /** Some bytes reach the active pack's file, out of the buffer or past it. */
  function AfterWrite(s: Sys, more: bytes): Sys {
    s.(disk := Grown(s.disk, s.active, more))
  }

  function AfterSync(s: Sys): Sys {
    s.(disk := Synced(s.disk, Current(s)), lock := Flushing)
  }

  /** A durable commit of `db`. */
  function AfterFlush(s: Sys, db: Db): Sys {
    s.(db := db, durable := db, lock := Free)
  }

  function AfterRetire(s: Sys, p: nat): Sys {
    AfterFlush(s, s.db.(packs := s.db.packs[p := PackInfo(0, Retired)]))
      .(retiring := Some(p), dead := s.dead + {p})
  }

  function AfterAdvance(s: Sys, p: nat): Sys {
    s.(gen := s.gen + 1, retired := s.retired + {(p, s.gen + 1)}, retiring := None)
  }

  function AfterRemoveRow(s: Sys, p: nat, g: nat): Sys {
    s.(db := s.db.(packs := s.db.packs - {p}), retired := s.retired - {(p, g)})
  }

  ghost predicate RunningStep(env: Env, s: Sys, e: Event, s': Sys) {
    match e
    case Register => s.lock == Free && s' == AfterRegister(s)
    case RegisterFails => s.lock == Free && s' == s.(nextPack := s.nextPack + 1)
    case StartOk => s.lock.Registering? && s' == AfterStart(s, s.lock.id, true)
    case StartDirFails => s.lock.Registering? && s' == AfterStart(s, s.lock.id, false)
    case StartCreateFails => s.lock.Registering? && s' == AfterStartFails(s)
    case StartSyncFails(more) => s.lock.Registering? && Current(s).Some? && s' == AfterAbandon(s, more)
    case Write(more) => s.lock != Flushing && s.active.Some? && s' == AfterWrite(s, more)
    case AppendFails(more) => s.lock == Free && s.active.Some? && s' == AfterAbandon(s, more)
    case Issue(w, loc) =>
      && loc.pack in s.disk && Genuine(loc, env) && loc.refcount == 0 && RecordOk(env, s.disk[loc.pack].data, loc)
      && s' == s.(writers := s.writers[w := Mine(s, w) + {loc}])
    case Forget(w, keep) => keep <= Mine(s, w) && s' == s.(writers := s.writers[w := keep])
    case Commit(w, op) =>
      && Txn(s.db, s'.db, env, Mine(s, w)) && NewAccepted(s.db, s'.db) && Edits(op, s.db, s'.db, env)
      && s' == s.(db := s'.db)
    case Heal(id) =>
      && id in s.db.blocks && RemoveBlock(s.db, id, s.db.blocks[id]) == Ok(s'.db)
      && s' == s.(db := s'.db)
    case Choose(id) =>
      id in s.db.blocks && s' == s.(picks := s.picks + {Pick(id, s.db.blocks[id])})
    case CopyOut(c) =>
      && Accepts(s.db, c.to.pack) && c.to.pack in s.disk && c.pick in s.picks
      && Copied(s.disk, c, s.disk[c.to.pack].data)
      && s' == s.(copies := s.copies + {c})
    case Move =>
      Moved(s.db, s'.db, env, s.copies) && s' == s.(db := s'.db, picks := {}, copies := {})
    case FlushSync => s.lock == Free && s' == AfterSync(s)
    case FlushFails(more) => s.lock == Free && s' == AfterAbandon(s, more)
    case FlushAborts => s.lock == Flushing && s' == s.(lock := Free)
    case FlushCommit(clean) =>
      && s.lock == Flushing
      && s' == AfterFlush(s, s.db.(clean := clean)).(mode := if clean == 0 then Running else Closed)
    case Retire(p) =>
      && s.lock == Flushing && s.copies == {} && s.retiring.None?
      && p in s.db.packs && s.db.packs[p] == PackInfo(0, Sealed)
      && s' == AfterRetire(s, p)
    case Advance => s.retiring.Some? && s' == AfterAdvance(s, s.retiring.value)
    case DeleteFile(p, g) =>
      && (p, g) in s.retired && (forall r :: r in s.readers ==> s.readers[r].gen >= g)
      && s' == s.(disk := s.disk - {p})
    case RemoveRow(p, g) => (p, g) in s.retired && p !in s.disk && s' == AfterRemoveRow(s, p, g)
    case Enter(r) => r !in s.readers && s' == s.(readers := s.readers[r := Reader(s.gen, None)])
    case Snap(r) =>
      && r in s.readers && s.readers[r].snap.None?
      && s' == s.(readers := s.readers[r := s.readers[r].(snap := Some(s.db))])
    case Exit(r) => r in s.readers && s' == s.(readers := s.readers - {r})
    case _ => false
  }

  // ---- Runs ----

  /** Steps from `run[0]` to the last state of `run`. */
  ghost predicate Steps(env: Env, run: seq<Sys>, events: seq<Event>) {
    |run| == |events| + 1 && forall i :: 0 <= i < |events| ==> Step(env, run[i], events[i], run[i + 1])
  }

  lemma NoSteps(env: Env, s: Sys)
    ensures Steps(env, [s], [])
  {
  }

  lemma StepsThen(env: Env, run: seq<Sys>, events: seq<Event>, e: Event, s': Sys)
    requires Steps(env, run, events) && |run| == |events| + 1 && Step(env, run[|events|], e, s')
    ensures Steps(env, run + [s'], events + [e])
  {
    hide Step;
    var run', events' := run + [s'], events + [e];
    forall i | 0 <= i < |events'| ensures Step(env, run'[i], events'[i], run'[i + 1]) {
      if i < |events| { assert run'[i] == run[i] && run'[i + 1] == run[i + 1]; }
    }
  }

  ghost predicate LeadsBy(env: Env, kind: Event -> bool, s: Sys, s': Sys, run: seq<Sys>, events: seq<Event>) {
    && Steps(env, run, events) && run[0] == s && run[|events|] == s'
    && forall i :: 0 <= i < |events| ==> kind(events[i])
  }

  /** Steps of this kind lead from `s` to `s'`. */
  ghost predicate Leads(env: Env, kind: Event -> bool, s: Sys, s': Sys) {
    exists run, events :: LeadsBy(env, kind, s, s', run, events)
  }

  lemma LeadsNone(env: Env, kind: Event -> bool, s: Sys)
    ensures Leads(env, kind, s, s)
  {
    hide Step;
    NoSteps(env, s);
    assert LeadsBy(env, kind, s, s, [s], []);
  }

  lemma LeadsThen(env: Env, kind: Event -> bool, s: Sys, s': Sys, e: Event, s'': Sys)
    requires Leads(env, kind, s, s') && Step(env, s', e, s'') && kind(e)
    ensures Leads(env, kind, s, s'')
  {
    hide Step;
    var run, events :| LeadsBy(env, kind, s, s', run, events);
    StepsThen(env, run, events, e, s'');
    assert LeadsBy(env, kind, s, s'', run + [s''], events + [e]);
  }

  /** A new store, before its first opening. */
  function Fresh(): Sys {
    var db := Db(map[], map[], map[], map[], 1, 1, 0);
    Crashed(db, map[], {})
  }

  ghost predicate Run(env: Env, run: seq<Sys>, events: seq<Event>) {
    && |run| == |events| + 1 && run[0] == Fresh()
    && forall i :: 0 <= i < |events| ==> Step(env, run[i], events[i], run[i + 1])
  }
}
