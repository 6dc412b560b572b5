/** The pack writer under arbitrary I/O failures. */
module PackWriter {
  import opened Base
  import opened Ledger
  import opened Codec
  import opened System

  /** What one write or sync does: it succeeds, or fails; `n` buffered bytes reach the file on the way. */
  datatype Io = Done(n: nat) | Fails(n: nat)

  /** The pack being appended to; `len` counts its written and its buffered bytes. */
  datatype ActivePack = ActivePack(id: nat, buffered: bytes, len: nat)

  /** A record handed out with its place. */
  datatype Ticket = Ticket(pack: nat, offset: nat, record: bytes)

  predicate HoldsAt(data: bytes, offset: nat, record: bytes) {
    offset + |record| <= |data| && data[offset..offset + |record|] == record
  }

  predicate Holds(files: Disk, q: Ticket) {
    q.pack in files && HoldsAt(files[q.pack].data, q.offset, q.record)
  }

  /** Files keep their bytes and synced bytes; only `only` may get more bytes. */
  ghost predicate Grew(files: Disk, files': Disk, only: Option<nat>) {
    forall p :: p in files ==>
      && p in files' && files[p].data <= files'[p].data && files[p].synced <= files'[p].synced
      && (only != Some(p) ==> files'[p].data == files[p].data)
  }

  lemma HoldsGrew(files: Disk, files': Disk, only: Option<nat>, q: Ticket)
    requires Grew(files, files', only) && Holds(files, q)
    ensures Holds(files', q)
  {
    var a, b := files[q.pack].data, files'[q.pack].data;
    assert a[q.offset..q.offset + |q.record|] == b[q.offset..q.offset + |q.record|];
  }

  lemma GrewNone(files: Disk, only: Option<nat>)
    ensures Grew(files, files, only)
  {
  }

  lemma PartGrew(files: Disk, files': Disk, id: nat, part: bytes)
    requires id in files && files' == files[id := files[id].(data := files[id].data + part)]
    ensures Grew(files, files', Some(id)) && files' == Grown(files, Some(id), part)
  {
  }

  lemma SyncGrew(files: Disk, files': Disk, id: nat)
    requires id in files && files[id].synced <= |files[id].data|
    requires files' == files[id := files[id].(synced := |files[id].data|)]
    ensures Grew(files, files', None) && files' == Synced(files, Some(id))
  {
  }

  lemma NoneSynced(files: Disk)
    ensures Synced(files, None) == files
  {
  }

  lemma GrewTwice(f0: Disk, f1: Disk, f2: Disk, a0: Option<nat>, a1: Option<nat>)
    requires Grew(f0, f1, a0) && Grew(f1, f2, a1) && (a1.Some? ==> a1 == a0 || a1.value !in f0)
    ensures Grew(f0, f2, a0) && f0.Keys <= f2.Keys
  {
  }

  lemma CreatedGrew(f0: Disk, f1: Disk, f2: Disk, only: Option<nat>, id: nat, linked: bool)
    requires Grew(f0, f1, only) && (f2 == f1 || (id !in f1 && f2 == f1[id := PackFile([], 0, linked)]))
    ensures Grew(f0, f2, only)
  {
  }

  /** A record placed before a new pack starts is in its file then. */
  lemma PlacedMoved(was: Disk, files: Disk, active: Option<nat>, whole: bytes, id: nat, place: (nat, nat), record: bytes)
    requires if active == Some(place.0) then HoldsAt(whole, place.1, record) else Holds(was, Ticket(place.0, place.1, record))
    requires active.Some? ==> active.value in was && active.value in files && files[active.value].data == whole
    requires Grew(was, files, active) && id !in was
    ensures place.0 != id && Holds(files, Ticket(place.0, place.1, record))
  {
    hide Grew, HoldsAt;
    if active != Some(place.0) { HoldsGrew(was, files, active, Ticket(place.0, place.1, record)); }
  }

  /** A record handed out for a block reads back as that block. */
  lemma IssuedReads(env: Env, files: Disk, q: Ticket, data: bytes, frame: bytes, loc: BlockLoc)
    requires CollisionFree(env) && env.known(data) && env.unzip(frame) == Some(data)
    requires FromFrame(env, data, env.hash(data), frame).header.Fits()
    requires Holds(files, q) && q.record == RecordBytes(FromFrame(env, data, env.hash(data), frame))
    requires loc.pack == q.pack && loc.offset == q.offset && loc.hash == env.hash(data) && loc.rawLen == |data|
    requires loc.storedLen == |FromFrame(env, data, env.hash(data), frame).payload|
    ensures RecordOk(env, files[loc.pack].data, loc) && Genuine(loc, env)
  {
    hide RecordOk, Genuine, EncodeHeader;
    var file := files[loc.pack].data;
    assert file[loc.offset..][..|q.record|] == file[loc.offset..loc.offset + |q.record|] == q.record;
    AppendedReads(env, file, data, frame, loc);
  }

  // ---- The writer's steps of the store ----

  predicate ByPackWriter(e: Event) {
    || e.Register? || e.RegisterFails? || e.StartOk? || e.StartSyncFails? || e.StartCreateFails? || e.StartDirFails?
    || e.Write? || e.AppendFails? || e.Issue? || e.FlushSync? || e.FlushFails?
  }

  /** What appending does not touch. */
  ghost predicate Framed(s: Sys, s': Sys) {
    s' == s.(disk := s'.disk, active := s'.active, abandoned := s'.abandoned, nextPack := s'.nextPack, lock := s'.lock,
             db := s.db.(packs := s'.db.packs, nextPack := s'.db.nextPack))
  }

  /** The store `s` has these files, packs and rows. */
  ghost predicate MatchOf(s: Sys, files: Disk, active: Option<nat>, abandoned: Option<nat>, nextPack: nat,
                          rows: map<nat, PackState>) {
    && s.mode == Running && s.disk == files && s.active == active && s.abandoned == abandoned
    && s.nextPack == nextPack && rows == StatesOf(s.db)
  }

  lemma WriteLeads(env: Env, s0: Sys, s: Sys, more: bytes, files: Disk, p: nat, abandoned: Option<nat>, nextPack: nat,
                   rows: map<nat, PackState>)
    requires Leads(env, ByPackWriter, s0, s) && s.lock != Flushing && MatchOf(s, files, Some(p), abandoned, nextPack, rows)
    ensures var s' := AfterWrite(s, more);
            && Leads(env, ByPackWriter, s0, s') && Framed(s, s') && s'.lock == s.lock
            && MatchOf(s', Grown(files, Some(p), more), Some(p), abandoned, nextPack, rows)
  {
    hide Leads, Grown;
    LeadsThen(env, ByPackWriter, s0, s, Write(more), AfterWrite(s, more));
  }

  /** An I/O error abandons the current pack, while appending, flushing or starting a new pack. */
  lemma FailLeads(env: Env, s0: Sys, s: Sys, more: bytes, files: Disk, active: Option<nat>, abandoned: Option<nat>,
                  nextPack: nat, rows: map<nat, PackState>)
    requires Leads(env, ByPackWriter, s0, s) && MatchOf(s, files, active, abandoned, nextPack, rows)
    requires s.lock == Free || (s.lock.Registering? && (active.Some? || abandoned.Some?))
    ensures var s' := AfterAbandon(s, more);
            && Leads(env, ByPackWriter, s0, s') && Framed(s, s') && s'.lock == Free
            && MatchOf(s', Grown(files, active, more), None, if active.Some? then active else abandoned, nextPack, rows)
  {
    hide Leads, Grown;
    var e :=
      if s.lock.Registering? then StartSyncFails(more) else if active.Some? then AppendFails(more) else FlushFails(more);
    LeadsThen(env, ByPackWriter, s0, s, e, AfterAbandon(s, more));
  }

  /** The current pack is synced and the new one created, durably or not, or not created. */
  lemma StartLeads(env: Env, s0: Sys, s: Sys, id: nat, linked: bool, files: Disk, active: Option<nat>,
                   abandoned: Option<nat>, nextPack: nat, rows: map<nat, PackState>)
    requires Leads(env, ByPackWriter, s0, s) && s.lock == Registering(id)
    requires MatchOf(s, files, active, abandoned, nextPack, rows)
    ensures var now := Synced(files, if active.Some? then active else abandoned);
            var ok, no := AfterStart(s, id, linked), AfterStartFails(s);
            && Leads(env, ByPackWriter, s0, ok) && Framed(s, ok) && ok.lock == Free
            && Leads(env, ByPackWriter, s0, no) && Framed(s, no) && no.lock == Free
            && MatchOf(ok, now[id := PackFile([], 0, linked)], if linked then Some(id) else None,
                       if linked then None else Some(id), nextPack, rows)
            && MatchOf(no, now, None, None, nextPack, rows)
  {
    hide Leads, Synced;
    LeadsThen(env, ByPackWriter, s0, s, if linked then StartOk else StartDirFails, AfterStart(s, id, linked));
    LeadsThen(env, ByPackWriter, s0, s, StartCreateFails, AfterStartFails(s));
  }

  lemma SyncLeads(env: Env, s0: Sys, s: Sys, files: Disk, active: Option<nat>, abandoned: Option<nat>, nextPack: nat,
                  rows: map<nat, PackState>)
    requires Leads(env, ByPackWriter, s0, s) && s.lock == Free && MatchOf(s, files, active, abandoned, nextPack, rows)
    ensures var s' := AfterSync(s);
            && Leads(env, ByPackWriter, s0, s') && Framed(s, s') && s'.lock == Flushing
            && MatchOf(s', Synced(files, if active.Some? then active else abandoned), active, abandoned, nextPack, rows)
  {
    hide Leads, Synced;
    LeadsThen(env, ByPackWriter, s0, s, FlushSync, AfterSync(s));
  }

  lemma RegisterLeads(env: Env, s0: Sys, s: Sys, files: Disk, active: Option<nat>, abandoned: Option<nat>, nextPack: nat,
                      rows: map<nat, PackState>)
    requires Leads(env, ByPackWriter, s0, s) && s.lock == Free && MatchOf(s, files, active, abandoned, nextPack, rows)
    ensures var cur := if active.Some? then active else abandoned;
            var ok, no := AfterRegister(s), s.(nextPack := nextPack + 1);
            && Leads(env, ByPackWriter, s0, ok) && Framed(s, ok) && ok.lock == Registering(nextPack)
            && Leads(env, ByPackWriter, s0, no) && Framed(s, no)
            && MatchOf(ok, files, active, abandoned, nextPack + 1,
                       (if cur.Some? && cur.value in rows then rows[cur.value := Sealed] else rows)[nextPack := Active])
            && MatchOf(no, files, active, abandoned, nextPack + 1, rows)
  {
    hide Leads, StatesOf, Registered;
    LeadsThen(env, ByPackWriter, s0, s, Register, AfterRegister(s));
    LeadsThen(env, ByPackWriter, s0, s, RegisterFails, s.(nextPack := s.nextPack + 1));
    RegisteredStates(s.db, Current(s), nextPack);
    RegisteredFrame(s.db, Current(s), nextPack);
  }

  lemma RegisteredFrame(db: Db, cur: Option<nat>, id: nat)
    ensures var db' := Registered(db, cur, id); db' == db.(packs := db'.packs, nextPack := db'.nextPack)
  {
  }

  /** The states of the registered packs. */
  ghost function StatesOf(db: Db): map<nat, PackState> { map p | p in db.packs :: db.packs[p].state }

  lemma RegisteredStates(db: Db, cur: Option<nat>, id: nat)
    ensures var rows := StatesOf(db);
            StatesOf(Registered(db, cur, id))
            == (if cur.Some? && cur.value in rows then rows[cur.value := Sealed] else rows)[id := Active]
  {
  }

  lemma FramedSame(s: Sys)
    ensures Framed(s, s)
  {
  }

  lemma FramedTwice(s: Sys, s': Sys, s'': Sys)
    requires Framed(s, s') && Framed(s', s'')
    ensures Framed(s, s'')
  {
  }

  lemma GrownNone(disk: Disk, p: Option<nat>)
    ensures Grown(disk, p, []) == disk
  {
    if p.Some? && p.value in disk { assert disk[p.value].data + [] == disk[p.value].data; }
  }

  lemma GrownTwice(disk: Disk, p: Option<nat>, a: bytes, b: bytes)
    ensures Grown(Grown(disk, p, a), p, b) == Grown(disk, p, a + b)
  {
    if p.Some? && p.value in disk { assert disk[p.value].data + a + b == disk[p.value].data + (a + b); }
  }

  // ---- Where records go ----

  /** A record of `size` bytes lies at the end `at` of the pack before it if that pack is empty or has room for it
      under `max` bytes, and at the start of another pack if not. */
  ghost predicate Follows(at: Option<(nat, nat)>, place: (nat, nat), size: nat, max: nat) {
    if at.Some? && (at.value.1 == 0 || at.value.1 + size <= max) then place == at.value
    else place.1 == 0 && (at.Some? ==> place.0 != at.value.0)
  }

  /** Where the bytes before record `j` end. */
  ghost function EndBefore(at: Option<(nat, nat)>, places: seq<(nat, nat)>, records: seq<bytes>, j: nat): Option<(nat, nat)>
    requires j <= |places| == |records|
  {
    if j == 0 then at else Some((places[j - 1].0, places[j - 1].1 + |records[j - 1]|))
  }

  /** The records' bytes, headers and payloads. */
  ghost function Joined(records: seq<(bytes, bytes)>): seq<bytes> {
    seq(|records|, j requires 0 <= j < |records| => records[j].0 + records[j].1)
  }

  /** The records lie one behind the other, in a new pack only where the pack before has no room. */
  ghost predicate Laid(at: Option<(nat, nat)>, places: seq<(nat, nat)>, records: seq<bytes>, max: nat) {
    && |places| == |records|
    && forall j :: 0 <= j < |places| ==> Follows(EndBefore(at, places, records, j), places[j], |records[j]|, max)
  }

  lemma LaidMore(at: Option<(nat, nat)>, places: seq<(nat, nat)>, records: seq<bytes>, max: nat, place: (nat, nat),
                 record: bytes)
    requires Laid(at, places, records, max) && Follows(EndBefore(at, places, records, |places|), place, |record|, max)
    ensures Laid(at, places + [place], records + [record], max)
    ensures EndBefore(at, places + [place], records + [record], |places| + 1) == Some((place.0, place.1 + |record|))
  {
    hide Follows;
    var ps, rs := places + [place], records + [record];
    forall j | 0 <= j < |ps| ensures Follows(EndBefore(at, ps, rs, j), ps[j], |rs[j]|, max) {
      assert EndBefore(at, ps, rs, j) == EndBefore(at, places, records, j);
    }
  }

  lemma LaidNone(at: Option<(nat, nat)>, max: nat)
    ensures Laid(at, [], [], max) && EndBefore(at, [], [], 0) == at
  {
  }

  lemma JoinedIs(records: seq<(bytes, bytes)>, recs: seq<bytes>)
    requires |recs| == |records| && forall j :: 0 <= j < |recs| ==> recs[j] == records[j].0 + records[j].1
    ensures recs == Joined(records)
  {
  }

  /** No record makes a pack longer than `max`, but one that is alone in its pack. */
  lemma LaidBounded(at: Option<(nat, nat)>, places: seq<(nat, nat)>, records: seq<bytes>, max: nat, j: nat)
    requires Laid(at, places, records, max) && j < |places|
    ensures places[j].1 == 0 || places[j].1 + |records[j]| <= max
  {
    assert Follows(EndBefore(at, places, records, j), places[j], |records[j]|, max);
  }

  class Writer {
    ghost const env: Env
    const io: nat -> Io
    const maxPackSize: nat
    var tick: nat
    var files: Disk
    var active: Option<ActivePack>
    var abandoned: Option<nat>
    var rows: map<nat, PackState>
    var nextPack: nat
    /** Every record handed out by a successful `AppendRecords`. */
    ghost var issued: set<Ticket>

    ghost predicate Valid()
      reads this
    {
      && (active.None? || abandoned.None?)
      && (active.Some? ==>
            && active.value.id in files
            && active.value.len == |files[active.value.id].data| + |active.value.buffered|)
      && (abandoned.Some? ==> abandoned.value in files)
      && (forall p :: p in files ==> files[p].synced <= |files[p].data|)
      && (forall q :: q in issued ==> Holds(files, q))
    }

    function ActiveId(): Option<nat>
      reads this
    {
      if active.Some? then Some(active.value.id) else None
    }

    /** The active pack, or else the abandoned one. */
    function CurrentId(): Option<nat>
      reads this
    {
      if active.Some? then Some(active.value.id) else abandoned
    }

    /** The store `s` has this writer's files, packs and rows. */
    ghost predicate Match(s: Sys)
      reads this
    {
      MatchOf(s, files, ActiveId(), abandoned, nextPack, rows)
    }

    /** The active pack and its end, buffered bytes included. */
    ghost function End(): Option<(nat, nat)>
      reads this
    {
      if active.Some? then Some((active.value.id, active.value.len)) else None
    }

    /** The bytes of the active pack, those still buffered included. */
    ghost function Logical(): bytes
      requires Valid() && active.Some?
      reads this
    {
      files[active.value.id].data + active.value.buffered
    }

    constructor (ghost env: Env, io: nat -> Io, maxPackSize: nat, files: Disk, rows: map<nat, PackState>, nextPack: nat)
      requires forall p :: p in files ==> files[p].synced <= |files[p].data|
      ensures Valid() && active.None? && abandoned.None? && this.files == files && issued == {} && tick == 0
      ensures this.env == env && this.io == io && this.maxPackSize == maxPackSize && this.rows == rows
      ensures this.nextPack == nextPack
    {
      this.env := env;
      this.io, this.maxPackSize, this.files, this.rows, this.nextPack := io, maxPackSize, files, rows, nextPack;
      tick, active, abandoned, issued := 0, None, None, {};
    }

    /** Continues a pack left by a clean shutdown: at its end. */
    method Resume(id: nat)
      requires Valid() && abandoned.None? && id in files
      modifies this`active
      ensures Valid() && active == Some(ActivePack(id, [], |files[id].data|))
    {
      active := Some(ActivePack(id, [], |files[id].data|));
    }

    predicate NeedsNewPack(recordLen: nat)
      reads this
    {
      active.None? || (active.value.len > 0 && active.value.len + recordLen > maxPackSize)
    }

    /** Writes through the buffer: the bytes go to the file or the buffer, in order, unless it fails. */
    method Put(data: bytes) returns (ok: bool, ghost more: bytes)
      requires Valid() && active.Some?
      modifies this`tick, this`files, this`active
      ensures active.Some? && active.value.id == old(active.value.id) && active.value.id in files
      ensures forall q :: q in issued ==> Holds(files, q)
      ensures forall p :: p in files ==> files[p].synced <= |files[p].data|
      ensures abandoned.Some? ==> abandoned.value in files
      ensures Grew(old(files), files, old(ActiveId())) && files.Keys == old(files).Keys
      ensures files == Grown(old(files), old(ActiveId()), more)
      ensures ok ==> files[active.value.id].data + active.value.buffered == old(Logical()) + data
      ensures active.value.len == old(active.value.len)
    {
      var r := io(tick);
      tick := tick + 1;
      var a := active.value;
      var all := a.buffered + data;
      var k := Min(r.n, |all|);
      more := all[..k];
      ghost var before := files;
      files := files[a.id := files[a.id].(data := files[a.id].data + all[..k])];
      active := Some(a.(buffered := all[k..]));
      forall q | q in issued ensures Holds(files, q) { HoldsGrew(before, files, Some(a.id), q); }
      assert files[a.id].data + all[k..] == before[a.id].data + all;
      ok := r.Done?;
    }

    /** Stops appending to the active pack and drops its buffered bytes. */
    method Abandon()
      requires active.Some?
      modifies this`active, this`abandoned
      ensures active.None? && abandoned == Some(old(active.value.id))
    {
      abandoned := Some(active.value.id);
      active := None;
    }

    method FlushBuffer(ghost s0: Sys, ghost s: Sys) returns (ok: bool, ghost s': Sys)
      requires Valid() && Match(s) && s.lock != Flushing && Leads(env, ByPackWriter, s0, s)
      modifies this`tick, this`files, this`active, this`abandoned
      ensures Valid() && Grew(old(files), files, old(ActiveId())) && files.Keys == old(files).Keys
      ensures ok ==> CurrentId() == old(CurrentId()) && abandoned == old(abandoned)
      ensures ok && active.Some? ==> files[active.value.id].data == old(Logical()) && active.value.buffered == []
      ensures ok && active.Some? ==> active.value.len == old(active.value.len)
      ensures !ok ==> active.None? && abandoned == old(ActiveId()) == old(CurrentId()) && abandoned.Some?
      ensures Leads(env, ByPackWriter, s0, s') && Match(s') && Framed(s, s') && s'.lock == (if ok then s.lock else Free)
    {
      hide Leads, Holds, MatchOf, Framed, AfterWrite, AfterAbandon, Grew, Grown;
      s' := s;
      FramedSame(s);
      GrewNone(files, ActiveId());
      if active.None? { return true, s'; }
      var r := io(tick);
      tick := tick + 1;
      var a := active.value;
      var k := if r.Done? then |a.buffered| else Min(r.n, |a.buffered|);
      ghost var before := files;
      files := files[a.id := files[a.id].(data := files[a.id].data + a.buffered[..k])];
      active := Some(a.(buffered := a.buffered[k..]));
      PartGrew(before, files, a.id, a.buffered[..k]);
      forall q | q in issued ensures Holds(files, q) { HoldsGrew(before, files, Some(a.id), q); }
      if r.Fails? {
        FailLeads(env, s0, s, a.buffered[..k], before, Some(a.id), abandoned, nextPack, rows);
        Abandon();
        return false, AfterAbandon(s, a.buffered[..k]);
      }
      assert a.buffered[..k] == a.buffered;
      WriteLeads(env, s0, s, a.buffered, before, a.id, abandoned, nextPack, rows);
      return true, AfterWrite(s, a.buffered);
    }

    /** As `Match`, but the current pack is synced. */
    ghost predicate MatchSynced(s: Sys, before: Disk)
      reads this
    {
      MatchOf(s, before, ActiveId(), abandoned, nextPack, rows) && files == Synced(before, CurrentId())
    }

    /** Flushes and syncs the active pack, or syncs the abandoned one. */
    method Sync(ghost s0: Sys, ghost s: Sys)
      returns (ok: bool, ghost s': Sys, ghost before: Disk)
      requires Valid() && Match(s) && s.lock != Flushing && Leads(env, ByPackWriter, s0, s)
      modifies this`tick, this`files, this`active, this`abandoned
      ensures Valid() && Grew(old(files), files, old(ActiveId())) && files.Keys == old(files).Keys
      ensures CurrentId() == old(CurrentId())
      ensures ok ==> ActiveId() == old(ActiveId()) && abandoned == old(abandoned)
      ensures ok && active.Some? ==>
                files[active.value.id].data == old(Logical()) && active.value.buffered == []
                && active.value.len == old(active.value.len)
      ensures ok && CurrentId().Some? ==>
                files[CurrentId().value].synced == |files[CurrentId().value].data|
      ensures !ok ==> active.None?
      ensures Leads(env, ByPackWriter, s0, s') && Framed(s, s') && s'.lock == (if ok then s.lock else Free)
      ensures if ok then MatchSynced(s', before) else Match(s')
    {
      hide Holds, Grew, Leads, MatchOf, Framed, AfterAbandon, Grown, Synced;
      ok, s' := FlushBuffer(s0, s);
      before := files;
      NoneSynced(files);
      if !ok || CurrentId().None? { return ok, s', before; }
      ok := Fsync(CurrentId().value);
      GrewTwice(old(files), before, files, old(ActiveId()), None);
      if !ok {
        FailLeads(env, s0, s', [], files, ActiveId(), abandoned, nextPack, rows);
        FramedTwice(s, s', AfterAbandon(s', []));
        GrownNone(files, ActiveId());
        if active.Some? { Abandon(); }
        s' := AfterAbandon(s', []);
      }
    }

    /** The sync of a durable commit: if it succeeds, the writer lock is held for the commit. */
    method SyncForCommit(ghost s: Sys) returns (ok: bool, ghost s': Sys)
      requires Valid() && Match(s) && s.lock == Free
      modifies this`tick, this`files, this`active, this`abandoned
      ensures Valid() && Grew(old(files), files, old(ActiveId())) && files.Keys == old(files).Keys
      ensures ok && CurrentId().Some? ==> files[CurrentId().value].synced == |files[CurrentId().value].data|
      ensures Leads(env, ByPackWriter, s, s') && Match(s') && Framed(s, s') && s'.lock == if ok then Flushing else Free
    {
      hide Leads, MatchOf, Framed, Holds, Grew, Synced, AfterSync;
      LeadsNone(env, ByPackWriter, s);
      ghost var before;
      ok, s', before := Sync(s, s);
      if ok {
        SyncLeads(env, s, s', before, ActiveId(), abandoned, nextPack, rows);
        FramedTwice(s, s', AfterSync(s'));
        s' := AfterSync(s');
      }
    }

    /** Syncs one file, or fails. */
    method Fsync(id: nat) returns (ok: bool)
      requires Valid() && id in files
      modifies this`tick, this`files
      ensures Valid() && Grew(old(files), files, None) && files.Keys == old(files).Keys
      ensures files[id].data == old(files[id].data)
      ensures files == if ok then Synced(old(files), Some(id)) else old(files)
      ensures ok ==> files[id].synced == |files[id].data|
    {
      hide Holds, Grew;
      var r := io(tick);
      tick := tick + 1;
      ok := r.Done?;
      ghost var before := files;
      GrewNone(files, None);
      if ok {
        files := files[id := files[id].(synced := |files[id].data|)];
        SyncGrew(before, files, id);
        forall q | q in issued ensures Holds(files, q) { HoldsGrew(before, files, None, q); }
      }
    }

    /** Appends one record; its place is the end of what was appended before. */
    method Append(header: bytes, payload: bytes, ghost s0: Sys, ghost s: Sys)
      returns (place: Result<(nat, nat)>, ghost s': Sys)
      requires Valid() && active.Some? && Match(s) && s.lock == Free && Leads(env, ByPackWriter, s0, s)
      modifies this`tick, this`files, this`active, this`abandoned
      ensures Valid() && Grew(old(files), files, old(ActiveId())) && files.Keys == old(files).Keys
      ensures place.Ok? ==>
                && ActiveId() == old(ActiveId()) == Some(place.value.0) && place.value.1 == |old(Logical())|
                && Logical() == old(Logical()) + (header + payload)
                && abandoned == old(abandoned)
      ensures place.Err? ==> active.None? && abandoned == old(ActiveId())
      ensures Leads(env, ByPackWriter, s0, s') && Match(s') && Framed(s, s') && s'.lock == Free
    {
      hide Leads, Holds, MatchOf, Framed, Grown, AfterWrite, AfterAbandon, Grew;
      ghost var before, p := files, active.value.id;
      GrewNone(files, ActiveId());
      var offset := active.value.len;
      var ok; ghost var more, rest;
      ok, more := Put(header);
      if ok {
        ghost var mid := files;
        active := Some(active.value.(len := active.value.len + |header|));
        ok, rest := Put(payload);
        GrewTwice(before, mid, files, Some(p), Some(p));
        GrownTwice(before, Some(p), more, rest);
        more := more + rest;
      }
      if !ok {
        FailLeads(env, s0, s, more, before, Some(p), abandoned, nextPack, rows);
        Abandon();
        return Err(Error.Io), AfterAbandon(s, more);
      }
      active := Some(active.value.(len := active.value.len + |payload|));
      WriteLeads(env, s0, s, more, before, p, abandoned, nextPack, rows);
      return Ok((active.value.id, offset)), AfterWrite(s, more);
    }

    /** Syncs and closes the current pack and creates pack `id`; the old pack is whole in its file. */
    method StartPack(id: nat, ghost s0: Sys, ghost s: Sys) returns (r: Result<Option<nat>>, ghost s': Sys)
      requires Valid() && Match(s) && s.lock == Registering(id) && Leads(env, ByPackWriter, s0, s)
      modifies this`tick, this`files, this`active, this`abandoned
      ensures Valid() && Grew(old(files), files, old(ActiveId())) && old(files).Keys <= files.Keys <= old(files).Keys + {id}
      ensures r.Ok? ==>
                && id !in old(files) && active == Some(ActivePack(id, [], 0)) && files[id].data == []
                && r.value == old(CurrentId())
                && (old(active).Some? ==> files[old(active.value.id)].data == old(Logical()))
                && (r.value.Some? ==> files[r.value.value].synced == |files[r.value.value].data|)
      ensures r.Err? ==> active.None?
      ensures Leads(env, ByPackWriter, s0, s') && Match(s') && Framed(s, s') && s'.lock == Free
    {
      hide Leads, MatchOf, Holds, Grew, Framed, AfterStart, AfterStartFails, Synced;
      var ok; ghost var before;
      ok, s', before := Sync(s0, s);
      if !ok { return Err(Error.Io), s'; }
      var was := CurrentId();
      ghost var mid, aid, ab := files, ActiveId(), abandoned;
      active, abandoned := None, None;
      ghost var linked;
      ok, linked := Create(id);
      CreatedGrew(old(files), mid, files, old(ActiveId()), id, linked);
      StartLeads(env, s0, s', id, linked, before, aid, ab, nextPack, rows);
      ghost var s'' := if id in mid || id !in files then AfterStartFails(s') else AfterStart(s', id, linked);
      FramedTwice(s, s', s'');
      return if ok then Ok(was) else Err(Error.Io), s'';
    }

    /** Creates an empty pack and makes its directory entry durable. */
    method Create(id: nat) returns (ok: bool, ghost linked: bool)
      requires Valid() && active.None? && abandoned.None?
      modifies this`tick, this`files, this`active, this`abandoned
      ensures Valid()
      ensures files == if id in files && id !in old(files) then old(files)[id := PackFile([], 0, linked)] else old(files)
      ensures ok ==> id !in old(files) && id in files && active == Some(ActivePack(id, [], 0)) && linked
      ensures !ok ==> active.None? && abandoned == if id in files && id !in old(files) then Some(id) else None
      ensures !ok && id in files && id !in old(files) ==> !linked
    {
      hide Holds;
      var create, link := io(tick), io(tick + 1);
      tick := tick + 2;
      linked := link.Done?;
      if create.Fails? || id in files { return false, linked; }
      ghost var before := files;
      files := files[id := PackFile([], 0, link.Done?)];
      forall q | q in issued ensures Holds(files, q) { HoldsGrew(before, files, None, q); }
      if link.Fails? {
        // The directory entry may not be durable; nothing is ever appended to this file.
        abandoned := Some(id);
        return false, linked;
      }
      active := Some(ActivePack(id, [], 0));
      return true, linked;
    }

    /** Record `j` is at its place, counting buffered bytes. */
    ghost predicate PlacedSoFar(place: (nat, nat), record: bytes)
      requires Valid()
      reads this
    {
      if ActiveId() == Some(place.0) then HoldsAt(Logical(), place.1, record)
      else Holds(files, Ticket(place.0, place.1, record))
    }

    /** The registration commit, which may fail: the current pack is sealed and the next one active. */
    method RegisterNext(ghost s0: Sys, ghost s: Sys) returns (ok: bool, ghost s': Sys)
      requires Valid() && Match(s) && s.lock == Free && Leads(env, ByPackWriter, s0, s)
      modifies this`tick, this`rows, this`nextPack
      ensures Valid() && nextPack == old(nextPack) + 1
      ensures forall p :: p in old(rows) && old(CurrentId()) != Some(p) && p != old(nextPack) ==>
                p in rows && rows[p] == old(rows)[p]
      ensures Leads(env, ByPackWriter, s0, s') && Match(s') && Framed(s, s')
      ensures s'.lock == if ok then Registering(old(nextPack)) else Free
    {
      hide Leads, MatchOf, Framed, AfterRegister, Holds;
      RegisterLeads(env, s0, s, files, ActiveId(), abandoned, nextPack, rows);
      var id, cur := nextPack, CurrentId();
      nextPack := nextPack + 1;
      var commit := io(tick);
      tick := tick + 1;
      ok, s' := commit.Done?, s.(nextPack := id + 1);
      if ok {
        if cur.Some? && cur.value in rows { rows := rows[cur.value := Sealed]; }
        rows := rows[id := Active];
        s' := AfterRegister(s);
      }
    }

    lemma PlacedParts(places: seq<(nat, nat)>, records: seq<bytes>, whole: bytes)
      requires Valid() && AllPlaced(places, records) && whole == if active.Some? then Logical() else []
      ensures forall j :: 0 <= j < |places| ==>
                if ActiveId() == Some(places[j].0) then HoldsAt(whole, places[j].1, records[j])
                else Holds(files, Ticket(places[j].0, places[j].1, records[j]))
    {
      hide Holds, HoldsAt;
      forall j | 0 <= j < |places| ensures PlacedSoFar(places[j], records[j]) { }
    }

    /** Registers and starts a new pack. What was placed stays placed. */
    method NewPack(ghost places: seq<(nat, nat)>, ghost records: seq<bytes>, ghost s0: Sys, ghost s: Sys)
      returns (ok: bool, ghost s': Sys)
      requires Valid() && AllPlaced(places, records) && Match(s) && s.lock == Free && Leads(env, ByPackWriter, s0, s)
      modifies this`tick, this`files, this`active, this`abandoned, this`rows, this`nextPack
      ensures Valid() && Grew(old(files), files, old(ActiveId())) && nextPack == old(nextPack) + 1
      ensures old(files).Keys <= files.Keys && (!ok ==> active.None? || active == old(active))
      ensures ok ==> active == Some(ActivePack(old(nextPack), [], 0)) && old(nextPack) !in old(files)
      ensures ok ==> AllPlaced(places, records)
      ensures forall p :: p in old(rows) && old(CurrentId()) != Some(p) && p != old(nextPack) ==>
                p in rows && rows[p] == old(rows)[p]
      ensures Leads(env, ByPackWriter, s0, s') && Match(s') && Framed(s, s') && s'.lock == Free
    {
      hide Grew, Leads, MatchOf, Framed, Holds, HoldsAt;
      ghost var whole := if active.Some? then Logical() else [];
      PlacedParts(places, records, whole);
      ghost var was, aid := files, ActiveId();
      GrewNone(files, ActiveId());
      var id := nextPack;
      ok, s' := RegisterNext(s0, s);
      if !ok { return; }
      ghost var mid := s';
      var r;
      r, s' := StartPack(id, s0, mid);
      FramedTwice(s, mid, s');
      if r.Err? { return false, s'; }
      forall j | 0 <= j < |places| ensures PlacedSoFar(places[j], records[j]) {
        PlacedMoved(was, files, aid, whole, id, places[j], records[j]);
      }
      return true, s';
    }

    ghost predicate AllPlaced(places: seq<(nat, nat)>, records: seq<bytes>)
      requires Valid()
      reads this
    {
      |places| == |records| && forall j :: 0 <= j < |places| ==> PlacedSoFar(places[j], records[j])
    }

    /** `append_records`: on success every record is in its pack's file at the place returned, and whatever
        fails, the writer has made steps of the store. */
    method AppendRecords(records: seq<(bytes, bytes)>, ghost s: Sys) returns (r: Result<seq<(nat, nat)>>, ghost s': Sys)
      requires Valid() && Match(s) && s.lock == Free
      modifies this
      ensures Valid() && old(issued) <= issued && Grew(old(files), files, old(ActiveId()))
      ensures r.Ok? ==> |r.value| == |records|
      ensures r.Ok? ==> forall j :: 0 <= j < |records| ==>
                Ticket(r.value[j].0, r.value[j].1, records[j].0 + records[j].1) in issued
      ensures r.Ok? ==> Laid(old(End()), r.value, Joined(records), maxPackSize)
      ensures r.Ok? ==> forall j :: 0 <= j < |records| ==>
                r.value[j].1 == 0 || r.value[j].1 + |records[j].0| + |records[j].1| <= maxPackSize
      ensures Leads(env, ByPackWriter, s, s') && Match(s') && Framed(s, s') && s'.lock == Free
    {
      hide Valid, Grew, AllPlaced, Leads, Match, Laid, EndBefore, Joined;
      s' := s;
      LeadsNone(env, ByPackWriter, s);
      var out: seq<(nat, nat)> := [];
      ghost var recs: seq<bytes> := [];
      assert Grew(files, files, ActiveId()) by { GrewNone(files, ActiveId()); }
      assert AllPlaced(out, recs) by { NonePlaced(); }
      LaidNone(End(), maxPackSize);
      var i := 0;
      while i < |records|
        invariant 0 <= i <= |records| && |out| == i && |recs| == i && issued == old(issued)
        invariant Valid() && AllPlaced(out, recs) && Grew(old(files), files, old(ActiveId()))
        invariant Leads(env, ByPackWriter, s, s') && Match(s') && Framed(s, s') && s'.lock == Free
        invariant old(files).Keys <= files.Keys
        invariant active.Some? ==> ActiveId() == old(ActiveId()) || active.value.id !in old(files)
        invariant forall j :: 0 <= j < i ==> recs[j] == records[j].0 + records[j].1
        invariant Laid(old(End()), out, recs, maxPackSize) && EndBefore(old(End()), out, recs, i) == End()
      {
        var (header, payload) := records[i];
        ghost var was, aid := files, ActiveId();
        var place;
        place, s' := AppendNext(header, payload, out, recs, s, s');
        GrewTwice(old(files), was, files, old(ActiveId()), aid);
        if place.Err? { return Err(Error.Io), s'; }
        LaidMore(old(End()), out, recs, maxPackSize, place.value, header + payload);
        out, recs := out + [place.value], recs + [header + payload];
        i := i + 1;
      }
      ghost var was, aid := files, ActiveId();
      var ok;
      ok, s' := Finish(out, recs, s, s');
      GrewTwice(old(files), was, files, old(ActiveId()), aid);
      JoinedIs(records, recs);
      forall j | 0 <= j < |records| ensures out[j].1 == 0 || out[j].1 + |records[j].0| + |records[j].1| <= maxPackSize {
        LaidBounded(old(End()), out, recs, maxPackSize, j);
      }
      return if ok then Ok(out) else Err(Error.Io), s';
    }

    /** One record of `AppendRecords`, in a new pack if the active one has no room for it. */
    method AppendNext(header: bytes, payload: bytes, ghost places: seq<(nat, nat)>, ghost records: seq<bytes>,
                      ghost s0: Sys, ghost s: Sys)
      returns (place: Result<(nat, nat)>, ghost s': Sys)
      requires Valid() && AllPlaced(places, records) && Match(s) && s.lock == Free && Leads(env, ByPackWriter, s0, s)
      modifies this`tick, this`files, this`active, this`abandoned, this`rows, this`nextPack
      ensures Valid() && Grew(old(files), files, old(ActiveId())) && old(files).Keys <= files.Keys
      ensures active.Some? ==> ActiveId() == old(ActiveId()) || active.value.id !in old(files)
      ensures place.Ok? ==> Follows(old(End()), place.value, |header + payload|, maxPackSize)
      ensures place.Ok? ==> End() == Some((place.value.0, place.value.1 + |header + payload|))
      ensures place.Ok? ==> AllPlaced(places + [place.value], records + [header + payload])
      ensures Leads(env, ByPackWriter, s0, s') && Match(s') && Framed(s, s') && s'.lock == Free
    {
      hide Grew, AllPlaced, Leads, Match, Framed, Holds;
      s' := s;
      FramedSame(s);
      GrewNone(files, ActiveId());
      if NeedsNewPack(|header| + |payload|) {
        var ok;
        ok, s' := NewPack(places, records, s0, s);
        if !ok { return Err(Error.Io), s'; }
      }
      ghost var was, aid, mid := files, ActiveId(), s';
      place, s' := AppendOne(header, payload, places, records, s0, mid);
      GrewTwice(old(files), was, files, old(ActiveId()), aid);
      FramedTwice(s, mid, s');
    }

    lemma NonePlaced()
      requires Valid()
      ensures AllPlaced([], [])
    {
    }

    /** Hands the buffer to the system; then the records can be handed out. */
    method Finish(ghost out: seq<(nat, nat)>, ghost recs: seq<bytes>, ghost s0: Sys, ghost s: Sys)
      returns (ok: bool, ghost s': Sys)
      requires Valid() && AllPlaced(out, recs) && Match(s) && s.lock == Free && Leads(env, ByPackWriter, s0, s)
      modifies this
      ensures Valid() && old(issued) <= issued && Grew(old(files), files, old(ActiveId()))
      ensures ok ==> forall j :: 0 <= j < |out| ==> Ticket(out[j].0, out[j].1, recs[j]) in issued
      ensures Leads(env, ByPackWriter, s0, s') && Match(s') && Framed(s, s') && s'.lock == Free
    {
      hide Holds, HoldsAt, Leads, StatesOf;
      ghost var last, was := ActiveId(), files;
      ok, s' := FlushBuffer(s0, s);
      if !ok { return; }
      forall j | 0 <= j < |out| ensures Holds(files, Ticket(out[j].0, out[j].1, recs[j])) {
        if last != Some(out[j].0) { HoldsGrew(was, files, last, Ticket(out[j].0, out[j].1, recs[j])); }
        else { HoldsIn(files, out[j].0, out[j].1, recs[j]); }
      }
      issued := issued + (set j | 0 <= j < |out| :: Ticket(out[j].0, out[j].1, recs[j]));
    }

    lemma HoldsIn(files: Disk, pack: nat, offset: nat, record: bytes)
      requires pack in files && HoldsAt(files[pack].data, offset, record)
      ensures Holds(files, Ticket(pack, offset, record))
    {
    }

    /** Appending a record keeps earlier ones in place. */
    method AppendOne(header: bytes, payload: bytes, ghost places: seq<(nat, nat)>, ghost records: seq<bytes>,
                     ghost s0: Sys, ghost s: Sys)
      returns (place: Result<(nat, nat)>, ghost s': Sys)
      requires Valid() && active.Some? && AllPlaced(places, records)
      requires Match(s) && s.lock == Free && Leads(env, ByPackWriter, s0, s)
      modifies this`tick, this`files, this`active, this`abandoned
      ensures Valid() && Grew(old(files), files, old(ActiveId()))
      ensures place.Ok? ==> ActiveId() == old(ActiveId()) && old(End()) == Some(place.value)
      ensures place.Ok? ==> End() == Some((place.value.0, place.value.1 + |header + payload|))
      ensures place.Ok? ==> AllPlaced(places + [place.value], records + [header + payload])
      ensures place.Err? ==> active.None?
      ensures Leads(env, ByPackWriter, s0, s') && Match(s') && Framed(s, s') && s'.lock == Free
    {
      hide Leads, StatesOf, Framed;
      ghost var was, before := files, Logical();
      ghost var aid := ActiveId();
      place, s' := Append(header, payload, s0, s);
      if place.Err? { return; }
      hide Valid;
      ghost var record := header + payload;
      assert Logical()[|before|..|before| + |record|] == record;
      forall j | 0 <= j < |places| ensures PlacedSoFar(places[j], records[j]) {
        if aid != Some(places[j].0) {
          HoldsGrew(was, files, aid, Ticket(places[j].0, places[j].1, records[j]));
        } else {
          HoldsLonger(before, Logical(), places[j].1, records[j]);
        }
      }
    }

    lemma HoldsLonger(a: bytes, b: bytes, offset: nat, record: bytes)
      requires a <= b && HoldsAt(a, offset, record)
      ensures HoldsAt(b, offset, record)
    {
      assert a[offset..offset + |record|] == b[offset..offset + |record|];
    }
  }
}
