/** `compact_pack`: the scan, the walk over the index, the moves and the retirement as one thread runs
    them, while other threads commit whatever they like in between. */
module CompactPack {
  import opened Base
  import opened Manifest
  import opened Ledger
  import opened Codec
  import opened Meaning
  import opened System
  import opened Safety
  import opened Runs
  import opened Scan
  import opened Compaction

  // ---- What the thread meets ----

  /** `states(n)` is the index at the thread's `n`-th look or transaction. The append before transaction `n`
      puts its `k`-th record at `place(n, k)`, and from transaction `limit` on appending fails. */
  datatype Turns = Turns(states: nat -> Db, place: (nat, nat) -> (nat, nat), limit: nat)

  /** The books are in order whenever the thread looks. Records go to the active pack, which is registered
      and is not the sealed pack that is compacted. */
  ghost predicate TurnsOk(w: Turns, env: Env, pack: nat) {
    && (forall n :: Books(env, w.states(n)))
    && forall n, k :: Accepts(w.states(n), w.place(n, k).0) && w.place(n, k).0 != pack
  }

  datatype Kind = Look | Drop(id: nat) | Shift(copies: seq<Copy>) | End

  /** One look or transaction of the thread. */
  datatype Turn = Turn(kind: Kind, before: Db, after: Db)

  /** The blocks that lie in the pack, with their offsets. */
  ghost function InPack(db: Db, pack: nat): set<(nat, nat)> {
    set id | id in db.blocks && db.blocks[id].pack == pack :: (id, db.blocks[id].offset)
  }

  /** Looking changes nothing, dropping forgets at most the block, moving repoints exactly the blocks still at
      their place and changes no file, and the last transaction retires the pack exactly if no block lies in it. */
  ghost predicate TurnOk(env: Env, pack: nat, t: Turn) {
    && Books(env, t.after)
    && match t.kind
       case Look => t.after == t.before
       case Drop(id) =>
         t.after == t.before || (SameRest(t.before, t.after) && t.after.blocks == t.before.blocks - {id}
                                 && Forgets(Contents(t.before, env), Contents(t.after, env)))
       case Shift(copies) => MovedExactly(t.before, t.after, copies) && Contents(t.after, env) == Contents(t.before, env)
       case End =>
         pack in t.before.packs && t.after == Ended(t.before, pack) && (Retires(t) <==> InPack(t.before, pack) == {})
  }

  function Ended(db: Db, pack: nat): Db
    requires pack in db.packs
  {
    if db.packs[pack].live != 0 then db else db.(packs := db.packs[pack := db.packs[pack].(state := Retired)])
  }

  predicate Retires(t: Turn) { t.after != t.before }

  ghost predicate LogOk(env: Env, pack: nat, w: Turns, log: seq<Turn>) {
    forall k :: 0 <= k < |log| ==> log[k].before == w.states(k) && TurnOk(env, pack, log[k])
  }

  ghost predicate NoDrops(log: seq<Turn>) { forall k :: 0 <= k < |log| ==> !log[k].kind.Drop? }

  /** Every block of the pack can be read whenever the thread looks. */
  ghost predicate Readable(env: Env, pack: nat, file: bytes, w: Turns) {
    forall n :: AllReadable(env, w.states(n), pack, file)
  }

  /** From turn `from` on, other threads put no block into the pack. */
  ghost predicate NoneAdded(log: seq<Turn>, pack: nat, from: nat) {
    forall k {:trigger log[k]} :: from < k < |log| ==> Joined(log, pack, k)
  }

  ghost predicate Joined(log: seq<Turn>, pack: nat, k: nat)
    requires 0 < k < |log|
  {
    InPack(log[k].before, pack) <= InPack(log[k - 1].after, pack)
  }

  /** If other threads put no block into the pack, only those in `left` are there now. */
  ghost predicate Below(log: seq<Turn>, pack: nat, from: Option<nat>, left: set<(nat, nat)>) {
    from.Some? ==>
      && from.value < |log|
      && (NoneAdded(log, pack, from.value) ==> InPack(log[|log| - 1].after, pack) <= left)
  }

  lemma LogMore(env: Env, pack: nat, w: Turns, log: seq<Turn>, t: Turn)
    requires LogOk(env, pack, w, log) && t.before == w.states(|log|) && TurnOk(env, pack, t)
    ensures LogOk(env, pack, w, log + [t]) && (NoDrops(log) && !t.kind.Drop? ==> NoDrops(log + [t]))
  {
    hide TurnOk;
  }

  lemma BelowMore(log: seq<Turn>, t: Turn, pack: nat, from: Option<nat>, left: set<(nat, nat)>, gone: set<(nat, nat)>)
    requires Below(log, pack, from, left) && InPack(t.after, pack) <= InPack(t.before, pack) - gone
    ensures Below(log + [t], pack, from, left - gone)
  {
    hide InPack;
    var now := log + [t];
    if from.Some? && NoneAdded(now, pack, from.value) {
      forall k | from.value < k < |log| ensures Joined(log, pack, k) {
        assert now[k] == log[k] && now[k - 1] == log[k - 1] && Joined(now, pack, k);
      }
      assert now[|log|] == t && Joined(now, pack, |log|);
    }
  }

  // ---- One transaction ----

  /** The transaction of `heal`. */
  method HealTurn(env: Env, pack: nat, id: nat, loc: BlockLoc, w: Turns, n: nat) returns (ghost t: Turn)
    requires TurnsOk(w, env, pack) && loc.pack == pack
    ensures t.kind == Drop(id) && t.before == w.states(n) && TurnOk(env, pack, t)
    ensures InPack(t.after, pack) <= InPack(t.before, pack) - {(id, loc.offset)}
  {
    hide Books, Contents, Forgets, RemoveBlock, SameRest;
    var db := w.states(n);
    var after := db;
    assert Books(env, db);
    if id in db.blocks && db.blocks[id].pack == loc.pack && db.blocks[id].offset == loc.offset {
      HealBooks(env, db, id);
      assert Inv(db, env) by { BooksInv(env, db); }
      HealForgets(env, db, id);
      after := RemoveBlock(db, id, db.blocks[id]).value;
    }
    t := Turn(Drop(id), db, after);
  }

  lemma BooksInv(env: Env, db: Db)
    requires Books(env, db)
    ensures Inv(db, env) && Ids(db) && Totals(db)
  {
  }

  ghost function PairsOf(db: Db, ids: seq<nat>): set<(nat, nat)> {
    set id | id in ids && id in db.blocks :: (id, db.blocks[id].offset)
  }

  ghost function LivePairs(live: seq<LiveRecord>): set<(nat, nat)> {
    set l | l in live :: (l.pick.id, l.pick.from.offset)
  }

  /** Heals the blocks found bad, each in a transaction of its own. */
  method HealAll(env: Env, pack: nat, db: Db, bad: seq<nat>, w: Turns, n: nat, ghost log: seq<Turn>,
                 ghost from: Option<nat>, ghost left: set<(nat, nat)>)
    returns (n': nat, ghost log': seq<Turn>)
    requires TurnsOk(w, env, pack) && LogOk(env, pack, w, log) && n == |log| && Below(log, pack, from, left)
    requires forall id :: id in bad ==> id in db.blocks && db.blocks[id].pack == pack
    ensures LogOk(env, pack, w, log') && n' == |log'| >= n && Below(log', pack, from, left - PairsOf(db, bad))
    ensures (bad == [] ==> log' == log) && log <= log'
  {
    hide TurnsOk, LogOk, Below, TurnOk, InPack;
    n', log' := n, log;
    assert left - PairsOf(db, bad[..0]) == left;
    for i := 0 to |bad|
      invariant LogOk(env, pack, w, log') && n' == |log'| >= n && Below(log', pack, from, left - PairsOf(db, bad[..i]))
      invariant (i == 0 ==> log' == log) && log <= log'
    {
      var id := bad[i];
      ghost var t := HealTurn(env, pack, id, db.blocks[id], w, n');
      LogMore(env, pack, w, log', t);
      BelowMore(log', t, pack, from, left - PairsOf(db, bad[..i]), {(id, db.blocks[id].offset)});
      PairsMore(db, bad, i);
      assert left - PairsOf(db, bad[..i]) - {(id, db.blocks[id].offset)} == left - PairsOf(db, bad[..i + 1]);
      n', log' := n' + 1, log' + [t];
    }
    assert bad[..|bad|] == bad;
  }

  lemma PairsMore(db: Db, ids: seq<nat>, i: nat)
    requires i < |ids| && ids[i] in db.blocks
    ensures PairsOf(db, ids[..i + 1]) == PairsOf(db, ids[..i]) + {(ids[i], db.blocks[ids[i]].offset)}
  {
    assert ids[..i + 1] == ids[..i] + [ids[i]];
  }

  /** The append and the transaction of `move_records`: `false` if the append fails. */
  method MoveLive(env: Env, pack: nat, live: seq<LiveRecord>, w: Turns, n: nat, ghost log: seq<Turn>,
                  ghost from: Option<nat>, ghost left: set<(nat, nat)>)
    returns (ok: bool, n': nat, ghost log': seq<Turn>)
    requires TurnsOk(w, env, pack) && LogOk(env, pack, w, log) && n == |log| && Below(log, pack, from, left)
    requires DistinctPicks(live) && forall l :: l in live ==> l.pick.from.pack == pack
    ensures LogOk(env, pack, w, log') && n' == |log'| >= n && (NoDrops(log) ==> NoDrops(log')) && log <= log'
    ensures if ok then Below(log', pack, from, left - LivePairs(live)) else n' >= w.limit && log' == log
  {
    hide TurnsOk, LogOk, Below, TurnOk, InPack, DistinctPicks, NoDrops;
    ok, n', log' := true, n, log;
    if live == [] { assert left - LivePairs(live) == left; return; }
    if n >= w.limit { ok := false; return; }
    ghost var t := ShiftTurn(env, pack, live, w, n);
    LogMore(env, pack, w, log, t);
    BelowMore(log, t, pack, from, left, LivePairs(live));
    n', log' := n + 1, log + [t];
  }

  method ShiftTurn(env: Env, pack: nat, live: seq<LiveRecord>, w: Turns, n: nat) returns (ghost t: Turn)
    requires TurnsOk(w, env, pack) && DistinctPicks(live) && forall l :: l in live ==> l.pick.from.pack == pack
    ensures t.kind.Shift? && t.before == w.states(n) && TurnOk(env, pack, t)
    ensures InPack(t.after, pack) <= InPack(t.before, pack) - LivePairs(live)
  {
    hide Books, Contents, MovedExactly, DistinctPicks, DistinctIds, InPack, LivePairs;
    var db := w.states(n);
    assert Books(env, db);
    BooksInv(env, db);
    var places := seq(|live|, k requires 0 <= k < |live| => w.place(n, k));
    var copies := CopiesOf(live, places);
    PickedDistinct(live, places);
    forall c | c in copies ensures Accepts(db, c.to.pack) && c.to.pack != pack { }
    var r := MoveRecords(env, db, copies);
    t := Turn(Shift(copies), db, r.value);
    ShiftBooks(env, db, r.value, copies);
    ShiftPairs(db, r.value, pack, live, copies);
  }

  lemma ShiftBooks(env: Env, db: Db, db': Db, copies: seq<Copy>)
    requires Books(env, db) && Inv(db', env) && MovedExactly(db, db', copies)
    requires forall c :: c in copies ==> Accepts(db, c.to.pack)
    ensures Books(env, db') && Contents(db', env) == Contents(db, env)
  {
    hide Inv, Contents;
    MoveIsStep(env, db, db', copies);
    MoveInvisible(env, db, db', set c | c in copies);
    forall id | id in db'.blocks && db'.blocks[id].pack in db'.packs ensures db'.packs[db'.blocks[id].pack].state != Retired {
      if exists c :: c in copies && Hits(c, id, db.blocks[id]) {
        var c :| c in copies && Hits(c, id, db.blocks[id]);
        assert MovedBy(c, id, db.blocks[id], db'.blocks[id]);
      }
    }
  }

  lemma ShiftPairs(db: Db, db': Db, pack: nat, live: seq<LiveRecord>, copies: seq<Copy>)
    requires MovedExactly(db, db', copies) && forall c :: c in copies ==> c.to.pack != pack
    requires |copies| == |live| && forall k :: 0 <= k < |live| ==> copies[k].pick == live[k].pick
    requires forall l :: l in live ==> l.pick.from.pack == pack
    ensures InPack(db', pack) <= InPack(db, pack) - LivePairs(live)
  {
    hide SameRest;
    forall id | id in db.blocks
      ensures db'.blocks[id].pack == pack ==>
                db'.blocks[id] == db.blocks[id] && (id, db.blocks[id].offset) !in LivePairs(live)
    {
      if (id, db.blocks[id].offset) in LivePairs(live) && db.blocks[id].pack == pack {
        var l :| l in live && l.pick.id == id && l.pick.from.offset == db.blocks[id].offset;
        var k :| 0 <= k < |live| && live[k] == l;
        assert copies[k] in copies && Hits(copies[k], id, db.blocks[id]);
      }
      if exists c :: c in copies && Hits(c, id, db.blocks[id]) {
        var c :| c in copies && Hits(c, id, db.blocks[id]);
        assert MovedBy(c, id, db.blocks[id], db'.blocks[id]);
      }
    }
  }

  // ---- The scan and the walk ----

  ghost function Offsets(scanned: seq<Scanned>): set<nat> { set s | s in scanned :: s.offset }

  /** The blocks that lay in the pack when the thread first looked, but for those at offsets in `gone`. */
  ghost function Left(w: Turns, pack: nat, gone: set<nat>): set<(nat, nat)> {
    set p | p in InPack(w.states(0), pack) && p.1 !in gone
  }

  /** If every block can be read and other threads put none into the pack, those at the offsets in `gone` have
      left it. */
  ghost predicate ScanGone(env: Env, pack: nat, file: bytes, w: Turns, log: seq<Turn>, gone: set<nat>) {
    if log == [] then gone == {}
    else Readable(env, pack, file, w) ==> Below(log, pack, Some(0), Left(w, pack, gone))
  }

  /** `move_scanned`. */
  method MoveScanned(env: Env, pack: nat, ghost file: bytes, batch: seq<Scanned>, w: Turns, n: nat, ghost log: seq<Turn>,
                     ghost gone: set<nat>)
    returns (ok: bool, n': nat, ghost log': seq<Turn>)
    requires TurnsOk(w, env, pack) && LogOk(env, pack, w, log) && n == |log|
    requires InOrder(batch) && forall s :: s in batch ==> FromFile(file, s)
    requires ScanGone(env, pack, file, w, log, gone)
    ensures LogOk(env, pack, w, log') && n' == |log'| > 0 && (!ok ==> n' >= w.limit)
    ensures Readable(env, pack, file, w) && NoDrops(log) ==> NoDrops(log')
    ensures ok ==> ScanGone(env, pack, file, w, log', gone + Offsets(batch))
  {
    hide LogOk, TurnOk, Sorted, DistinctPicks, InOrder, FromFile, AllReadable, Books, NoDrops, Accepts, Below, Left, InPack,
         Offsets;
    var db := w.states(n);
    assert Books(env, db);
    LookMore(env, pack, w, log);
    ghost var from := if Readable(env, pack, file, w) then Some(0) else None;
    ghost var left := Left(w, pack, gone) * InPack(db, pack);
    LookLeft(env, pack, file, w, log, gone, from, left);
    var live, bad := PickFromFile(env, db, pack, file, batch);
    OfPack(env, db, pack, batch, live, bad);
    n', log' := HealAll(env, pack, db, bad, w, n + 1, log + [Turn(Look, db, db)], from, left);
    ok, n', log' := MoveLive(env, pack, live, w, n', log', from, left - PairsOf(db, bad));
    if ok && from.Some? {
      BatchGone(env, db, pack, file, batch, live, bad, w, gone);
      BelowLess(log', pack, 0, left - PairsOf(db, bad) - LivePairs(live), Left(w, pack, gone + Offsets(batch)));
    }
  }

  lemma LookLeft(env: Env, pack: nat, file: bytes, w: Turns, log: seq<Turn>, gone: set<nat>, from: Option<nat>,
                 left: set<(nat, nat)>)
    requires ScanGone(env, pack, file, w, log, gone)
    requires from == if Readable(env, pack, file, w) then Some(0) else None
    requires left == Left(w, pack, gone) * InPack(w.states(|log|), pack)
    ensures Below(log + [Turn(Look, w.states(|log|), w.states(|log|))], pack, from, left)
  {
    hide InPack, Readable;
    var t := Turn(Look, w.states(|log|), w.states(|log|));
    if log != [] && from.Some? { BelowMore(log, t, pack, from, Left(w, pack, gone), {}); }
  }

  /** A readable block at the place of a record of the batch is moved. */
  lemma BatchGone(env: Env, db: Db, pack: nat, file: bytes, batch: seq<Scanned>, live: seq<LiveRecord>, bad: seq<nat>,
                  w: Turns, gone: set<nat>)
    requires Books(env, db) && AllReadable(env, db, pack, file) && Sorted(env, db, pack, batch, live, bad)
    requires forall s :: s in batch ==> FromFile(file, s)
    ensures Left(w, pack, gone) * InPack(db, pack) - PairsOf(db, bad) - LivePairs(live)
            <= Left(w, pack, gone + Offsets(batch))
  {
    forall id | id in db.blocks && db.blocks[id].pack == pack && db.blocks[id].offset in Offsets(batch)
      ensures (id, db.blocks[id].offset) in LivePairs(live)
    {
      OneGone(env, db, pack, file, batch, live, bad, id);
    }
  }

  lemma OneGone(env: Env, db: Db, pack: nat, file: bytes, batch: seq<Scanned>, live: seq<LiveRecord>, bad: seq<nat>, id: nat)
    requires Books(env, db) && AllReadable(env, db, pack, file) && Sorted(env, db, pack, batch, live, bad)
    requires forall s :: s in batch ==> FromFile(file, s)
    requires id in db.blocks && db.blocks[id].pack == pack && db.blocks[id].offset in Offsets(batch)
    ensures (id, db.blocks[id].offset) in LivePairs(live)
  {
    hide Sound, FromFile, RecordOk, Totals, Lengths, Acct, AllCounted;
    var loc := db.blocks[id];
    var s :| s in batch && s.offset == loc.offset;
    GoodIsSound(env, file, s, loc);
    assert IsCurrent(db, pack, s, id);
    assert LiveRecord(Pick(id, loc), s.data) in live;
  }

  lemma LookMore(env: Env, pack: nat, w: Turns, log: seq<Turn>)
    requires LogOk(env, pack, w, log) && Books(env, w.states(|log|))
    ensures var now := log + [Turn(Look, w.states(|log|), w.states(|log|))];
            LogOk(env, pack, w, now) && (NoDrops(log) ==> NoDrops(now))
  {
    hide Books;
    LogMore(env, pack, w, log, Turn(Look, w.states(|log|), w.states(|log|)));
  }

  lemma OfPack(env: Env, db: Db, pack: nat, batch: seq<Scanned>, live: seq<LiveRecord>, bad: seq<nat>)
    requires Sorted(env, db, pack, batch, live, bad)
    ensures forall l :: l in live ==> l.pick.from.pack == pack
    ensures forall id :: id in bad ==> id in db.blocks && db.blocks[id].pack == pack
  {
    hide Sound;
  }

  /** The blocks of the pack from id `first` on. */
  ghost function InPackFrom(db: Db, pack: nat, first: nat): set<(nat, nat)> {
    set id | id in db.blocks && db.blocks[id].pack == pack && id >= first :: (id, db.blocks[id].offset)
  }

  const CHUNK: nat := 256

  /** Where the next chunk of the pack's blocks ends. */
  method ChunkEnd(db: Db, pack: nat, first: nat, top: nat) returns (end: nat)
    requires first < top
    ensures first < end <= top
  {
    end := first;
    var count := 0;
    while end < top && count < CHUNK
      invariant first <= end <= top && (end == first ==> count == 0)
    {
      if end in db.blocks && db.blocks[end].pack == pack { count := count + 1; }
      end := end + 1;
    }
  }

  /** `evacuate_by_index`: unless another thread puts a block into the pack, none is left in it. */
  method Evacuate(env: Env, pack: nat, file: bytes, w: Turns, n: nat, ghost log: seq<Turn>, ghost from: nat)
    returns (ok: bool, n': nat, ghost log': seq<Turn>)
    requires TurnsOk(w, env, pack) && LogOk(env, pack, w, log) && n == |log| && from < |log|
    ensures LogOk(env, pack, w, log') && n' == |log'| && from < |log'| && log <= log'
    ensures if ok then Below(log', pack, Some(from), {}) else n' >= w.limit
    ensures Readable(env, pack, file, w) && NoDrops(log) ==> NoDrops(log')
  {
    hide LogOk, TurnOk, DistinctPicks, AllReadable, Books, Below, InPack, NoDrops, Vouched, Accepts;
    var db := w.states(n);
    assert Books(env, db);
    LookMore(env, pack, w, log);
    ok, n', log' := true, n + 1, log + [Turn(Look, db, db)];
    StartBelow(log, db, pack, from);
    var first := 0;
    while first < db.nextBlock
      invariant LogOk(env, pack, w, log') && n' == |log'| > from && log <= log'
      invariant Below(log', pack, Some(from), InPackFrom(db, pack, first))
      invariant Readable(env, pack, file, w) && NoDrops(log) ==> NoDrops(log')
    {
      var end := ChunkEnd(db, pack, first, db.nextBlock);
      var live, bad := PickByIndex(env, db, pack, file, first, end);
      ghost var left := InPackFrom(db, pack, first);
      n', log' := HealAll(env, pack, db, bad, w, n', log', Some(from), left);
      ok, n', log' := MoveLive(env, pack, live, w, n', log', Some(from), left - PairsOf(db, bad));
      if !ok { return; }
      ChunkDone(env, db, pack, file, first, end, live, bad);
      BelowLess(log', pack, from, left - PairsOf(db, bad) - LivePairs(live), InPackFrom(db, pack, end));
      first := end;
    }
    NoneFrom(env, db, pack, first);
  }

  lemma StartBelow(log: seq<Turn>, db: Db, pack: nat, from: nat)
    requires from < |log|
    ensures Below(log + [Turn(Look, db, db)], pack, Some(from), InPackFrom(db, pack, 0))
  {
    assert InPackFrom(db, pack, 0) == InPack(db, pack);
  }

  lemma BelowLess(log: seq<Turn>, pack: nat, from: nat, left: set<(nat, nat)>, less: set<(nat, nat)>)
    requires Below(log, pack, Some(from), left) && left <= less
    ensures Below(log, pack, Some(from), less)
  {
    hide InPack, NoneAdded;
  }

  lemma ChunkDone(env: Env, db: Db, pack: nat, file: bytes, first: nat, end: nat, live: seq<LiveRecord>, bad: seq<nat>)
    requires forall id :: id in bad <==>
               first <= id < end && id in db.blocks && db.blocks[id].pack == pack && !Vouched(env, file, db.blocks[id])
    requires forall l :: l in live <==>
               && first <= l.pick.id < end && l.pick.id in db.blocks && l.pick.from == db.blocks[l.pick.id]
               && l.pick.from.pack == pack && Vouched(env, file, l.pick.from)
               && l.data == file[l.pick.from.offset..l.pick.from.offset + l.pick.from.RecordLen()]
    ensures InPackFrom(db, pack, first) - PairsOf(db, bad) - LivePairs(live) <= InPackFrom(db, pack, end)
  {
    forall id | id in db.blocks && db.blocks[id].pack == pack && first <= id < end
      ensures (id, db.blocks[id].offset) in PairsOf(db, bad) + LivePairs(live)
    {
      var loc := db.blocks[id];
      if Vouched(env, file, loc) {
        var l := LiveRecord(Pick(id, loc), file[loc.offset..loc.offset + loc.RecordLen()]);
        assert l in live;
      } else {
        assert id in bad;
      }
    }
  }

  lemma NoneFrom(env: Env, db: Db, pack: nat, first: nat)
    requires Books(env, db) && first >= db.nextBlock
    ensures InPackFrom(db, pack, first) == {}
  {
    hide Totals, Lengths, Acct, Inverse, AllCounted;
  }

  // ---- The whole ----

  /** Without live bytes the pack holds no block, and the other way round. */
  lemma EmptyIffNoLive(env: Env, db: Db, pack: nat)
    requires Books(env, db)
    ensures pack in db.packs ==> (db.packs[pack].live == 0 <==> InPack(db, pack) == {})
    ensures pack !in db.packs ==> InPack(db, pack) == {}
  {
    hide Lengths, Acct, Inverse, AllCounted;
    if pack in db.packs {
      if db.packs[pack].live == 0 { NoLiveNoBlocks(db, pack); }
      else if InPack(db, pack) == {} {
        assert forall id :: id in db.blocks && db.blocks[id].pack == pack ==> (id, db.blocks[id].offset) in InPack(db, pack);
        LiveNone(db.blocks, pack, db.nextBlock);
      }
    }
  }

  lemma RetireBooks(env: Env, db: Db, pack: nat)
    requires Books(env, db) && pack in db.packs
    ensures Books(env, Ended(db, pack))
  {
    hide LiveBelow, Refs, BlockCount, BlockLen;
    if db.packs[pack].live == 0 { NoLiveNoBlocks(db, pack); }
  }

  /** The transaction that retires the pack if it is empty by then. */
  method EndTurn(env: Env, pack: nat, w: Turns, n: nat) returns (retired: bool, ghost t: Turn)
    requires TurnsOk(w, env, pack) && pack in w.states(n).packs && w.states(n).packs[pack].state != Retired
    ensures t.kind == End && t.before == w.states(n) && TurnOk(env, pack, t)
    ensures retired <==> Retires(t)
  {
    hide Books, InPack;
    var db := w.states(n);
    assert Books(env, db);
    EmptyIffNoLive(env, db, pack);
    RetireBooks(env, db, pack);
    retired := db.packs[pack].live == 0;
    t := Turn(End, db, Ended(db, pack));
    if retired { assert t.after.packs[pack].state != db.packs[pack].state; }
  }

  /** The batches of the scan, each of about `txnBytes`. */
  method ScanMoves(env: Env, pack: nat, file: bytes, txnBytes: nat, w: Turns)
    returns (ok: bool, n: nat, ghost log: seq<Turn>)
    requires TurnsOk(w, env, pack)
    ensures LogOk(env, pack, w, log) && n == |log| > 0 && (!ok ==> n >= w.limit)
    ensures Readable(env, pack, file, w) ==> NoDrops(log)
    ensures ok ==> ScanGone(env, pack, file, w, log, Offsets(ScanFrom(file, 0)))
  {
    hide TurnsOk, LogOk, InOrder, FromFile, Readable, NoDrops, ScanFrom, ScanGone, Offsets;
    ok, n, log := true, 0, [];
    EmptyLog(env, pack, w);
    var found := ScanPack(file);
    assert found[..0] == [] && Offsets([]) == {} by { NoOffsets(); }
    ScanInOrder(file, 0);
    ScannedFromFile(file, 0);
    var batch, size := [], 0;
    ghost var start := 0;
    for i := 0 to |found|
      invariant start <= i && batch == found[start..i]
      invariant LogOk(env, pack, w, log) && n == |log| && (Readable(env, pack, file, w) ==> NoDrops(log))
      invariant ScanGone(env, pack, file, w, log, Offsets(found[..start]))
    {
      batch, size := batch + [found[i]], size + |found[i].data|;
      if size >= txnBytes {
        PartInOrder(found, start, i + 1);
        assert batch == found[start..i + 1];
        OffsetsJoin(found, start, i + 1);
        ok, n, log := MoveScanned(env, pack, file, batch, w, n, log, Offsets(found[..start]));
        if !ok { return; }
        batch, size, start := [], 0, i + 1;
      }
    }
    PartInOrder(found, start, |found|);
    assert batch == found[start..|found|];
    OffsetsJoin(found, start, |found|);
    assert found[..|found|] == found;
    ok, n, log := MoveScanned(env, pack, file, batch, w, n, log, Offsets(found[..start]));
  }

  lemma OffsetsJoin(found: seq<Scanned>, i: nat, j: nat)
    requires i <= j <= |found|
    ensures Offsets(found[..j]) == Offsets(found[..i]) + Offsets(found[i..j])
  {
    assert found[..j] == found[..i] + found[i..j];
  }

  lemma NoOffsets()
    ensures Offsets([]) == {}
  {
  }

  lemma EmptyLog(env: Env, pack: nat, w: Turns)
    ensures LogOk(env, pack, w, []) && NoDrops([]) && forall file :: ScanGone(env, pack, file, w, [], {})
  {
  }

  lemma PartInOrder(found: seq<Scanned>, i: nat, j: nat)
    requires i <= j <= |found| && InOrder(found)
    ensures InOrder(found[i..j]) && forall s :: s in found[i..j] ==> s in found
  {
  }

  /** `compact_pack` on a pack with the file `file`. `Ok(true)`: the pack is retired, and no block lies in it.
      `Ok(false)`: it stays sealed, because another thread put a block into it after turn `from`, where the
      thread looks whether the scan left live bytes. If all blocks can be read where the scan finds records and
      no other thread adds one, the scan leaves none and the walk over the index is spared. */
  method Compact(env: Env, pack: nat, file: Option<bytes>, txnBytes: nat, w: Turns)
    returns (r: Result<bool>, ghost log: seq<Turn>, ghost from: nat)
    requires TurnsOk(w, env, pack)
    requires forall n :: pack in w.states(n).packs ==> w.states(n).packs[pack].state != Retired
    ensures LogOk(env, pack, w, log)
    ensures r.Ok? ==> from < |log| && log[|log| - 1].kind == End && (r.value <==> Retires(log[|log| - 1]))
    ensures r.Ok? && !r.value ==> !NoneAdded(log, pack, from)
    ensures r.Err? ==> file.None? || |log| >= w.limit || pack !in w.states(|log|).packs
    ensures file.Some? && Readable(env, pack, file.value, w) ==> NoDrops(log)
    ensures r.Ok? ==> file.Some?
    ensures r.Ok? && Scannable(env, pack, file.value, w) && NoneAdded(log, pack, 0) ==> r.value && |log| == from + 2
  {
    hide LogOk, TurnOk, Below, InPack, NoDrops, Readable, NoneAdded, Books, Accepts, ScanGone, Scannable;
    log, from := [], 0;
    EmptyLog(env, pack, w);
    if file.None? { return Err(Error.Io), log, from; }
    var ok, n;
    ok, n, log := ScanMoves(env, pack, file.value, txnBytes, w);
    if !ok { return Err(Error.Io), log, from; }
    var db := w.states(n);
    from := n;
    assert Books(env, db);
    LookMore(env, pack, w, log);
    EmptyIffNoLive(env, db, pack);
    LookBelow(log, db, pack);
    ScanEmpties(env, pack, file.value, w, log, db);
    ghost var looked := log + [Turn(Look, db, db)];
    n, log := n + 1, log + [Turn(Look, db, db)];
    if pack in db.packs && db.packs[pack].live != 0 {
      ok, n, log := Evacuate(env, pack, file.value, w, n, log, from);
      if !ok { return Err(Error.Io), log, from; }
    }
    if pack !in w.states(n).packs { return Err(Corrupt), log, from; }
    ghost var t;
    var retired;
    retired, t := EndTurn(env, pack, w, n);
    LogMore(env, pack, w, log, t);
    if NoneAdded(log + [t], pack, 0) { NoneAddedBefore(looked, log + [t], pack, from); }
    EndFinds(env, pack, log, t, from);
    log := log + [t];
    return Ok(retired), log, from;
  }

  /** Every block of the pack can be read, and at first lies where the scan finds a record. */
  ghost predicate Scannable(env: Env, pack: nat, file: bytes, w: Turns) {
    && Readable(env, pack, file, w)
    && forall p :: p in InPack(w.states(0), pack) ==> p.1 in Offsets(ScanFrom(file, 0))
  }

  /** Then the scan leaves no block, unless other threads put one into the pack. */
  lemma ScanEmpties(env: Env, pack: nat, file: bytes, w: Turns, log: seq<Turn>, db: Db)
    requires log != [] && ScanGone(env, pack, file, w, log, Offsets(ScanFrom(file, 0)))
    ensures Scannable(env, pack, file, w) && NoneAdded(log + [Turn(Look, db, db)], pack, 0) ==> InPack(db, pack) == {}
  {
    hide InPack, Readable, Offsets, ScanFrom;
    var t := Turn(Look, db, db);
    if Scannable(env, pack, file, w) && NoneAdded(log + [t], pack, 0) {
      BelowMore(log, t, pack, Some(0), Left(w, pack, Offsets(ScanFrom(file, 0))), {});
    }
  }

  lemma NoneAddedBefore(part: seq<Turn>, log: seq<Turn>, pack: nat, from: nat)
    requires NoneAdded(log, pack, 0) && part <= log
    ensures NoneAdded(part, pack, 0) && NoneAdded(log, pack, from)
  {
    hide InPack;
    forall k | 0 < k < |part| ensures Joined(part, pack, k) { assert log[k] == part[k] && Joined(log, pack, k); }
    forall k | from < k < |log| ensures Joined(log, pack, k) { assert log[k] in log; }
  }

  lemma LookBelow(log: seq<Turn>, db: Db, pack: nat)
    ensures Below(log + [Turn(Look, db, db)], pack, Some(|log|), InPack(db, pack))
  {
  }

  lemma EndFinds(env: Env, pack: nat, log: seq<Turn>, t: Turn, from: nat)
    requires from < |log| && Below(log, pack, Some(from), {}) && t.kind == End && TurnOk(env, pack, t)
    ensures NoneAdded(log + [t], pack, from) ==> Retires(t)
  {
    hide InPack, Books;
    var now := log + [t];
    if NoneAdded(now, pack, from) {
      forall k | from < k < |log| ensures Joined(log, pack, k) {
        assert now[k] == log[k] && now[k - 1] == log[k - 1] && Joined(now, pack, k);
      }
      assert now[|log|] == t && Joined(now, pack, |log|);
    }
  }
}
