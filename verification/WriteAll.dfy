/** Whole writes: the chunks of `write_blocks`, each retried until its commit finds every record. */
module WriteAll {
  import opened Base
  import opened Manifest
  import opened Ledger
  import opened Segments
  import opened Index
  import opened Meaning
  import opened Commits
  import opened Writes

  /** The bytes of `n` whole blocks. */
  function Bytes(n: nat, bs: nat): nat { n * bs }

  /** Cutting at a block boundary cuts the list of blocks. */
  lemma {:induction false} ChunksSplit(data: bytes, bs: nat, n: nat)
    requires bs > 0 && Bytes(n, bs) <= |data|
    ensures |Chunks(data[..Bytes(n, bs)], bs)| == n
    ensures Chunks(data, bs) == Chunks(data[..Bytes(n, bs)], bs) + Chunks(data[Bytes(n, bs)..], bs)
    decreases n
  {
    if n == 0 {
      assert data[Bytes(n, bs)..] == data;
    } else {
      var m, at := Bytes(n - 1, bs), Bytes(n, bs);
      assert at == m + bs;
      hide Bytes;
      var rest := data[bs..];
      ChunksSplit(rest, bs, n - 1);
      assert rest[..m] == data[..at][bs..] && rest[m..] == data[at..];
      HeadChunk(data, bs);
      HeadChunk(data[..at], bs);
      assert data[..at][..bs] == data[..bs];
    }
  }

  lemma HeadChunk(data: bytes, bs: nat)
    requires bs > 0 && |data| >= bs
    ensures Chunks(data, bs) == [data[..bs]] + Chunks(data[bs..], bs)
  {
    if |data| == bs { assert data[..bs] == data; }
  }

  lemma WrittenTwice(s: Store, f: FileId, first: nat, a: seq<bytes>, b: seq<bytes>)
    requires f in s && first + |a| + |b| <= |s[f].blocks|
    ensures Written(Written(s, f, first, a), f, first + |a|, b) == Written(s, f, first, a + b)
  {
    var blocks := s[f].blocks;
    assert Spliced(Spliced(blocks, first, Somes(a)), first + |a|, Somes(b)) == Spliced(blocks, first, Somes(a + b));
  }

  /** The next chunk of a valid write is a valid write. */
  lemma ChunkValid(len: nat, bs: nat, first: nat, n: nat, done: nat, m: nat, size: nat)
    requires bs > 0 && m > 0 && ValidateWrite(len, bs, first, n).Ok? && Bytes(done, bs) < n
    requires size == Min(Bytes(m, bs), n - Bytes(done, bs))
    ensures ValidateWrite(len, bs, first + done, size).Ok?
  {
    hide ValidateWrite;
    ValidWrites(len, bs, first, n);
    ValidWrites(len, bs, first + done, size);
    assert (first + done) * bs == first * bs + Bytes(done, bs);
    if size < n - Bytes(done, bs) {
      MultipleMod(m, bs);
    } else if n % bs == 0 {
      RestMod(n, done, bs);
    }
  }

  lemma MultipleMod(m: nat, bs: nat)
    requires bs > 0
    ensures (m * bs) % bs == 0
  {
    if m > 0 { WholeBlocks(m * bs, bs, m); }
  }

  lemma RestMod(n: nat, done: nat, bs: nat)
    requires bs > 0 && n % bs == 0 && done * bs <= n
    ensures (n - done * bs) % bs == 0
  {
    var q := n / bs;
    assert n == q * bs;
    assert n - done * bs == (q - done) * bs;
    if q < done { MulMono(q + 1, done, bs); }
    MultipleMod(q - done, bs);
  }

  /** The blocks of the next chunk are the next blocks. */
  lemma ChunkPart(data: bytes, bs: nat, done: nat, m: nat, chunk: bytes)
    requires bs > 0 && Bytes(done, bs) < |data|
    requires chunk == data[Bytes(done, bs)..Bytes(done, bs) + Min(Bytes(m, bs), |data| - Bytes(done, bs))]
    ensures var k := |Chunks(chunk, bs)|;
            && done + k <= |Chunks(data, bs)| && Chunks(chunk, bs) == Chunks(data, bs)[done..done + k]
            && (Bytes(m, bs) < |data| - Bytes(done, bs) ==> k == m)
            && (Bytes(m, bs) >= |data| - Bytes(done, bs) ==> done + k == |Chunks(data, bs)|)
  {
    hide Chunks, Bytes;
    var rest := data[Bytes(done, bs)..];
    ChunksSplit(data, bs, done);
    CutRest(data, Bytes(done, bs), Bytes(m, bs), chunk);
    if Bytes(m, bs) < |rest| { ChunksSplit(rest, bs, m); }
  }

  /** A chunk is the beginning of the rest, or all of it. */
  lemma CutRest(data: bytes, pos: nat, size: nat, chunk: bytes)
    requires pos <= |data| && chunk == data[pos..pos + Min(size, |data| - pos)]
    ensures chunk == if size < |data| - pos then data[pos..][..size] else data[pos..]
  {
  }

  // ---- What a writer meets ----

  /** `looks(n)` is the store when the writer looks for stored blocks before its round `n`, `states(n)`
      when its transaction of round `n` begins: in between, any other thread may have committed anything.
      `place(n, h)` is where the append of round `n` puts the record of `h`, and from round `limit` on
      appending fails. `flushes(n)` says that the automatic flush after the commit of round `n`, if one is due,
      succeeds. */
  datatype World = World(
    looks: nat -> Saved, states: nat -> Saved, place: (nat, Hash) -> BlockLoc, limit: nat, flushes: nat -> bool)

  ghost predicate StateOk(s: Saved, env: Env) {
    env.bs > 0 && SegsOk(s.segs, env.bs) && Inv(ViewOf(s, env.bs), env)
  }

  ghost predicate WorldOk(w: World, env: Env) {
    && (forall n :: StateOk(w.looks(n), env)) && (forall n :: StateOk(w.states(n), env))
    && (forall n, h :: env.known(env.content(h)) && env.hash(env.content(h)) == h ==> RecordFor(w.place(n, h), h, env))
  }

  ghost predicate RecordFor(loc: BlockLoc, h: Hash, env: Env) {
    loc.hash == h && loc.refcount == 0 && Genuine(loc, env)
  }

  ghost function At(w: World, n: nat, env: Env): Db
    requires env.bs > 0
  {
    ViewOf(w.states(n), env.bs)
  }

  // ---- Looking up and appending ----

  /** The indices are some of the list, none with a hash of another or of the table. */
  ghost predicate NewAt(dedup: map<Hash, nat>, hashes: seq<Hash>, need: seq<nat>) {
    && (forall a :: 0 <= a < |need| ==> need[a] < |hashes| && hashes[need[a]] !in dedup)
    && forall a, b :: 0 <= a < b < |need| ==> hashes[need[a]] != hashes[need[b]]
  }

  /** The blocks whose content is not stored yet, each hash once. */
  method FindNew(dedup: map<Hash, nat>, hashes: seq<Hash>) returns (need: seq<nat>)
    ensures NewAt(dedup, hashes, need) && Sought(dedup, map[], hashes, need)
  {
    need := [];
    var seen: set<Hash> := {};
    for i := 0 to |hashes|
      invariant NewAt(dedup, hashes, need)
      invariant forall a :: 0 <= a < |need| ==> hashes[need[a]] in seen
      invariant forall k :: 0 <= k < i ==> hashes[k] in seen
      invariant forall h :: h in seen ==> h in dedup || Listed(hashes, need, h)
    {
      if hashes[i] !in seen && hashes[i] !in dedup {
        forall h | Listed(hashes, need, h) || h == hashes[i] ensures Listed(hashes, need + [i], h) {
          ListMore(hashes, need, i, h);
        }
        need := need + [i];
      }
      seen := seen + {hashes[i]};
    }
    forall j | 0 <= j < |hashes| && hashes[j] !in dedup
      ensures exists i :: i in need && i < |hashes| && hashes[i] == hashes[j]
    {
      assert Listed(hashes, need, hashes[j]);
      var a :| 0 <= a < |need| && need[a] < |hashes| && hashes[need[a]] == hashes[j];
      assert need[a] in need;
    }
  }

  ghost predicate Listed(hashes: seq<Hash>, need: seq<nat>, h: Hash) {
    exists a :: 0 <= a < |need| && need[a] < |hashes| && hashes[need[a]] == h
  }

  lemma ListMore(hashes: seq<Hash>, need: seq<nat>, i: nat, h: Hash)
    requires i < |hashes| && (Listed(hashes, need, h) || h == hashes[i])
    ensures Listed(hashes, need + [i], h)
  {
    var now := need + [i];
    if Listed(hashes, need, h) {
      var a :| 0 <= a < |need| && need[a] < |hashes| && hashes[need[a]] == h;
      assert now[a] == need[a];
    } else {
      assert now[|need|] == i;
    }
  }

  /** Every hash is stored (in a table seen before) or has a record. */
  ghost predicate Found(dedup: map<Hash, nat>, recs: map<Hash, BlockLoc>, hashes: seq<Hash>) {
    forall j :: 0 <= j < |hashes| ==> hashes[j] in recs || hashes[j] in dedup
  }

  /** Every hash is found, or to be appended. */
  ghost predicate Sought(dedup: map<Hash, nat>, recs: map<Hash, BlockLoc>, hashes: seq<Hash>, need: seq<nat>) {
    forall j :: 0 <= j < |hashes| ==>
      hashes[j] in recs || hashes[j] in dedup || exists i :: i in need && i < |hashes| && hashes[i] == hashes[j]
  }

  /** The records after `encode_and_append` of round `n`. */
  function Appended(recs: map<Hash, BlockLoc>, hashes: seq<Hash>, need: seq<nat>, w: World, n: nat): map<Hash, BlockLoc> {
    map h | h in recs.Keys + (set i | i in need && i < |hashes| :: hashes[i]) ::
      if h in recs then recs[h] else w.place(n, h)
  }

  /** The records after a commit found those at `missing` to be lost. */
  function Without(recs: map<Hash, BlockLoc>, hashes: seq<Hash>, missing: seq<nat>): map<Hash, BlockLoc> {
    recs - (set i | i in missing && i < |hashes| :: hashes[i])
  }

  /** The records were appended in the rounds from `from` on and before `to`. */
  ghost predicate FromRounds(recs: map<Hash, BlockLoc>, w: World, from: nat, to: nat) {
    forall h :: h in recs ==> exists k :: from <= k < to && recs[h] == w.place(k, h)
  }

  lemma AppendFinds(dedup: map<Hash, nat>, recs: map<Hash, BlockLoc>, hashes: seq<Hash>, need: seq<nat>, w: World,
                    from: nat, n: nat)
    requires Sought(dedup, recs, hashes, need) && FromRounds(recs, w, from, n) && from <= n
    ensures Found(dedup, Appended(recs, hashes, need, w, n), hashes)
    ensures FromRounds(Appended(recs, hashes, need, w, n), w, from, n + 1)
  {
    var now := Appended(recs, hashes, need, w, n);
    forall h | h in now ensures exists k :: from <= k < n + 1 && now[h] == w.place(k, h) {
      if h in recs { var k :| from <= k < n && recs[h] == w.place(k, h); }
      else { assert now[h] == w.place(n, h); }
    }
  }

  lemma AppendRecords(env: Env, recs: map<Hash, BlockLoc>, chunks: seq<bytes>, need: seq<nat>, w: World, n: nat)
    requires WorldOk(w, env) && CollisionFree(env) && AllKnown(env, chunks) && RecordsFor(recs, env)
    ensures RecordsFor(Appended(recs, Hashes(chunks, env), need, w, n), env)
  {
    hide StateOk;
    var hs := Hashes(chunks, env);
    var now := Appended(recs, hs, need, w, n);
    forall h | h in now ensures RecordFor(now[h], h, env) {
      if h !in recs {
        var i :| i in need && i < |hs| && hs[i] == h;
        assert env.content(h) == chunks[i];
      }
    }
  }

  /** After a retry every hash is stored now, has its record still, or is to be appended again. */
  lemma RetrySought(db: Db, recs: map<Hash, BlockLoc>, hashes: seq<Hash>, missing: seq<nat>, w: World, from: nat, n: nat)
    requires MissingAre(db, recs, hashes, missing) && FromRounds(recs, w, from, n)
    ensures Sought(db.dedup, Without(recs, hashes, missing), hashes, missing)
    ensures FromRounds(Without(recs, hashes, missing), w, from, n)
  {
    var kept := Without(recs, hashes, missing);
    forall j | 0 <= j < |hashes| && hashes[j] !in kept && hashes[j] !in db.dedup
      ensures exists i :: i in missing && i < |hashes| && hashes[i] == hashes[j]
    {
      if hashes[j] !in recs { assert j in missing; }
    }
  }

  // ---- One chunk ----

  /** What a committed chunk did to the store it found. */
  ghost predicate ChunkCommitted(before: Db, after: Db, env: Env, f: FileId, first: nat, chunk: bytes,
                                 recs: map<Hash, BlockLoc>) {
    && env.bs > 0 && f in before.files && ValidateWrite(before.files[f].len, env.bs, first, |chunk|).Ok?
    && first + |Chunks(chunk, env.bs)| <= |Contents(before, env)[f].blocks|
    && Txn(before, after, env, recs.Values) && NewAccepted(before, after)
    && Edits(OpWrite(f, first, Chunks(chunk, env.bs)), before, after, env)
    && Contents(after, env) == Written(Contents(before, env), f, first, Chunks(chunk, env.bs))
    && (NoneRetired(before) ==> NoneRetired(after))
  }

  lemma ChunkIs(before: Db, after: Db, env: Env, f: FileId, first: nat, chunk: bytes, recs: map<Hash, BlockLoc>)
    requires env.bs > 0 && f in before.files && ValidateWrite(before.files[f].len, env.bs, first, |chunk|).Ok?
    requires f in Contents(before, env) && first + |Chunks(chunk, env.bs)| <= |Contents(before, env)[f].blocks|
    requires Txn(before, after, env, recs.Values) && NewAccepted(before, after)
    requires Edits(OpWrite(f, first, Chunks(chunk, env.bs)), before, after, env)
    requires Contents(after, env) == Written(Contents(before, env), f, first, Chunks(chunk, env.bs))
    requires NoneRetired(before) ==> NoneRetired(after)
    ensures ChunkCommitted(before, after, env, f, first, chunk, recs)
  {
    hide Txn, NewAccepted, Edits, Contents, Written, Chunks, NoneRetired, ValidateWrite;
  }

  ghost predicate Refused(db: Db, env: Env, f: FileId, first: nat, n: nat)
    requires env.bs > 0
  {
    f !in db.files || ValidateWrite(db.files[f].len, env.bs, first, n).Err?
  }

  /** No block the writer found was freed before its commit, and its new records' packs take records. */
  ghost predicate Undisturbed(w: World, n: nat, env: Env, chunks: seq<bytes>)
    requires env.bs > 0
  {
    forall h :: h in Hashes(chunks, env) ==>
      (h in w.looks(n).dedup ==> h in At(w, n, env).dedup) && Accepts(At(w, n, env), w.place(n, h).pack)
  }

  lemma UndisturbedReady(w: World, n: nat, env: Env, chunks: seq<bytes>, recs: map<Hash, BlockLoc>)
    requires env.bs > 0 && Undisturbed(w, n, env, chunks) && Found(w.looks(n).dedup, recs, Hashes(chunks, env))
    requires FromRounds(recs, w, n, n + 1)
    ensures forall j :: 0 <= j < |chunks| ==> Ready(At(w, n, env), recs, Hashes(chunks, env)[j])
  {
    hide At;
    var hs := Hashes(chunks, env);
    forall j | 0 <= j < |chunks| ensures Ready(At(w, n, env), recs, hs[j]) {
      assert hs[j] in hs;
      if hs[j] in recs { var k :| n <= k < n + 1 && recs[hs[j]] == w.place(k, hs[j]); }
    }
  }

  /** `write_chunk`: appends and commits until every record is there and its pack takes records,
      whatever other threads commit in between. Its own failed rounds change nothing. */
  method WriteChunkRetry(t: Tables, f: FileId, first: nat, chunk: bytes, w: World, call: nat, env: Env)
    returns (r: Result<()>, next: nat, ghost recs: map<Hash, BlockLoc>)
    requires t.Valid() && t.bs == env.bs && Inv(t.View(), env) && CollisionFree(env)
    requires WorldOk(w, env) && chunk != [] && AllKnown(env, Chunks(chunk, env.bs))
    modifies t
    ensures t.Valid() && Inv(t.View(), env) && call <= next <= Max(call, w.limit)
    ensures r.Ok? ==>
              && call < next && ChunkCommitted(At(w, next - 1, env), t.View(), env, f, first, chunk, recs)
              && RecordsFor(recs, env) && FromRounds(recs, w, call, next)
    ensures r.Err? ==> t.View() == if next == call then old(t.View()) else At(w, next - 1, env)
    ensures r.Err? ==>
              if r.error == Error.Io then next >= w.limit
              else call < next && Refused(At(w, next - 1, env), env, f, first, |chunk|)
    ensures call < w.limit && !Refused(At(w, call, env), env, f, first, |chunk|) ==>
              Undisturbed(w, call, env, Chunks(chunk, env.bs)) ==> r.Ok? && next == call + 1
  {
    hide Inv, RecordsFor, Chunks, ValidateWrite, Written, Flat, NoneRetired, CollisionFree, AllKnown, Contents, Ready,
         BlockLen, BlockCount, WorldOk, Txn, Undisturbed, Appended, Without, FromRounds, Sought, Found, MissingAre, ViewOf,
         Edits, NewAccepted, SegsOk, ChunkCommitted, NewAt, Refused, Hashes, At;
    next, recs := call, map[];
    var chunks := Chunks(chunk, env.bs);
    var hashes := Hashes(chunks, env);
    var need := FindNew(w.looks(call).dedup, hashes);
    var held: map<Hash, BlockLoc> := map[];
    ghost var seen := w.looks(call).dedup;
    NoRecords(env, w, call);
    while next < w.limit
      invariant t.Valid() && Inv(t.View(), env) && call <= next <= Max(call, w.limit)
      invariant t.View() == if next == call then old(t.View()) else At(w, next - 1, env)
      invariant RecordsFor(held, env) && FromRounds(held, w, call, next) && Sought(seen, held, hashes, need)
      invariant next == call ==> seen == w.looks(call).dedup
      invariant next > call ==> Refused(At(w, call, env), env, f, first, |chunk|) || !Undisturbed(w, call, env, chunks)
    {
      AppendFinds(seen, held, hashes, need, w, call, next);
      AppendRecords(env, held, chunks, need, w, next);
      held := Appended(held, hashes, need, w, next);
      Begin(t, w.states(next), w, next, env);
      if next == call && Undisturbed(w, call, env, chunks) { UndisturbedReady(w, call, env, chunks, held); }
      ghost var before := t.View();
      next := next + 1;
      recs := held;
      var done := WriteChunk(t, f, first, chunk, held, env);
      if done.Err? { RefusedIs(before, env, f, first, |chunk|, done.error); return Err(done.error), next, recs; }
      if done.value.None? {
        TxnInv(before, t.View(), env, held.Values);
        SameLength(before, env, f);
        ChunkIs(before, t.View(), env, f, first, chunk, held);
        return Ok(()), next, recs;
      }
      MissingParts(before, held, hashes, done.value.value);
      RetrySought(before, held, hashes, done.value.value, w, call, next);
      FewerRecords(env, held, hashes, done.value.value);
      seen, held, need := before.dedup, Without(held, hashes, done.value.value), done.value.value;
    }
    return Err(Error.Io), next, recs;
  }

  /** The transaction of a round begins: the tables are what all commits so far made them. */
  method Begin(t: Tables, s: Saved, ghost w: World, ghost n: nat, ghost env: Env)
    requires t.bs == env.bs && WorldOk(w, env) && s == w.states(n)
    modifies t
    ensures t.Valid() && t.View() == At(w, n, env) && Inv(t.View(), env)
  {
    hide Inv, Flat;
    assert StateOk(w.states(n), env);
    t.Abort(s);
  }

  lemma NoRecords(env: Env, w: World, n: nat)
    ensures RecordsFor(map[], env) && FromRounds(map[], w, n, n)
  {
  }

  lemma FewerRecords(env: Env, recs: map<Hash, BlockLoc>, hashes: seq<Hash>, missing: seq<nat>)
    requires RecordsFor(recs, env)
    ensures RecordsFor(Without(recs, hashes, missing), env)
  {
  }

  lemma MissingParts(db: Db, recs: map<Hash, BlockLoc>, hashes: seq<Hash>, missing: seq<nat>)
    requires MissingAre(db, recs, hashes, missing)
    ensures exists j :: 0 <= j < |hashes| && !Ready(db, recs, hashes[j])
  {
    hide Ready;
    assert missing[0] in missing;
  }

  lemma RefusedIs(db: Db, env: Env, f: FileId, first: nat, n: nat, e: Error)
    requires env.bs > 0
    requires if f in db.files then ValidateWrite(db.files[f].len, env.bs, first, n) == Err(e) else e == NotFound
    ensures Refused(db, env, f, first, n) && e != Error.Io
  {
  }

  lemma TxnInv(db: Db, db': Db, env: Env, mine: set<BlockLoc>)
    requires Txn(db, db', env, mine)
    ensures Inv(db', env)
  {
  }

  lemma SameLength(db: Db, env: Env, f: FileId)
    requires f in db.files || f in Contents(db, env)
    ensures f in db.files && f in Contents(db, env) && |Contents(db, env)[f].blocks| == |db.files[f].slots|
    ensures Contents(db, env)[f].len == db.files[f].len
  {
  }

  lemma PartKnown(env: Env, data: bytes, done: nat, m: nat, chunk: bytes)
    requires env.bs > 0 && AllKnown(env, Chunks(data, env.bs)) && Bytes(done, env.bs) < |data|
    requires chunk == data[Bytes(done, env.bs)..Bytes(done, env.bs) + Min(Bytes(m, env.bs), |data| - Bytes(done, env.bs))]
    ensures AllKnown(env, Chunks(chunk, env.bs))
  {
    hide Chunks, Bytes;
    ChunkPart(data, env.bs, done, m, chunk);
    var all, part := Chunks(data, env.bs), Chunks(chunk, env.bs);
    forall j | 0 <= j < |part| ensures env.known(part[j]) {
      assert part[j] == all[done + j];
    }
  }

  // ---- All chunks ----

  /** One committed chunk: its round, the store before and after, the block it starts at and its blocks. */
  datatype Entry = Entry(round: nat, before: Db, after: Db, at: nat, blocks: seq<bytes>)

  function End(log: seq<Entry>): nat {
    if log == [] then 0 else log[|log| - 1].at + |log[|log| - 1].blocks|
  }

  ghost predicate EntryOk(e: Entry, env: Env, f: FileId, first: nat, all: seq<bytes>) {
    && e.blocks != [] && e.at + |e.blocks| <= |all| && e.blocks == all[e.at..e.at + |e.blocks|]
    && f in e.before.files && f in e.after.files && first + e.at + |e.blocks| <= |Contents(e.before, env)[f].blocks|
    && Contents(e.after, env) == Written(Contents(e.before, env), f, first + e.at, e.blocks)
    && (NoneRetired(e.before) ==> NoneRetired(e.after))
  }

  /** The chunks of the log follow each other and are the first `End(log)` blocks. */
  ghost predicate Logged(log: seq<Entry>, env: Env, f: FileId, first: nat, all: seq<bytes>) {
    forall k :: 0 <= k < |log| ==> EntryOk(log[k], env, f, first, all) && log[k].at == End(log[..k])
  }

  /** Each chunk met the store of its own round, one after the other. */
  ghost predicate InRounds(log: seq<Entry>, w: World, env: Env, n: nat)
    requires env.bs > 0
  {
    && (forall k :: 0 <= k < |log| ==> log[k].round < n && log[k].before == At(w, log[k].round, env))
    && forall j, k :: 0 <= j < k < |log| ==> log[j].round < log[k].round
  }

  lemma RoundsMore(log: seq<Entry>, e: Entry, w: World, env: Env, n: nat, m: nat)
    requires env.bs > 0 && InRounds(log, w, env, n) && n <= e.round < m && e.before == At(w, e.round, env)
    ensures InRounds(log + [e], w, env, m)
  {
    hide At;
  }

  lemma RoundsLater(log: seq<Entry>, w: World, env: Env, n: nat, m: nat)
    requires env.bs > 0 && InRounds(log, w, env, n) && n <= m
    ensures InRounds(log, w, env, m)
  {
    hide At;
  }

  lemma LogMore(log: seq<Entry>, e: Entry, env: Env, f: FileId, first: nat, all: seq<bytes>)
    requires Logged(log, env, f, first, all) && EntryOk(e, env, f, first, all) && e.at == End(log)
    ensures Logged(log + [e], env, f, first, all) && End(log + [e]) == e.at + |e.blocks|
  {
    hide EntryOk;
    var now := log + [e];
    forall k | 0 <= k < |now| ensures EntryOk(now[k], env, f, first, all) && now[k].at == End(now[..k]) {
      assert now[..k] == log[..k];
      assert log[..|log|] == log;
    }
  }

  ghost predicate SameFile(a: Db, b: Db, env: Env, f: FileId) {
    f in a.files && f in b.files && Contents(a, env)[f] == Contents(b, env)[f]
  }

  /** Between the writer's commits other threads left the file alone. */
  ghost predicate LeftAlone(log: seq<Entry>, env: Env, f: FileId) {
    forall k {:trigger log[k]} :: 0 < k < |log| ==> Apart(log, env, f, k)
  }

  ghost predicate Apart(log: seq<Entry>, env: Env, f: FileId, k: nat)
    requires 0 < k < |log|
  {
    SameFile(log[k - 1].after, log[k].before, env, f)
  }

  /** If others leave the file alone, the file holds exactly the blocks written so far. */
  lemma {:induction false} LogWrites(log: seq<Entry>, env: Env, f: FileId, first: nat, all: seq<bytes>)
    requires log != [] && Logged(log, env, f, first, all) && LeftAlone(log, env, f)
    ensures End(log) <= |all| && f in log[0].before.files && f in log[|log| - 1].after.files
    ensures WroteFile(Contents(log[0].before, env), Contents(log[|log| - 1].after, env), f, first, all[..End(log)])
    decreases |log|
  {
    hide Written, Contents;
    var n := |log| - 1;
    var e := log[n];
    assert EntryOk(e, env, f, first, all) && e.at == End(log[..n]);
    if n == 0 {
      assert all[0..|e.blocks|] == all[..|e.blocks|];
      FileIn(e.before, env, f);
      FirstWritten(Contents(e.before, env), Contents(e.after, env), f, first, e.blocks);
    } else {
      var rest := log[..n];
      LogPrefix(log, env, f, first, all);
      LogWrites(rest, env, f, first, all);
      assert Apart(log, env, f, n);
      FileIn(log[0].before, env, f);
      FileIn(e.before, env, f);
      FileIn(log[n - 1].after, env, f);
      NextWritten(Contents(log[0].before, env), Contents(log[n - 1].after, env), Contents(e.before, env),
                  Contents(e.after, env), f, first, all[..e.at], e.blocks);
      assert all[..e.at] + e.blocks == all[..End(log)];
    }
  }

  lemma FileIn(db: Db, env: Env, f: FileId)
    ensures f in db.files <==> f in Contents(db, env)
  {
  }

  /** The file in `now` is the file in `s` with `blocks` written at `first`. */
  ghost predicate WroteFile(s: Store, now: Store, f: FileId, first: nat, blocks: seq<bytes>) {
    && f in s && f in now && first + |blocks| <= |s[f].blocks|
    && now[f] == Written(s, f, first, blocks)[f]
  }

  lemma FirstWritten(s: Store, now: Store, f: FileId, first: nat, blocks: seq<bytes>)
    requires f in s && first + |blocks| <= |s[f].blocks| && now == Written(s, f, first, blocks)
    ensures WroteFile(s, now, f, first, blocks)
  {
  }

  lemma NextWritten(s: Store, a: Store, b: Store, c: Store, f: FileId, first: nat, blocks: seq<bytes>, more: seq<bytes>)
    requires WroteFile(s, a, f, first, blocks) && f in b && b[f] == a[f]
    requires first + |blocks| + |more| <= |b[f].blocks| && c == Written(b, f, first + |blocks|, more)
    ensures WroteFile(s, c, f, first, blocks + more)
  {
    WrittenTwice(s, f, first, blocks, more);
  }

  lemma LogPrefix(log: seq<Entry>, env: Env, f: FileId, first: nat, all: seq<bytes>)
    requires log != [] && Logged(log, env, f, first, all) && LeftAlone(log, env, f)
    ensures Logged(log[..|log| - 1], env, f, first, all) && LeftAlone(log[..|log| - 1], env, f)
  {
    hide EntryOk, SameFile;
    var rest := log[..|log| - 1];
    forall k | 0 <= k < |rest| ensures EntryOk(rest[k], env, f, first, all) && rest[k].at == End(rest[..k]) {
      assert rest[..k] == log[..k] && rest[k] == log[k];
    }
    forall k | 0 < k < |rest| ensures Apart(rest, env, f, k) { assert Apart(log, env, f, k); }
  }

  /** The file keeps its length in every state the writer meets. */
  ghost predicate StableLen(w: World, env: Env, f: FileId, len: nat)
    requires env.bs > 0
  {
    forall n :: f in At(w, n, env).files && At(w, n, env).files[f].len == len
  }

  /** Where the loop of `write_blocks` stands: the chunks up to byte `pos` are committed. */
  ghost predicate WrittenTo(log: seq<Entry>, w: World, env: Env, f: FileId, first: nat, data: bytes, pos: nat, done: nat,
                            calls: nat)
    requires env.bs > 0
  {
    && Logged(log, env, f, first, Chunks(data, env.bs)) && InRounds(log, w, env, calls) && done == End(log) && pos <= |data|
    && (pos < |data| ==> pos == Bytes(done, env.bs)) && (pos == |data| ==> done == |Chunks(data, env.bs)|)
  }

  /** An append failed, or the automatic flush after the last commit. */
  ghost predicate IoFailed(w: World, calls: nat) { calls >= w.limit || (calls > 0 && !w.flushes(calls - 1)) }

  /** One round of that loop: the next chunk, and then a flush if one is due. */
  method WriteNext(t: Tables, f: FileId, first: nat, data: bytes, m: nat, w: World, env: Env, ghost len: nat,
                   pos: nat, done: nat, calls: nat, ghost log: seq<Entry>)
    returns (r: Result<()>, pos': nat, done': nat, calls': nat, ghost log': seq<Entry>)
    requires t.Valid() && t.bs == env.bs && Inv(t.View(), env) && CollisionFree(env)
    requires WorldOk(w, env) && AllKnown(env, Chunks(data, env.bs)) && m > 0
    requires WrittenTo(log, w, env, f, first, data, pos, done, calls) && pos < |data|
    requires ValidateWrite(len, env.bs, first, |data|).Ok?
    modifies t
    ensures t.Valid() && Inv(t.View(), env)
    ensures r.Ok? ==>
              && WrittenTo(log', w, env, f, first, data, pos', done', calls') && pos < pos'
              && log' != [] && t.View() == log'[|log'| - 1].after
    ensures Logged(log', env, f, first, Chunks(data, env.bs)) && InRounds(log', w, env, calls') && done' == End(log')
    ensures r.Err? ==> if r.error == Error.Io then IoFailed(w, calls') else log' == log && !StableLen(w, env, f, len)
  {
    hide Inv, RecordsFor, Chunks, ValidateWrite, Flat, CollisionFree, AllKnown, WorldOk, Bytes, ChunkCommitted, EntryOk,
         Logged, FromRounds, StableLen, Undisturbed, At, InRounds, WrittenTo, DivCeil, Refused, End;
    WrittenParts(log, w, env, f, first, data, pos, done, calls);
    pos', done', calls', log' := pos, done, calls, log;
    var bs := t.bs;
    SomeBytes(m, bs);
    var size := Min(Bytes(m, bs), |data| - pos);
    var chunk := data[pos..pos + size];
    PartKnown(env, data, done, m, chunk);
    ChunkValid(len, bs, first, |data|, done, m, size);
    ghost var recs;
    r, calls', recs := WriteChunkRetry(t, f, first + done, chunk, w, calls, env);
    if r.Err? {
      RoundsLater(log, w, env, calls, calls');
      if r.error != Error.Io { NotStable(w, env, f, len, first + done, size, calls' - 1); }
      return;
    }
    ghost var e := Entry(calls' - 1, At(w, calls' - 1, env), t.View(), done, Chunks(chunk, bs));
    ChunkPart(data, bs, done, m, chunk);
    ChunkCount(chunk, bs);
    NextBytes(|data|, bs, pos, done, m, size, |Chunks(chunk, bs)|, |Chunks(data, bs)|);
    WrittenMore(log, e, w, env, f, first, data, pos, done, size, chunk, recs, calls, calls');
    log' := log + [e];
    done', pos' := done + DivCeil(size, bs), pos + size;
    WrittenParts(log', w, env, f, first, data, pos', done', calls');
    if !w.flushes(calls' - 1) { r := Err(Error.Io); }
  }

  lemma WrittenParts(log: seq<Entry>, w: World, env: Env, f: FileId, first: nat, data: bytes, pos: nat, done: nat, calls: nat)
    requires env.bs > 0 && WrittenTo(log, w, env, f, first, data, pos, done, calls)
    ensures InRounds(log, w, env, calls) && pos <= |data| && (pos < |data| ==> pos == Bytes(done, env.bs))
    ensures Logged(log, env, f, first, Chunks(data, env.bs)) && done == End(log)
    ensures pos == |data| ==> done == |Chunks(data, env.bs)|
  {
    hide InRounds, Logged, Chunks, Bytes;
  }

  lemma WrittenMore(log: seq<Entry>, e: Entry, w: World, env: Env, f: FileId, first: nat, data: bytes, pos: nat, done: nat,
                    size: nat, chunk: bytes, recs: map<Hash, BlockLoc>, calls: nat, calls': nat)
    requires env.bs > 0 && WrittenTo(log, w, env, f, first, data, pos, done, calls) && calls < calls'
    requires e.round == calls' - 1 && e.before == At(w, e.round, env) && e.at == done && e.blocks == Chunks(chunk, env.bs)
    requires ChunkCommitted(e.before, e.after, env, f, first + done, chunk, recs)
    requires e.blocks != [] && done + |e.blocks| <= |Chunks(data, env.bs)|
    requires e.blocks == Chunks(data, env.bs)[done..done + |e.blocks|]
    requires pos + size <= |data| && (pos + size < |data| ==> pos + size == Bytes(done + |e.blocks|, env.bs))
    requires pos + size == |data| ==> done + |e.blocks| == |Chunks(data, env.bs)|
    ensures WrittenTo(log + [e], w, env, f, first, data, pos + size, done + |e.blocks|, calls')
  {
    hide Chunks, Bytes, ChunkCommitted, EntryOk, Logged, At, InRounds, End;
    MoreLogged(log, e, w, env, f, first, data, chunk, recs, calls, calls');
  }

  lemma MoreLogged(log: seq<Entry>, e: Entry, w: World, env: Env, f: FileId, first: nat, data: bytes, chunk: bytes,
                   recs: map<Hash, BlockLoc>, calls: nat, calls': nat)
    requires env.bs > 0 && Logged(log, env, f, first, Chunks(data, env.bs)) && InRounds(log, w, env, calls) && calls < calls'
    requires e.round == calls' - 1 && e.before == At(w, e.round, env) && e.at == End(log) && e.blocks == Chunks(chunk, env.bs)
    requires ChunkCommitted(e.before, e.after, env, f, first + e.at, chunk, recs)
    requires e.blocks != [] && e.at + |e.blocks| <= |Chunks(data, env.bs)|
    requires e.blocks == Chunks(data, env.bs)[e.at..e.at + |e.blocks|]
    ensures Logged(log + [e], env, f, first, Chunks(data, env.bs)) && InRounds(log + [e], w, env, calls')
    ensures End(log + [e]) == e.at + |e.blocks|
  {
    hide Chunks, ChunkCommitted, EntryOk, Logged, At, InRounds, End;
    CommittedEntry(env, f, first, chunk, recs, Chunks(data, env.bs), e);
    LogMore(log, e, env, f, first, Chunks(data, env.bs));
    RoundsMore(log, e, w, env, calls, calls');
  }

  /** Where the next chunk ends, in bytes and in blocks. */
  lemma NextBytes(n: nat, bs: nat, pos: nat, done: nat, m: nat, size: nat, k: nat, total: nat)
    requires pos == Bytes(done, bs) <= n && size == Min(Bytes(m, bs), n - pos)
    requires Bytes(m, bs) < n - pos ==> k == m
    requires Bytes(m, bs) >= n - pos ==> done + k == total
    ensures pos + size <= n && (pos + size < n ==> pos + size == Bytes(done + k, bs))
    ensures pos + size == n ==> done + k == total
  {
    NextPos(done + k, bs, m);
    hide Bytes;
  }

  /** The loop of `write_blocks`, once the write is valid for the length it found. */
  method WriteChunks(t: Tables, f: FileId, first: nat, data: bytes, m: nat, w: World, env: Env, ghost len: nat)
    returns (r: Result<()>, done: nat, calls: nat, ghost log: seq<Entry>)
    requires t.Valid() && t.bs == env.bs && Inv(t.View(), env) && CollisionFree(env)
    requires WorldOk(w, env) && AllKnown(env, Chunks(data, env.bs)) && m > 0 && data != []
    requires ValidateWrite(len, env.bs, first, |data|).Ok?
    modifies t
    ensures t.Valid() && Inv(t.View(), env)
    ensures Logged(log, env, f, first, Chunks(data, env.bs)) && InRounds(log, w, env, calls) && done == End(log)
    ensures r.Ok? ==> done == |Chunks(data, env.bs)| && (log != [] ==> t.View() == log[|log| - 1].after)
    ensures r.Err? ==> if r.error == Error.Io then IoFailed(w, calls) else !StableLen(w, env, f, len)
  {
    hide Inv, Chunks, ValidateWrite, Flat, CollisionFree, AllKnown, WorldOk, Bytes, Logged, StableLen, At, InRounds,
         WrittenTo, EntryOk, End, IoFailed;
    done, calls, log := 0, 0, [];
    NoEntries(w, env, f, first, data);
    var pos := 0;
    while pos < |data|
      invariant t.Valid() && Inv(t.View(), env) && 0 <= pos <= |data|
      invariant WrittenTo(log, w, env, f, first, data, pos, done, calls)
      invariant log != [] ==> t.View() == log[|log| - 1].after
      decreases |data| - pos
    {
      WrittenParts(log, w, env, f, first, data, pos, done, calls);
      var got, pos', done', calls'; ghost var log';
      got, pos', done', calls', log' := WriteNext(t, f, first, data, m, w, env, len, pos, done, calls, log);
      if got.Err? { r, done, calls, log := Err(got.error), done', calls', log'; return; }
      WrittenParts(log', w, env, f, first, data, pos', done', calls');
      pos, done, calls, log := pos', done', calls', log';
    }
    WrittenParts(log, w, env, f, first, data, pos, done, calls);
    r := Ok(());
  }

  /** `write_blocks`: commits the chunks in order until all are written or one fails. `log` lists the
      commits, each against the store it found. */
  method WriteBlocks(t: Tables, f: FileId, first: nat, data: bytes, txnBytes: nat, w: World, env: Env)
    returns (r: Result<()>, done: nat, calls: nat, ghost log: seq<Entry>)
    requires t.Valid() && t.bs == env.bs && Inv(t.View(), env) && CollisionFree(env)
    requires WorldOk(w, env) && AllKnown(env, Chunks(data, env.bs))
    modifies t
    ensures t.Valid() && Inv(t.View(), env)
    ensures Refused(ViewOf(w.looks(0), env.bs), env, f, first, |data|) ==> r.Err? && log == []
    ensures Logged(log, env, f, first, Chunks(data, env.bs)) && InRounds(log, w, env, calls) && done == End(log)
    ensures r.Ok? ==> done == |Chunks(data, env.bs)| && (log != [] ==> t.View() == log[|log| - 1].after)
    ensures r.Err? ==>
              || Refused(ViewOf(w.looks(0), env.bs), env, f, first, |data|)
              || if r.error == Error.Io then IoFailed(w, calls)
                 else !StableLen(w, env, f, ViewOf(w.looks(0), env.bs).files[f].len)
  {
    hide Inv, Chunks, ValidateWrite, Flat, CollisionFree, AllKnown, WorldOk, Bytes, Logged, StableLen, At, InRounds,
         WrittenTo, EntryOk, FileLen, End, IoFailed;
    done, calls, log := 0, 0, [];
    var segs, bs := w.looks(0).segs, t.bs;
    NoEntries(w, env, f, first, data);
    FlatHas(segs, bs, f);
    if (f, 0) !in segs { r := Err(NotFound); return; }
    var len := FileLen(segs, f);
    var valid := ValidateWrite(len, bs, first, |data|);
    if valid.Err? { r := Err(valid.error); return; }
    if data == [] { NoChunks(bs); r := Ok(()); return; }
    r, done, calls, log := WriteChunks(t, f, first, data, Max(txnBytes / bs, 1), w, env, len);
  }

  lemma NoEntries(w: World, env: Env, f: FileId, first: nat, data: bytes)
    requires env.bs > 0
    ensures Logged([], env, f, first, Chunks(data, env.bs)) && InRounds([], w, env, 0) && End([]) == 0
    ensures data != [] ==> WrittenTo([], w, env, f, first, data, 0, 0, 0)
  {
    hide Chunks;
    assert Bytes(0, env.bs) == 0;
  }

  lemma NotStable(w: World, env: Env, f: FileId, len: nat, first: nat, n: nat, k: nat)
    requires env.bs > 0 && ValidateWrite(len, env.bs, first, n).Ok? && Refused(At(w, k, env), env, f, first, n)
    ensures !StableLen(w, env, f, len)
  {
    hide ValidateWrite, At;
  }

  lemma CommittedEntry(env: Env, f: FileId, first: nat, chunk: bytes, recs: map<Hash, BlockLoc>, all: seq<bytes>, e: Entry)
    requires ChunkCommitted(e.before, e.after, env, f, first + e.at, chunk, recs) && e.blocks == Chunks(chunk, env.bs)
    requires e.blocks != [] && e.at + |e.blocks| <= |all| && e.blocks == all[e.at..e.at + |e.blocks|]
    ensures EntryOk(e, env, f, first, all)
  {
    hide Txn, NoneRetired, Chunks, ValidateWrite, RowContent, Edits, NewAccepted;
    FileIn(e.before, env, f);
    FileIn(e.after, env, f);
  }

  lemma NoChunks(bs: nat)
    requires bs > 0
    ensures Chunks([], bs) == []
  {
  }

  lemma ChunkCount(chunk: bytes, bs: nat)
    requires bs > 0 && chunk != []
    ensures |Chunks(chunk, bs)| == DivCeil(|chunk|, bs) > 0
  {
    ChunksAreBlocks(chunk, bs);
    CeilBounds(|chunk|, bs);
  }

  lemma SomeBytes(m: nat, bs: nat)
    requires m > 0 && bs > 0
    ensures Bytes(m, bs) > 0 && Bytes(0, bs) == 0
  {
    MulMono(1, m, bs);
  }

  lemma NextPos(done: nat, bs: nat, m: nat)
    ensures done >= m ==> Bytes(done, bs) == Bytes(done - m, bs) + Bytes(m, bs)
  {
  }
}
