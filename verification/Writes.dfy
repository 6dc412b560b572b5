/** The write path's transactions: validation, the re-check for lost records, one chunk of a file,
    and a batch of whole files. */
module Writes {
  import opened Base
  import opened Manifest
  import opened Ledger
  import opened Segments
  import opened Index
  import opened Meaning
  import opened Commits

  // ---- Alignment ----

  /** Checks that `n` bytes written at block `first` are whole blocks of a file of `len` bytes. */
  function ValidateWrite(len: nat, bs: nat, first: nat, n: nat): Result<()>
    requires bs > 0
  {
    if n == 0 then Ok(())
    else
      var count := DivCeil(n, bs);
      var end := first + count;
      if end > BlockCount(len, bs) then Err(OutOfRange)
      else if n - (count - 1) * bs != BlockLen(len, bs, end - 1) then Err(Unaligned)
      else Ok(())
  }

  /** A write is accepted exactly if it lies in the file and ends at a block's end. */
  lemma ValidWrites(len: nat, bs: nat, first: nat, n: nat)
    requires bs > 0
    ensures ValidateWrite(len, bs, first, n).Ok? <==>
            || n == 0
            || first * bs + n == len
            || (first * bs + n < len && n % bs == 0)
  {
    if n > 0 {
      var count := DivCeil(n, bs);
      var end := first + count;
      CeilBounds(n, bs);
      CeilBounds(len, bs);
      assert (end - 1) * bs == first * bs + (count - 1) * bs;
      assert end * bs == (end - 1) * bs + bs;
      WholeBlocks(n, bs, count);
      if end <= BlockCount(len, bs) {
        BlocksTile(len, bs, end - 1);
      } else {
        MulMono(BlockCount(len, bs), end - 1, bs);
      }
    }
  }

  lemma WholeBlocks(n: nat, bs: nat, count: nat)
    requires bs > 0 && n > 0 && (count - 1) * bs < n <= count * bs
    ensures n % bs == 0 <==> n == count * bs
  {
    var q := n / bs;
    assert n == q * bs + n % bs;
    assert (count - 1) * bs == count * bs - bs && (count + 1) * bs == count * bs + bs;
    if q < count { MulMono(q, count - 1, bs); }
    if q > count { MulMono(count + 1, q, bs); }
  }

  /** `data.chunks(bs)`. */
  function Chunks(data: bytes, bs: nat): seq<bytes>
    requires bs > 0
    decreases |data|
  {
    if data == [] then []
    else if |data| <= bs then [data]
    else [data[..bs]] + Chunks(data[bs..], bs)
  }

  lemma CountDown(n: nat, bs: nat)
    requires bs > 0
    ensures n == 0 ==> DivCeil(n, bs) == 0
    ensures 0 < n <= bs ==> DivCeil(n, bs) == 1
    ensures n > bs ==> DivCeil(n, bs) == DivCeil(n - bs, bs) + 1
  {
    CeilBounds(n, bs);
    var q := DivCeil(n, bs);
    if n == 0 || n <= bs {
      if q >= 2 { MulMono(1, q - 1, bs); }
    } else {
      var p := DivCeil(n - bs, bs);
      CeilBounds(n - bs, bs);
      assert (q - 1) * bs == q * bs - bs;
      assert (p + 1) * bs == p * bs + bs && p * bs == (p - 1) * bs + bs;
      if p + 1 < q { MulMono(p + 1, q - 1, bs); }
      if q < p + 1 { MulMono(q, p, bs); }
    }
  }

  /** Chunks are as many, and as long, as the blocks of a file of that length. */
  lemma {:induction false} ChunksAreBlocks(data: bytes, bs: nat)
    requires bs > 0
    ensures |Chunks(data, bs)| == BlockCount(|data|, bs)
    ensures forall j :: 0 <= j < |Chunks(data, bs)| ==>
              |Chunks(data, bs)[j]| == BlockLen(|data|, bs, j)
    decreases |data|
  {
    CountDown(|data|, bs);
    if |data| > bs {
      ChunksAreBlocks(data[bs..], bs);
      var cs := Chunks(data, bs);
      hide DivCeil;
      forall j | 0 <= j < |cs| ensures |cs[j]| == BlockLen(|data|, bs, j) {
        assert j * bs == (j - 1) * bs + bs;
        if j > 0 { assert cs[j] == Chunks(data[bs..], bs)[j - 1]; }
      }
    }
  }

  /** The chunks of a valid write have the lengths of the blocks they replace. */
  lemma ValidChunks(len: nat, bs: nat, first: nat, data: bytes)
    requires bs > 0 && ValidateWrite(len, bs, first, |data|).Ok?
    ensures data != [] ==> first + |Chunks(data, bs)| <= BlockCount(len, bs)
    ensures forall j :: 0 <= j < |Chunks(data, bs)| ==>
              |Chunks(data, bs)[j]| == BlockLen(len, bs, first + j)
  {
    ChunksAreBlocks(data, bs);
    ValidWrites(len, bs, first, |data|);
    var n := |data|;
    var cs := Chunks(data, bs);
    CeilBounds(n, bs);
    hide Chunks, DivCeil, BlockLen, ValidateWrite;
    forall j | 0 <= j < |cs| ensures |cs[j]| == BlockLen(len, bs, first + j) {
      SamePlaces(len, bs, first, n, |cs|, j);
    }
  }

  /** Block `j` of accepted data is as long as block `first + j` of the file. */
  lemma SamePlaces(len: nat, bs: nat, first: nat, n: nat, count: nat, j: nat)
    requires bs > 0 && n > 0 && j < count && (count - 1) * bs < n <= count * bs
    requires first * bs + n == len || (first * bs + n < len && n % bs == 0)
    ensures BlockLen(n, bs, j) == BlockLen(len, bs, first + j)
  {
    assert (first + j) * bs == first * bs + j * bs;
    if first * bs + n != len {
      WholeBlocks(n, bs, count);
      MulMono(j + 1, count, bs);
      assert (j + 1) * bs == j * bs + bs;
    }
  }

  // ---- The re-check inside a commit ----

  /** A block with this hash is stored, or a record for it lies in a pack that still accepts it. */
  ghost predicate Ready(db: Db, recs: map<Hash, BlockLoc>, h: Hash) {
    h in db.dedup || (h in recs && Accepts(db, recs[h].pack))
  }

  /** `missing` lists exactly the hashes that are not ready, and there is one. */
  ghost predicate MissingAre(db: Db, recs: map<Hash, BlockLoc>, hashes: seq<Hash>, missing: seq<nat>) {
    && missing != [] && (forall i :: i in missing ==> i < |hashes|)
    && forall i :: 0 <= i < |hashes| ==> (i in missing <==> !Ready(db, recs, hashes[i]))
  }

  function Hashes(blocks: seq<bytes>, env: Env): (hs: seq<Hash>)
    ensures |hs| == |blocks|
  {
    seq(|blocks|, j requires 0 <= j < |blocks| => env.hash(blocks[j]))
  }

  /** The indices whose block must be appended (again): a dedup hit freed since, or a record whose
      pack was retired. */
  method MissingRecords(t: Tables, hashes: seq<Hash>, recs: map<Hash, BlockLoc>)
    returns (missing: seq<nat>)
    requires t.Valid()
    ensures forall i :: i in missing ==> i < |hashes|
    ensures forall i :: 0 <= i < |hashes| ==> (i in missing <==> !Ready(t.View(), recs, hashes[i]))
    ensures forall a, b :: 0 <= a < b < |missing| ==> missing[a] < missing[b]
  {
    missing := [];
    for i := 0 to |hashes|
      invariant forall k :: k in missing ==> k < i
      invariant forall k :: 0 <= k < i ==> (k in missing <==> !Ready(t.View(), recs, hashes[k]))
      invariant forall a, b :: 0 <= a < b < |missing| ==> missing[a] < missing[b]
    {
      var h := hashes[i];
      if h in t.dedup { continue; }
      if h in recs && recs[h].pack in t.packs && t.packs[recs[h].pack].state != Retired { continue; }
      assert forall a :: 0 <= a < |missing| ==> missing[a] in missing;
      missing := missing + [i];
    }
  }

  lemma WriteFits(db: Db, env: Env, f: FileId, first: nat, chunk: bytes)
    requires Inv(db, env) && CollisionFree(env) && f in db.files
    requires ValidateWrite(db.files[f].len, env.bs, first, |chunk|).Ok? && chunk != []
    requires AllKnown(env, Chunks(chunk, env.bs))
    ensures var hs := Hashes(Chunks(chunk, env.bs), env);
            && first + |hs| <= |db.files[f].slots|
            && (forall j :: 0 <= j < |hs| ==>
                  |env.content(hs[j])| == BlockLen(db.files[f].len, env.bs, first + j))
            && BlocksOf(hs, env) == Chunks(chunk, env.bs)
  {
    ValidChunks(db.files[f].len, env.bs, first, chunk);
    var cs, hs := Chunks(chunk, env.bs), Hashes(Chunks(chunk, env.bs), env);
    hide Chunks, ValidateWrite;
    forall j | 0 <= j < |hs| ensures env.content(hs[j]) == cs[j] {}
  }

  /** New rows come from records in packs that accept them. */
  lemma ReadyAccepted(db: Db, db': Db, env: Env, f: FileId, first: nat, hashes: seq<Hash>, recs: map<Hash, BlockLoc>)
    requires Replaced(db, db', env, f, first, hashes, recs)
    requires forall j :: 0 <= j < |hashes| ==> Ready(db, recs, hashes[j])
    ensures NewAccepted(db, db')
  {
    hide Txn, Contents, Kept, OnlySlots, NewSlots, HoldsHash, Accepts;
    forall id | id in db'.blocks && id !in db.blocks ensures Accepts(db, db'.blocks[id].pack) {
      assert db'.blocks[id].hash in hashes;
      var j :| 0 <= j < |hashes| && hashes[j] == db'.blocks[id].hash;
      assert Ready(db, recs, hashes[j]);
    }
  }

  lemma ReadyKeepsNoneRetired(db: Db, db': Db, env: Env, f: FileId, first: nat, hashes: seq<Hash>,
                              recs: map<Hash, BlockLoc>)
    requires NoneRetired(db) && Inv(db, env) && Replaced(db, db', env, f, first, hashes, recs)
    requires forall j :: 0 <= j < |hashes| ==> Ready(db, recs, hashes[j])
    ensures NoneRetired(db')
  {
    hide Txn, Contents, Kept, NewAccepted, NoneRetired, Ready, HoldsHash, OnlySlots, NewSlots, NewRows;
    InvParts(db, env);
    ReadyAccepted(db, db', env, f, first, hashes, recs);
    AcceptedNoneRetired(db, db', env, recs.Values);
  }

  lemma ReadyIsAvailable(db: Db, recs: map<Hash, BlockLoc>, hashes: seq<Hash>)
    requires forall j :: 0 <= j < |hashes| ==> Ready(db, recs, hashes[j])
    ensures forall j :: 0 <= j < |hashes| ==> Available(db, recs, hashes[j])
  {
    forall j | 0 <= j < |hashes| ensures Available(db, recs, hashes[j]) {
      assert Ready(db, recs, hashes[j]);
    }
  }

  /** The commit of `write_chunk`. `Ok(Some(missing))` asks to append those records and retry;
      nothing was changed then. */
  method WriteChunk(t: Tables, f: FileId, first: nat, chunk: bytes, recs: map<Hash, BlockLoc>, env: Env)
    returns (r: Result<Option<seq<nat>>>)
    requires t.Valid() && t.bs == env.bs && Inv(t.View(), env) && CollisionFree(env)
    requires RecordsFor(recs, env) && chunk != [] && AllKnown(env, Chunks(chunk, env.bs))
    modifies t
    ensures t.Valid()
    ensures f !in old(t.View().files) ==> r == Err(NotFound)
    ensures r.Err? ==> t.View() == old(t.View())
    ensures r.Ok? <==> f in old(t.View().files)
                       && ValidateWrite(old(t.View().files[f].len), env.bs, first, |chunk|).Ok?
    ensures r.Err? && f in old(t.View().files) ==>
              ValidateWrite(old(t.View().files[f].len), env.bs, first, |chunk|) == Err(r.error)
    ensures r.Ok? ==>
              var hs := Hashes(Chunks(chunk, env.bs), env);
              if r.value.Some?
              then t.View() == old(t.View()) && MissingAre(t.View(), recs, hs, r.value.value)
              else
                && first + |hs| <= |old(t.View().files[f].slots)|
                && Txn(old(t.View()), t.View(), env, recs.Values) && NewAccepted(old(t.View()), t.View())
                && Edits(OpWrite(f, first, Chunks(chunk, env.bs)), old(t.View()), t.View(), env)
                && (NoneRetired(old(t.View())) ==> NoneRetired(t.View()))
                && Contents(t.View(), env)
                   == Written(Contents(old(t.View()), env), f, first, Chunks(chunk, env.bs))
  {
    hide Flat, Inv, RecordsFor, Chunks, Hashes, ValidateWrite, Contents, Written, Txn, NoneRetired,
         Replaced, CollisionFree, AllKnown, Ready, BlocksOf, Available, BlockLen, Edits, NewAccepted;
    ghost var db := t.View();
    FlatHas(t.segs, t.bs, f);
    if (f, 0) !in t.segs { return Err(NotFound); }
    var len := FileLen(t.segs, f);
    var valid := ValidateWrite(len, t.bs, first, |chunk|);
    if valid.Err? { return Err(valid.error); }
    WriteFits(db, env, f, first, chunk);
    var hashes := Hashes(Chunks(chunk, env.bs), env);
    var missing := MissingRecords(t, hashes, recs);
    if missing != [] {
      assert missing[0] in missing;
      return Ok(Some(missing));
    }
    ReadyIsAvailable(db, recs, hashes);
    var done := ReplaceSlots(t, f, len, first, hashes, recs, env);
    if done.Err? { return Err(Corrupt); }
    ReplacedParts(db, t.View(), env, f, first, hashes, recs);
    ReadyAccepted(db, t.View(), env, f, first, hashes, recs);
    WriteEdits(db, t.View(), env, f, first, Chunks(chunk, env.bs), recs);
    if NoneRetired(db) { ReadyKeepsNoneRetired(db, t.View(), env, f, first, hashes, recs); }
    return Ok(None);
  }

  lemma WriteEdits(db: Db, db': Db, env: Env, f: FileId, first: nat, data: seq<bytes>, recs: map<Hash, BlockLoc>)
    requires env.bs > 0 && AllKnown(env, data) && Replaced(db, db', env, f, first, Hashes(data, env), recs)
    ensures Edits(OpWrite(f, first, data), db, db', env)
  {
    hide Txn, Contents, Kept, HoldsHash, OnlySlots, NewRows, NewSlots;
    var hs := Hashes(data, env);
    forall j | 0 <= j < |data| ensures env.known(data[j]) && HoldsHash(db', f, first + j, env.hash(data[j])) {
      assert HoldsHash(db', f, first + j, hs[j]);
    }
  }

  lemma ReplacedParts(db: Db, db': Db, env: Env, f: FileId, first: nat, hashes: seq<Hash>,
                      recs: map<Hash, BlockLoc>)
    requires Replaced(db, db', env, f, first, hashes, recs)
    ensures Txn(db, db', env, recs.Values)
    ensures f in db.files && first + |hashes| <= |db.files[f].slots|
    ensures Contents(db', env) == Written(Contents(db, env), f, first, BlocksOf(hashes, env))
  {
  }
}
