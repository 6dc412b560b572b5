/** The tables of one write transaction and their row operations. */
module Index {
  import opened Base
  import opened Ledger
  import opened Segments

  /** What an aborted transaction goes back to. */
  datatype Saved = Saved(
    segs: SegmentRows, blocks: map<nat, BlockLoc>, dedup: map<Hash, nat>, packs: map<nat, PackInfo>,
    nextBlock: nat, nextPack: nat, clean: nat)

  ghost function ViewOf(s: Saved, bs: nat): Db
    requires bs > 0
  {
    Db(Flat(s.segs, bs), s.blocks, s.dedup, s.packs, s.nextBlock, s.nextPack, s.clean)
  }

  class Tables {
    const bs: nat
    var segs: SegmentRows
    var blocks: map<nat, BlockLoc>
    var dedup: map<Hash, nat>
    var packs: map<nat, PackInfo>
    var nextBlock: nat
    var nextPack: nat
    var clean: nat

    ghost predicate Valid()
      reads this
    {
      bs > 0 && SegsOk(segs, bs)
    }

    ghost function View(): Db
      reads this
      requires Valid()
    {
      Db(Flat(segs, bs), blocks, dedup, packs, nextBlock, nextPack, clean)
    }

    function State(): Saved
      reads this
    {
      Saved(segs, blocks, dedup, packs, nextBlock, nextPack, clean)
    }

    /** A transaction that fails leaves no trace. */
    method Abort(s: Saved)
      modifies this
      ensures State() == s
    {
      segs, blocks, dedup, packs := s.segs, s.blocks, s.dedup, s.packs;
      nextBlock, nextPack, clean := s.nextBlock, s.nextPack, s.clean;
    }

    /** Adds `delta` to a pack's live byte count. */
    method AddLive(pack: nat, delta: int) returns (r: Result<()>)
      requires Valid()
      modifies this`packs
      ensures Valid() && r.Ok? == Ledger.AddLive(old(View()), pack, delta).Ok?
      ensures r.Ok? ==> View() == Ledger.AddLive(old(View()), pack, delta).value
      ensures r.Err? ==> packs == old(packs) && r.error == Corrupt
    {
      if pack !in packs { return Err(Corrupt); }
      var info := packs[pack];
      if info.live + delta < 0 { return Err(Corrupt); }
      packs := packs[pack := info.(live := info.live + delta)];
      return Ok(());
    }

    /** Inserts a new block with refcount 0 and its dedup row; returns its id. */
    method InsertBlock(loc: BlockLoc) returns (r: Result<nat>)
      requires Valid()
      modifies this`blocks, this`dedup, this`packs, this`nextBlock
      ensures Valid() && r.Ok? == Ledger.InsertBlock(old(View()), loc).Ok?
      ensures r.Ok? ==> r.value == old(nextBlock)
                        && View() == Ledger.InsertBlock(old(View()), loc).value
    {
      var id := nextBlock;
      nextBlock := id + 1;
      var row := loc.(refcount := 0);
      blocks := blocks[id := row];
      dedup := dedup[row.hash := id];
      var added := AddLive(row.pack, row.RecordLen());
      if added.Err? { return Err(added.error); }
      return Ok(id);
    }

    method Incref(id: nat) returns (r: Result<()>)
      requires Valid()
      modifies this`blocks
      ensures Valid() && r.Ok? == Ledger.Incref(old(View()), id).Ok?
      ensures r.Ok? ==> View() == Ledger.Incref(old(View()), id).value
    {
      if id !in blocks { return Err(Corrupt); }
      var loc := blocks[id];
      blocks := blocks[id := loc.(refcount := loc.refcount + 1)];
      return Ok(());
    }

    /** Drops one reference; at zero the block's rows go and its pack's live bytes shrink.
        A block that no longer exists (a healed one) is left alone. */
    method Decref(id: nat) returns (r: Result<()>)
      requires Valid()
      modifies this`blocks, this`dedup, this`packs
      ensures Valid() && r.Ok? == Ledger.Decref(old(View()), id).Ok?
      ensures r.Ok? ==> View() == Ledger.Decref(old(View()), id).value
    {
      if id !in blocks { return Ok(()); }
      var loc := blocks[id];
      if loc.refcount > 1 {
        blocks := blocks[id := loc.(refcount := loc.refcount - 1)];
        return Ok(());
      }
      r := RemoveBlock(id, loc);
    }

    method RemoveBlock(id: nat, loc: BlockLoc) returns (r: Result<()>)
      requires Valid()
      modifies this`blocks, this`dedup, this`packs
      ensures Valid() && r.Ok? == Ledger.RemoveBlock(old(View()), id, loc).Ok?
      ensures r.Ok? ==> View() == Ledger.RemoveBlock(old(View()), id, loc).value
    {
      blocks := blocks - {id};
      if loc.hash in dedup && dedup[loc.hash] == id { dedup := dedup - {loc.hash}; }
      r := AddLive(loc.pack, -(loc.RecordLen() as int));
    }
  }
}
