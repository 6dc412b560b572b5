/** Dropping a block whose record turned out to be corrupt. */
module Healing {
  import opened Base
  import opened Ledger
  import opened Segments
  import opened Index
  import opened Meaning
  import opened Safety
  import opened Runs

  /** `heal`: drops the block unless it was freed or moved meanwhile. Its slots keep their ids, which
      read as missing and are never given to other content. */
  method Heal(t: Tables, id: nat, loc: BlockLoc, env: Env) returns (removed: bool)
    requires t.Valid() && t.bs == env.bs && Books(env, t.View())
    modifies t
    ensures t.Valid() && Books(env, t.View())
    ensures removed <==> id in old(t.blocks) && old(t.blocks)[id].pack == loc.pack && old(t.blocks)[id].offset == loc.offset
    ensures !removed ==> t.View() == old(t.View())
    ensures removed ==>
              && t.View().blocks == old(t.View().blocks) - {id} && SameRest(old(t.View()), t.View())
              && t.View().nextBlock == old(t.View().nextBlock)
              && Forgets(Contents(old(t.View()), env), Contents(t.View(), env))
              && RemoveBlock(old(t.View()), id, old(t.View()).blocks[id]) == Ok(t.View())
  {
    hide Flat, Inv, NoneRetired, Forgets, Contents, RemoveBlock;
    removed := id in t.blocks && t.blocks[id].pack == loc.pack && t.blocks[id].offset == loc.offset;
    if removed {
      ghost var db := t.View();
      HealBooks(env, db, id);
      HealForgets(env, db, id);
      var done := t.RemoveBlock(id, t.blocks[id]);
    }
  }
}
