/** Running the pack writer and the deletion of retired packs is a run of the store. */
module WriterSteps {
  import opened Base
  import opened Ledger
  import opened Codec
  import opened System
  import opened Safety
  import opened Runs
  import opened PackWriter

  // ---- The pack writer keeps the store in order ----

  /** The invariant, and the pack to be sealed next is not retired. */
  ghost predicate Healthy(env: Env, s: Sys) { SysInv(env, s) && s.mode == Running && CurrentLives(s) }

  lemma StepHealthy(env: Env, s: Sys, e: Event, s': Sys)
    requires Healthy(env, s) && Step(env, s, e, s') && ByPackWriter(e)
    ensures Healthy(env, s')
  {
    hide SysInv, Step, CurrentLives, WriterOk;
    StepKeeps(env, s, e, s');
    SysParts(env, s);
    LivesKept(env, s, e, s');
  }

  lemma LivesKept(env: Env, s: Sys, e: Event, s': Sys)
    requires WriterOk(s) && s.mode == Running && CurrentLives(s) && Step(env, s, e, s') && ByPackWriter(e)
    ensures CurrentLives(s') && s'.mode == Running
  {
    hide RunningStep, Current, WriterOk;
    if Starts(e) { NewCurrent(env, s, e, s'); }
    else if OfWriter(e) { SameCurrent(env, s, e, s'); }
    else { IssueSame(env, s, e, s'); }
  }

  lemma IssueSame(env: Env, s: Sys, e: Event, s': Sys)
    requires RunningStep(env, s, e, s') && e.Issue?
    ensures Current(s') == Current(s) && s'.db == s.db && s'.mode == s.mode
  {
    hide RecordOk, Genuine, Mine;
  }

  lemma {:induction false} StepsHealthy(env: Env, run: seq<Sys>, events: seq<Event>, i: nat)
    requires Steps(env, run, events) && i < |run| && Healthy(env, run[0])
    requires forall k :: 0 <= k < |events| ==> ByPackWriter(events[k])
    ensures Healthy(env, run[i])
  {
    hide Step, Healthy, ByPackWriter;
    if i > 0 {
      StepsHealthy(env, run, events, i - 1);
      StepHealthy(env, run[i - 1], events[i - 1], run[i]);
    }
  }

  /** Whatever the pack writer does, and whatever fails on the way, the store stays in order. */
  lemma LeadsHealthy(env: Env, s: Sys, s': Sys)
    requires Leads(env, ByPackWriter, s, s') && Healthy(env, s)
    ensures Healthy(env, s')
  {
    hide Step, Healthy, ByPackWriter;
    var run, events :| LeadsBy(env, ByPackWriter, s, s', run, events);
    StepsHealthy(env, run, events, |events|);
  }

  // ---- Appending new blocks ----

  /** A block to store, with a frame of it. */
  datatype Source = Source(data: bytes, frame: bytes)

  function Encoded(env: Env, b: Source): EncodedBlock { FromFrame(env, b.data, env.hash(b.data), b.frame) }

  ghost predicate SourceOk(env: Env, b: Source) {
    env.known(b.data) && env.unzip(b.frame) == Some(b.data) && Encoded(env, b).header.Fits()
  }

  /** The row for a block appended at this place. */
  function RowAt(env: Env, b: Source, place: (nat, nat)): BlockLoc {
    BlockLoc(place.0, place.1, |Encoded(env, b).payload|, |b.data|, 0, env.hash(b.data))
  }

  /** `encode_and_append` by writer `w`: steps of the store, whatever fails; on success the writer has a
      record for every block, at the place returned. */
  method EncodeAndAppend(wr: Writer, blocks: seq<Source>, ghost w: nat, ghost s: Sys, env: Env)
    returns (r: Result<seq<BlockLoc>>, ghost s': Sys)
    requires wr.env == env && wr.Valid() && wr.Match(s) && s.lock == Free && Healthy(env, s) && CollisionFree(env)
    requires forall j :: 0 <= j < |blocks| ==> SourceOk(env, blocks[j])
    modifies wr
    ensures wr.Valid() && wr.Match(s') && s'.lock == Free && Leads(env, ByPackWriter, s, s') && Healthy(env, s')
    ensures s'.db.blocks == s.db.blocks && s'.db.files == s.db.files
    ensures r.Err? ==> s'.writers == s.writers
    ensures r.Ok? ==>
              && |r.value| == |blocks|
              && forall j :: 0 <= j < |blocks| ==>
                   r.value[j] in Mine(s', w) && r.value[j] == RowAt(env, blocks[j], (r.value[j].pack, r.value[j].offset))
  {
    hide Leads, Healthy, MatchOf, SourceOk, Encoded, EncodeHeader, RecordBytes, CollisionFree, Holds, Laid, Joined, Grew;
    forall j | 0 <= j < |blocks| ensures Encoded(env, blocks[j]).header.Fits() { SourceFits(env, blocks[j]); }
    var records := seq(|blocks|, j requires 0 <= j < |blocks| =>
      (EncodeHeader(Encoded(env, blocks[j]).header), Encoded(env, blocks[j]).payload));
    var places;
    places, s' := wr.AppendRecords(records, s);
    LeadsHealthy(env, s, s');
    if places.Err? { return Err(places.error), s'; }
    var out := [];
    for j := 0 to |blocks|
      modifies {}
      invariant |out| == j && wr.Match(s') && s'.lock == Free && Leads(env, ByPackWriter, s, s')
      invariant s'.db.blocks == s.db.blocks && s'.db.files == s.db.files
      invariant forall k :: 0 <= k < j ==>
                  out[k] in Mine(s', w) && out[k] == RowAt(env, blocks[k], (out[k].pack, out[k].offset))
    {
      var loc := RowAt(env, blocks[j], places.value[j]);
      ghost var q := Ticket(places.value[j].0, places.value[j].1, records[j].0 + records[j].1);
      s' := IssueOne(env, s, s', w, wr.files, wr.ActiveId(), wr.abandoned, wr.nextPack, wr.rows, q, blocks[j], loc);
      out := out + [loc];
    }
    LeadsHealthy(env, s, s');
    return Ok(out), s';
  }

  lemma SourceFits(env: Env, b: Source)
    requires SourceOk(env, b)
    ensures Encoded(env, b).header.Fits()
  {
  }

  /** The writer gets one of the records it appended. */
  lemma IssueOne(env: Env, s0: Sys, s: Sys, w: nat, files: Disk, active: Option<nat>, abandoned: Option<nat>, nextPack: nat,
                 rows: map<nat, PackState>, q: Ticket, b: Source, loc: BlockLoc)
    returns (s': Sys)
    requires Leads(env, ByPackWriter, s0, s) && MatchOf(s, files, active, abandoned, nextPack, rows)
    requires CollisionFree(env) && SourceOk(env, b) && Holds(files, q)
    requires Encoded(env, b).header.Fits() && q.record == EncodeHeader(Encoded(env, b).header) + Encoded(env, b).payload
    requires loc == RowAt(env, b, (q.pack, q.offset))
    ensures Leads(env, ByPackWriter, s0, s') && MatchOf(s', files, active, abandoned, nextPack, rows)
    ensures s' == s.(writers := s.writers[w := Mine(s, w) + {loc}])
  {
    hide Leads, StatesOf, RecordOk, Genuine, EncodeHeader, HoldsAt, CollisionFree;
    IssuedReads(env, files, q, b.data, b.frame, loc);
    s' := s.(writers := s.writers[w := Mine(s, w) + {loc}]);
    LeadsThen(env, ByPackWriter, s0, s, System.Issue(w, loc), s');
  }
}
