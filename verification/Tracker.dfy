/** Read generations, and the queue of retired packs that waits for them. */
module Tracker {
  import opened Base
  import opened Ledger
  import opened Meaning
  import opened Codec
  import opened System

  lemma MinKey(keys: set<nat>) returns (k: nat)
    requires keys != {}
    ensures k in keys && forall j :: j in keys ==> k <= j
    decreases keys
  {
    k :| k in keys;
    var rest := keys - {k};
    if rest == {} {
      assert keys == {k};
    } else {
      var m := MinKey(rest);
      forall j | j in keys ensures (if m < k then m else k) <= j { assert j == k || j in rest; }
      k := if m < k then m else k;
    }
  }

  class ReadTracker {
    var generation: nat
    /** generation -> number of reads in progress that entered during it */
    var active: map<nat, nat>
    /** The generation of each read in progress. */
    ghost var running: multiset<nat>

    ghost predicate Valid()
      reads this
    {
      && (forall g :: g in active <==> g in running)
      && (forall g :: g in active ==> active[g] == running[g])
      && (forall g :: g in running ==> g <= generation)
    }

    constructor ()
      ensures Valid() && generation == 0 && running == multiset{}
    {
      generation, active, running := 0, map[], multiset{};
    }

    method Enter() returns (g: nat)
      requires Valid()
      modifies this
      ensures Valid() && generation == old(generation)
      ensures g == generation && running == old(running) + multiset{g}
    {
      g := generation;
      active := active[g := (if g in active then active[g] else 0) + 1];
      running := running + multiset{g};
    }

    method Advance() returns (g: nat)
      requires Valid()
      modifies this
      ensures Valid() && running == old(running)
      ensures g == generation == old(generation) + 1
      ensures forall r :: r in running ==> r < g
    {
      generation := generation + 1;
      g := generation;
    }

    /** True exactly when every read in progress entered in `g` or later. */
    method IsClearBefore(g: nat) returns (clear: bool)
      requires Valid()
      ensures clear <==> forall r :: r in running ==> r >= g
    {
      if active == map[] { return true; }
      ghost var least := MinKey(active.Keys);
      var oldest :| oldest in active && forall k :: k in active ==> oldest <= k;
      clear := oldest >= g;
    }

    /** A guard is dropped. */
    method Leave(g: nat)
      requires Valid() && g in running
      modifies this
      ensures Valid() && generation == old(generation) && running == old(running) - multiset{g}
    {
      var n := active[g] - 1;
      active := if n == 0 then active - {g} else active[g := n];
      running := running - multiset{g};
    }
  }

  // ---- The tracker and the store's readers ----

  ghost function ReadersAt(readers: map<nat, Reader>, g: nat): set<nat> {
    set r | r in readers && readers[r].gen == g
  }

  /** The tracker counts the store's readers, generation by generation. */
  ghost predicate Tracks(running: multiset<nat>, readers: map<nat, Reader>) {
    forall g: nat :: running[g] == |ReadersAt(readers, g)|
  }

  lemma EnterTracks(running: multiset<nat>, readers: map<nat, Reader>, r: nat, g: nat)
    requires Tracks(running, readers) && r !in readers
    ensures Tracks(running + multiset{g}, readers[r := Reader(g, None)])
  {
    var now := readers[r := Reader(g, None)];
    forall h: nat ensures (running + multiset{g})[h] == |ReadersAt(now, h)| {
      EnteredAt(readers, r, g, h);
      assert running[h] == |ReadersAt(readers, h)|;
    }
  }

  lemma EnteredAt(readers: map<nat, Reader>, r: nat, g: nat, h: nat)
    requires r !in readers
    ensures |ReadersAt(readers[r := Reader(g, None)], h)| == |ReadersAt(readers, h)| + (if h == g then 1 else 0)
  {
    assert ReadersAt(readers[r := Reader(g, None)], h) == ReadersAt(readers, h) + (if h == g then {r} else {});
  }

  lemma LeaveTracks(running: multiset<nat>, readers: map<nat, Reader>, r: nat)
    requires Tracks(running, readers) && r in readers
    ensures readers[r].gen in running && Tracks(running - multiset{readers[r].gen}, readers - {r})
  {
    var g := readers[r].gen;
    assert r in ReadersAt(readers, g);
    forall h: nat ensures (running - multiset{g})[h] == |ReadersAt(readers - {r}, h)| {
      assert ReadersAt(readers - {r}, h) == ReadersAt(readers, h) - {r};
    }
  }

  /** Taking a snapshot does not change what is tracked. */
  lemma SnapTracks(running: multiset<nat>, readers: map<nat, Reader>, r: nat, db: Db)
    requires Tracks(running, readers) && r in readers
    ensures Tracks(running, readers[r := readers[r].(snap := Some(db))])
  {
    var now := readers[r := readers[r].(snap := Some(db))];
    forall h: nat ensures running[h] == |ReadersAt(now, h)| { assert ReadersAt(now, h) == ReadersAt(readers, h); }
  }

  /** The tracker's answer is the store's condition for deleting a file. */
  lemma ClearIsGuard(running: multiset<nat>, readers: map<nat, Reader>, g: nat)
    requires Tracks(running, readers)
    ensures (forall h :: h in running ==> h >= g) <==> forall r :: r in readers ==> readers[r].gen >= g
  {
    forall r | r in readers ensures readers[r].gen in running { assert r in ReadersAt(readers, readers[r].gen); }
    forall h | h in running ensures exists r :: r in readers && readers[r].gen == h {
      assert |ReadersAt(readers, h)| > 0;
      var r :| r in ReadersAt(readers, h);
    }
  }

  /** What happened to one queued pack: its file is gone, its row was removed. */
  datatype Outcome = Outcome(unlinked: bool, rowGone: bool)

  /** Every read that was running entered in the entry's generation or later. */
  ghost predicate Clear(tracker: ReadTracker, q: (nat, nat))
    reads tracker
  {
    forall r :: r in tracker.running ==> r >= q.1
  }

  // ---- Deletion as steps of the store ----

  predicate Reclaims(e: Event) { e.DeleteFile? || e.RemoveRow? }

  predicate NoneTwice(queue: seq<(nat, nat)>) { forall i, j :: 0 <= i < j < |queue| ==> queue[i] != queue[j] }

  /** The store `s` has these files, rows and queued packs. */
  ghost predicate Same(s: Sys, files: set<nat>, rows: map<nat, PackInfo>, queue: seq<(nat, nat)>) {
    && s.mode == Running && s.disk.Keys == files && s.db.packs == rows && NoneTwice(queue)
    && s.retired == (set q | q in queue)
  }

  /** The store with other running reads: those come and go between the entries. */
  function WithReaders(s: Sys, readers: map<nat, Reader>): Sys { s.(readers := readers) }

  lemma SameReaders(s: Sys, readers: map<nat, Reader>, files: set<nat>, rows: map<nat, PackInfo>, queue: seq<(nat, nat)>)
    requires Same(s, files, rows, queue)
    ensures Same(WithReaders(s, readers), files, rows, queue)
  {
  }

  /** The deletion steps of one entry after the other, each entry from the reads running when its turn comes. */
  ghost predicate Entries(env: Env, states: seq<Sys>, readers: seq<map<nat, Reader>>) {
    && 0 < |states| <= |readers| + 1
    && forall j :: 0 <= j < |states| - 1 ==> Leads(env, Reclaims, WithReaders(states[j], readers[j]), states[j + 1])
  }

  lemma EntriesMore(env: Env, states: seq<Sys>, readers: seq<map<nat, Reader>>, s: Sys)
    requires Entries(env, states, readers) && |states| <= |readers|
    requires Leads(env, Reclaims, WithReaders(states[|states| - 1], readers[|states| - 1]), s)
    ensures Entries(env, states + [s], readers)
  {
    hide Leads;
  }

  /** A queued pack that no read can still reference loses its file, and then its row. */
  lemma ReclaimLeads(env: Env, s: Sys, running: multiset<nat>, files: set<nat>, rows: map<nat, PackInfo>,
                     keep: seq<(nat, nat)>, q: (nat, nat), rest: seq<(nat, nat)>)
    requires Same(s, files, rows, keep + [q] + rest) && Tracks(running, s.readers) && forall r :: r in running ==> r >= q.1
    ensures var s1 := s.(disk := s.disk - {q.0});
            var s2 := AfterRemoveRow(s1, q.0, q.1);
            && Leads(env, Reclaims, s, s1) && Same(s1, files - {q.0}, rows, keep + [q] + rest)
            && Leads(env, Reclaims, s, s2) && Same(s2, files - {q.0}, rows - {q.0}, keep + rest)
  {
    hide Leads, Tracks, Txn, Moved, Copied, Genuine, RecordOk, RemoveBlock, Edits, NewAccepted;
    var queue := keep + [q] + rest;
    assert q == queue[|keep|] && q in queue;
    ClearIsGuard(running, s.readers, q.1);
    var s1 := s.(disk := s.disk - {q.0});
    LeadsNone(env, Reclaims, s);
    LeadsThen(env, Reclaims, s, s, DeleteFile(q.0, q.1), s1);
    LeadsThen(env, Reclaims, s, s1, RemoveRow(q.0, q.1), AfterRemoveRow(s1, q.0, q.1));
    TakenOut(keep, q, rest);
  }

  lemma TakenOut(keep: seq<(nat, nat)>, q: (nat, nat), rest: seq<(nat, nat)>)
    requires NoneTwice(keep + [q] + rest)
    ensures NoneTwice(keep + rest)
    ensures (set x | x in keep + rest) == (set x | x in keep + [q] + rest) - {q}
  {
    var all, less := keep + [q] + rest, keep + rest;
    forall i | 0 <= i < |less| ensures less[i] == all[if i < |keep| then i else i + 1] { }
    forall x | x in less ensures x in all && x != q {
      var i :| 0 <= i < |less| && less[i] == x;
      var k := if i < |keep| then i else i + 1;
      assert all[k] == x && all[|keep|] == q;
    }
  }

  /** Where `delete_retired` stands before entry `i`, with the entries `keep` still queued. */
  ghost predicate Handled(pending: seq<(nat, nat)>, i: nat, keep: seq<(nat, nat)>, files0: set<nat>, files: set<nat>,
                          rows0: map<nat, PackInfo>, rows: map<nat, PackInfo>, clears: seq<bool>, outcomes: seq<Outcome>)
    requires i <= |pending| == |clears| == |outcomes|
  {
    && (forall q :: q in keep ==> q in pending)
    && (forall j :: 0 <= j < i ==> pending[j] in keep || (pending[j].0 !in files && pending[j].0 !in rows))
    && files <= files0 && rows.Keys <= rows0.Keys && (forall p :: p in rows ==> rows[p] == rows0[p])
    && (forall p :: p in files0 && p !in files ==> exists j :: 0 <= j < i && pending[j].0 == p && clears[j])
    && (forall p :: p in rows0 && p !in rows ==> p !in files)
    && AllDecided(pending, i, keep, files, rows, clears, outcomes)
  }

  /** Each of the first `i` entries is gone or queued again, as its tracker and its outcome have it. */
  ghost predicate AllDecided(pending: seq<(nat, nat)>, i: nat, keep: seq<(nat, nat)>, files: set<nat>,
                             rows: map<nat, PackInfo>, clears: seq<bool>, outcomes: seq<Outcome>)
    requires i <= |pending| == |clears| == |outcomes|
  {
    forall j :: 0 <= j < i ==>
      if outcomes[j] == Outcome(true, true) && clears[j] then pending[j].0 !in files && pending[j].0 !in rows
      else pending[j] in keep && !(outcomes[j] == Outcome(true, false) && clears[j])
  }

  lemma NoneHandled(pending: seq<(nat, nat)>, files: set<nat>, rows: map<nat, PackInfo>, clears: seq<bool>,
                    outcomes: seq<Outcome>)
    requires |pending| == |clears| == |outcomes|
    ensures Handled(pending, 0, [], files, files, rows, rows, clears, outcomes)
  {
  }

  lemma HandledKeep(pending: seq<(nat, nat)>, i: nat, keep: seq<(nat, nat)>, files0: set<nat>, files: set<nat>,
                    rows0: map<nat, PackInfo>, rows: map<nat, PackInfo>, clears: seq<bool>, outcomes: seq<Outcome>)
    requires i < |pending| == |clears| == |outcomes| && (!clears[i] || !outcomes[i].unlinked)
    requires Handled(pending, i, keep, files0, files, rows0, rows, clears, outcomes)
    ensures Handled(pending, i + 1, keep + [pending[i]], files0, files, rows0, rows, clears, outcomes)
  {
  }

  lemma HandledGone(pending: seq<(nat, nat)>, i: nat, keep: seq<(nat, nat)>, files0: set<nat>, files: set<nat>,
                    rows0: map<nat, PackInfo>, rows: map<nat, PackInfo>, clears: seq<bool>, outcomes: seq<Outcome>)
    requires i < |pending| == |clears| == |outcomes| && clears[i] && outcomes[i] == Outcome(true, true)
    requires Handled(pending, i, keep, files0, files, rows0, rows, clears, outcomes)
    ensures Handled(pending, i + 1, keep, files0, files - {pending[i].0}, rows0, rows - {pending[i].0}, clears, outcomes)
  {
  }

  /** What `delete_retired` made of the queue: no entry is lost, a file goes only when the tracker is clear,
      and a row only after its file. */
  ghost predicate Reclaimed(pending: seq<(nat, nat)>, queue: seq<(nat, nat)>, files0: set<nat>, files: set<nat>,
                            rows0: map<nat, PackInfo>, rows: map<nat, PackInfo>, clears: seq<bool>)
    requires |pending| == |clears|
  {
    && (forall q :: q in queue ==> q in pending)
    && (forall q :: q in pending && q !in queue ==> q.0 !in files && q.0 !in rows)
    && files <= files0 && rows.Keys <= rows0.Keys && (forall p :: p in rows ==> rows[p] == rows0[p])
    && (forall p :: p in files0 && p !in files ==> exists j :: 0 <= j < |pending| && pending[j].0 == p && clears[j])
    && forall p :: p in rows0 && p !in rows ==> p !in files
  }

  /** The row of entry `i` stays: that entry and all later ones are queued again. */
  lemma HandledStop(pending: seq<(nat, nat)>, i: nat, keep: seq<(nat, nat)>, files0: set<nat>, files: set<nat>,
                    rows0: map<nat, PackInfo>, rows: map<nat, PackInfo>, clears: seq<bool>, outcomes: seq<Outcome>)
    requires i < |pending| == |clears| == |outcomes| && clears[i]
    requires Handled(pending, i, keep, files0, files, rows0, rows, clears, outcomes)
    ensures Reclaimed(pending, keep + [pending[i]] + pending[i + 1..], files0, files - {pending[i].0}, rows0, rows, clears)
  {
    var left := keep + [pending[i]] + pending[i + 1..];
    forall j | 0 <= j < |pending| ensures pending[j] in left || (pending[j].0 !in files && pending[j].0 !in rows) {
      if j > i { assert pending[j] == pending[i + 1..][j - i - 1]; }
    }
  }

  lemma HandledAll(pending: seq<(nat, nat)>, keep: seq<(nat, nat)>, files0: set<nat>, files: set<nat>,
                   rows0: map<nat, PackInfo>, rows: map<nat, PackInfo>, clears: seq<bool>, outcomes: seq<Outcome>)
    requires |pending| == |clears| == |outcomes|
    requires Handled(pending, |pending|, keep, files0, files, rows0, rows, clears, outcomes)
    ensures Reclaimed(pending, keep, files0, files, rows0, rows, clears)
    ensures AllDecided(pending, |pending|, keep, files, rows, clears, outcomes)
  {
  }

  /** Where the deletion steps have led so far, if the store and the tracker are joined to them at all. */
  ghost predicate Along(joined: bool, env: Env, s: Sys, states: seq<Sys>, readers: seq<map<nat, Reader>>, files: set<nat>,
                        rows: map<nat, PackInfo>, queue: seq<(nat, nat)>) {
    joined ==> Entries(env, states, readers) && states[0] == s && Same(states[|states| - 1], files, rows, queue)
  }

  lemma AlongNone(joined: bool, env: Env, s: Sys, readers: seq<map<nat, Reader>>, files: set<nat>, rows: map<nat, PackInfo>,
                  queue: seq<(nat, nat)>)
    requires joined ==> Same(s, files, rows, queue)
    ensures Along(joined, env, s, [s], readers, files, rows, queue)
  {
    hide Same, Leads;
  }

  lemma AlongEnd(joined: bool, env: Env, s: Sys, states: seq<Sys>, readers: seq<map<nat, Reader>>, files: set<nat>,
                 rows: map<nat, PackInfo>, queue: seq<(nat, nat)>)
    requires Along(joined, env, s, states, readers, files, rows, queue)
    ensures joined ==>
              0 < |states| && Entries(env, states, readers) && states[0] == s
              && Same(states[|states| - 1], files, rows, queue)
  {
    hide Same, Leads;
  }

  lemma AlongKept(joined: bool, env: Env, s: Sys, states: seq<Sys>, readers: seq<map<nat, Reader>>, files: set<nat>,
                  rows: map<nat, PackInfo>, queue: seq<(nat, nat)>)
    returns (states': seq<Sys>)
    requires Along(joined, env, s, states, readers, files, rows, queue) && 0 < |states| && (joined ==> |states| <= |readers|)
    ensures |states'| == |states| + 1 && Along(joined, env, s, states', readers, files, rows, queue)
  {
    hide Same, Leads, Entries;
    states' := states + [s];
    if joined {
      var now := WithReaders(states[|states| - 1], readers[|states| - 1]);
      SameReaders(states[|states| - 1], readers[|states| - 1], files, rows, queue);
      LeadsNone(env, Reclaims, now);
      EntriesMore(env, states, readers, now);
      states' := states + [now];
    }
  }

  lemma AlongMore(joined: bool, env: Env, s: Sys, states: seq<Sys>, readers: seq<map<nat, Reader>>, running: multiset<nat>,
                  files: set<nat>, rows: map<nat, PackInfo>, keep: seq<(nat, nat)>, q: (nat, nat), rest: seq<(nat, nat)>,
                  rowGone: bool)
    returns (states': seq<Sys>)
    requires Along(joined, env, s, states, readers, files, rows, keep + [q] + rest) && 0 < |states|
    requires joined ==> |states| <= |readers| && Tracks(running, readers[|states| - 1])
    requires forall r :: r in running ==> r >= q.1
    ensures |states'| == |states| + 1
    ensures if rowGone then Along(joined, env, s, states', readers, files - {q.0}, rows - {q.0}, keep + rest)
            else Along(joined, env, s, states', readers, files - {q.0}, rows, keep + [q] + rest)
  {
    hide Same, Leads, Entries, Tracks, AfterRemoveRow;
    states' := states + [s];
    if joined {
      var now := WithReaders(states[|states| - 1], readers[|states| - 1]);
      SameReaders(states[|states| - 1], readers[|states| - 1], files, rows, keep + [q] + rest);
      ReclaimLeads(env, now, running, files, rows, keep, q, rest);
      var s1 := now.(disk := now.disk - {q.0});
      var next := if rowGone then AfterRemoveRow(s1, q.0, q.1) else s1;
      EntriesMore(env, states, readers, next);
      states' := states + [next];
    }
  }

  lemma QueueParts(keep: seq<(nat, nat)>, pending: seq<(nat, nat)>)
    ensures [] + pending[0..] == pending && keep + pending[|pending|..] == keep
  {
  }

  /** When its turn comes, each entry's tracker counts these reads of the store. */
  ghost predicate Counted(trackers: seq<ReadTracker>, readers: seq<map<nat, Reader>>)
    reads trackers
  {
    |readers| == |trackers| && forall i :: 0 <= i < |trackers| ==> Tracks(trackers[i].running, readers[i])
  }

  class Reclaimer {
    var retired: seq<(nat, nat)>
    var files: set<nat>
    var rows: map<nat, PackInfo>

    /** `delete_retired`: no entry is lost, whatever fails. `trackers` are the tracker as it is, and
        `outcomes` what the file system and the index say, when each entry's turn comes. If the tracker counts
        the store's `readers`, these are the store's deletion steps. */
    method DeleteRetired(trackers: seq<ReadTracker>, outcomes: seq<Outcome>, ghost readers: seq<map<nat, Reader>>,
                         ghost s: Sys, ghost env: Env)
      returns (ok: bool, ghost states: seq<Sys>)
      requires |outcomes| == |trackers| == |retired| && forall i :: 0 <= i < |trackers| ==> trackers[i].Valid()
      modifies this
      ensures forall q :: q in retired ==> q in old(retired)
      ensures forall q :: q in old(retired) && q !in retired ==> q.0 !in files && q.0 !in rows
      ensures files <= old(files) && rows.Keys <= old(rows).Keys && forall p :: p in rows ==> rows[p] == old(rows)[p]
      ensures forall p :: p in old(files) && p !in files ==>
                exists i :: 0 <= i < |trackers| && old(retired)[i].0 == p && Clear(trackers[i], old(retired)[i])
      ensures forall p :: p in old(rows) && p !in rows ==> p !in files
      ensures ok <==> forall i :: 0 <= i < |outcomes| && Clear(trackers[i], old(retired)[i]) ==>
                        outcomes[i] != Outcome(true, false)
      ensures ok ==> forall i :: 0 <= i < |outcomes| ==>
                if outcomes[i] == Outcome(true, true) && Clear(trackers[i], old(retired)[i])
                then old(retired)[i].0 !in files && old(retired)[i].0 !in rows
                else old(retired)[i] in retired
      ensures Same(s, old(files), old(rows), old(retired)) && Counted(trackers, readers) ==>
                && Entries(env, states, readers) && states[0] == s
                && Same(states[|states| - 1], files, rows, retired)
    {
      hide Leads, Same, Tracks, Entries;
      var queue := retired;
      ghost var clears := seq(|trackers|, j requires 0 <= j < |trackers| reads trackers => Clear(trackers[j], queue[j]));
      ok, states := Drain(trackers, outcomes, clears, readers, s, env);
    }

    /** The loop; `clears` says of each entry whether its tracker is clear. */
    method Drain(trackers: seq<ReadTracker>, outcomes: seq<Outcome>, ghost clears: seq<bool>,
                 ghost readers: seq<map<nat, Reader>>, ghost s: Sys, ghost env: Env)
      returns (ok: bool, ghost states: seq<Sys>)
      requires |outcomes| == |trackers| == |retired| == |clears|
      requires forall i :: 0 <= i < |trackers| ==> trackers[i].Valid() && clears[i] == Clear(trackers[i], retired[i])
      modifies this
      ensures Reclaimed(old(retired), retired, old(files), files, old(rows), rows, clears)
      ensures if ok then AllDecided(old(retired), |outcomes|, retired, files, rows, clears, outcomes)
              else exists i :: 0 <= i < |outcomes| && outcomes[i] == Outcome(true, false) && clears[i]
      ensures Same(s, old(files), old(rows), old(retired)) && Counted(trackers, readers) ==>
                && Entries(env, states, readers) && states[0] == s
                && Same(states[|states| - 1], files, rows, retired)
    {
      hide Along, Handled, Reclaimed, Same, Entries, Tracks, Clear, AllDecided;
      ghost var joined := Same(s, files, rows, retired) && Counted(trackers, readers);
      states := [s];
      AlongNone(joined, env, s, readers, files, rows, retired);
      var pending, keep, i := retired, [], 0;
      retired := [];
      QueueParts(keep, pending);
      NoneHandled(pending, files, rows, clears, outcomes);
      while i < |pending|
        invariant 0 <= i <= |pending| && retired == [] && |states| == i + 1
        invariant Along(joined, env, s, states, readers, files, rows, keep + pending[i..])
        invariant Handled(pending, i, keep, old(files), files, old(rows), rows, clears, outcomes)
      {
        var stop;
        stop, keep, states := DrainOne(trackers[i], outcomes, pending, i, keep, old(files), old(rows), clears, joined,
                                       s, states, readers, env);
        if stop {
          assert clears[i] && outcomes[i] == Outcome(true, false);
          AlongEnd(joined, env, s, states, readers, files, rows, keep + pending[i + 1..]);
          retired := keep + pending[i + 1..];
          return false, states;
        }
        i := i + 1;
      }
      HandledAll(pending, keep, old(files), files, old(rows), rows, clears, outcomes);
      QueueParts(keep, pending);
      AlongEnd(joined, env, s, states, readers, files, rows, keep);
      retired := keep;
      return true, states;
    }

    /** One entry of the queue; `stop` if its row could not be removed. */
    method DrainOne(tracker: ReadTracker, outcomes: seq<Outcome>, pending: seq<(nat, nat)>, i: nat, keep: seq<(nat, nat)>,
                    ghost files0: set<nat>, ghost rows0: map<nat, PackInfo>, ghost clears: seq<bool>, ghost joined: bool,
                    ghost s: Sys, ghost states: seq<Sys>, ghost readers: seq<map<nat, Reader>>, ghost env: Env)
      returns (stop: bool, keep': seq<(nat, nat)>, ghost states': seq<Sys>)
      requires i < |pending| == |outcomes| == |clears| && tracker.Valid() && clears[i] == Clear(tracker, pending[i])
      requires Handled(pending, i, keep, files0, files, rows0, rows, clears, outcomes)
      requires |states| == i + 1 && Along(joined, env, s, states, readers, files, rows, keep + pending[i..])
      requires joined ==> i < |readers| && Tracks(tracker.running, readers[i])
      modifies this`files, this`rows
      ensures |states'| == i + 2 && Along(joined, env, s, states', readers, files, rows, keep' + pending[i + 1..])
      ensures if stop
              then Reclaimed(pending, keep' + pending[i + 1..], files0, files, rows0, rows, clears)
                   && outcomes[i] == Outcome(true, false) && clears[i]
              else Handled(pending, i + 1, keep', files0, files, rows0, rows, clears, outcomes)
    {
      hide Along, Tracks, Handled, Reclaimed;
      var q := pending[i];
      ghost var rest := pending[i + 1..];
      assert keep + pending[i..] == keep + [q] + rest;
      stop, keep' := false, keep;
      var clear := tracker.IsClearBefore(q.1);
      if !clear || !outcomes[i].unlinked {
        HandledKeep(pending, i, keep, files0, files, rows0, rows, clears, outcomes);
        states' := AlongKept(joined, env, s, states, readers, files, rows, keep + [q] + rest);
        keep' := keep + [q];
        return;
      }
      stop := !outcomes[i].rowGone;
      states' := AlongMore(joined, env, s, states, readers, tracker.running, files, rows, keep, q, rest, !stop);
      if stop {
        HandledStop(pending, i, keep, files0, files, rows0, rows, clears, outcomes);
        files, keep' := files - {q.0}, keep + [q];
      } else {
        HandledGone(pending, i, keep, files0, files, rows0, rows, clears, outcomes);
        files, rows := files - {q.0}, rows - {q.0};
      }
    }
  }
}
