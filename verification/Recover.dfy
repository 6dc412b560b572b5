/** The first transaction after opening a store. */
module Recover {
  import opened Base
  import opened Ledger
  import opened System
  import opened Safety

  datatype Recovered = Recovered(db: Db, disk: Disk, resume: Option<nat>, seen: nat, next: nat, previous: nat)

  /** The rows once the packs in `done` have been dealt with and before any is sealed. */
  ghost predicate Reconciled(db: Db, disk: Disk, disk': Disk, packs': map<nat, PackInfo>, done: set<nat>) {
    && done <= db.packs.Keys && packs'.Keys <= db.packs.Keys
    && (forall p :: p in packs' ==> packs'[p] == db.packs[p])
    && (forall p :: p in db.packs && p !in done ==> p in packs')
    && (forall p :: p in done ==> (p in packs' <==> p in disk'))
  }

  /** Files only disappear, and only retired packs' or those without a row. */
  ghost predicate Swept(db: Db, disk: Disk, disk': Disk) {
    && (forall p :: p in disk' ==> p in disk && disk'[p] == disk[p])
    && (forall p :: p in disk && p !in disk' ==> RetiredIn(db, p))
  }

  /** Deals with one row: `None` if the pack has live bytes and no file. */
  method Reconcile(db: Db, disk: Disk, disk0: Disk, packs0: map<nat, PackInfo>, ghost done: set<nat>,
                   stuck: set<nat>, id: nat)
    returns (disk': Disk, packs': map<nat, PackInfo>, open: bool, missing: bool)
    requires Reconciled(db, disk, disk0, packs0, done) && Swept(db, disk, disk0) && id in db.packs && id !in done
    ensures missing ==> db.packs[id].live != 0 && db.packs[id].state != Retired && id !in disk
    ensures !missing ==> Reconciled(db, disk, disk', packs', done + {id}) && Swept(db, disk, disk')
    ensures !missing && db.packs[id].state == Retired ==> id !in disk' || id in stuck
    ensures !missing && id !in disk' && db.packs[id].state != Retired ==> db.packs[id].live == 0
    ensures disk'.Keys <= disk0.Keys && forall p :: p in disk0 && p != id ==> p in disk'
    ensures !missing ==> (open <==> db.packs[id].state == Active && id in disk')
  {
    disk', packs', open, missing := disk0, packs0, false, false;
    var info := db.packs[id];
    if info.state == Retired {
      if id !in stuck || id !in disk0 {
        disk', packs' := disk0 - {id}, packs0 - {id};
      }
      return;
    }
    if id !in disk {
      if info.live == 0 { packs' := packs0 - {id}; } else { missing := true; }
      return;
    }
    open := info.state == Active;
  }

  /** Where the loop over the `packs` table has got to. */
  ghost predicate Progress(db: Db, disk: Disk, stuck: set<nat>, cur: Disk, packs: map<nat, PackInfo>,
                           open: set<nat>, done: set<nat>) {
    && Reconciled(db, disk, cur, packs, done) && Swept(db, disk, cur)
    && (forall p :: p in disk && p !in cur ==> p in done)
    && (forall p :: p in done && db.packs[p].state == Retired ==> p !in cur || p in stuck)
    && (forall p :: p in done && p !in cur && db.packs[p].state != Retired ==> db.packs[p].live == 0)
    && (forall p :: p in open <==> p in done && db.packs[p].state == Active && p in cur)
  }

  method ReconcileAll(db: Db, disk: Disk, stuck: set<nat>)
    returns (cur: Disk, packs: map<nat, PackInfo>, open: set<nat>, missing: bool)
    ensures missing ==> PackMissing(db, disk)
    ensures !missing ==> Progress(db, disk, stuck, cur, packs, open, db.packs.Keys)
  {
    hide Reconciled, Swept, RetiredIn, Progress, PackMissing;
    cur, packs, open, missing := disk, db.packs, {}, false;
    ghost var done: set<nat> := {};
    ProgressStart(db, disk, stuck);
    var todo := db.packs.Keys;
    while todo != {}
      invariant todo + done == db.packs.Keys && todo !! done && !missing
      invariant Progress(db, disk, stuck, cur, packs, open, done)
      decreases |todo|
    {
      var id :| id in todo;
      assert id in db.packs && id !in done;
      ProgressParts(db, disk, stuck, cur, packs, open, done);
      var cur', packs', isOpen, gone := Reconcile(db, disk, cur, packs, done, stuck, id);
      if gone { missing := true; MissingHere(db, disk, id); return; }
      ghost var was := open;
      if isOpen { open := open + {id}; }
      ProgressStep(db, disk, stuck, cur, packs, was, done, cur', packs', open, id);
      todo, done, cur, packs := todo - {id}, done + {id}, cur', packs';
    }
    assert done == db.packs.Keys;
  }

  lemma ProgressStart(db: Db, disk: Disk, stuck: set<nat>)
    ensures Progress(db, disk, stuck, disk, db.packs, {}, {})
  {
  }

  lemma ProgressParts(db: Db, disk: Disk, stuck: set<nat>, cur: Disk, packs: map<nat, PackInfo>, open: set<nat>,
                      done: set<nat>)
    requires Progress(db, disk, stuck, cur, packs, open, done)
    ensures Reconciled(db, disk, cur, packs, done) && Swept(db, disk, cur)
  {
  }

  lemma MissingHere(db: Db, disk: Disk, id: nat)
    requires id in db.packs && id !in disk && db.packs[id].state != Retired && db.packs[id].live != 0
    ensures PackMissing(db, disk)
  {
  }

  lemma ProgressStep(db: Db, disk: Disk, stuck: set<nat>, cur: Disk, packs: map<nat, PackInfo>, open: set<nat>,
                     done: set<nat>, cur': Disk, packs': map<nat, PackInfo>, open': set<nat>, id: nat)
    requires Progress(db, disk, stuck, cur, packs, open, done) && id in db.packs && id !in done
    requires Reconciled(db, disk, cur', packs', done + {id}) && Swept(db, disk, cur')
    requires db.packs[id].state == Retired ==> id !in cur' || id in stuck
    requires id !in cur' && db.packs[id].state != Retired ==> db.packs[id].live == 0
    requires cur'.Keys <= cur.Keys && forall p :: p in cur && p != id ==> p in cur'
    requires open' == if db.packs[id].state == Active && id in cur' then open + {id} else open
    ensures Progress(db, disk, stuck, cur', packs', open', done + {id})
  {
    hide Reconciled, Swept;
  }

  /** `recover`: its error is that a pack with live bytes has no file; otherwise it is the recovery
      step of the store, after the deletions it could make. */
  method Recover(db: Db, disk: Disk, stuck: set<nat>) returns (r: Result<Recovered>)
    ensures r.Err? ==> PackMissing(db, disk)
    ensures r.Ok? ==> !PackMissing(db, r.value.disk) && Swept(db, disk, r.value.disk)
    ensures r.Ok? ==> forall p :: p in r.value.disk && RetiredIn(db, p) ==> p in stuck
    ensures r.Ok? ==> forall p :: p in db.packs || p in disk ==> p <= r.value.seen
    ensures r.Ok? ==> r.value.next == Max(db.nextPack, r.value.seen + 1) && r.value.previous == db.clean
    ensures r.Ok? ==> Resumes(OnDisk(db, r.value.disk), r.value.resume)
    ensures r.Ok? ==> r.value.db == db.(packs := RecoveredPacks(db, r.value.disk, r.value.resume), clean := 0)
  {
    hide PackMissing, Resumes, RecoveredPacks, Swept, Progress;
    var mid, packs, open, missing := ReconcileAll(db, disk, stuck);
    if missing { return Err(Corrupt); }
    var cur := map p | p in mid && (p in db.packs || p in stuck) :: mid[p];
    var resume, sealing := None, open;
    if db.clean != 0 && open != {} {
      ghost var top := Newest(open);
      var newest :| newest in open && forall q :: q in open ==> q <= newest;
      resume := Some(newest);
      sealing := open - {newest};
    }
    var seen := Highest(db.packs.Keys + disk.Keys);
    SweptOrphans(db, disk, stuck, mid, packs, open, cur);
    ResumeIs(db, disk, stuck, mid, packs, open, cur, resume);
    SealedIs(db, disk, stuck, mid, packs, open, cur, resume, sealing);
    packs := map p | p in packs :: if p in sealing then packs[p].(state := Sealed) else packs[p];
    r := Ok(Recovered(db.(packs := packs, clean := 0), cur, resume, seen, Max(db.nextPack, seen + 1), db.clean));
  }

  lemma SweptOrphans(db: Db, disk: Disk, stuck: set<nat>, mid: Disk, packs: map<nat, PackInfo>, open: set<nat>,
                     cur: Disk)
    requires Progress(db, disk, stuck, mid, packs, open, db.packs.Keys)
    requires cur == map p | p in mid && (p in db.packs || p in stuck) :: mid[p]
    ensures !PackMissing(db, cur) && Swept(db, disk, cur)
    ensures forall p :: p in cur && RetiredIn(db, p) ==> p in stuck
  {
  }

  lemma ResumeIs(db: Db, disk: Disk, stuck: set<nat>, mid: Disk, packs: map<nat, PackInfo>, open: set<nat>,
                 cur: Disk, resume: Option<nat>)
    requires Progress(db, disk, stuck, mid, packs, open, db.packs.Keys)
    requires cur == map p | p in mid && (p in db.packs || p in stuck) :: mid[p]
    requires if db.clean != 0 && open != {} then
               resume.Some? && resume.value in open && forall q :: q in open ==> q <= resume.value
             else resume.None?
    ensures Resumes(OnDisk(db, cur), resume)
  {
    hide Reconciled, Swept;
  }

  lemma SealedIs(db: Db, disk: Disk, stuck: set<nat>, mid: Disk, packs: map<nat, PackInfo>, open: set<nat>,
                 cur: Disk, resume: Option<nat>, sealing: set<nat>)
    requires Progress(db, disk, stuck, mid, packs, open, db.packs.Keys)
    requires cur == map p | p in mid && (p in db.packs || p in stuck) :: mid[p]
    requires sealing == if resume.Some? then open - {resume.value} else open
    ensures (map p | p in packs :: if p in sealing then packs[p].(state := Sealed) else packs[p])
            == RecoveredPacks(db, cur, resume)
  {
    hide Swept;
    var a := map p | p in packs :: if p in sealing then packs[p].(state := Sealed) else packs[p];
    var b := RecoveredPacks(db, cur, resume);
    assert forall p :: p in packs <==> p in db.packs && p in cur;
    assert a.Keys == b.Keys;
  }

  lemma Newest(a: set<nat>) returns (n: nat)
    requires a != {}
    ensures n in a && forall p :: p in a ==> p <= n
    decreases a
  {
    n :| n in a;
    var rest := a - {n};
    if rest == {} { assert a == {n}; }
    else {
      var m := Newest(rest);
      forall p | p in a ensures p <= Max(m, n) { assert p == n || p in rest; }
      n := Max(m, n);
    }
  }

  /** The largest id seen, 0 if there is none. */
  method Highest(a: set<nat>) returns (n: nat)
    ensures forall p :: p in a ==> p <= n
    ensures n == 0 || n in a
  {
    n := 0;
    var rest := a;
    while rest != {}
      invariant rest <= a && (n == 0 || n in a)
      invariant forall p :: p in a && p !in rest ==> p <= n
      decreases |rest|
    {
      var x :| x in rest;
      rest := rest - {x};
      n := Max(n, x);
    }
  }
}
