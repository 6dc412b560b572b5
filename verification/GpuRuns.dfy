/** The theorems about every run of the GPU encoder. */
module GpuRuns {
  import opened Base
  import opened Gpu
  import opened GpuProof

  /** The block is in one of these lists. */
  ghost predicate Among(slots: seq<Slot>, r: nat, i: nat) {
    exists x :: x in slots && x.req == r && x.i == i
  }

  ghost predicate InFlight(s: State, r: nat, i: nat) {
    exists k :: 0 <= k < |s.inflight| && Among(s.inflight[k], r, i)
  }

  ghost predicate BeingSettled(s: State, r: nat, i: nat) {
    exists k :: 0 <= k < |s.jobs| && Among(s.jobs[k].left, r, i)
  }

  lemma {:induction false} SumAmong(slots: seq<Slot>, r: nat, i: nat)
    ensures Sum(slots, Is(r, i)) > 0 <==> Among(slots, r, i)
  {
    if slots != [] {
      SumAmong(slots[1..], r, i);
      assert slots[0] in slots;
      if Among(slots, r, i) && !(slots[0].req == r && slots[0].i == i) {
        var x :| x in slots && x.req == r && x.i == i;
        assert x in slots[1..];
      }
    }
  }

  lemma {:induction false} SumFlight(batches: seq<seq<Slot>>, r: nat, i: nat)
    ensures SumB(batches, Is(r, i)) > 0 <==> exists k :: 0 <= k < |batches| && Among(batches[k], r, i)
  {
    hide Among;
    if batches != [] {
      SumAmong(batches[0], r, i);
      SumFlight(batches[1..], r, i);
      if SumB(batches[1..], Is(r, i)) > 0 {
        var k :| 0 <= k < |batches[1..]| && Among(batches[1..][k], r, i);
        assert Among(batches[k + 1], r, i);
      }
      if exists k :: 0 < k < |batches| && Among(batches[k], r, i) {
        var k :| 0 < k < |batches| && Among(batches[k], r, i);
        assert Among(batches[1..][k - 1], r, i);
      }
    }
  }

  lemma {:induction false} SumJobs(jobs: seq<Job>, r: nat, i: nat)
    ensures SumJ(jobs, Is(r, i)) > 0 <==> exists k :: 0 <= k < |jobs| && Among(jobs[k].left, r, i)
  {
    hide Among;
    if jobs != [] {
      SumAmong(jobs[0].left, r, i);
      SumJobs(jobs[1..], r, i);
      if SumJ(jobs[1..], Is(r, i)) > 0 {
        var k :| 0 <= k < |jobs[1..]| && Among(jobs[1..][k].left, r, i);
        assert Among(jobs[k + 1].left, r, i);
      }
      if exists k :: 0 < k < |jobs| && Among(jobs[k].left, r, i) {
        var k :| 0 < k < |jobs| && Among(jobs[k].left, r, i);
        assert Among(jobs[1..][k - 1].left, r, i);
      }
    }
  }

  /** No block is lost: one without a result is still with its writer, queued, in flight or being
      settled; and it is in no two of these. */
  lemma NoneLost(cfg: Config, run: seq<State>, events: seq<Event>, n: nat, r: nat, i: nat)
    requires Run(cfg, run, events) && n < |run| && r in run[n].reqs && i < |run[n].reqs[r].out|
    requires run[n].reqs[r].out[i] == Pending
    ensures var s := run[n];
            || i >= s.reqs[r].next
            || Among(s.queue, r, i) || InFlight(s, r, i) || BeingSettled(s, r, i)
    ensures Total(run[n], Is(r, i)) <= 1 && (i >= run[n].reqs[r].next ==> Total(run[n], Is(r, i)) == 0)
  {
    hide Among, Step;
    RunInv(cfg, run, events, n);
    var s := run[n];
    assert HeldOnce(s, r, i);
    if i >= s.reqs[r].next { NotHeld(s, r, i); }
    SumAmong(s.queue, r, i);
    SumFlight(s.inflight, r, i);
    SumJobs(s.jobs, r, i);
  }

  /** A frame is always the frame of that very block. */
  lemma FramesAreTheBlocks(cfg: Config, run: seq<State>, events: seq<Event>, n: nat, r: nat, i: nat)
    requires Run(cfg, run, events) && n < |run| && r in run[n].reqs && i < |run[n].reqs[r].out|
    requires run[n].reqs[r].out[i].Frame?
    ensures i < |run[n].reqs[r].blocks| && cfg.frameOf(run[n].reqs[r].blocks[i], run[n].reqs[r].out[i].frame)
  {
    hide Step, SlotsOk, Tracked, Counted, EngineOk;
    RunInv(cfg, run, events, n);
    assert ReqOk(cfg, run[n].reqs[r]);
  }

  /** The byte counter is exact and bounded, so none of its subtractions saturates. */
  lemma Backpressure(cfg: Config, run: seq<State>, events: seq<Event>, n: nat)
    requires Run(cfg, run, events) && n < |run|
    ensures run[n].bytes == Total(run[n], Size()) + Freed(run[n].jobs) <= cfg.maxInflight
    ensures n < |events| && events[n].Free? ==>
              run[n + 1].bytes == run[n].bytes - run[n].jobs[events[n].k].freed
  {
    hide Step, Total, ReqsOk, SlotsOk, Tracked, EngineOk, JobsOk;
    RunInv(cfg, run, events, n);
    if n < |events| && events[n].Free? { FreeExact(cfg, run[n], events[n].k, run[n + 1]); }
  }

  lemma FreeExact(cfg: Config, s: State, k: nat, s': State)
    requires Inv(cfg, s) && Step(cfg, s, Free(k), s')
    ensures s'.bytes == s.bytes - s.jobs[k].freed
  {
    hide Inv;
    FreeKeeps(cfg, s, k, s');
  }

  /** Once a failure or the shutdown has run its course, every block that left its writer has a result. */
  lemma AllSettled(cfg: Config, run: seq<State>, events: seq<Event>, n: nat, r: nat, i: nat)
    requires Run(cfg, run, events) && n < |run| && r in run[n].reqs && i < run[n].reqs[r].next && i < |run[n].reqs[r].out|
    requires run[n].queue == [] && run[n].inflight == [] && forall k :: 0 <= k < |run[n].jobs| ==> run[n].jobs[k].left == []
    ensures run[n].reqs[r].out[i] != Pending
  {
    hide Step;
    if run[n].reqs[r].out[i] == Pending { NoneLost(cfg, run, events, n, r, i); }
  }

  // ---- Settled at most once ----

  ghost predicate ResultsKept(reqs: map<nat, Request>, reqs': map<nat, Request>) {
    forall r :: r in reqs ==>
      && r in reqs' && reqs'[r].blocks == reqs[r].blocks && |reqs'[r].out| == |reqs[r].out|
      && forall i :: 0 <= i < |reqs[r].out| && reqs[r].out[i] != Pending ==> reqs'[r].out[i] == reqs[r].out[i]
  }

  lemma SettledKept(reqs: map<nat, Request>, reqs': map<nat, Request>, slots: seq<Slot>)
    requires SettledBy(reqs, reqs', slots)
    ensures ResultsKept(reqs, reqs')
  {
  }

  /** No step changes a result once it is there. */
  lemma StepKeepsResults(cfg: Config, s: State, e: Event, s': State)
    requires Inv(cfg, s) && Step(cfg, s, e, s')
    ensures ResultsKept(s.reqs, s'.reqs)
  {
    if e.Resolve? {
      hide ResultsKept, Step, Inv;
      ResolveSettles(cfg, s, e, s');
      assert e.k < |s.jobs| && s.jobs[e.k].left != [] by { ResolveHas(cfg, s, e, s'); }
      SettledKept(s.reqs, s'.reqs, [s.jobs[e.k].left[0]]);
    } else if e.Start? || e.Enqueue? || e.SettleOwn? || e.StallSettle? || e.Take? {
      hide Inv, SettleIn, Flatten, Len, Sub, Gone, DataOf;
      if e.SettleOwn? { OwnBlock(cfg, s, e.r); }
    } else {
      hide Inv, Step;
      MovesHold(cfg, s, e, s', 0, 0);
    }
  }

  lemma OwnBlock(cfg: Config, s: State, r: nat)
    requires Inv(cfg, s) && r in s.reqs && s.reqs[r].next < |s.reqs[r].out|
    ensures s.reqs[r].out[s.reqs[r].next] == Pending
  {
    hide SlotsOk, Tracked, Counted, EngineOk;
    assert ReqOk(cfg, s.reqs[r]);
  }

  lemma ResolveHas(cfg: Config, s: State, e: Event, s': State)
    requires Step(cfg, s, e, s') && e.Resolve?
    ensures e.k < |s.jobs| && s.jobs[e.k].left != []
  {
    hide SettleIn, Flatten, Len, Sub, Gone, DataOf;
  }

  lemma ResolveSettles(cfg: Config, s: State, e: Event, s': State)
    requires Inv(cfg, s) && Step(cfg, s, e, s') && e.Resolve?
    ensures SettledBy(s.reqs, s'.reqs, [s.jobs[e.k].left[0]])
    ensures forall r: nat, i: nat :: Total(s', Is(r, i)) == Total(s, Is(r, i)) - Sum([s.jobs[e.k].left[0]], Is(r, i))
  {
    hide ReqsOk, Tracked, Counted, EngineOk, Flatten, SettledBy, SettleIn, Total, Sum;
    var x := s.jobs[e.k].left[0];
    assert AllOk(s.reqs, s.jobs[e.k].left);
    NextIsRight(cfg, s, e.k);
    SettleOne(cfg, s.reqs, x, NextOutcome(s.jobs[e.k]));
    forall r: nat, i: nat ensures Total(s', Is(r, i)) == Total(s, Is(r, i)) - Sum([x], Is(r, i)) {
      ResolveTotal(s, e.k, s', Is(r, i));
    }
  }

  // ---- Results are never asked for twice, short of one race ----

  /** A block with a result is not held anywhere. */
  ghost predicate Exact(s: State) {
    forall r: nat, i: nat :: r in s.reqs && i < |s.reqs[r].out| && s.reqs[r].out[i] != Pending ==>
      Total(s, Is(r, i)) == 0
  }

  /** A writer that gives up on a stalled GPU does so while no failing thread holds one of its blocks. */
  ghost predicate Calm(s: State, e: Event) {
    e.StallSettle? ==> forall i: nat :: Total(s, Is(e.r, i)) == 0
  }

  lemma SettledExact(s: State, s': State, gone: seq<Slot>)
    requires Tracked(s) && Exact(s) && SettledBy(s.reqs, s'.reqs, gone)
    requires forall r: nat, i: nat :: Total(s', Is(r, i)) == Total(s, Is(r, i)) - Sum(gone, Is(r, i))
    ensures Exact(s')
  {
    hide Total, Sum;
    forall r: nat, i: nat | r in s'.reqs && i < |s'.reqs[r].out| && s'.reqs[r].out[i] != Pending
      ensures Total(s', Is(r, i)) == 0
    {
      assert HeldOnce(s, r, i);
    }
  }

  lemma MoveExact(s: State, s': State)
    requires Exact(s) && s'.reqs == s.reqs && forall r: nat, i: nat :: Total(s', Is(r, i)) == Total(s, Is(r, i))
    ensures Exact(s')
  {
    hide Total;
  }

  /** Steps that move blocks between queue, flight and jobs hold the same blocks. */
  lemma MovesHold(cfg: Config, s: State, e: Event, s': State, r: nat, i: nat)
    requires Inv(cfg, s) && Step(cfg, s, e, s')
    requires e.Fill? || e.Deliver? || e.WrongPop? || e.PutBack? || e.WrongFail? || e.Fail? || e.StallFail? || e.Quiet?
             || e.DrainInflight? || e.Free? || e.Shutdown? || e.Exit?
    ensures Total(s', Is(r, i)) == Total(s, Is(r, i)) && s'.reqs == s.reqs && s'.panicked == s.panicked
  {
    hide SettleIn, Resolved, Gone, Len, Sub, ReqsOk, SlotsOk, Tracked, Counted, EngineOk;
    var w := Is(r, i);
    if e.Fill? { FillTotal(s, e.n, s', w); }
    else if e.WrongPop? { DeliverTotal(s, Job(s.inflight[0], 0, Holding, None), s', w); }
    else if e.PutBack? { assert JobOk(cfg, s.jobs[e.k]); PutBackTotal(s, e.k, s', w); }
    else if e.WrongFail? { assert JobOk(cfg, s.jobs[e.k]); WrongFailTotal(s, e.k, s', w); }
    else if e.Fail? || e.StallFail? || e.Quiet? { NewJobTotal(s, s', w); }
    else if e.DrainInflight? { DrainTotal(s, e.k, s', w); }
    else if e.Free? { FreeTotal(s, e.k, s', w); }
    else if e.Deliver? && s.inflight != [] { DeliverTotal(s, Job(s.inflight[0], 0, Settling, Some(e.frames)), s', w); }
    else { SameTotal(s, s', w); }
  }

  lemma RequestExact(cfg: Config, s: State, r: nat, s': State)
    requires Exact(s) && s'.queue == s.queue && s'.inflight == s.inflight && s'.jobs == s.jobs
    requires r in s'.reqs && s'.reqs == s.reqs[r := s'.reqs[r]]
    requires forall i: nat :: i < |s'.reqs[r].out| && s'.reqs[r].out[i] != Pending ==>
               || Total(s, Is(r, i)) == 0 || (r in s.reqs && i < |s.reqs[r].out| && s.reqs[r].out[i] != Pending)
    ensures Exact(s')
  {
    hide Total;
    forall q: nat, i: nat | q in s'.reqs && i < |s'.reqs[q].out| && s'.reqs[q].out[i] != Pending
      ensures Total(s', Is(q, i)) == 0
    {
      SameTotal(s, s', Is(q, i));
    }
  }

  lemma WriterExact(cfg: Config, s: State, e: Event, s': State)
    requires Inv(cfg, s) && Exact(s) && Step(cfg, s, e, s') && Calm(s, e)
    requires e.Start? || e.SettleOwn? || e.StallSettle? || e.Take?
    ensures Exact(s') && s'.panicked == s.panicked
  {
    hide Total, Inv, Exact, SettleIn, Flatten, Len, Sub, Gone, DataOf;
    if e.SettleOwn? {
      assert Total(s, Is(e.r, s.reqs[e.r].next)) == 0 by { OwnNotHeld(cfg, s, e.r); }
    }
    RequestExact(cfg, s, e.r, s');
  }

  lemma OwnNotHeld(cfg: Config, s: State, r: nat)
    requires Inv(cfg, s) && r in s.reqs
    ensures Total(s, Is(r, s.reqs[r].next)) == 0
  {
    NotHeld(s, r, s.reqs[r].next);
  }

  lemma EnqueueExact(cfg: Config, s: State, e: Event, s': State)
    requires Inv(cfg, s) && Exact(s) && Step(cfg, s, e, s') && e.Enqueue?
    ensures Exact(s') && s'.panicked == s.panicked
  {
    hide Total, Inv, SettleIn, Flatten, Len, Sub, Gone, DataOf, Resolved;
    var q := s.reqs[e.r];
    var x := Slot(e.r, q.next, q.blocks[q.next]);
    forall r: nat, i: nat | r in s'.reqs && i < |s'.reqs[r].out| && s'.reqs[r].out[i] != Pending
      ensures Total(s', Is(r, i)) == 0
    {
      EnqueueTotal(s, s', x, Is(r, i));
      if (r, i) == (e.r, q.next) { OwnBlock(cfg, s, e.r); }
    }
  }

  lemma HeldIsThere(cfg: Config, s: State, slots: seq<Slot>, x: Slot)
    requires Inv(cfg, s) && Exact(s) && AllOk(s.reqs, slots) && x in slots
    requires Total(s, Is(x.req, x.i)) >= Sum(slots, Is(x.req, x.i))
    ensures !Gone(s.reqs, x)
  {
    hide Total, SlotsOk, Tracked, Counted, EngineOk;
    SumAmong(slots, x.req, x.i);
    var q := s.reqs[x.req];
    assert ReqOk(cfg, q);
    if q.taken { TakenNone(cfg, q); }
  }

  lemma ResolveExact(cfg: Config, s: State, e: Event, s': State)
    requires Inv(cfg, s) && Exact(s) && Step(cfg, s, e, s') && e.Resolve?
    ensures Exact(s') && s'.panicked == s.panicked
  {
    var left := s.jobs[e.k].left;
    ResolveSettles(cfg, s, e, s');
    SettledExact(s, s', [left[0]]);
    assert AllOk(s.reqs, left);
    SumJUpdate(s.jobs, e.k, s.jobs[e.k], Is(left[0].req, left[0].i));
    HeldIsThere(cfg, s, left, left[0]);
  }

  lemma StepExact(cfg: Config, s: State, e: Event, s': State)
    requires Inv(cfg, s) && Exact(s) && Step(cfg, s, e, s') && Calm(s, e)
    ensures Exact(s') && s'.panicked == s.panicked
  {
    hide Inv, Exact, Step, Calm, Total;
    if e.Resolve? { ResolveExact(cfg, s, e, s'); }
    else if e.Enqueue? { EnqueueExact(cfg, s, e, s'); }
    else if e.Start? || e.SettleOwn? || e.StallSettle? || e.Take? { WriterExact(cfg, s, e, s'); }
    else {
      forall r: nat, i: nat
        ensures Total(s', Is(r, i)) == Total(s, Is(r, i)) && s'.reqs == s.reqs && s'.panicked == s.panicked
      {
        MovesHold(cfg, s, e, s', r, i);
      }
      assert s'.reqs == s.reqs && s'.panicked == s.panicked by { MovesHold(cfg, s, e, s', 0, 0); }
      MoveExact(s, s');
    }
  }

  /** In every run in which stalled writers give up calmly, no result is set after it was taken. */
  lemma {:induction false} CalmRunsDoNotPanic(cfg: Config, run: seq<State>, events: seq<Event>, n: nat)
    requires Run(cfg, run, events) && n < |run|
    requires forall j :: 0 <= j < |events| ==> Calm(run[j], events[j])
    ensures Exact(run[n]) && !run[n].panicked
  {
    hide Step, Exact, Calm, Inv;
    if n == 0 { FreshExact(); }
    else {
      CalmRunsDoNotPanic(cfg, run, events, n - 1);
      RunInv(cfg, run, events, n - 1);
      assert Step(cfg, run[n - 1], events[n - 1], run[n]);
      StepExact(cfg, run[n - 1], events[n - 1], run[n]);
    }
  }

  lemma FreshExact()
    ensures Exact(Fresh())
  {
  }
}
