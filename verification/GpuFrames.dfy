/** Which blocks get a frame: every block of a delivered batch, by its place in the batch. */
module GpuFrames {
  import opened Base
  import opened Gpu
  import opened GpuProof
  import opened GpuRuns

  // ---- Without a failure no block is left to the CPU ----

  /** Nothing fails, shuts down for good or gives up. */
  predicate Smooth(e: Event) {
    !e.Fail? && !e.StallFail? && !e.WrongPop? && !e.Quiet? && !e.SettleOwn? && !e.StallSettle?
  }

  ghost predicate NoneForCpu(reqs: map<nat, Request>) {
    forall r, i :: r in reqs && 0 <= i < |reqs[r].out| ==> reqs[r].out[i] != Cpu
  }

  ghost predicate AllDeliver(jobs: seq<Job>) { forall k :: 0 <= k < |jobs| ==> jobs[k].frames.Some? }

  lemma AllSettling(cfg: Config, s: State)
    requires JobsOk(cfg, s.jobs) && AllDeliver(s.jobs)
    ensures forall k :: 0 <= k < |s.jobs| ==> s.jobs[k].phase == Settling && |s.jobs[k].frames.value| == |s.jobs[k].left|
  {
    forall k | 0 <= k < |s.jobs|
      ensures s.jobs[k].phase == Settling && |s.jobs[k].frames.value| == |s.jobs[k].left|
    {
      assert JobOk(cfg, s.jobs[k]);
    }
  }

  lemma StepSmooth(cfg: Config, s: State, e: Event, s': State)
    requires JobsOk(cfg, s.jobs) && AllDeliver(s.jobs) && NoneForCpu(s.reqs) && Step(cfg, s, e, s') && Smooth(e)
    ensures AllDeliver(s'.jobs) && NoneForCpu(s'.reqs)
  {
    hide JobsOk, Step;
    AllSettling(cfg, s);
    if e.Start? || e.Enqueue? || e.Take? || e.Fill? || e.Shutdown? || e.Exit? { QuietSmooth(cfg, s, e, s'); }
    else if e.Resolve? { ResolveSmooth(cfg, s, e, s'); }
    else { JobSmooth(cfg, s, e, s'); }
  }

  lemma QuietSmooth(cfg: Config, s: State, e: Event, s': State)
    requires NoneForCpu(s.reqs) && Step(cfg, s, e, s')
    requires e.Start? || e.Enqueue? || e.Take? || e.Fill? || e.Shutdown? || e.Exit?
    ensures s'.jobs == s.jobs && NoneForCpu(s'.reqs)
  {
    hide FramesFor, DataOf, Flatten, Sub, Delivered, SettleIn, Gone, Resolved;
  }

  lemma ResolveSmooth(cfg: Config, s: State, e: Event, s': State)
    requires AllDeliver(s.jobs) && NoneForCpu(s.reqs) && Step(cfg, s, e, s') && e.Resolve?
    requires forall k :: 0 <= k < |s.jobs| ==> |s.jobs[k].frames.value| == |s.jobs[k].left|
    ensures AllDeliver(s'.jobs) && NoneForCpu(s'.reqs)
  {
    hide FramesFor, DataOf, Flatten, Sub, Delivered;
  }

  lemma JobSmooth(cfg: Config, s: State, e: Event, s': State)
    requires AllDeliver(s.jobs) && Step(cfg, s, e, s') && forall k :: 0 <= k < |s.jobs| ==> s.jobs[k].phase == Settling
    requires e.Deliver? || e.PutBack? || e.WrongFail? || e.DrainInflight? || e.Free?
    ensures AllDeliver(s'.jobs) && s'.reqs == s.reqs
  {
    hide FramesFor, DataOf, Flatten, Sub, Delivered, SettleIn, Gone, Resolved;
  }

  /** In every run without failures, shutdown and writers that give up, every result is a frame. */
  lemma {:induction false} SmoothRunsUseFrames(cfg: Config, run: seq<State>, events: seq<Event>, n: nat)
    requires Run(cfg, run, events) && n < |run| && forall j :: 0 <= j < |events| ==> Smooth(events[j])
    ensures AllDeliver(run[n].jobs) && NoneForCpu(run[n].reqs)
  {
    hide Step, Smooth, AllDeliver, NoneForCpu, Inv;
    if n == 0 { FreshSmooth(); }
    else {
      SmoothRunsUseFrames(cfg, run, events, n - 1);
      RunInv(cfg, run, events, n - 1);
      assert JobsOk(cfg, run[n - 1].jobs) by { InvJobs(cfg, run[n - 1]); }
      StepSmooth(cfg, run[n - 1], events[n - 1], run[n]);
    }
  }

  lemma FreshSmooth()
    ensures AllDeliver(Fresh().jobs) && NoneForCpu(Fresh().reqs)
  {
  }

  lemma InvJobs(cfg: Config, s: State)
    requires Inv(cfg, s)
    ensures JobsOk(cfg, s.jobs)
  {
  }

  // ---- A delivery settles its batch in order ----

  /** Job `k` has settled the first `d` blocks of the batch and has the frames of the others. */
  ghost predicate At(s: State, k: nat, batch: seq<Slot>, frames: seq<bytes>, d: nat) {
    && k < |s.jobs| && d <= |batch| == |frames|
    && s.jobs[k].left == batch[d..] && s.jobs[k].frames == Some(frames[d..]) && s.jobs[k].phase == Settling
  }

  lemma DeliverAt(cfg: Config, s: State, frames: seq<bytes>, s': State)
    requires Step(cfg, s, Deliver(frames), s') && s.inflight != []
    ensures At(s', |s.jobs|, s.inflight[0], frames, 0)
  {
    hide FramesFor, Delivered;
  }

  lemma StepAt(cfg: Config, s: State, e: Event, s': State, k: nat, batch: seq<Slot>, frames: seq<bytes>, d: nat)
    requires Step(cfg, s, e, s') && At(s, k, batch, frames, d)
    ensures At(s', k, batch, frames, if e == Resolve(k) then d + 1 else d)
  {
    hide Step, At;
    if e == Resolve(k) { ResolveMoves(cfg, s, s', k, batch, frames, d); }
    else { OthersLeave(cfg, s, e, s', k, batch, frames, d); }
  }

  lemma ResolveMoves(cfg: Config, s: State, s': State, k: nat, batch: seq<Slot>, frames: seq<bytes>, d: nat)
    requires Step(cfg, s, Resolve(k), s') && At(s, k, batch, frames, d)
    ensures At(s', k, batch, frames, d + 1)
  {
    hide FramesFor, Delivered, DataOf, Flatten, Sub, SettleIn, Gone, Resolved;
    assert d < |batch| && batch[d..][1..] == batch[d + 1..] && frames[d..][1..] == frames[d + 1..];
  }

  /** No other step touches what a thread that settles still holds. */
  lemma OthersLeave(cfg: Config, s: State, e: Event, s': State, k: nat, batch: seq<Slot>, frames: seq<bytes>, d: nat)
    requires Step(cfg, s, e, s') && At(s, k, batch, frames, d) && e != Resolve(k)
    ensures At(s', k, batch, frames, d)
  {
    hide Step;
    if e.Resolve? || e.Free? || e.DrainInflight? || e.PutBack? || e.WrongFail? { OwnJobOnly(cfg, s, e, s'); }
    else { JobsStay(cfg, s, e, s'); }
  }

  lemma OwnJobOnly(cfg: Config, s: State, e: Event, s': State)
    requires Step(cfg, s, e, s') && (e.Resolve? || e.Free? || e.DrainInflight? || e.PutBack? || e.WrongFail?)
    ensures |s'.jobs| == |s.jobs| && e.k < |s.jobs| && forall k :: 0 <= k < |s.jobs| && k != e.k ==> s'.jobs[k] == s.jobs[k]
    ensures e.Free? ==> s'.jobs[e.k] == s.jobs[e.k].(freed := 0)
    ensures e.DrainInflight? || e.PutBack? || e.WrongFail? ==> s.jobs[e.k].phase != Settling
  {
    hide FramesFor, Delivered, DataOf, Flatten, Sub, SettleIn, Gone, Resolved, NextOutcome, Advanced;
  }

  lemma JobsStay(cfg: Config, s: State, e: Event, s': State)
    requires Step(cfg, s, e, s') && !e.Resolve? && !e.Free? && !e.DrainInflight? && !e.PutBack? && !e.WrongFail?
    ensures |s.jobs| <= |s'.jobs| && forall k :: 0 <= k < |s.jobs| ==> s'.jobs[k] == s.jobs[k]
  {
    hide FramesFor, Delivered, DataOf, Flatten, Sub, SettleIn, Gone, Resolved, NextOutcome, Advanced;
  }

  /** How many blocks job `k` settles from state `n` to state `j`. */
  ghost function Turns(events: seq<Event>, k: nat, n: nat, j: nat): nat
    requires n <= j <= |events|
  {
    if j == n then 0 else Turns(events, k, n, j - 1) + (if events[j - 1] == Resolve(k) then 1 else 0)
  }

  /** In every run, whatever else happens: after a batch was delivered, its thread settles the blocks in the
      batch's order, each with the frame at its place. */
  lemma {:induction false} DeliveredInOrder(cfg: Config, run: seq<State>, events: seq<Event>, n: nat,
                                            frames: seq<bytes>, j: nat)
    requires Run(cfg, run, events) && n < j <= |events| && events[n] == Deliver(frames) && run[n].inflight != []
    ensures At(run[j], |run[n].jobs|, run[n].inflight[0], frames, Turns(events, |run[n].jobs|, n + 1, j))
  {
    hide Step, At;
    assert Step(cfg, run[n], events[n], run[n + 1]);
    if j == n + 1 { DeliverAt(cfg, run[n], frames, run[j]); }
    else {
      var k := |run[n].jobs|;
      DeliveredInOrder(cfg, run, events, n, frames, j - 1);
      StepAt(cfg, run[j - 1], events[j - 1], run[j], k, run[n].inflight[0], frames, Turns(events, k, n + 1, j - 1));
    }
  }

  ghost predicate HasResult(s: State, x: Slot, o: Outcome) {
    x.req in s.reqs && x.i < |s.reqs[x.req].out| && s.reqs[x.req].out[x.i] == o
  }

  lemma ResolveAt(cfg: Config, s: State, s': State, k: nat, batch: seq<Slot>, frames: seq<bytes>, d: nat)
    requires Inv(cfg, s) && Step(cfg, s, Resolve(k), s') && At(s, k, batch, frames, d) && d < |batch|
    requires HasResult(s, batch[d], Pending)
    ensures HasResult(s', batch[d], Frame(frames[d]))
  {
    hide SlotsOk, Tracked, Counted, EngineOk, JobsOk, FramesFor, Delivered, DataOf, Flatten, Sub;
    var x := batch[d];
    assert ReqOk(cfg, s.reqs[x.req]);
    if s.reqs[x.req].taken { TakenNone(cfg, s.reqs[x.req]); }
  }

  /** When the turn of block `m` of a delivered batch comes and it has no result yet, it gets frame `m`. */
  lemma DeliveredGetsFrame(cfg: Config, run: seq<State>, events: seq<Event>, n: nat, frames: seq<bytes>, j: nat)
    requires Run(cfg, run, events) && n < j < |events| && events[n] == Deliver(frames) && run[n].inflight != []
    requires events[j] == Resolve(|run[n].jobs|)
    ensures var m := Turns(events, |run[n].jobs|, n + 1, j);
            && m < |run[n].inflight[0]| == |frames|
            && var x := run[n].inflight[0][m];
               HasResult(run[j], x, Pending) ==> HasResult(run[j + 1], x, Frame(frames[m]))
  {
    hide Step, Inv, HasResult;
    var k, batch := |run[n].jobs|, run[n].inflight[0];
    var m := Turns(events, k, n + 1, j);
    DeliveredInOrder(cfg, run, events, n, frames, j);
    RunInv(cfg, run, events, j);
    assert Step(cfg, run[j], events[j], run[j + 1]);
    ResolveHas(cfg, run[j], events[j], run[j + 1]);
    if HasResult(run[j], batch[m], Pending) { ResolveAt(cfg, run[j], run[j + 1], k, batch, frames, m); }
  }

  /** If writers give up calmly, every block the thread has passed has its frame, and keeps it. */
  lemma {:induction false} DeliveredKeepFrames(cfg: Config, run: seq<State>, events: seq<Event>, n: nat, frames: seq<bytes>,
                                               j: nat, m: nat)
    requires Run(cfg, run, events) && forall i :: 0 <= i < |events| ==> Calm(run[i], events[i])
    requires n < j <= |events| && events[n] == Deliver(frames) && run[n].inflight != []
    requires m < Turns(events, |run[n].jobs|, n + 1, j)
    ensures m < |run[n].inflight[0]| == |frames| && HasResult(run[j], run[n].inflight[0][m], Frame(frames[m]))
  {
    hide Step, Inv, HasResult, Calm, Exact;
    var k, batch := |run[n].jobs|, run[n].inflight[0];
    var before := Turns(events, k, n + 1, j - 1);
    assert Step(cfg, run[j - 1], events[j - 1], run[j]);
    RunInv(cfg, run, events, j - 1);
    if m < before {
      DeliveredKeepFrames(cfg, run, events, n, frames, j - 1, m);
      StepKeepsResults(cfg, run[j - 1], events[j - 1], run[j]);
      ResultStays(run[j - 1], run[j], batch[m], Frame(frames[m]));
    } else {
      DeliveredInOrder(cfg, run, events, n, frames, j - 1);
      DeliveredGetsFrame(cfg, run, events, n, frames, j - 1);
      CalmRunsDoNotPanic(cfg, run, events, j - 1);
      HeldIsPending(cfg, run[j - 1], k);
    }
  }

  lemma ResultStays(s: State, s': State, x: Slot, o: Outcome)
    requires ResultsKept(s.reqs, s'.reqs) && HasResult(s, x, o) && o != Pending
    ensures HasResult(s', x, o)
  {
  }

  /** The next block of a thread has no result, in a calm run. */
  lemma HeldIsPending(cfg: Config, s: State, k: nat)
    requires Inv(cfg, s) && Exact(s) && k < |s.jobs| && s.jobs[k].left != []
    ensures HasResult(s, s.jobs[k].left[0], Pending)
  {
    hide Total, Tracked, Counted, EngineOk, JobsOk;
    var left := s.jobs[k].left;
    var x := left[0];
    assert AllOk(s.reqs, left);
    assert x in left && SlotOk(s.reqs, x);
    assert ReqOk(cfg, s.reqs[x.req]);
    SumJUpdate(s.jobs, k, s.jobs[k], Is(x.req, x.i));
    SumAmong(left, x.req, x.i);
    JobsWeigh(s, x.req, x.i);
  }

  lemma JobsWeigh(s: State, r: nat, i: nat)
    ensures Total(s, Is(r, i)) >= SumJ(s.jobs, Is(r, i))
  {
  }

  // ---- Such runs exist ----

  /** The states of that run: started, queued, on the GPU, delivered, settled, freed, taken. */
  function OneBlock(block: bytes, frame: bytes): (r: seq<State>)
    ensures |r| == 8
  {
    var x, start := Slot(0, 0, block), Request([block], [Pending], 1, 0, false);
    var s0 := Fresh();
    var s1 := s0.(reqs := map[0 := start]);
    var s2 := s1.(queue := [x], bytes := |block|, reqs := map[0 := start.(next := 1)]);
    var s3 := s2.(queue := [], inflight := [[x]], engine := [[block]]);
    var s4 := s3.(inflight := [], engine := [], delivering := Some(0), jobs := [Job([x], 0, Settling, Some([frame]))]);
    var done := start.(next := 1, out := [Frame(frame)], left := 0);
    var s5 := s4.(reqs := map[0 := done], jobs := [Job([], |block|, Settling, Some([]))]);
    var s6 := s5.(bytes := 0, jobs := [Job([], 0, Settling, Some([]))]);
    [s0, s1, s2, s3, s4, s5, s6, s6.(reqs := map[0 := done.(taken := true)])]
  }

  lemma OneBlockDelivered(cfg: Config, block: bytes, frame: bytes)
    requires |block| <= 65536 && cfg.frameOf(block, frame)
    ensures var r := OneBlock(block, frame);
            && Step(cfg, r[0], Start(0, [block]), r[1]) && Step(cfg, r[1], Enqueue(0), r[2])
            && Step(cfg, r[2], Fill(1), r[3]) && Step(cfg, r[3], Deliver([frame]), r[4])
  {
    hide Flatten, Sum;
    var r := OneBlock(block, frame);
    assert Step(cfg, r[0], Start(0, [block]), r[1]) by { assert seq(1, _ => Pending) == [Pending]; }
    assert Step(cfg, r[2], Fill(1), r[3]) by {
      assert r[2].queue[..1] == r[2].queue && DataOf(r[2].queue) == [block];
    }
  }

  lemma OneBlockTaken(cfg: Config, block: bytes, frame: bytes)
    ensures var r := OneBlock(block, frame);
            && Step(cfg, r[4], Resolve(0), r[5]) && Step(cfg, r[5], Free(0), r[6]) && Step(cfg, r[6], Take(0), r[7])
  {
    hide Flatten, Sum;
    var r := OneBlock(block, frame);
    assert Step(cfg, r[4], Resolve(0), r[5]) by {
      var job, x := r[4].jobs[0], Slot(0, 0, block);
      ResolvedFirst(r[4].reqs[0], frame);
      assert job.left[1..] == [] && job.frames.value[1..] == [];
      assert SettleIn(r[4].reqs, x, Frame(frame)) == r[5].reqs;
    }
  }

  /** A run from the start in which a writer hands over a block and gets its frame. */
  lemma OneBlockEncoded(cfg: Config, block: bytes, frame: bytes) returns (run: seq<State>, events: seq<Event>)
    requires cfg.maxInflight >= 65536 >= |block| && cfg.frameOf(block, frame)
    ensures Run(cfg, run, events) && |events| == 7 && forall j :: 0 <= j < 7 ==> Smooth(events[j])
    ensures run[7].bytes == 0 && 0 in run[7].reqs && run[7].reqs[0].taken && run[7].reqs[0].out == [Frame(frame)]
  {
    hide Step;
    OneBlockDelivered(cfg, block, frame);
    OneBlockTaken(cfg, block, frame);
    run := OneBlock(block, frame);
    events := [Start(0, [block]), Enqueue(0), Fill(1), Deliver([frame]), Resolve(0), Free(0), Take(0)];
  }

  lemma ResolvedFirst(q: Request, frame: bytes)
    requires q.out == [Pending] && q.left == 1
    ensures Resolved(q, 0, Frame(frame)) == q.(out := [Frame(frame)], left := 0)
  {
  }
}
