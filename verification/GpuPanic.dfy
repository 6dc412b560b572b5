/** Exactly when a writer that gives up on a stalled GPU can make a failing thread panic. */
module GpuPanic {
  import opened Base
  import opened Gpu
  import opened GpuProof
  import opened GpuRuns

  // ---- After a failure nothing is queued ----

  /** Nothing is in flight, but for a batch that a delivery has put back and is about to drain. */
  ghost predicate Cleared(s: State) { s.inflight == [] || Clearing(s) }

  /** A failed encoder queues nothing, and once a writer's own failure has drained the batches in
      flight there are none again, but for one that was put back. */
  ghost predicate Off(s: State) {
    && (s.failed ==> s.queue == [])
    && forall r :: r in s.own ==> s.failed && s.own[r] < |s.jobs| && (s.jobs[s.own[r]].phase == Settling ==> Cleared(s))
  }

  /** What a step may do to the flags, the queue, the flight and the list of jobs. */
  ghost predicate Shape(s: State, e: Event, s': State) {
    && (s.failed ==> s'.failed && |s'.queue| <= |s.queue| && (Cleared(s) ==> Cleared(s')))
    && (!s.failed && s'.failed ==> s'.queue == [])
    && |s.jobs| <= |s'.jobs|
    && (forall k :: 0 <= k < |s.jobs| && s'.jobs[k].phase == Settling && s.jobs[k].phase != Settling ==> s'.inflight == [])
    && (s'.own == s.own || (e.StallFail? && s'.own == s.own[e.r := |s.jobs|]
                            && s'.failed && |s'.jobs| == |s.jobs| + 1 && s'.jobs[|s.jobs|].phase == Draining))
  }

  predicate ByWriter(e: Event) {
    e.Start? || e.Enqueue? || e.SettleOwn? || e.StallSettle? || e.Take? || e.Shutdown? || e.Exit?
  }

  lemma WriterShape(cfg: Config, s: State, e: Event, s': State)
    requires Step(cfg, s, e, s') && ByWriter(e)
    ensures Shape(s, e, s')
  {
    hide SettleIn, Resolved, Gone, Len, Sub, Flatten, FramesFor, DataOf, Delivered, JobDone, Shape;
    match e
    case Start(_, _) => SameShape(s, e, s');
    case Enqueue(_) => SameShape(s, e, s');
    case SettleOwn(_) => SameShape(s, e, s');
    case StallSettle(_) => SameShape(s, e, s');
    case Take(_) => SameShape(s, e, s');
    case Shutdown => SameShape(s, e, s');
    case Exit => SameShape(s, e, s');
  }

  lemma SameShape(s: State, e: Event, s': State)
    requires s'.jobs == s.jobs && s'.inflight == s.inflight && s'.own == s.own && s'.failed == s.failed
    requires s'.delivering == s.delivering
    requires s.failed ==> s'.queue == s.queue
    ensures Shape(s, e, s')
  {
  }

  predicate ByBatcher(e: Event) { e.Fill? || e.Deliver? || e.WrongPop? || e.PutBack? || e.WrongFail? }

  lemma BatcherShape(cfg: Config, s: State, e: Event, s': State)
    requires EngineOk(s) && Step(cfg, s, e, s') && ByBatcher(e)
    ensures Shape(s, e, s')
  {
    hide SettleIn, Resolved, Gone, Len, Sub, Flatten, FramesFor, DataOf, Aligned;
  }

  lemma JobShape(cfg: Config, s: State, e: Event, s': State)
    requires EngineOk(s) && Step(cfg, s, e, s') && !ByWriter(e) && !ByBatcher(e)
    ensures Shape(s, e, s')
  {
    hide SettleIn, Resolved, Gone, Len, Sub, Flatten, FramesFor, DataOf, Delivered, JobDone;
  }

  lemma StepOff(cfg: Config, s: State, e: Event, s': State)
    requires Off(s) && EngineOk(s) && Step(cfg, s, e, s')
    ensures Off(s')
  {
    hide Step, EngineOk, Cleared;
    if ByWriter(e) { WriterShape(cfg, s, e, s'); }
    else if ByBatcher(e) { BatcherShape(cfg, s, e, s'); }
    else { JobShape(cfg, s, e, s'); }
    forall r | r in s'.own
      ensures s'.failed && s'.own[r] < |s'.jobs| && (s'.jobs[s'.own[r]].phase == Settling ==> Cleared(s'))
    {
      if s'.own != s.own && r == e.r { assert s'.own[r] == |s.jobs|; }
      else if s.jobs[s.own[r]].phase != Settling { EmptyCleared(s'); }
    }
  }

  lemma EmptyCleared(s: State)
    ensures s.inflight == [] ==> Cleared(s)
  {
  }

  lemma {:induction false} RunOff(cfg: Config, run: seq<State>, events: seq<Event>, n: nat)
    requires Run(cfg, run, events) && n < |run|
    ensures Off(run[n])
  {
    hide Step, Inv;
    if n > 0 {
      RunOff(cfg, run, events, n - 1);
      RunInv(cfg, run, events, n - 1);
      assert EngineOk(run[n - 1]) by { InvEngine(cfg, run[n - 1]); }
      StepOff(cfg, run[n - 1], events[n - 1], run[n]);
    }
  }

  lemma InvEngine(cfg: Config, s: State)
    requires Inv(cfg, s)
    ensures EngineOk(s) && JobsOk(cfg, s.jobs)
  {
  }

  // ---- Runs from any state ----

  ghost predicate Steps(cfg: Config, run: seq<State>, events: seq<Event>) {
    |run| == |events| + 1 && forall i :: 0 <= i < |events| ==> Step(cfg, run[i], events[i], run[i + 1])
  }

  /** A continuation from `s` that starts with the writer settling its blocks, in which no other writer
      gives up while its blocks are held, and that ends in a panic. */
  ghost predicate Panics(cfg: Config, s: State, r: nat, run: seq<State>, events: seq<Event>) {
    && Steps(cfg, run, events) && |events| > 0 && run[0] == s && events[0] == StallSettle(r)
    && (forall j :: 1 <= j < |events| ==> Calm(run[j], events[j]))
    && run[|events|].panicked
  }

  ghost predicate CanPanic(cfg: Config, s: State, r: nat) {
    exists run, events :: Panics(cfg, s, r, run, events)
  }

  lemma StepsThen(cfg: Config, run: seq<State>, events: seq<Event>, e: Event, s': State)
    requires Steps(cfg, run, events) && Step(cfg, run[|events|], e, s')
    ensures Steps(cfg, run + [s'], events + [e])
  {
    hide Step;
    var run', events' := run + [s'], events + [e];
    forall i | 0 <= i < |events'| ensures Step(cfg, run'[i], events'[i], run'[i + 1]) {
      if i < |events| { assert run'[i] == run[i] && run'[i + 1] == run[i + 1]; }
    }
  }

  // ---- A held block of a writer whose results were taken ----

  function AfterResolve(s: State, k: nat): State
    requires k < |s.jobs| && s.jobs[k].left != []
  {
    var j, x := s.jobs[k], s.jobs[k].left[0];
    s.(reqs := SettleIn(s.reqs, x, NextOutcome(j)), panicked := s.panicked || Gone(s.reqs, x),
       jobs := s.jobs[k := Advanced(j)])
  }

  lemma ResolveStep(cfg: Config, s: State, k: nat)
    requires k < |s.jobs| && s.jobs[k].phase == Settling && s.jobs[k].left != []
    ensures Step(cfg, s, Resolve(k), AfterResolve(s, k))
  {
    hide SettleIn, Gone, Resolved, Flatten;
  }

  lemma TakenStays(s: State, k: nat, r: nat)
    requires k < |s.jobs| && s.jobs[k].left != [] && r in s.reqs && s.reqs[r].taken
    ensures r in AfterResolve(s, k).reqs && AfterResolve(s, k).reqs[r].taken
  {
  }

  /** The thread works through its list until it reaches the block whose result is gone. */
  lemma {:induction false} ReachBlock(cfg: Config, run: seq<State>, events: seq<Event>, r: nat, k: nat, p: nat)
    returns (run': seq<State>, events': seq<Event>)
    requires Steps(cfg, run, events)
    requires var s := run[|events|];
             && r in s.reqs && s.reqs[r].taken && k < |s.jobs| && s.jobs[k].phase == Settling
             && p < |s.jobs[k].left| && s.jobs[k].left[p].req == r
    ensures Steps(cfg, run', events') && run <= run' && events <= events' && run'[|events'|].panicked
    ensures forall i :: |events| <= i < |events'| ==> events'[i].Resolve?
    decreases p
  {
    hide Step, SettleIn, Resolved;
    var s := run[|events|];
    var s' := AfterResolve(s, k);
    ResolveStep(cfg, s, k);
    StepsThen(cfg, run, events, Resolve(k), s');
    run', events' := run + [s'], events + [Resolve(k)];
    if p > 0 {
      TakenStays(s, k, r);
      run', events' := ReachBlock(cfg, run', events', r, k, p - 1);
    }
  }

  /** A block that is held when nothing is queued or in flight is on the list of some thread. */
  lemma HeldByThread(s: State, r: nat, i: nat) returns (k: nat, p: nat)
    requires s.queue == [] && s.inflight == [] && Total(s, Is(r, i)) > 0
    ensures k < |s.jobs| && p < |s.jobs[k].left| && s.jobs[k].left[p].req == r
  {
    assert SumJ(s.jobs, Is(r, i)) > 0;
    SumJobs(s.jobs, r, i);
    k :| 0 <= k < |s.jobs| && Among(s.jobs[k].left, r, i);
    var x :| x in s.jobs[k].left && x.req == r && x.i == i;
    p :| 0 <= p < |s.jobs[k].left| && s.jobs[k].left[p] == x;
  }

  /** What the writer's own settling makes of the state, and the taking of its results after it. */
  function AfterGivingUp(s: State, r: nat): State
    requires r in s.reqs
  {
    var q := s.reqs[r];
    s.(reqs := s.reqs[r := q.(
                 out := seq(|q.out|, i requires 0 <= i < |q.out| => if q.out[i] == Pending then Cpu else q.out[i]),
                 left := 0)])
  }

  function AfterTaking(s: State, r: nat): State
    requires r in s.reqs
  {
    s.(reqs := s.reqs[r := s.reqs[r].(taken := true)])
  }

  ghost predicate GivesUp(s: State, r: nat) {
    && r in s.reqs && s.reqs[r].next == |s.reqs[r].blocks| && !s.reqs[r].taken
    && r in s.own && s.own[r] < |s.jobs| && JobDone(s.jobs[s.own[r]])
  }

  lemma GivingUpSteps(cfg: Config, s: State, r: nat)
    requires GivesUp(s, r)
    ensures Step(cfg, s, StallSettle(r), AfterGivingUp(s, r))
    ensures Step(cfg, AfterGivingUp(s, r), Take(r), AfterTaking(AfterGivingUp(s, r), r))
  {
    hide SettleIn, Gone, Resolved, Flatten;
  }

  lemma StepsOne(cfg: Config, s: State, e: Event, s': State)
    requires Step(cfg, s, e, s')
    ensures Steps(cfg, [s, s'], [e])
  {
    hide Step;
  }

  /** What a thread does next that does not settle its slots yet. */
  function AfterMoving(s: State, k: nat): (Event, State)
    requires k < |s.jobs| && s.jobs[k].phase != Settling
  {
    var j := s.jobs[k];
    match j.phase
    case Holding => (PutBack(k), s.(inflight := [j.left] + s.inflight, jobs := s.jobs[k := Job([], 0, Returned, None)]))
    case Returned => (WrongFail(k), s.(failed := true, queue := [], jobs := s.jobs[k := Failing(s.queue)]))
    case Draining =>
      (DrainInflight(k), s.(inflight := [],
                            jobs := s.jobs[k := j.(left := j.left + Flatten(s.inflight), phase := Settling)]))
  }

  lemma MovingStep(cfg: Config, s: State, k: nat)
    requires k < |s.jobs| && s.jobs[k].phase != Settling
    ensures Step(cfg, s, AfterMoving(s, k).0, AfterMoving(s, k).1)
  {
    hide SettleIn, Gone, Resolved;
  }

  function Rank(p: Phase): nat { match p case Settling => 0 case Draining => 1 case Returned => 2 case Holding => 3 }

  /** The state once the thread has drained the batches in flight, with its own batch if it had put one back. */
  ghost predicate Drained(s: State, k: nat, s': State)
    requires k < |s.jobs|
  {
    && s'.reqs == s.reqs && s'.queue == [] && s'.inflight == [] && |s'.jobs| == |s.jobs| && s'.jobs[k].phase == Settling
    && s'.jobs[k].left == s.jobs[k].left + Flatten(s.inflight) && s'.jobs == s.jobs[k := s'.jobs[k]]
  }

  /** A failing thread drains, and a thread with a batch it cannot deliver puts it back, fails and drains. */
  lemma {:induction false} ReachSettling(cfg: Config, run: seq<State>, events: seq<Event>, k: nat)
    returns (run': seq<State>, events': seq<Event>)
    requires Steps(cfg, run, events)
    requires var s := run[|events|];
             && s.queue == [] && k < |s.jobs| && s.jobs[k].phase != Settling
             && (s.jobs[k].phase == Returned ==> s.jobs[k].left == [])
    ensures Steps(cfg, run', events') && run <= run' && events <= events' && Drained(run[|events|], k, run'[|events'|])
    ensures forall i :: |events| <= i < |events'| ==> !events'[i].StallSettle?
    decreases Rank(run[|events|].jobs[k].phase)
  {
    hide Step;
    var s := run[|events|];
    var (e, s') := AfterMoving(s, k);
    MovingStep(cfg, s, k);
    StepsThen(cfg, run, events, e, s');
    run', events' := run + [s'], events + [e];
    if s.jobs[k].phase != Draining {
      run', events' := ReachSettling(cfg, run', events', k);
      MovedDrained(s, k, s', run'[|events'|]);
    }
  }

  lemma MovedDrained(s: State, k: nat, s': State, s'': State)
    requires k < |s.jobs| && s.queue == [] && (s.jobs[k].phase == Holding || s.jobs[k].phase == Returned)
    requires s.jobs[k].phase == Returned ==> s.jobs[k].left == []
    requires s' == AfterMoving(s, k).1 && Drained(s', k, s'')
    ensures Drained(s, k, s'')
  {
    if s.jobs[k].phase == Holding { assert s'.inflight[1..] == s.inflight; }
    assert s''.jobs == s'.jobs[k := s''.jobs[k]] == s.jobs[k := s''.jobs[k]];
  }

  lemma DrainedTotal(s: State, k: nat, s': State, w: Slot -> nat)
    requires k < |s.jobs| && s.queue == [] && Drained(s, k, s')
    ensures Total(s', w) == Total(s, w)
  {
    SumJUpdate(s.jobs, k, s'.jobs[k], w);
    SumAppend(s.jobs[k].left, Flatten(s.inflight), w);
    SumFlatten(s.inflight, w);
  }

  /** A thread that holds a block of a writer whose results were taken gets to it. */
  lemma ThreadPanics(cfg: Config, run: seq<State>, events: seq<Event>, r: nat, i: nat)
    returns (run': seq<State>, events': seq<Event>)
    requires Steps(cfg, run, events)
    requires var s := run[|events|];
             && r in s.reqs && s.reqs[r].taken && s.queue == [] && s.inflight == [] && Total(s, Is(r, i)) > 0
             && forall k :: 0 <= k < |s.jobs| && s.jobs[k].phase == Returned ==> s.jobs[k].left == []
    ensures Steps(cfg, run', events') && run <= run' && events <= events' && run'[|events'|].panicked
    ensures forall j :: |events| <= j < |events'| ==> !events'[j].StallSettle?
  {
    hide Step;
    run', events' := run, events;
    var s := run[|events|];
    var k, p := HeldByThread(s, r, i);
    if s.jobs[k].phase != Settling {
      run', events' := ReachSettling(cfg, run, events, k);
      assert run'[|events'|].jobs[k].left == s.jobs[k].left + Flatten([]);
    }
    run', events' := ReachBlock(cfg, run', events', r, k, p);
  }

  /** Whenever a writer can give up while some thread holds one of its blocks, that thread can panic. */
  lemma UncalmPanics(cfg: Config, s: State, r: nat) returns (run: seq<State>, events: seq<Event>)
    requires Inv(cfg, s) && Off(s) && GivesUp(s, r) && !Calm(s, StallSettle(r))
    ensures Panics(cfg, s, r, run, events)
  {
    hide Step, Total, Gone, Inv;
    var i: nat :| Total(s, Is(r, i)) != 0;
    GivingUpSteps(cfg, s, r);
    var a := AfterGivingUp(s, r);
    var b := AfterTaking(a, r);
    StepsOne(cfg, s, StallSettle(r), a);
    StepsThen(cfg, [s, a], [StallSettle(r)], Take(r), b);
    run, events := [s, a] + [b], [StallSettle(r)] + [Take(r)];
    SameTotal(s, b, Is(r, i));
    NoneReturned(cfg, s);
    if b.inflight != [] {
      var d := b.delivering.value;
      run, events := ReachSettling(cfg, run, events, d);
      DrainedTotal(b, d, run[|events|], Is(r, i));
    }
    run, events := ThreadPanics(cfg, run, events, r, i);
  }

  lemma NoneReturned(cfg: Config, s: State)
    requires Inv(cfg, s)
    ensures forall k :: 0 <= k < |s.jobs| && s.jobs[k].phase == Returned ==> s.jobs[k].left == []
  {
    hide ReqsOk, SlotsOk, Tracked, Counted, EngineOk;
    forall k | 0 <= k < |s.jobs| && s.jobs[k].phase == Returned ensures s.jobs[k].left == [] {
      assert JobOk(cfg, s.jobs[k]);
    }
  }

  // ---- The exact condition ----

  /** The run and its continuation as one run. */
  lemma Continued(cfg: Config, run: seq<State>, events: seq<Event>, run': seq<State>, events': seq<Event>)
    requires Run(cfg, run, events) && Steps(cfg, run', events') && run'[0] == run[|events|]
    requires forall j :: 0 <= j < |events| ==> Calm(run[j], events[j])
    requires forall j :: 0 <= j < |events'| ==> Calm(run'[j], events'[j])
    ensures Run(cfg, run + run'[1..], events + events')
    ensures forall j :: 0 <= j < |events + events'| ==> Calm((run + run'[1..])[j], (events + events')[j])
  {
    hide Step, Calm;
    var all, es := run + run'[1..], events + events';
    forall j | 0 <= j < |es| ensures Step(cfg, all[j], es[j], all[j + 1]) && Calm(all[j], es[j]) {
      if j < |events| {
        assert all[j] == run[j] && all[j + 1] == run[j + 1];
      } else {
        var n := j - |events|;
        assert all[j] == run'[n] && all[j + 1] == run'[n + 1] && es[j] == events'[n];
      }
    }
  }

  lemma CalmEnd(cfg: Config, run: seq<State>, events: seq<Event>, run': seq<State>, events': seq<Event>)
    requires Run(cfg, run, events) && Steps(cfg, run', events') && run'[0] == run[|events|]
    requires forall j :: 0 <= j < |events| ==> Calm(run[j], events[j])
    requires forall j :: 0 <= j < |events'| ==> Calm(run'[j], events'[j])
    ensures !run'[|events'|].panicked
  {
    hide Step, Calm, Exact;
    Continued(cfg, run, events, run', events');
    var all, es := run + run'[1..], events + events';
    CalmRunsDoNotPanic(cfg, all, es, |es|);
    assert all[|es|] == run'[|events'|];
  }

  /** In every run that was calm so far, a writer that gives up makes a panic possible if and only if
      some thread still holds one of its blocks. */
  lemma PanicExact(cfg: Config, run: seq<State>, events: seq<Event>, r: nat)
    requires Run(cfg, run, events) && forall j :: 0 <= j < |events| ==> Calm(run[j], events[j])
    requires GivesUp(run[|events|], r)
    ensures CanPanic(cfg, run[|events|], r) <==> exists i: nat :: Total(run[|events|], Is(r, i)) > 0
  {
    hide Step, GivesUp, Total, Inv, Off;
    var s := run[|events|];
    RunOff(cfg, run, events, |events|);
    RunInv(cfg, run, events, |events|);
    if !Calm(s, StallSettle(r)) {
      var run', events' := UncalmPanics(cfg, s, r);
      assert Panics(cfg, s, r, run', events');
    } else {
      forall run', events' ensures !Panics(cfg, s, r, run', events') {
        CalmPanicsNot(cfg, run, events, r, run', events');
      }
    }
  }

  lemma CalmPanicsNot(cfg: Config, run: seq<State>, events: seq<Event>, r: nat, run': seq<State>, events': seq<Event>)
    requires Run(cfg, run, events) && forall j :: 0 <= j < |events| ==> Calm(run[j], events[j])
    requires Calm(run[|events|], StallSettle(r))
    ensures !Panics(cfg, run[|events|], r, run', events')
  {
    hide Step, Calm;
    if Steps(cfg, run', events') && |events'| > 0 && run'[0] == run[|events|] && events'[0] == StallSettle(r)
       && (forall j :: 1 <= j < |events'| ==> Calm(run'[j], events'[j]))
    {
      CalmEnd(cfg, run, events, run', events');
    }
  }

  /** Such a state is reached by a run: one thread fails and holds the block, the writer stalls, its own
      failure finds nothing and ends. */
  lemma UncalmReached(cfg: Config, block: bytes) returns (run: seq<State>, events: seq<Event>)
    requires Valid(cfg) && |block| <= MAX_BLOCK
    ensures Run(cfg, run, events) && forall j :: 0 <= j < |events| ==> Calm(run[j], events[j])
    ensures GivesUp(run[|events|], 0) && Total(run[|events|], Is(0, 0)) > 0
  {
    hide Step, Total, SumJ, Sum;
    var slot := Slot(0, 0, block);
    var q := Request([block], seq(1, _ => Pending), 1, 0, false);
    var a := Fresh().(reqs := map[0 := q]);
    var b := a.(queue := [slot], bytes := |block|, reqs := map[0 := q.(next := 1)]);
    var c := b.(failed := true, queue := [], jobs := [Failing([slot])]);
    var d := c.(jobs := [Failing([slot]), Failing([])], own := map[0 := 1]);
    var e := d.(jobs := [Failing([slot]), Job([], 0, Settling, None)]);
    run := [Fresh(), a, b, c, d, e, e];
    events := [Start(0, [block]), Enqueue(0), Fail, StallFail(0), DrainInflight(1), Free(1)];
    QueueSteps(cfg, block, q, a, b);
    FailSteps(cfg, b, slot, c, d);
    EndSteps(cfg, d, e);
    assert Among(e.jobs[0].left, 0, 0) by { assert slot in e.jobs[0].left; }
    SumJobs(e.jobs, 0, 0);
    HeldInJobs(e, 0, 0);
  }

  lemma QueueSteps(cfg: Config, block: bytes, q: Request, a: State, b: State)
    requires Valid(cfg) && |block| <= MAX_BLOCK
    requires q == Request([block], seq(1, _ => Pending), 1, 0, false) && a == Fresh().(reqs := map[0 := q])
    requires b == a.(queue := [Slot(0, 0, block)], bytes := |block|, reqs := map[0 := q.(next := 1)])
    ensures Step(cfg, Fresh(), Start(0, [block]), a) && Step(cfg, a, Enqueue(0), b)
  {
    hide Resolved, SettleIn, Gone, Len, Sub, FramesFor, DataOf, Flatten;
  }

  lemma FailSteps(cfg: Config, b: State, slot: Slot, c: State, d: State)
    requires b.queue == [slot] && b.jobs == [] && b.own == map[]
    requires 0 in b.reqs && b.reqs[0].next == |b.reqs[0].blocks| && b.reqs[0].left > 0 && !b.reqs[0].taken
    requires c == b.(failed := true, queue := [], jobs := [Failing([slot])])
    requires d == c.(jobs := [Failing([slot]), Failing([])], own := map[0 := 1])
    ensures Step(cfg, b, Fail, c) && Step(cfg, c, StallFail(0), d)
  {
    hide Resolved, SettleIn, Gone, Len, Sub, FramesFor, DataOf, Flatten;
    assert c.jobs + [Failing([])] == d.jobs;
  }

  lemma EndSteps(cfg: Config, d: State, e: State)
    requires |d.jobs| == 2 && d.jobs[1] == Failing([]) && d.inflight == []
    requires e == d.(jobs := [d.jobs[0], Job([], 0, Settling, None)])
    ensures Step(cfg, d, DrainInflight(1), e) && Step(cfg, e, Free(1), e)
  {
    hide Resolved, SettleIn, Gone, Len, FramesFor, DataOf;
    assert [] + Flatten([]) == [];
  }

  lemma HeldInJobs(s: State, r: nat, i: nat)
    requires SumJ(s.jobs, Is(r, i)) > 0
    ensures Total(s, Is(r, i)) > 0
  {
  }
}
