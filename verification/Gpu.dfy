/** The GPU batch encoder as a protocol of lock-sized steps. */
module Gpu {
  import opened Base

  /** Block `i` of request `req`, on its way to a result. */
  datatype Slot = Slot(req: nat, i: nat, data: bytes)

  datatype Outcome = Pending | Cpu | Frame(frame: bytes)

  /** One writer's call: `next` blocks are queued or settled by the writer itself; `left` counts the
      blocks without a result; `taken` once the writer has its results. */
  datatype Request = Request(blocks: seq<bytes>, out: seq<Outcome>, left: nat, next: nat, taken: bool)

  /** Where a thread with slots in its hands is: a failure has drained the queue and not yet the batches in
      flight; a failure or a delivery settles its slots; a delivery with the wrong number of frames holds the
      batch it took, then has put it back and is about to fail. */
  datatype Phase = Draining | Settling | Holding | Returned

  /** A thread that settles what it holds: the slots still to settle, the bytes settled so far and, for a
      delivery, the `frames` for its slots. */
  datatype Job = Job(left: seq<Slot>, freed: nat, phase: Phase, frames: Option<seq<bytes>>)

  function Failing(slots: seq<Slot>): Job { Job(slots, 0, Draining, None) }

  /** The result the thread has for its next slot. */
  function NextOutcome(j: Job): Outcome {
    if j.frames.Some? && j.frames.value != [] then Frame(j.frames.value[0]) else Cpu
  }

  /** The job once its next slot is settled. */
  function Advanced(j: Job): Job
    requires j.left != []
  {
    j.(left := j.left[1..], freed := j.freed + |j.left[0].data|,
       frames := if j.frames.Some? && j.frames.value != [] then Some(j.frames.value[1..]) else j.frames)
  }

  /** `own`: per writer that has given up on a stalled GPU, the job of its own failure. `delivering`: the job
      of the last delivery that took a batch; deliveries come one at a time. */
  datatype State = State(
    queue: seq<Slot>,
    inflight: seq<seq<Slot>>,
    engine: seq<seq<bytes>>,
    bytes: nat,
    failed: bool,
    shutdown: bool,
    stopped: bool,
    jobs: seq<Job>,
    own: map<nat, nat>,
    delivering: Option<nat>,
    reqs: map<nat, Request>,
    panicked: bool)

  /** The configuration, and which frames the GPU may return for a block. */
  datatype Config = Config(maxInflight: nat, frameOf: (bytes, bytes) -> bool)

  const MAX_BLOCK: nat := 65536

  /** What `validate` demands of the bound. */
  predicate Valid(cfg: Config) { cfg.maxInflight >= MAX_BLOCK }

  datatype Event =
    | Start(r: nat, blocks: seq<bytes>) | Enqueue(r: nat) | SettleOwn(r: nat)
    | Fill(n: nat) | Deliver(frames: seq<bytes>)
    | WrongPop(frames: seq<bytes>) | PutBack(k: nat) | WrongFail(k: nat)
    | Fail | Quiet | DrainInflight(k: nat) | Resolve(k: nat) | Free(k: nat)
    | StallFail(r: nat) | StallSettle(r: nat) | Take(r: nat) | Shutdown | Exit

  // ---- The steps ----

  /** `Request::resolve`: sets a block's result unless it has one. */
  function Resolved(q: Request, i: nat, x: Outcome): Request
    requires i < |q.out|
  {
    if q.out[i] == Pending then q.(out := q.out[i := x], left := if q.left > 0 then q.left - 1 else 0) else q
  }

  /** The request's results were taken: settling one more indexes an empty list. */
  predicate Gone(reqs: map<nat, Request>, x: Slot) {
    x.req !in reqs || reqs[x.req].taken || x.i >= |reqs[x.req].out|
  }

  function SettleIn(reqs: map<nat, Request>, x: Slot, o: Outcome): map<nat, Request> {
    if Gone(reqs, x) then reqs else reqs[x.req := Resolved(reqs[x.req], x.i, o)]
  }

  function Sub(a: nat, b: nat): nat { if a < b then 0 else a - b }

  function Flatten(batches: seq<seq<Slot>>): seq<Slot> {
    if batches == [] then [] else batches[0] + Flatten(batches[1..])
  }

  /** The weight of a list of slots: their bytes, or how often one block is among them. */
  function Sum(slots: seq<Slot>, w: Slot -> nat): nat {
    if slots == [] then 0 else w(slots[0]) + Sum(slots[1..], w)
  }

  function Size(): Slot -> nat { (x: Slot) => |x.data| }

  function Len(slots: seq<Slot>): nat { Sum(slots, Size()) }

  function DataOf(slots: seq<Slot>): seq<bytes> {
    seq(|slots|, i requires 0 <= i < |slots| => slots[i].data)
  }

  predicate JobDone(j: Job) { j.phase == Settling && j.left == [] && j.freed == 0 }

  /** The engine runs and its last delivery is over. */
  predicate Delivered(s: State) {
    !s.stopped && (s.delivering.Some? ==> s.delivering.value < |s.jobs| && JobDone(s.jobs[s.delivering.value]))
  }

  ghost predicate FramesFor(cfg: Config, data: seq<bytes>, frames: seq<bytes>) {
    |frames| == |data| && forall k :: 0 <= k < |data| ==> cfg.frameOf(data[k], frames[k])
  }

  ghost predicate Step(cfg: Config, s: State, e: Event, s': State) {
    match e
    case Start(r, blocks) =>
      && r !in s.reqs && blocks != [] && (forall k :: 0 <= k < |blocks| ==> |blocks[k]| <= MAX_BLOCK)
      && s' == s.(reqs := s.reqs[r := Request(blocks, seq(|blocks|, _ => Pending), |blocks|, 0, false)])
    case Enqueue(r) =>
      && r in s.reqs && s.reqs[r].next < |s.reqs[r].blocks| && !s.failed && !s.shutdown
      && var q := s.reqs[r];
         var data := q.blocks[q.next];
         && !(s.bytes > 0 && s.bytes + |data| > cfg.maxInflight)
         && s' == s.(queue := s.queue + [Slot(r, q.next, data)], bytes := s.bytes + |data|,
                     reqs := s.reqs[r := q.(next := q.next + 1)])
    case SettleOwn(r) =>
      && r in s.reqs && s.reqs[r].next < |s.reqs[r].blocks| == |s.reqs[r].out| && (s.failed || s.shutdown)
      && s' == s.(reqs := s.reqs[r := Resolved(s.reqs[r], s.reqs[r].next, Cpu).(next := s.reqs[r].next + 1)])
    case Fill(n) =>
      // Also while a delivery is under way, on another thread.
      && !s.stopped && !s.failed && 0 < n <= |s.queue|
      && s' == s.(queue := s.queue[n..], inflight := s.inflight + [s.queue[..n]],
                  engine := s.engine + [DataOf(s.queue[..n])])
    case Deliver(frames) =>
      && Delivered(s) && s.engine != [] && FramesFor(cfg, s.engine[0], frames)
      && (s.inflight != [] ==> |s.inflight[0]| == |frames|)
      && var left := s.(engine := s.engine[1..]);
         s' == if s.inflight == [] then left
               else left.(inflight := s.inflight[1..], delivering := Some(|s.jobs|),
                          jobs := s.jobs + [Job(s.inflight[0], 0, Settling, Some(frames))])
    case WrongPop(frames) =>
      && Delivered(s) && s.engine != [] && s.inflight != [] && |s.inflight[0]| != |frames|
      && s' == s.(engine := s.engine[1..], inflight := s.inflight[1..], delivering := Some(|s.jobs|),
                  jobs := s.jobs + [Job(s.inflight[0], 0, Holding, None)])
    case PutBack(k) =>
      && k < |s.jobs| && s.jobs[k].phase == Holding
      && s' == s.(inflight := [s.jobs[k].left] + s.inflight, jobs := s.jobs[k := Job([], 0, Returned, None)])
    case WrongFail(k) =>
      && k < |s.jobs| && s.jobs[k].phase == Returned
      && s' == s.(failed := true, queue := [], jobs := s.jobs[k := Failing(s.queue)])
    case Fail => s' == s.(failed := true, queue := [], jobs := s.jobs + [Failing(s.queue)])
    case StallFail(r) =>
      && r in s.reqs && s.reqs[r].next == |s.reqs[r].blocks| && s.reqs[r].left > 0 && !s.reqs[r].taken && r !in s.own
      && s' == s.(failed := true, queue := [], jobs := s.jobs + [Failing(s.queue)], own := s.own[r := |s.jobs|])
    case Quiet => s.stopped && s' == s.(shutdown := true, queue := [], jobs := s.jobs + [Failing(s.queue)])
    case DrainInflight(k) =>
      && k < |s.jobs| && s.jobs[k].phase == Draining
      && s' == s.(inflight := [],
                  jobs := s.jobs[k := s.jobs[k].(left := s.jobs[k].left + Flatten(s.inflight), phase := Settling)])
    case Resolve(k) =>
      && k < |s.jobs| && s.jobs[k].phase == Settling && s.jobs[k].left != []
      && var j, slot := s.jobs[k], s.jobs[k].left[0];
         s' == s.(reqs := SettleIn(s.reqs, slot, NextOutcome(j)), panicked := s.panicked || Gone(s.reqs, slot),
                  jobs := s.jobs[k := Advanced(j)])
    case Free(k) =>
      && k < |s.jobs| && s.jobs[k].phase == Settling && s.jobs[k].left == []
      && s' == s.(bytes := Sub(s.bytes, s.jobs[k].freed), jobs := s.jobs[k := s.jobs[k].(freed := 0)])
    case StallSettle(r) =>
      // The writer's own failure has run to its end.
      && r in s.reqs && s.reqs[r].next == |s.reqs[r].blocks| && !s.reqs[r].taken
      && r in s.own && s.own[r] < |s.jobs| && JobDone(s.jobs[s.own[r]])
      && var q := s.reqs[r];
         s' == s.(reqs := s.reqs[r := q.(
                            out := seq(|q.out|, i requires 0 <= i < |q.out| => if q.out[i] == Pending then Cpu else q.out[i]),
                            left := 0)])
    case Take(r) =>
      && r in s.reqs && s.reqs[r].next == |s.reqs[r].blocks| && s.reqs[r].left == 0 && !s.reqs[r].taken
      && s' == s.(reqs := s.reqs[r := s.reqs[r].(taken := true)])
    case Shutdown => s' == s.(shutdown := true)
    case Exit =>
      && Delivered(s) && (s.failed || (s.shutdown && s.queue == [])) && s' == s.(stopped := true)
  }

  function Fresh(): State {
    State([], [], [], 0, false, false, false, [], map[], None, map[], false)
  }
}
