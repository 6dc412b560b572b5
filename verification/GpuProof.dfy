/** What every step of the GPU encoder keeps: blocks are settled once and by their own frame, none is
    lost, and the byte counter is exact. */
module GpuProof {
  import opened Base
  import opened Gpu

  // ---- Weights ----

  ghost function Is(r: nat, i: nat): Slot -> nat { (x: Slot) => if x.req == r && x.i == i then 1 else 0 }

  ghost function SumB(batches: seq<seq<Slot>>, w: Slot -> nat): nat {
    if batches == [] then 0 else Sum(batches[0], w) + SumB(batches[1..], w)
  }

  ghost function SumJ(jobs: seq<Job>, w: Slot -> nat): nat {
    if jobs == [] then 0 else Sum(jobs[0].left, w) + SumJ(jobs[1..], w)
  }

  ghost function Freed(jobs: seq<Job>): nat {
    if jobs == [] then 0 else jobs[0].freed + Freed(jobs[1..])
  }

  /** The weight of everything queued, in flight or being settled. */
  ghost function Total(s: State, w: Slot -> nat): nat {
    Sum(s.queue, w) + SumB(s.inflight, w) + SumJ(s.jobs, w)
  }

  lemma {:induction false} SumAppend(a: seq<Slot>, b: seq<Slot>, w: Slot -> nat)
    ensures Sum(a + b, w) == Sum(a, w) + Sum(b, w)
  {
    if a == [] { assert a + b == b; }
    else {
      assert (a + b)[1..] == a[1..] + b;
      SumAppend(a[1..], b, w);
    }
  }

  lemma {:induction false} SumBAppend(a: seq<seq<Slot>>, b: seq<Slot>, w: Slot -> nat)
    ensures SumB(a + [b], w) == SumB(a, w) + Sum(b, w)
  {
    if a == [] { assert a + [b] == [b]; }
    else {
      assert (a + [b])[1..] == a[1..] + [b];
      SumBAppend(a[1..], b, w);
    }
  }

  lemma {:induction false} SumFlatten(a: seq<seq<Slot>>, w: Slot -> nat)
    ensures Sum(Flatten(a), w) == SumB(a, w)
  {
    if a != [] {
      SumAppend(a[0], Flatten(a[1..]), w);
      SumFlatten(a[1..], w);
    }
  }

  lemma {:induction false} SumJAppend(a: seq<Job>, j: Job, w: Slot -> nat)
    ensures SumJ(a + [j], w) == SumJ(a, w) + Sum(j.left, w) && Freed(a + [j]) == Freed(a) + j.freed
  {
    if a == [] { assert a + [j] == [j]; }
    else {
      assert (a + [j])[1..] == a[1..] + [j];
      SumJAppend(a[1..], j, w);
    }
  }

  lemma {:induction false} SumJUpdate(a: seq<Job>, k: nat, j: Job, w: Slot -> nat)
    requires k < |a|
    ensures SumJ(a[k := j], w) == SumJ(a, w) - Sum(a[k].left, w) + Sum(j.left, w)
    ensures Freed(a[k := j]) == Freed(a) - a[k].freed + j.freed
    ensures SumJ(a, w) >= Sum(a[k].left, w) && Freed(a) >= a[k].freed
  {
    if k == 0 { assert a[0 := j][1..] == a[1..]; }
    else {
      assert a[k := j][1..] == a[1..][k - 1 := j];
      SumJUpdate(a[1..], k - 1, j, w);
    }
  }

  // ---- The invariant ----

  ghost function PendingCount(out: seq<Outcome>): nat {
    if out == [] then 0 else (if out[0] == Pending then 1 else 0) + PendingCount(out[1..])
  }

  ghost predicate ReqOk(cfg: Config, q: Request) {
    && |q.out| == |q.blocks| && q.next <= |q.blocks| && q.left == PendingCount(q.out)
    && (forall i :: 0 <= i < |q.blocks| ==> |q.blocks[i]| <= MAX_BLOCK)
    && (forall i :: q.next <= i < |q.out| ==> q.out[i] == Pending)
    && (forall i :: 0 <= i < |q.out| && q.out[i].Frame? ==> cfg.frameOf(q.blocks[i], q.out[i].frame))
    && (q.taken ==> q.left == 0 && q.next == |q.blocks|)
  }

  /** The slot is a queued block of its request. */
  ghost predicate SlotOk(reqs: map<nat, Request>, x: Slot) {
    x.req in reqs && x.i < reqs[x.req].next <= |reqs[x.req].blocks| && x.data == reqs[x.req].blocks[x.i]
  }

  ghost predicate AllOk(reqs: map<nat, Request>, slots: seq<Slot>) {
    forall x :: x in slots ==> SlotOk(reqs, x)
  }

  ghost predicate SlotsOk(s: State) {
    && AllOk(s.reqs, s.queue)
    && (forall k :: 0 <= k < |s.inflight| ==> AllOk(s.reqs, s.inflight[k]))
    && (forall k :: 0 <= k < |s.jobs| ==> AllOk(s.reqs, s.jobs[k].left))
  }

  /** No block is held twice, and a block without a result that has left its writer is held. */
  ghost predicate HeldOnce(s: State, r: nat, i: nat) {
    && Total(s, Is(r, i)) <= 1
    && (r in s.reqs && i < s.reqs[r].next && i < |s.reqs[r].out| && s.reqs[r].out[i] == Pending ==>
          Total(s, Is(r, i)) == 1)
  }

  ghost predicate Tracked(s: State) { forall r, i :: HeldOnce(s, r, i) }

  /** The counter is the bytes queued, in flight or being settled, and within its bound. */
  ghost predicate Counted(cfg: Config, s: State) {
    s.bytes == Total(s, Size()) + Freed(s.jobs) && s.bytes <= cfg.maxInflight
  }

  ghost predicate Aligned(engine: seq<seq<bytes>>, inflight: seq<seq<Slot>>) {
    |engine| == |inflight| && forall k :: 0 <= k < |engine| ==> engine[k] == DataOf(inflight[k])
  }

  /** The delivery under way has put a batch back that the engine no longer has. */
  ghost predicate Returning(s: State) {
    s.delivering.Some? && s.delivering.value < |s.jobs| && s.jobs[s.delivering.value].phase == Returned
  }

  /** It is about to fail, or its failure is about to drain the batches in flight. */
  ghost predicate Clearing(s: State) {
    Returning(s) || (s.delivering.Some? && s.delivering.value < |s.jobs| && s.jobs[s.delivering.value].phase == Draining)
  }

  /** What is in flight is what the engine has, in order, until a failure takes it away, but for a batch that
      was put back. */
  ghost predicate EngineOk(s: State) {
    && (!s.failed && !s.stopped ==>
          if Returning(s) then s.inflight != [] && Aligned(s.engine, s.inflight[1..]) else Aligned(s.engine, s.inflight))
    && (s.inflight == [] || Aligned(s.engine, s.inflight) || s.stopped || Clearing(s))
    && (forall k :: 0 <= k < |s.jobs| && s.jobs[k].phase == Draining ==> s.failed || s.stopped)
    && (forall k :: 0 <= k < |s.jobs| && (s.jobs[k].phase == Holding || s.jobs[k].phase == Returned) ==>
          s.delivering == Some(k))
    && (s.delivering.Some? ==> s.delivering.value < |s.jobs|)
  }

  ghost predicate ReqsOk(cfg: Config, reqs: map<nat, Request>) {
    forall r :: r in reqs ==> ReqOk(cfg, reqs[r])
  }

  /** A delivery has the frame of each slot it is still to settle, and does not drain; bytes are only given
      back by a thread that settles. */
  ghost predicate JobOk(cfg: Config, j: Job) {
    && (j.phase != Settling ==> j.freed == 0 && j.frames.None?)
    && (j.phase == Returned ==> j.left == [])
    && (j.frames.Some? ==>
          && |j.frames.value| == |j.left|
          && forall i :: 0 <= i < |j.left| ==> cfg.frameOf(j.left[i].data, j.frames.value[i]))
  }

  ghost predicate JobsOk(cfg: Config, jobs: seq<Job>) {
    forall k :: 0 <= k < |jobs| ==> JobOk(cfg, jobs[k])
  }

  ghost predicate Inv(cfg: Config, s: State) {
    ReqsOk(cfg, s.reqs) && SlotsOk(s) && Tracked(s) && Counted(cfg, s) && EngineOk(s) && JobsOk(cfg, s.jobs)
  }

  // ---- Requests ----

  lemma {:induction false} PendingSet(out: seq<Outcome>, i: nat, x: Outcome)
    requires i < |out| && out[i] == Pending && x != Pending
    ensures PendingCount(out) > 0 && PendingCount(out[i := x]) == PendingCount(out) - 1
  {
    if i == 0 { assert out[0 := x][1..] == out[1..]; }
    else {
      assert out[i := x][1..] == out[1..][i - 1 := x];
      PendingSet(out[1..], i - 1, x);
    }
  }

  lemma {:induction false} PendingNone(out: seq<Outcome>)
    ensures PendingCount(out) == 0 <==> forall i :: 0 <= i < |out| ==> out[i] != Pending
  {
    if out != [] {
      PendingNone(out[1..]);
      assert forall i :: 0 < i < |out| ==> out[i] == out[1..][i - 1];
      if forall i :: 0 <= i < |out| ==> out[i] != Pending {
        forall i | 0 <= i < |out[1..]| ensures out[1..][i] != Pending { assert out[1..][i] == out[i + 1]; }
      }
    }
  }

  lemma {:induction false} PendingAll(n: nat)
    ensures PendingCount(seq(n, _ => Pending)) == n
  {
    if n > 0 {
      PendingAll(n - 1);
      assert seq<Outcome>(n, _ => Pending)[1..] == seq(n - 1, _ => Pending);
    }
  }

  lemma ResolvedOk(cfg: Config, q: Request, i: nat, x: Outcome)
    requires ReqOk(cfg, q) && i < q.next && x != Pending && (x.Frame? ==> cfg.frameOf(q.blocks[i], x.frame))
    ensures ReqOk(cfg, Resolved(q, i, x)) && Resolved(q, i, x).out[i] != Pending
    ensures Resolved(q, i, x).next == q.next && Resolved(q, i, x).blocks == q.blocks
    ensures forall j :: 0 <= j < |q.out| && (j != i || q.out[i] != Pending) ==> Resolved(q, i, x).out[j] == q.out[j]
    ensures |Resolved(q, i, x).out| == |q.out| && Resolved(q, i, x).taken == q.taken
  {
    if q.out[i] == Pending {
      PendingSet(q.out, i, x);
      if q.taken { PendingNone(q.out); }
    }
  }

  /** Requests keep their blocks; queued blocks stay queued; results stay. */
  ghost predicate Later(reqs: map<nat, Request>, reqs': map<nat, Request>) {
    forall r :: r in reqs ==>
      && r in reqs' && reqs'[r].blocks == reqs[r].blocks && reqs[r].next <= reqs'[r].next <= |reqs[r].blocks|
  }

  lemma AllOkLater(reqs: map<nat, Request>, reqs': map<nat, Request>, slots: seq<Slot>)
    requires Later(reqs, reqs') && AllOk(reqs, slots)
    ensures AllOk(reqs', slots)
  {
  }

  lemma SlotsOkLater(s: State, s': State)
    requires SlotsOk(s) && Later(s.reqs, s'.reqs)
    requires s'.queue == s.queue && s'.inflight == s.inflight && s'.jobs == s.jobs
    ensures SlotsOk(s')
  {
    hide AllOk, Later;
    AllOkLater(s.reqs, s'.reqs, s.queue);
    forall k | 0 <= k < |s.inflight| ensures AllOk(s'.reqs, s'.inflight[k]) {
      AllOkLater(s.reqs, s'.reqs, s.inflight[k]);
    }
    forall k | 0 <= k < |s.jobs| ensures AllOk(s'.reqs, s'.jobs[k].left) {
      AllOkLater(s.reqs, s'.reqs, s.jobs[k].left);
    }
  }

  /** The requests after settling `slots`: their blocks have results, and no result changed. */
  ghost predicate SettledBy(reqs: map<nat, Request>, reqs': map<nat, Request>, slots: seq<Slot>) {
    && reqs'.Keys == reqs.Keys
    && (forall r :: r in reqs ==>
          && reqs'[r].blocks == reqs[r].blocks && reqs'[r].next == reqs[r].next && reqs'[r].taken == reqs[r].taken
          && |reqs'[r].out| == |reqs[r].out|)
    && (forall r, i :: r in reqs && 0 <= i < |reqs[r].out| ==>
          && (reqs[r].out[i] != Pending ==> reqs'[r].out[i] == reqs[r].out[i])
          && (reqs'[r].out[i] == Pending ==> Sum(slots, Is(r, i)) == 0)
          && (reqs'[r].out[i] != reqs[r].out[i] ==> Sum(slots, Is(r, i)) > 0))
  }

  lemma SettleOne(cfg: Config, reqs: map<nat, Request>, x: Slot, o: Outcome)
    requires ReqsOk(cfg, reqs) && SlotOk(reqs, x) && o != Pending && (o.Frame? ==> cfg.frameOf(x.data, o.frame))
    ensures ReqsOk(cfg, SettleIn(reqs, x, o)) && SettledBy(reqs, SettleIn(reqs, x, o), [x])
  {
    hide ReqOk, Resolved;
    var q := reqs[x.req];
    ReqLen(cfg, q);
    if q.taken { TakenNone(cfg, q); } else { ResolvedOk(cfg, q, x.i, o); }
    forall r: nat, i: nat ensures Sum([x], Is(r, i)) == if (r, i) == (x.req, x.i) then 1 else 0 {
      OneSum(x, r, i);
    }
  }

  lemma ReqLen(cfg: Config, q: Request)
    requires ReqOk(cfg, q)
    ensures |q.out| == |q.blocks| && q.next <= |q.blocks|
  {
  }

  lemma OneSum(x: Slot, r: nat, i: nat)
    ensures Sum([x], Is(r, i)) == if (r, i) == (x.req, x.i) then 1 else 0
  {
    assert [x][1..] == [];
  }

  lemma AllOkParts(reqs: map<nat, Request>, slots: seq<Slot>)
    requires slots != [] && AllOk(reqs, slots)
    ensures SlotOk(reqs, slots[0]) && AllOk(reqs, slots[1..])
  {
  }

  lemma TakenNone(cfg: Config, q: Request)
    requires ReqOk(cfg, q) && q.taken
    ensures forall i :: 0 <= i < |q.out| ==> q.out[i] != Pending
  {
    PendingNone(q.out);
  }

  // ---- Moves between queue, flight and jobs ----

  /** Everything held weighs the same. */
  ghost predicate SameHeld(s: State, s': State) {
    && Total(s', Size()) == Total(s, Size())
    && forall r: nat, i: nat :: Total(s', Is(r, i)) == Total(s, Is(r, i))
  }

  lemma TrackedSame(s: State, s': State)
    requires Tracked(s) && SameHeld(s, s') && s'.reqs == s.reqs
    ensures Tracked(s')
  {
    hide Total;
    forall r: nat, i: nat ensures HeldOnce(s', r, i) { assert HeldOnce(s, r, i); }
  }

  lemma FillTotal(s: State, n: nat, s': State, w: Slot -> nat)
    requires n <= |s.queue| && s'.queue == s.queue[n..] && s'.inflight == s.inflight + [s.queue[..n]] && s'.jobs == s.jobs
    ensures Total(s', w) == Total(s, w)
  {
    SumBAppend(s.inflight, s.queue[..n], w);
    SumAppend(s.queue[..n], s.queue[n..], w);
    assert s.queue[..n] + s.queue[n..] == s.queue;
  }

  lemma NewJobTotal(s: State, s': State, w: Slot -> nat)
    requires s'.queue == [] && s'.inflight == s.inflight && s'.jobs == s.jobs + [Failing(s.queue)]
    ensures Total(s', w) == Total(s, w) && Freed(s'.jobs) == Freed(s.jobs)
  {
    SumJAppend(s.jobs, Failing(s.queue), w);
  }

  lemma DrainTotal(s: State, k: nat, s': State, w: Slot -> nat)
    requires k < |s.jobs| && s'.queue == s.queue && s'.inflight == []
    requires s'.jobs == s.jobs[k := s.jobs[k].(left := s.jobs[k].left + Flatten(s.inflight), phase := Settling)]
    ensures Total(s', w) == Total(s, w) && Freed(s'.jobs) == Freed(s.jobs)
  {
    SumJUpdate(s.jobs, k, s'.jobs[k], w);
    SumAppend(s.jobs[k].left, Flatten(s.inflight), w);
    SumFlatten(s.inflight, w);
  }

  lemma FillSlots(s: State, n: nat, s': State)
    requires SlotsOk(s) && n <= |s.queue| && s'.queue == s.queue[n..] && s'.inflight == s.inflight + [s.queue[..n]]
    requires s'.jobs == s.jobs && s'.reqs == s.reqs
    ensures SlotsOk(s')
  {
    hide SlotOk;
    forall k | 0 <= k < |s'.inflight| ensures AllOk(s.reqs, s'.inflight[k]) {
      if k < |s.inflight| { assert AllOk(s.reqs, s.inflight[k]); }
    }
  }

  lemma FillKeeps(cfg: Config, s: State, n: nat, s': State)
    requires Inv(cfg, s) && !s.stopped && !s.failed && 0 < n <= |s.queue|
    requires s' == s.(queue := s.queue[n..], inflight := s.inflight + [s.queue[..n]],
                      engine := s.engine + [DataOf(s.queue[..n])])
    ensures Inv(cfg, s')
  {
    FillTotal(s, n, s', Size());
    forall r: nat, i: nat ensures Total(s', Is(r, i)) == Total(s, Is(r, i)) { FillTotal(s, n, s', Is(r, i)); }
    FillSlots(s, n, s');
    hide Total, SlotsOk, ReqsOk, DataOf;
    TrackedSame(s, s');
  }

  lemma NewJobSlots(s: State, s': State)
    requires SlotsOk(s) && s'.queue == [] && s'.inflight == s.inflight && s'.jobs == s.jobs + [Failing(s.queue)]
    requires s'.reqs == s.reqs
    ensures SlotsOk(s')
  {
    hide SlotOk;
    forall k | 0 <= k < |s'.jobs| ensures AllOk(s.reqs, s'.jobs[k].left) {
      if k < |s.jobs| { assert AllOk(s.reqs, s.jobs[k].left); }
    }
  }

  /** A failure (or the batcher's end) takes over the queue. */
  lemma NewJobKeeps(cfg: Config, s: State, s': State)
    requires Inv(cfg, s) && s'.queue == [] && s'.inflight == s.inflight && s'.jobs == s.jobs + [Failing(s.queue)]
    requires s'.reqs == s.reqs && s'.bytes == s.bytes && EngineOk(s')
    ensures Inv(cfg, s')
  {
    hide EngineOk;
    NewJobTotal(s, s', Size());
    forall r: nat, i: nat ensures Total(s', Is(r, i)) == Total(s, Is(r, i)) { NewJobTotal(s, s', Is(r, i)); }
    NewJobSlots(s, s');
    hide Total, SlotsOk, ReqsOk;
    TrackedSame(s, s');
  }

  lemma {:induction false} FlattenOk(reqs: map<nat, Request>, batches: seq<seq<Slot>>)
    requires forall k :: 0 <= k < |batches| ==> AllOk(reqs, batches[k])
    ensures AllOk(reqs, Flatten(batches))
  {
    hide SlotOk;
    if batches != [] {
      assert AllOk(reqs, batches[0]);
      forall k | 0 <= k < |batches[1..]| ensures AllOk(reqs, batches[1..][k]) { assert batches[1..][k] == batches[k + 1]; }
      FlattenOk(reqs, batches[1..]);
    }
  }

  lemma DrainSlots(s: State, k: nat, s': State)
    requires SlotsOk(s) && k < |s.jobs| && s'.queue == s.queue && s'.inflight == [] && s'.reqs == s.reqs
    requires s'.jobs == s.jobs[k := s.jobs[k].(left := s.jobs[k].left + Flatten(s.inflight), phase := Settling)]
    ensures SlotsOk(s')
  {
    hide SlotOk;
    FlattenOk(s.reqs, s.inflight);
    forall j | 0 <= j < |s'.jobs| ensures AllOk(s.reqs, s'.jobs[j].left) {
      assert AllOk(s.reqs, s.jobs[j].left);
    }
  }

  lemma DrainKeeps(cfg: Config, s: State, k: nat, s': State)
    requires Inv(cfg, s) && k < |s.jobs| && s.jobs[k].phase == Draining
    requires s' == s.(inflight := [],
                      jobs := s.jobs[k := s.jobs[k].(left := s.jobs[k].left + Flatten(s.inflight), phase := Settling)])
    ensures Inv(cfg, s')
  {
    DrainTotal(s, k, s', Size());
    forall r: nat, i: nat ensures Total(s', Is(r, i)) == Total(s, Is(r, i)) { DrainTotal(s, k, s', Is(r, i)); }
    DrainSlots(s, k, s');
    hide Total, SlotsOk, ReqsOk;
    TrackedSame(s, s');
  }

  // ---- Steps that settle ----

  /** A list of slots `gone` leaves what is held, and their blocks have results. */
  lemma SettledTracked(s: State, s': State, gone: seq<Slot>)
    requires Tracked(s) && SettledBy(s.reqs, s'.reqs, gone)
    requires forall r: nat, i: nat :: Total(s', Is(r, i)) == Total(s, Is(r, i)) - Sum(gone, Is(r, i))
    ensures Tracked(s')
  {
    hide Total;
    forall r: nat, i: nat ensures HeldOnce(s', r, i) {
      assert HeldOnce(s, r, i);
      if r in s.reqs && i < |s.reqs[r].out| && s'.reqs[r].out[i] == Pending {
        assert s.reqs[r].out[i] == Pending && Sum(gone, Is(r, i)) == 0;
      }
    }
  }

  lemma SettledLater(cfg: Config, reqs: map<nat, Request>, reqs': map<nat, Request>, gone: seq<Slot>)
    requires SettledBy(reqs, reqs', gone) && ReqsOk(cfg, reqs)
    ensures Later(reqs, reqs')
  {
    hide ReqOk;
    forall r | r in reqs ensures reqs[r].next <= |reqs[r].blocks| { ReqLen(cfg, reqs[r]); }
  }

  lemma ResolveTotal(s: State, k: nat, s': State, w: Slot -> nat)
    requires k < |s.jobs| && s.jobs[k].left != [] && s'.queue == s.queue && s'.inflight == s.inflight
    requires var j, x := s.jobs[k], s.jobs[k].left[0];
             s'.jobs == s.jobs[k := Advanced(j)]
    ensures Total(s', w) == Total(s, w) - Sum([s.jobs[k].left[0]], w)
    ensures Freed(s'.jobs) == Freed(s.jobs) + |s.jobs[k].left[0].data|
    ensures Sum([s.jobs[k].left[0]], w) == w(s.jobs[k].left[0])
  {
    var j, x := s.jobs[k], s.jobs[k].left[0];
    SumJUpdate(s.jobs, k, s'.jobs[k], w);
    assert [x][1..] == [];
  }

  lemma ResolveSlots(s: State, k: nat, mid: State)
    requires SlotsOk(s) && k < |s.jobs| && s.jobs[k].left != []
    requires mid.queue == s.queue && mid.inflight == s.inflight && mid.reqs == s.reqs
    requires var j, x := s.jobs[k], s.jobs[k].left[0];
             mid.jobs == s.jobs[k := Advanced(j)]
    ensures SlotsOk(mid) && SlotOk(s.reqs, s.jobs[k].left[0])
  {
    hide SlotOk;
    assert AllOk(s.reqs, s.jobs[k].left);
    forall j | 0 <= j < |mid.jobs| ensures AllOk(s.reqs, mid.jobs[j].left) {
      assert AllOk(s.reqs, s.jobs[j].left);
    }
  }

  /** A delivery settles the slot with its own frame. */
  lemma NextIsRight(cfg: Config, s: State, k: nat)
    requires JobsOk(cfg, s.jobs) && k < |s.jobs| && s.jobs[k].phase == Settling && s.jobs[k].left != []
    ensures var j := s.jobs[k];
            && NextOutcome(j) != Pending && (NextOutcome(j).Frame? ==> cfg.frameOf(j.left[0].data, NextOutcome(j).frame))
            && JobsOk(cfg, s.jobs[k := Advanced(j)])
  {
    assert JobOk(cfg, s.jobs[k]);
    assert JobOk(cfg, Advanced(s.jobs[k]));
  }

  lemma ResolveKeeps(cfg: Config, s: State, k: nat, s': State)
    requires Inv(cfg, s) && k < |s.jobs| && s.jobs[k].phase == Settling && s.jobs[k].left != []
    requires var j, x := s.jobs[k], s.jobs[k].left[0];
             s' == s.(reqs := SettleIn(s.reqs, x, NextOutcome(j)), panicked := s'.panicked, jobs := s.jobs[k := Advanced(j)])
    ensures Inv(cfg, s')
  {
    hide Total, Sum, SumJ, Freed, AllOk, SlotsOk, ReqsOk, SettleIn, SettledBy, Later, Tracked, JobsOk;
    var x := s.jobs[k].left[0];
    var mid := s'.(reqs := s.reqs);
    ResolveSlots(s, k, mid);
    NextIsRight(cfg, s, k);
    SettleOne(cfg, s.reqs, x, NextOutcome(s.jobs[k]));
    SettledLater(cfg, s.reqs, s'.reqs, [x]);
    SlotsOkLater(mid, s');
    ResolveTotal(s, k, s', Size());
    forall r: nat, i: nat ensures Total(s', Is(r, i)) == Total(s, Is(r, i)) - Sum([x], Is(r, i)) {
      ResolveTotal(s, k, s', Is(r, i));
    }
    SettledTracked(s, s', [x]);
  }

  lemma FreeKeeps(cfg: Config, s: State, k: nat, s': State)
    requires Inv(cfg, s) && k < |s.jobs| && s.jobs[k].phase == Settling && s.jobs[k].left == []
    requires s' == s.(bytes := Sub(s.bytes, s.jobs[k].freed), jobs := s.jobs[k := s.jobs[k].(freed := 0)])
    ensures Inv(cfg, s') && s.jobs[k].freed <= s.bytes
  {
    hide ReqsOk, SlotsOk, Tracked, Total, Freed, SumJ;
    FreeTotal(s, k, s', Size());
    forall r: nat, i: nat ensures Total(s', Is(r, i)) == Total(s, Is(r, i)) { FreeTotal(s, k, s', Is(r, i)); }
    FreeSlots(s, k, s');
    TrackedSame2(s, s');
  }

  lemma FreeTotal(s: State, k: nat, s': State, w: Slot -> nat)
    requires k < |s.jobs| && s'.queue == s.queue && s'.inflight == s.inflight
    requires s'.jobs == s.jobs[k := s.jobs[k].(freed := 0)]
    ensures Total(s', w) == Total(s, w) && Freed(s'.jobs) == Freed(s.jobs) - s.jobs[k].freed
  {
    SumJUpdate(s.jobs, k, s.jobs[k].(freed := 0), w);
  }

  lemma FreeSlots(s: State, k: nat, s': State)
    requires SlotsOk(s) && k < |s.jobs| && s'.reqs == s.reqs
    requires s'.queue == s.queue && s'.inflight == s.inflight && s'.jobs == s.jobs[k := s.jobs[k].(freed := 0)]
    ensures SlotsOk(s')
  {
    hide SlotOk;
    forall j | 0 <= j < |s'.jobs| ensures AllOk(s'.reqs, s'.jobs[j].left) { assert AllOk(s.reqs, s.jobs[j].left); }
  }

  lemma TrackedSame2(s: State, s': State)
    requires Tracked(s) && s'.reqs == s.reqs && forall r: nat, i: nat :: Total(s', Is(r, i)) == Total(s, Is(r, i))
    ensures Tracked(s')
  {
    hide Total;
    forall r: nat, i: nat ensures HeldOnce(s', r, i) { assert HeldOnce(s, r, i); }
  }

  lemma DeliverTotal(s: State, j: Job, s': State, w: Slot -> nat)
    requires s.inflight != [] && s'.queue == s.queue && s'.inflight == s.inflight[1..] && s'.jobs == s.jobs + [j]
    requires j.left == s.inflight[0] && j.freed == 0
    ensures Total(s', w) == Total(s, w) && Freed(s'.jobs) == Freed(s.jobs)
  {
    SumJAppend(s.jobs, j, w);
  }

  lemma DeliverSlots(s: State, j: Job, s': State)
    requires SlotsOk(s) && s.inflight != [] && j.left == s.inflight[0]
    requires s'.queue == s.queue && s'.inflight == s.inflight[1..] && s'.jobs == s.jobs + [j] && s'.reqs == s.reqs
    ensures SlotsOk(s')
  {
    hide SlotOk;
    forall k | 0 <= k < |s'.inflight| ensures AllOk(s.reqs, s'.inflight[k]) {
      assert AllOk(s.reqs, s.inflight[k + 1]);
    }
    forall k | 0 <= k < |s'.jobs| ensures AllOk(s.reqs, s'.jobs[k].left) {
      if k < |s.jobs| { assert AllOk(s.reqs, s.jobs[k].left); } else { assert AllOk(s.reqs, s.inflight[0]); }
    }
  }

  /** A finished batch: the frames are those of the oldest batch in flight, which the batcher now delivers. */
  lemma DeliverKeeps(cfg: Config, s: State, frames: seq<bytes>, s': State)
    requires Inv(cfg, s) && Delivered(s) && s.engine != [] && s.inflight != []
    requires FramesFor(cfg, s.engine[0], frames) && |s.inflight[0]| == |frames|
    requires s' == s.(engine := s.engine[1..], inflight := s.inflight[1..], delivering := Some(|s.jobs|),
                      jobs := s.jobs + [Job(s.inflight[0], 0, Settling, Some(frames))])
    ensures Inv(cfg, s')
  {
    var batch := s.inflight[0];
    var j := Job(batch, 0, Settling, Some(frames));
    assert Aligned(s.engine, s.inflight);
    assert forall k :: 0 <= k < |batch| ==> s.engine[0][k] == batch[k].data;
    assert JobOk(cfg, j);
    DeliverSlots(s, j, s');
    DeliverTotal(s, j, s', Size());
    forall r: nat, i: nat ensures Total(s', Is(r, i)) == Total(s, Is(r, i)) { DeliverTotal(s, j, s', Is(r, i)); }
    hide Total, SlotsOk, ReqsOk, Sum, JobOk;
    TrackedSame2(s, s');
  }

  // ---- A batch with the wrong number of frames ----

  /** The batch is taken from those in flight, as the engine gave up its blocks. */
  lemma WrongPopKeeps(cfg: Config, s: State, s': State)
    requires Inv(cfg, s) && Delivered(s) && s.engine != [] && s.inflight != []
    requires s' == s.(engine := s.engine[1..], inflight := s.inflight[1..], delivering := Some(|s.jobs|),
                      jobs := s.jobs + [Job(s.inflight[0], 0, Holding, None)])
    ensures Inv(cfg, s')
  {
    hide Total, SlotsOk, ReqsOk, Tracked, EngineOk;
    var j := Job(s.inflight[0], 0, Holding, None);
    DeliverSlots(s, j, s');
    DeliverTotal(s, j, s', Size());
    forall r: nat, i: nat ensures Total(s', Is(r, i)) == Total(s, Is(r, i)) { DeliverTotal(s, j, s', Is(r, i)); }
    TrackedSame2(s, s');
    WrongPopEngine(s, s');
  }

  lemma WrongPopEngine(s: State, s': State)
    requires EngineOk(s) && Delivered(s) && s.engine != [] && s.inflight != []
    requires s' == s.(engine := s.engine[1..], inflight := s.inflight[1..], delivering := Some(|s.jobs|),
                      jobs := s.jobs + [Job(s.inflight[0], 0, Holding, None)])
    ensures EngineOk(s')
  {
    hide DataOf;
  }

  lemma PutBackTotal(s: State, k: nat, s': State, w: Slot -> nat)
    requires k < |s.jobs| && s.jobs[k].freed == 0 && s'.queue == s.queue && s'.inflight == [s.jobs[k].left] + s.inflight
    requires s'.jobs == s.jobs[k := Job([], 0, Returned, None)]
    ensures Total(s', w) == Total(s, w) && Freed(s'.jobs) == Freed(s.jobs)
  {
    SumJUpdate(s.jobs, k, s'.jobs[k], w);
    assert s'.inflight[1..] == s.inflight;
  }

  lemma PutBackSlots(s: State, k: nat, s': State)
    requires SlotsOk(s) && k < |s.jobs| && s'.queue == s.queue && s'.inflight == [s.jobs[k].left] + s.inflight
    requires s'.jobs == s.jobs[k := Job([], 0, Returned, None)] && s'.reqs == s.reqs
    ensures SlotsOk(s')
  {
    hide SlotOk;
    assert AllOk(s.reqs, s.jobs[k].left);
    forall n | 0 <= n < |s'.inflight| ensures AllOk(s.reqs, s'.inflight[n]) {
      if n > 0 { assert AllOk(s.reqs, s.inflight[n - 1]); }
    }
    forall j | 0 <= j < |s'.jobs| ensures AllOk(s.reqs, s'.jobs[j].left) {
      if j != k { assert AllOk(s.reqs, s.jobs[j].left); }
    }
  }

  lemma PutBackKeeps(cfg: Config, s: State, k: nat, s': State)
    requires Inv(cfg, s) && k < |s.jobs| && s.jobs[k].phase == Holding
    requires s' == s.(inflight := [s.jobs[k].left] + s.inflight, jobs := s.jobs[k := Job([], 0, Returned, None)])
    ensures Inv(cfg, s')
  {
    assert JobOk(cfg, s.jobs[k]);
    PutBackTotal(s, k, s', Size());
    forall r: nat, i: nat ensures Total(s', Is(r, i)) == Total(s, Is(r, i)) { PutBackTotal(s, k, s', Is(r, i)); }
    PutBackSlots(s, k, s');
    assert s'.inflight[1..] == s.inflight;
    hide Total, SlotsOk, ReqsOk, Aligned;
    TrackedSame(s, s');
  }

  lemma WrongFailTotal(s: State, k: nat, s': State, w: Slot -> nat)
    requires k < |s.jobs| && s.jobs[k].left == [] && s.jobs[k].freed == 0
    requires s'.queue == [] && s'.inflight == s.inflight && s'.jobs == s.jobs[k := Failing(s.queue)]
    ensures Total(s', w) == Total(s, w) && Freed(s'.jobs) == Freed(s.jobs)
  {
    SumJUpdate(s.jobs, k, s'.jobs[k], w);
  }

  lemma WrongFailSlots(s: State, k: nat, s': State)
    requires SlotsOk(s) && k < |s.jobs| && s'.queue == [] && s'.inflight == s.inflight && s'.reqs == s.reqs
    requires s'.jobs == s.jobs[k := Failing(s.queue)]
    ensures SlotsOk(s')
  {
    hide SlotOk;
    forall j | 0 <= j < |s'.jobs| ensures AllOk(s.reqs, s'.jobs[j].left) {
      if j != k { assert AllOk(s.reqs, s.jobs[j].left); }
    }
  }

  lemma WrongFailKeeps(cfg: Config, s: State, k: nat, s': State)
    requires Inv(cfg, s) && k < |s.jobs| && s.jobs[k].phase == Returned
    requires s' == s.(failed := true, queue := [], jobs := s.jobs[k := Failing(s.queue)])
    ensures Inv(cfg, s')
  {
    assert JobOk(cfg, s.jobs[k]);
    WrongFailTotal(s, k, s', Size());
    forall r: nat, i: nat ensures Total(s', Is(r, i)) == Total(s, Is(r, i)) { WrongFailTotal(s, k, s', Is(r, i)); }
    WrongFailSlots(s, k, s');
    hide Total, SlotsOk, ReqsOk, Aligned;
    TrackedSame(s, s');
  }

  // ---- Steps of the writers ----

  lemma {:induction false} NotIn(reqs: map<nat, Request>, slots: seq<Slot>, r: nat, i: nat)
    requires AllOk(reqs, slots) && (r !in reqs || i >= reqs[r].next)
    ensures Sum(slots, Is(r, i)) == 0
  {
    if slots != [] {
      AllOkParts(reqs, slots);
      NotIn(reqs, slots[1..], r, i);
    }
  }

  lemma {:induction false} NotInFlight(reqs: map<nat, Request>, batches: seq<seq<Slot>>, r: nat, i: nat)
    requires (forall k :: 0 <= k < |batches| ==> AllOk(reqs, batches[k])) && (r !in reqs || i >= reqs[r].next)
    ensures SumB(batches, Is(r, i)) == 0
  {
    hide AllOk;
    if batches != [] {
      NotIn(reqs, batches[0], r, i);
      NotInFlight(reqs, batches[1..], r, i);
    }
  }

  lemma {:induction false} NotInJobs(reqs: map<nat, Request>, jobs: seq<Job>, r: nat, i: nat)
    requires (forall k :: 0 <= k < |jobs| ==> AllOk(reqs, jobs[k].left)) && (r !in reqs || i >= reqs[r].next)
    ensures SumJ(jobs, Is(r, i)) == 0
  {
    hide AllOk;
    if jobs != [] {
      NotIn(reqs, jobs[0].left, r, i);
      NotInJobs(reqs, jobs[1..], r, i);
    }
  }

  /** A block still with its writer is not held anywhere else. */
  lemma NotHeld(s: State, r: nat, i: nat)
    requires SlotsOk(s) && (r !in s.reqs || i >= s.reqs[r].next)
    ensures Total(s, Is(r, i)) == 0
  {
    hide AllOk;
    NotIn(s.reqs, s.queue, r, i);
    NotInFlight(s.reqs, s.inflight, r, i);
    NotInJobs(s.reqs, s.jobs, r, i);
  }

  lemma EnqueueTotal(s: State, s': State, x: Slot, w: Slot -> nat)
    requires s'.queue == s.queue + [x] && s'.inflight == s.inflight && s'.jobs == s.jobs
    ensures Total(s', w) == Total(s, w) + w(x)
  {
    SumAppend(s.queue, [x], w);
    assert [x][1..] == [];
  }

  lemma EnqueueTracked(cfg: Config, s: State, r: nat, x: Slot, s': State)
    requires Inv(cfg, s) && r in s.reqs && s.reqs[r].next < |s.reqs[r].blocks|
    requires x == Slot(r, s.reqs[r].next, x.data)
    requires s'.queue == s.queue + [x] && s'.inflight == s.inflight && s'.jobs == s.jobs
    requires s'.reqs == s.reqs[r := s.reqs[r].(next := s.reqs[r].next + 1)]
    ensures Tracked(s')
  {
    NotHeld(s, r, s.reqs[r].next);
    forall q: nat, i: nat ensures HeldOnce(s', q, i) {
      EnqueueTotal(s, s', x, Is(q, i));
      hide Total;
      assert HeldOnce(s, q, i);
    }
  }

  lemma EnqueueKeeps(cfg: Config, s: State, r: nat, s': State)
    requires Inv(cfg, s) && Valid(cfg) && r in s.reqs && s.reqs[r].next < |s.reqs[r].blocks| && !s.failed && !s.shutdown
    requires var q := s.reqs[r];
             var data := q.blocks[q.next];
             && !(s.bytes > 0 && s.bytes + |data| > cfg.maxInflight)
             && s' == s.(queue := s.queue + [Slot(r, q.next, data)], bytes := s.bytes + |data|,
                         reqs := s.reqs[r := q.(next := q.next + 1)])
    ensures Inv(cfg, s')
  {
    hide Total, ReqOk, Tracked, SlotsOk, Later, JobsOk;
    var q := s.reqs[r];
    var x := Slot(r, q.next, q.blocks[q.next]);
    EnqueueTracked(cfg, s, r, x, s');
    EnqueueTotal(s, s', x, Size());
    NextOk(cfg, q);
    var mid := s.(reqs := s'.reqs);
    LaterNext(cfg, s.reqs, r);
    SlotsOkLater(s, mid);
    EnqueueSlots(mid, x, s');
  }

  lemma EnqueueSlots(s: State, x: Slot, s': State)
    requires SlotsOk(s) && SlotOk(s.reqs, x) && s' == s.(queue := s.queue + [x], bytes := s'.bytes)
    ensures SlotsOk(s')
  {
    hide SlotOk;
  }

  lemma NextOk(cfg: Config, q: Request)
    requires ReqOk(cfg, q) && q.next < |q.blocks|
    ensures ReqOk(cfg, q.(next := q.next + 1)) && |q.blocks[q.next]| <= MAX_BLOCK && !q.taken && q.left > 0
  {
    PendingNone(q.out);
  }

  lemma LaterNext(cfg: Config, reqs: map<nat, Request>, r: nat)
    requires ReqsOk(cfg, reqs) && r in reqs && reqs[r].next < |reqs[r].blocks|
    ensures Later(reqs, reqs[r := reqs[r].(next := reqs[r].next + 1)])
  {
    hide ReqOk;
    forall p | p in reqs ensures reqs[p].next <= |reqs[p].blocks| { ReqLen(cfg, reqs[p]); }
  }

  /** Steps that change one request and nothing else. */
  lemma RequestKeeps(cfg: Config, s: State, r: nat, q: Request)
    requires Inv(cfg, s) && ReqOk(cfg, q)
    requires r in s.reqs ==> q.blocks == s.reqs[r].blocks && s.reqs[r].next <= q.next
    requires forall i :: 0 <= i < q.next && q.out[i] == Pending ==>
               r in s.reqs && i < s.reqs[r].next && s.reqs[r].out[i] == Pending
    ensures Inv(cfg, s.(reqs := s.reqs[r := q]))
  {
    var s' := s.(reqs := s.reqs[r := q]);
    hide ReqOk;
    ReqLen(cfg, q);
    forall p | p in s.reqs ensures |s.reqs[p].out| == |s.reqs[p].blocks| && s.reqs[p].next <= |s.reqs[p].blocks| {
      ReqLen(cfg, s.reqs[p]);
    }
    SlotsOkLater(s, s');
    hide Total, SlotsOk, Later;
    forall p: nat, i: nat ensures HeldOnce(s', p, i) {
      assert HeldOnce(s, p, i);
      assert Total(s', Is(p, i)) == Total(s, Is(p, i)) by { SameTotal(s, s', Is(p, i)); }
    }
    SameTotal(s, s', Size());
  }

  lemma SameTotal(s: State, s': State, w: Slot -> nat)
    requires s'.queue == s.queue && s'.inflight == s.inflight && s'.jobs == s.jobs
    ensures Total(s', w) == Total(s, w)
  {
  }

  lemma StartOk(cfg: Config, blocks: seq<bytes>)
    requires forall k :: 0 <= k < |blocks| ==> |blocks[k]| <= MAX_BLOCK
    ensures ReqOk(cfg, Request(blocks, seq(|blocks|, _ => Pending), |blocks|, 0, false))
  {
    PendingAll(|blocks|);
  }

  lemma SettleOwnOk(cfg: Config, q: Request)
    requires ReqOk(cfg, q) && q.next < |q.blocks|
    ensures var q' := Resolved(q, q.next, Cpu).(next := q.next + 1);
            && ReqOk(cfg, q') && q'.blocks == q.blocks
            && forall i :: 0 <= i < q'.next && q'.out[i] == Pending ==> i < q.next && q.out[i] == Pending
  {
    NextOk(cfg, q);
    ResolvedOk(cfg, q.(next := q.next + 1), q.next, Cpu);
  }

  lemma StallOk(cfg: Config, q: Request)
    requires ReqOk(cfg, q)
    ensures var out := seq(|q.out|, i requires 0 <= i < |q.out| => if q.out[i] == Pending then Cpu else q.out[i]);
            q.next == |q.blocks| ==> ReqOk(cfg, q.(out := out, left := 0))
  {
    var out := seq(|q.out|, i requires 0 <= i < |q.out| => if q.out[i] == Pending then Cpu else q.out[i]);
    PendingNone(out);
  }

  // ---- Every step, every run ----

  lemma JobsKeep(cfg: Config, s: State, e: Event, s': State)
    requires Inv(cfg, s) && Step(cfg, s, e, s') && (e.Fail? || e.StallFail? || e.Quiet?)
    ensures Inv(cfg, s')
  {
    hide ReqsOk, SlotsOk, Tracked, Counted, Resolved, SettleIn, Flatten, Len;
    NewJobKeeps(cfg, s, s');
  }

  lemma WritersKeep(cfg: Config, s: State, e: Event, s': State)
    requires Inv(cfg, s) && Valid(cfg) && Step(cfg, s, e, s')
    requires e.Start? || e.Enqueue? || e.SettleOwn? || e.StallSettle? || e.Take?
    ensures Inv(cfg, s')
  {
    hide SlotsOk, Tracked, Counted, EngineOk, SettleIn, Flatten, Len, ReqOk, Resolved;
    match e
    case Start(r, blocks) =>
      StartOk(cfg, blocks);
      RequestKeeps(cfg, s, r, s'.reqs[r]);
    case Enqueue(r) => EnqueueKeeps(cfg, s, r, s');
    case SettleOwn(r) =>
      SettleOwnOk(cfg, s.reqs[r]);
      RequestKeeps(cfg, s, r, s'.reqs[r]);
    case StallSettle(r) =>
      StallOk(cfg, s.reqs[r]);
      RequestKeeps(cfg, s, r, s'.reqs[r]);
    case Take(r) =>
      TakeOk(cfg, s.reqs[r]);
      RequestKeeps(cfg, s, r, s'.reqs[r]);
  }

  lemma TakeOk(cfg: Config, q: Request)
    requires ReqOk(cfg, q) && q.next == |q.blocks| && q.left == 0
    ensures ReqOk(cfg, q.(taken := true)) && |q.out| == |q.blocks|
  {
  }

  lemma BatcherKeeps(cfg: Config, s: State, e: Event, s': State)
    requires Inv(cfg, s) && Step(cfg, s, e, s')
    requires e.Fill? || e.Deliver? || e.WrongPop? || e.PutBack? || e.WrongFail? || e.DrainInflight? || e.Resolve? || e.Free?
    ensures Inv(cfg, s')
  {
    hide ReqsOk, SlotsOk, Tracked, Counted, Resolved, SettleIn, Flatten, Len, Sub, Gone;
    match e
    case Fill(n) => FillKeeps(cfg, s, n, s');
    case Deliver(frames) =>
      if s.inflight != [] { DeliverKeeps(cfg, s, frames, s'); }
      else { IdleKeeps(cfg, s, s'); }
    case WrongPop(frames) => WrongPopKeeps(cfg, s, s');
    case PutBack(k) => PutBackKeeps(cfg, s, k, s');
    case WrongFail(k) => WrongFailKeeps(cfg, s, k, s');
    case DrainInflight(k) => DrainKeeps(cfg, s, k, s');
    case Resolve(k) => ResolveKeeps(cfg, s, k, s');
    case Free(k) => FreeKeeps(cfg, s, k, s');
  }

  /** Flags and the engine's own list may change where nothing depends on them. */
  lemma IdleKeeps(cfg: Config, s: State, s': State)
    requires Inv(cfg, s) && EngineOk(s')
    requires s' == s.(engine := s'.engine, shutdown := s'.shutdown, stopped := s'.stopped)
    ensures Inv(cfg, s')
  {
    hide Total, EngineOk, ReqsOk;
    forall r: nat, i: nat ensures Total(s', Is(r, i)) == Total(s, Is(r, i)) { SameTotal(s, s', Is(r, i)); }
    SameTotal(s, s', Size());
    hide SlotsOk;
    TrackedSame2(s, s');
    assert SlotsOk(s') by { SameSlots(s, s'); }
  }

  lemma SameSlots(s: State, s': State)
    requires SlotsOk(s) && s'.queue == s.queue && s'.inflight == s.inflight && s'.jobs == s.jobs && s'.reqs == s.reqs
    ensures SlotsOk(s')
  {
  }

  lemma StepKeeps(cfg: Config, s: State, e: Event, s': State)
    requires Inv(cfg, s) && Valid(cfg) && Step(cfg, s, e, s')
    ensures Inv(cfg, s')
  {
    hide ReqsOk, SlotsOk, Tracked, Counted, Resolved, SettleIn, Flatten, Len, Sub, Gone;
    if e.Start? || e.Enqueue? || e.SettleOwn? || e.StallSettle? || e.Take? { WritersKeep(cfg, s, e, s'); }
    else if e.Fail? || e.StallFail? || e.Quiet? { JobsKeep(cfg, s, e, s'); }
    else if e.Shutdown? || e.Exit? { IdleKeeps(cfg, s, s'); }
    else { BatcherKeeps(cfg, s, e, s'); }
  }

  ghost predicate Run(cfg: Config, run: seq<State>, events: seq<Event>) {
    && Valid(cfg) && |run| == |events| + 1 && run[0] == Fresh()
    && forall i :: 0 <= i < |events| ==> Step(cfg, run[i], events[i], run[i + 1])
  }

  lemma {:induction false} RunInv(cfg: Config, run: seq<State>, events: seq<Event>, i: nat)
    requires Run(cfg, run, events) && i < |run|
    ensures Inv(cfg, run[i])
  {
    hide Step, Inv;
    if i == 0 { FreshInv(cfg); }
    else {
      RunInv(cfg, run, events, i - 1);
      StepKeeps(cfg, run[i - 1], events[i - 1], run[i]);
    }
  }

  lemma FreshInv(cfg: Config)
    requires Valid(cfg)
    ensures Inv(cfg, Fresh())
  {
  }
}
