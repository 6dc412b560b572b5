/** The pool as the object its readers share. Each method is a step of the pool's runs; beside that its
    contract says what a caller sees. */
module CdnShared {
  import opened Base
  import opened Cdn
  import opened CdnRuns

  /** Only host `i` changed. */
  ghost predicate OnlyHost(was: Pool, now: Pool, i: nat) {
    && now.current == was.current && |now.hosts| == |was.hosts|
    && forall j :: 0 <= j < |was.hosts| && j != i ==> now.hosts[j] == was.hosts[j]
  }

  /** The host may take requests at the same times as before. */
  ghost predicate SameOpen(cfg: Config, was: Host, now: Host) {
    now.failures == was.failures && forall n: nat :: Open(cfg, now, n) <==> Open(cfg, was, n)
  }

  lemma OneHostStep(cfg: Config, p: Pool, e: Event, p': Pool, before: nat, after: nat)
    requires PoolOk(cfg, p, before) && StepOk(cfg, p, e, p', before, after) && !e.Pick? && !e.Peek?
    ensures PoolOk(cfg, p', after) && OnlyHost(p, p', e.i) && p'.hosts[e.i] == HostAfter(cfg, p.hosts[e.i], e)
  {
    hide HostAfter, HostOk;
    StepKeeps(cfg, p, e, p', before, after);
  }

  class CdnPool {
    const cfg: Config
    var pool: Pool
    /** The time of the last lock section. */
    ghost var clock: nat

    ghost predicate Valid()
      reads this
    {
      PoolOk(cfg, pool, clock)
    }

    constructor (cfg: Config, n: nat)
      requires n > 0
      ensures Valid() && this.cfg == cfg && clock == 0 && |pool.hosts| == n && pool.current.None?
      ensures forall i, now: nat :: 0 <= i < n ==> Open(cfg, pool.hosts[i], now) && pool.hosts[i].latency == Unknown
    {
      this.cfg := cfg;
      pool := Pool(None, seq(n, _ => Host(0, None, Unknown, None, None, None, None)));
      clock := 0;
    }

    /** A sample as old as the longest cooldown is forgotten, a younger one is not. */
    method RefreshHosts(now: nat)
      modifies this`pool
      ensures pool == Refresh(cfg, old(pool), now) && |pool.hosts| == |old(pool.hosts)|
      ensures forall i :: 0 <= i < |pool.hosts| ==> Aged(cfg, old(pool.hosts)[i], pool.hosts[i], now)
    {
      ghost var was := pool.hosts;
      for i := 0 to |pool.hosts|
        invariant |pool.hosts| == |was| && pool.current == old(pool.current)
        invariant forall j :: 0 <= j < i ==> pool.hosts[j] == Refreshed(cfg, was[j], now)
        invariant forall j :: i <= j < |was| ==> pool.hosts[j] == was[j]
      {
        var h := pool.hosts[i];
        if h.sampled.Some? && Since(now, h.sampled.value) >= cfg.max {
          pool := pool.(hosts := pool.hosts[i := h.(
                         latency := if h.baseline.Some? then Measured(h.baseline.value) else Unknown, sampled := None)]);
        }
      }
    }

    /** Picks the host for a request, and how long to wait first. `now` was read before the lock was taken
        at `at`. */
    method Pick(now: nat, ghost at: nat) returns (i: nat, wait: nat)
      requires Valid() && clock <= at && now <= at
      modifies this`pool, this`clock
      ensures Valid() && clock == at && StepOk(cfg, old(pool), Event.Pick(now), pool, old(clock), at) && i < |pool.hosts|
      ensures Sends(cfg, old(pool), now) == Some((i, wait))
      ensures wait > 0 ==> now + wait <= at + cfg.max
    {
      RefreshKeeps(cfg, pool, clock, at, now);
      RefreshHosts(now);
      clock := at;
      var c := Choose(cfg, pool, now);
      if c.Some? {
        i, wait := c.value, 0;
        PickedKeeps(cfg, pool, i, now, at);
        pool := Picked(pool, i, now);
        return;
      }
      AllCooling(cfg, pool, at, now);
      var first := FirstUp(pool.hosts, |pool.hosts|);
      i, wait := first.value.0, Since(first.value.1, now);
    }

    /** The host is healthy and may take requests at any time; its rank is what it was. */
    method ReportSuccess(i: nat)
      requires Valid() && i < |pool.hosts|
      modifies this`pool
      ensures Valid() && StepOk(cfg, old(pool), Success(i), pool, old(clock), clock) && OnlyHost(old(pool), pool, i)
      ensures pool.hosts[i].failures == 0 && pool.hosts[i].latency == old(pool.hosts[i].latency)
      ensures forall now: nat :: Open(cfg, pool.hosts[i], now)
    {
      ghost var was := pool;
      pool := pool.(hosts := pool.hosts[i := Succeeded(pool.hosts[i])]);
      OneHostStep(cfg, was, Success(i), pool, clock, clock);
    }

    /** The host has failed and may take no request before the end of its cooldown, which is at most the
        longest one away; then it may at once, as no trial of it is out. */
    method ReportFailure(i: nat, retryAfter: Option<nat>, now: nat)
      requires Valid() && i < |pool.hosts| && clock <= now
      modifies this`pool, this`clock
      ensures Valid() && clock == now && StepOk(cfg, old(pool), Failure(i, retryAfter, now), pool, old(clock), now)
      ensures OnlyHost(old(pool), pool, i)
      ensures var h := pool.hosts[i];
              && h.failures > 0 && h.until.Some? && now <= h.until.value <= now + cfg.max
              && (retryAfter.Some? ==> h.until.value == now + Min(retryAfter.value, cfg.max))
              && h.latency == old(pool.hosts[i].latency) && h.warm.None?
              && forall n: nat :: Open(cfg, h, n) <==> h.until.value <= n
    {
      ghost var was, before := pool, clock;
      pool := pool.(hosts := pool.hosts[i := Failed(cfg, pool.hosts[i], retryAfter, now)]);
      clock := now;
      OneHostStep(cfg, was, Failure(i, retryAfter, now), pool, before, now);
    }

    /** The host may take a request as soon as its cooldown is over, whatever trial was out. */
    method ReportRetry(i: nat)
      requires Valid() && i < |pool.hosts|
      modifies this`pool
      ensures Valid() && StepOk(cfg, old(pool), Retry(i), pool, old(clock), clock) && OnlyHost(old(pool), pool, i)
      ensures pool.hosts[i].failures == old(pool.hosts[i].failures) && pool.hosts[i].latency == old(pool.hosts[i].latency)
      ensures forall n: nat :: Open(cfg, pool.hosts[i], n)
                               <==> old(pool.hosts[i].until).None? || old(pool.hosts[i].until).value <= n
    {
      ghost var was := pool;
      pool := pool.(hosts := pool.hosts[i := pool.hosts[i].(trial := None)]);
      OneHostStep(cfg, was, Retry(i), pool, clock, clock);
    }

    /** The answer to a request sent on a warm connection moves the host's average towards its time; the
        first answers only warm the connection. When the host may take requests does not change. */
    method ReportLatency(i: nat, sent: nat, ttfb: nat, now: nat, ghost at: nat)
      requires Valid() && i < |pool.hosts| && clock <= at && now <= at
      modifies this`pool, this`clock
      ensures Valid() && clock == at && StepOk(cfg, old(pool), Answer(i, sent, ttfb, now), pool, old(clock), at)
      ensures OnlyHost(old(pool), pool, i)
      ensures SameOpen(cfg, old(pool.hosts[i]), pool.hosts[i]) && pool.hosts[i].warm.Some?
      ensures var was, h := old(pool.hosts[i]), pool.hosts[i];
              if sent < h.warm.value then h.latency == was.latency
              else
                && h.latency.Measured? && h.sampled == Some(now)
                && if was.latency.Measured?
                   then
                     && Min(was.latency.time, ttfb) <= h.latency.time <= Max(was.latency.time, ttfb)
                     && 4 * h.latency.time <= 3 * was.latency.time + ttfb < 4 * h.latency.time + 4
                   else h.latency.time == ttfb
      ensures pool.hosts[i].warm == if old(pool.hosts[i].warm).Some? then old(pool.hosts[i].warm) else Some(now)
    {
      ghost var was, before := pool, clock;
      pool := pool.(hosts := pool.hosts[i := Timed(pool.hosts[i], sent, ttfb, now)]);
      clock := at;
      OneHostStep(cfg, was, Answer(i, sent, ttfb, now), pool, before, at);
    }

    /** A stalled host ranks no better than before, and if measured no better than the wait. */
    method ReportStall(i: nat, waited: nat, now: nat)
      requires Valid() && i < |pool.hosts| && clock <= now
      modifies this`pool, this`clock
      ensures Valid() && clock == now && StepOk(cfg, old(pool), Stall(i, waited, now), pool, old(clock), now)
      ensures OnlyHost(old(pool), pool, i)
      ensures SameOpen(cfg, old(pool.hosts[i]), pool.hosts[i])
      ensures !Less(pool.hosts[i].latency, old(pool.hosts[i].latency))
      ensures var was, h := old(pool.hosts[i]), pool.hosts[i];
              if was.latency.Measured? && waited > was.latency.time
              then h.latency == Measured(waited) && h.sampled == Some(now)
              else h == was
    {
      ghost var was, before := pool, clock;
      pool := pool.(hosts := pool.hosts[i := Stalled(pool.hosts[i], waited, now)]);
      clock := now;
      OneHostStep(cfg, was, Stall(i, waited, now), pool, before, now);
    }

    /** Takes the probes' answers as they land. */
    method Probe(answers: seq<(nat, Option<nat>)>) returns (any: bool)
      requires Valid() && forall k :: 0 <= k < |answers| ==> answers[k].0 < |pool.hosts|
      modifies this`pool
      ensures Valid() && pool == ProbedAll(old(pool), answers)
      ensures any <==> exists k :: 0 <= k < |answers| && answers[k].1.Some?
    {
      any := false;
      for k := 0 to |answers|
        invariant Valid() && |pool.hosts| == old(|pool.hosts|) && pool == ProbedAll(old(pool), answers[..k])
        invariant any <==> exists j :: 0 <= j < k && answers[j].1.Some?
      {
        var (i, answer) := answers[k];
        assert answers[..k + 1][..k] == answers[..k];
        pool := pool.(hosts := pool.hosts[i := Probed(pool.hosts[i], answer)]);
        any := any || answer.Some?;
      }
      assert answers[..|answers|] == answers;
    }

    /** The first half of `preconnect`: the host that a `pick` of the same moment chooses. Nothing is marked
        as in use or on trial, and the pool would still choose that host. */
    method Peek(now: nat, ghost at: nat) returns (c: Option<nat>)
      requires Valid() && clock <= at && now <= at
      modifies this`pool, this`clock
      ensures Valid() && clock == at && StepOk(cfg, old(pool), Event.Peek(now), pool, old(clock), at)
      ensures |pool.hosts| == |old(pool.hosts)|
      ensures c == Chosen(cfg, old(pool), now) == Chosen(cfg, pool, now)
      ensures pool.current == old(pool.current)
      ensures forall i :: 0 <= i < |pool.hosts| ==> SameOpen(cfg, old(pool.hosts)[i], pool.hosts[i])
    {
      RefreshKeeps(cfg, pool, clock, at, now);
      RefreshTwice(cfg, pool, now);
      RefreshHosts(now);
      clock := at;
      c := Choose(cfg, pool, now);
    }

    /** The second half, once the connection is open: the host counts as connected, from now on if it did not
        yet. Its rank and when it may take requests do not change. */
    method Connect(i: nat, now: nat)
      requires Valid() && i < |pool.hosts| && clock <= now
      modifies this`pool, this`clock
      ensures Valid() && clock == now && StepOk(cfg, old(pool), Event.Connect(i, now), pool, old(clock), now)
      ensures OnlyHost(old(pool), pool, i)
      ensures SameOpen(cfg, old(pool.hosts[i]), pool.hosts[i]) && pool.hosts[i].latency == old(pool.hosts[i].latency)
      ensures pool.hosts[i].warm == if old(pool.hosts[i].warm).Some? then old(pool.hosts[i].warm) else Some(now)
    {
      ghost var was, before := pool, clock;
      pool := pool.(hosts := pool.hosts[i := Connected(pool.hosts[i], now)]);
      clock := now;
      OneHostStep(cfg, was, Event.Connect(i, now), pool, before, now);
    }
  }

  function ProbedAll(p: Pool, answers: seq<(nat, Option<nat>)>): (r: Pool)
    requires forall k :: 0 <= k < |answers| ==> answers[k].0 < |p.hosts|
    ensures |r.hosts| == |p.hosts|
  {
    if answers == [] then p
    else
      var n := |answers| - 1;
      var q := ProbedAll(p, answers[..n]);
      q.(hosts := q.hosts[answers[n].0 := Probed(q.hosts[answers[n].0], answers[n].1)])
  }

  /** After its probes a host that answered ranks by its last answer. */
  lemma {:induction false} ProbedRank(p: Pool, answers: seq<(nat, Option<nat>)>, k: nat)
    requires forall j :: 0 <= j < |answers| ==> answers[j].0 < |p.hosts|
    requires k < |answers| && answers[k].1.Some?
    requires forall j :: k < j < |answers| ==> answers[j].0 != answers[k].0 || answers[j].1.None?
    ensures var h := ProbedAll(p, answers).hosts[answers[k].0];
            h.latency == Measured(answers[k].1.value) && h.baseline == answers[k].1
    decreases |answers|
  {
    var n := |answers| - 1;
    if k < n { ProbedRank(p, answers[..n], k); }
  }

  /** A host that answered none of its probes is unreachable, unless a request had measured it. */
  lemma {:induction false} NeverAnswered(p: Pool, answers: seq<(nat, Option<nat>)>, i: nat)
    requires i < |p.hosts| && forall j :: 0 <= j < |answers| ==> answers[j].0 < |p.hosts|
    requires forall j :: 0 <= j < |answers| && answers[j].0 == i ==> answers[j].1.None?
    ensures ProbedAll(p, answers).hosts[i]
            == if p.hosts[i].latency.Unknown? && exists j :: 0 <= j < |answers| && answers[j].0 == i
               then p.hosts[i].(latency := Unreachable) else p.hosts[i]
    decreases |answers|
  {
    if answers != [] {
      var n := |answers| - 1;
      NeverAnswered(p, answers[..n], i);
      assert forall j :: 0 <= j < n ==> answers[..n][j] == answers[j];
    }
  }
}
