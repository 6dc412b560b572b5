/** The pool of content servers: ranking by latency, cooldowns, trials and hysteresis. Times and
    durations are natural numbers of one unit. */
module Cdn {
  import opened Base

  /** Best first: measured hosts, then hosts never measured, then hosts whose probe failed. */
  datatype Latency = Measured(time: nat) | Unknown | Unreachable

  function Class(l: Latency): nat {
    match l case Measured(_) => 0 case Unknown => 1 case Unreachable => 2
  }

  predicate Less(a: Latency, b: Latency) {
    Class(a) < Class(b) || (a.Measured? && b.Measured? && a.time < b.time)
  }

  const SWITCH_FACTOR: nat := 2
  const LATENCY_SMOOTHING: nat := 4
  const MAX_U32: nat := 0xFFFF_FFFF

  /** Whether `challenger` is enough faster than `incumbent` to replace it. */
  predicate ClearlyFaster(challenger: Latency, incumbent: Latency) {
    if challenger.Measured? && incumbent.Measured? then challenger.time * SWITCH_FACTOR < incumbent.time
    else Less(challenger, incumbent)
  }

  datatype Host = Host(
    failures: nat, until: Option<nat>, latency: Latency, baseline: Option<nat>,
    sampled: Option<nat>, warm: Option<nat>, trial: Option<nat>)

  datatype Pool = Pool(current: Option<nat>, hosts: seq<Host>)

  datatype Config = Config(base: nat, max: nat, trialTimeout: nat)

  /** `later.saturating_duration_since(earlier)`. */
  function Since(later: nat, earlier: nat): nat { if later < earlier then 0 else later - earlier }

  // ---- Choosing a host ----

  /** A trial request of the host is still out. */
  predicate Trying(cfg: Config, h: Host, now: nat) {
    h.trial.Some? && Since(now, h.trial.value) < cfg.trialTimeout
  }

  predicate Open(cfg: Config, h: Host, now: nat) {
    (h.until.None? || h.until.value <= now) && (h.failures == 0 || !Trying(cfg, h, now))
  }

  /** The order of `min_by_key`: latency, then position. */
  predicate Before(hosts: seq<Host>, i: nat, j: nat)
    requires i < |hosts| && j < |hosts|
  {
    Less(hosts[i].latency, hosts[j].latency) || (hosts[i].latency == hosts[j].latency && i < j)
  }

  /** The fastest open host among the first `n`. */
  function Best(cfg: Config, hosts: seq<Host>, now: nat, n: nat): (r: Option<nat>)
    requires n <= |hosts|
    ensures r.Some? ==> r.value < n && Open(cfg, hosts[r.value], now)
    ensures r.None? ==> forall i :: 0 <= i < n ==> !Open(cfg, hosts[i], now)
    ensures r.Some? ==> forall i :: 0 <= i < n && i != r.value && Open(cfg, hosts[i], now) ==> Before(hosts, r.value, i)
  {
    if n == 0 then None
    else
      var b := Best(cfg, hosts, now, n - 1);
      if !Open(cfg, hosts[n - 1], now) then b
      else if b.None? || Before(hosts, n - 1, b.value) then Some(n - 1)
      else b
  }

  function Choose(cfg: Config, p: Pool, now: nat): (r: Option<nat>)
    requires p.current.Some? ==> p.current.value < |p.hosts|
    ensures r.Some? ==> r.value < |p.hosts|
    ensures r.None? ==> forall i :: 0 <= i < |p.hosts| ==> !Open(cfg, p.hosts[i], now)
  {
    var best := Best(cfg, p.hosts, now, |p.hosts|);
    if best.None? then None
    else if p.current.Some? && p.hosts[p.current.value].failures == 0
            && !ClearlyFaster(p.hosts[best.value].latency, p.hosts[p.current.value].latency)
    then p.current
    else best
  }

  // ---- The operations, on the pool's state ----

  function Refreshed(cfg: Config, h: Host, now: nat): Host {
    if h.sampled.Some? && Since(now, h.sampled.value) >= cfg.max
    then h.(latency := if h.baseline.Some? then Measured(h.baseline.value) else Unknown, sampled := None)
    else h
  }

  function Refresh(cfg: Config, p: Pool, now: nat): (r: Pool)
    ensures |r.hosts| == |p.hosts| && r.current == p.current
  {
    p.(hosts := seq(|p.hosts|, i requires 0 <= i < |p.hosts| => Refreshed(cfg, p.hosts[i], now)))
  }

  /** The host that recovers first among the first `n`, if any is cooling down. */
  function FirstUp(hosts: seq<Host>, n: nat): (r: Option<(nat, nat)>)
    requires n <= |hosts|
    ensures r.Some? ==> r.value.0 < n && hosts[r.value.0].until == Some(r.value.1)
    ensures r.Some? ==> forall i :: 0 <= i < n && hosts[i].until.Some? ==> r.value.1 <= hosts[i].until.value
    ensures r.Some? ==> forall i :: 0 <= i < r.value.0 && hosts[i].until.Some? ==> r.value.1 < hosts[i].until.value
    ensures r.None? ==> forall i :: 0 <= i < n ==> hosts[i].until.None?
  {
    if n == 0 then None
    else
      var b := FirstUp(hosts, n - 1);
      if hosts[n - 1].until.None? then b
      else if b.None? || hosts[n - 1].until.value < b.value.1 then Some((n - 1, hosts[n - 1].until.value))
      else b
  }

  /** The host a request goes to and how long it waits first: the chosen host at once, or else the one that
      recovers first. */
  function Sent(cfg: Config, p: Pool, now: nat): (r: Option<(nat, nat)>)
    requires p.current.Some? ==> p.current.value < |p.hosts|
    ensures r.Some? ==> r.value.0 < |p.hosts|
  {
    var c := Choose(cfg, p, now);
    if c.Some? then Some((c.value, 0))
    else
      var up := FirstUp(p.hosts, |p.hosts|);
      if up.None? then None else Some((up.value.0, Since(up.value.1, now)))
  }

  /** What `pick` makes of the pool once a host is chosen. */
  function Picked(p: Pool, i: nat, now: nat): Pool
    requires i < |p.hosts|
  {
    if p.hosts[i].failures > 0 then p.(hosts := p.hosts[i := p.hosts[i].(trial := Some(now))])
    else p.(current := Some(i))
  }

  function Pow2(n: nat): nat { if n == 0 then 1 else 2 * Pow2(n - 1) }

  /** How long a host cools down after its `failures`-th failure in a row. */
  function Cooldown(cfg: Config, failures: nat, retryAfter: Option<nat>): (c: nat)
    requires failures > 0
    ensures c <= cfg.max
  {
    Min(if retryAfter.Some? then retryAfter.value else cfg.base * Pow2(Min(failures - 1, 16)), cfg.max)
  }

  function Succeeded(h: Host): Host { h.(failures := 0, until := None, trial := None) }

  function Failed(cfg: Config, h: Host, retryAfter: Option<nat>, now: nat): Host {
    var n := Min(h.failures + 1, MAX_U32);
    h.(failures := n, until := Some(now + Cooldown(cfg, n, retryAfter)), trial := None, warm := None)
  }

  function Timed(h: Host, sent: nat, ttfb: nat, now: nat): (r: Host)
    ensures h.latency.Measured? ==>
              r.latency.Measured? && Min(h.latency.time, ttfb) <= r.latency.time <= Max(h.latency.time, ttfb)
    ensures r.sampled == Some(now) || r.(warm := h.warm) == h
    ensures h.latency.Measured? && r.warm.Some? && r.warm.value <= sent ==>
              4 * r.latency.time <= h.latency.time + h.latency.time + h.latency.time + ttfb < 4 * r.latency.time + 4
  {
    var warm := if h.warm.Some? then h.warm.value else now;
    var w := h.(warm := Some(warm));
    if sent < warm then w
    else
      w.(latency := Measured(if h.latency.Measured?
                             then (h.latency.time * (LATENCY_SMOOTHING - 1) + ttfb) / 4 else ttfb),
         sampled := Some(now))
  }

  function Stalled(h: Host, waited: nat, now: nat): (r: Host)
    ensures Class(r.latency) == Class(h.latency) && !Less(r.latency, h.latency)
    ensures r.latency.Measured? ==> waited <= r.latency.time
  {
    if h.latency.Measured? && waited > h.latency.time then h.(latency := Measured(waited), sampled := Some(now)) else h
  }

  function Probed(h: Host, answer: Option<nat>): Host {
    if answer.Some? then h.(baseline := answer, latency := Measured(answer.value), sampled := None)
    else if h.latency == Unknown then h.(latency := Unreachable) else h
  }

  function Connected(h: Host, now: nat): Host { if h.warm.Some? then h else h.(warm := Some(now)) }

  // ---- The invariant ----

  /** A host has failures exactly when it has a cooldown end, which is near; only failed hosts have
      trials; no time lies in the future. */
  predicate HostOk(cfg: Config, h: Host, clock: nat) {
    && (h.failures > 0 <==> h.until.Some?)
    && (h.until.Some? ==> h.until.value <= clock + cfg.max)
    && (h.trial.Some? ==> h.failures > 0 && h.trial.value <= clock)
  }

  predicate PoolOk(cfg: Config, p: Pool, clock: nat) {
    && p.hosts != [] && (p.current.Some? ==> p.current.value < |p.hosts|)
    && forall i :: 0 <= i < |p.hosts| ==> HostOk(cfg, p.hosts[i], clock)
  }

  lemma RefreshKeeps(cfg: Config, p: Pool, clock: nat, later: nat, now: nat)
    requires PoolOk(cfg, p, clock) && clock <= later
    ensures PoolOk(cfg, Refresh(cfg, p, now), later)
  {
    var r := Refresh(cfg, p, now);
    forall i | 0 <= i < |r.hosts| ensures HostOk(cfg, r.hosts[i], later) { assert HostOk(cfg, p.hosts[i], clock); }
  }

  lemma PickedKeeps(cfg: Config, p: Pool, i: nat, now: nat, clock: nat)
    requires PoolOk(cfg, p, clock) && i < |p.hosts| && now <= clock
    ensures PoolOk(cfg, Picked(p, i, now), clock)
  {
  }

  /** When no host may take a request, every host is cooling down or on trial, so one recovers first. */
  lemma AllCooling(cfg: Config, p: Pool, clock: nat, now: nat)
    requires PoolOk(cfg, p, clock) && forall i :: 0 <= i < |p.hosts| ==> !Open(cfg, p.hosts[i], now)
    ensures FirstUp(p.hosts, |p.hosts|).Some?
    ensures FirstUp(p.hosts, |p.hosts|).value.1 <= clock + cfg.max
  {
    assert HostOk(cfg, p.hosts[0], clock) && !Open(cfg, p.hosts[0], now);
    assert p.hosts[0].until.Some?;
    var f := FirstUp(p.hosts, |p.hosts|);
    assert f.Some?;
    assert HostOk(cfg, p.hosts[f.value.0], clock);
  }

  /** Refreshing again at the same time changes nothing. */
  lemma RefreshTwice(cfg: Config, p: Pool, now: nat)
    ensures Refresh(cfg, Refresh(cfg, p, now), now) == Refresh(cfg, p, now)
  {
    var a, b := Refresh(cfg, p, now), Refresh(cfg, Refresh(cfg, p, now), now);
    assert forall i :: 0 <= i < |a.hosts| ==> b.hosts[i] == a.hosts[i];
  }
}
