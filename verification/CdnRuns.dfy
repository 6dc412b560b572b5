/** What holds over every run of the pool and every clock. */
module CdnRuns {
  import opened Base
  import opened Cdn

  /** `pick`, the look of `preconnect` (`Peek`) and `report_latency` (`Answer`) read the clock before they
      take the lock, the others after. */
  datatype Event =
    | Pick(now: nat) | Peek(now: nat)
    | Success(i: nat) | Failure(i: nat, retryAfter: Option<nat>, now: nat) | Retry(i: nat)
    | Answer(i: nat, sent: nat, ttfb: nat, now: nat) | Stall(i: nat, waited: nat, now: nat)
    | ProbeAnswer(i: nat, answer: Option<nat>) | Connect(i: nat, now: nat)

  /** The event, whose lock section is at time `at`, can carry the time it does. */
  predicate Timely(e: Event, at: nat) {
    match e
    case Pick(now) => now <= at case Peek(now) => now <= at case Answer(_, _, _, now) => now <= at
    case Failure(_, _, now) => now == at case Stall(_, _, now) => now == at case Connect(_, now) => now == at
    case Success(_) => true case Retry(_) => true case ProbeAnswer(_, _) => true
  }

  predicate Fits(p: Pool, e: Event) { e.Pick? || e.Peek? || e.i < |p.hosts| }

  /** The host and the wait that `pick` answers at `now`. */
  function Sends(cfg: Config, p: Pool, now: nat): Option<(nat, nat)> {
    if p.current.Some? && p.current.value >= |p.hosts| then None else Sent(cfg, Refresh(cfg, p, now), now)
  }

  /** The host `pick` chooses at `now`, if any may take a request. */
  function Chosen(cfg: Config, p: Pool, now: nat): Option<nat> {
    if p.current.Some? && p.current.value >= |p.hosts| then None else Choose(cfg, Refresh(cfg, p, now), now)
  }

  function HostAfter(cfg: Config, h: Host, e: Event): Host {
    match e
    case Success(_) => Succeeded(h)
    case Failure(_, retryAfter, now) => Failed(cfg, h, retryAfter, now)
    case Retry(_) => h.(trial := None)
    case Answer(_, sent, ttfb, now) => Timed(h, sent, ttfb, now)
    case Stall(_, waited, now) => Stalled(h, waited, now)
    case ProbeAnswer(_, answer) => Probed(h, answer)
    case Connect(_, now) => Connected(h, now)
    case Pick(_) => h
    case Peek(_) => h
  }

  function After(cfg: Config, p: Pool, e: Event): (r: Pool)
    requires (p.current.Some? ==> p.current.value < |p.hosts|) && Fits(p, e)
    ensures |r.hosts| == |p.hosts|
  {
    if e.Pick? then
      var q := Refresh(cfg, p, e.now);
      var c := Choose(cfg, q, e.now);
      if c.Some? then Picked(q, c.value, e.now) else q
    else if e.Peek? then Refresh(cfg, p, e.now)
    else p.(hosts := p.hosts[e.i := HostAfter(cfg, p.hosts[e.i], e)])
  }

  /** A run of the pool: the states before each event and after the last, and the clock at each lock
      section. */
  ghost predicate Run(cfg: Config, run: seq<Pool>, events: seq<Event>, clock: seq<nat>) {
    && |run| == |clock| == |events| + 1
    && run[0].hosts != [] && run[0].current.None?
    && (forall i :: 0 <= i < |run[0].hosts| ==> run[0].hosts[i] == Host(0, None, Unknown, None, None, None, None))
    && forall k :: 0 <= k < |events| ==> StepOk(cfg, run[k], events[k], run[k + 1], clock[k], clock[k + 1])
  }

  ghost predicate StepOk(cfg: Config, p: Pool, e: Event, p': Pool, before: nat, after: nat) {
    && (p.current.Some? ==> p.current.value < |p.hosts|) && Fits(p, e)
    && p' == After(cfg, p, e) && before <= after && Timely(e, after)
  }

  lemma HostAfterOk(cfg: Config, h: Host, e: Event, before: nat, after: nat)
    requires HostOk(cfg, h, before) && before <= after && Timely(e, after)
    ensures HostOk(cfg, HostAfter(cfg, h, e), after)
  {
  }

  lemma StepKeeps(cfg: Config, p: Pool, e: Event, p': Pool, before: nat, after: nat)
    requires PoolOk(cfg, p, before) && StepOk(cfg, p, e, p', before, after)
    ensures PoolOk(cfg, p', after)
  {
    hide HostAfter;
    if e.Pick? || e.Peek? {
      RefreshKeeps(cfg, p, before, after, e.now);
      var q := Refresh(cfg, p, e.now);
      var c := Choose(cfg, q, e.now);
      if c.Some? { PickedKeeps(cfg, q, c.value, e.now, after); }
    } else {
      HostAfterOk(cfg, p.hosts[e.i], e, before, after);
      forall i | 0 <= i < |p'.hosts| ensures HostOk(cfg, p'.hosts[i], after) {
        assert HostOk(cfg, p.hosts[i], before);
      }
    }
  }

  lemma {:induction false} RunOk(cfg: Config, run: seq<Pool>, events: seq<Event>, clock: seq<nat>, k: nat)
    requires Run(cfg, run, events, clock) && k < |run|
    ensures PoolOk(cfg, run[k], clock[k])
  {
    hide StepOk;
    if k > 0 {
      RunOk(cfg, run, events, clock, k - 1);
      StepKeeps(cfg, run[k - 1], events[k - 1], run[k], clock[k - 1], clock[k]);
    }
  }

  /** `pick` always has an answer, and never asks to wait past the longest cooldown from now on. */
  lemma PickAnswers(cfg: Config, run: seq<Pool>, events: seq<Event>, clock: seq<nat>, k: nat)
    requires Run(cfg, run, events, clock) && k < |events| && events[k].Pick?
    ensures var r := Sends(cfg, run[k], events[k].now);
            && r.Some? && r.value.0 < |run[k].hosts|
            && (r.value.1 > 0 ==> events[k].now + r.value.1 <= clock[k + 1] + cfg.max)
  {
    RunOk(cfg, run, events, clock, k);
    assert StepOk(cfg, run[k], events[k], run[k + 1], clock[k], clock[k + 1]);
    if Chosen(cfg, run[k], events[k].now).None? {
      RefreshKeeps(cfg, run[k], clock[k], clock[k + 1], events[k].now);
      AllCooling(cfg, run[k + 1], clock[k + 1], events[k].now);
    }
  }

  // ---- Trials ----

  /** The event decides a trial of host `h`. */
  predicate Decides(e: Event, h: nat) { (e.Success? || e.Failure? || e.Retry?) && e.i == h }

  lemma OpenWhileTrying(cfg: Config, p: Pool, now: nat, h: nat)
    requires (p.current.Some? ==> p.current.value < |p.hosts|) && h < |p.hosts|
    requires p.hosts[h].failures > 0 && Trying(cfg, p.hosts[h], now)
    ensures Choose(cfg, p, now) != Some(h)
  {
  }

  /** An undecided trial stays on record, and its host is not chosen again while it is out. */
  lemma TrialStays(cfg: Config, p: Pool, e: Event, p': Pool, before: nat, after: nat, h: nat, t: nat)
    requires StepOk(cfg, p, e, p', before, after) && h < |p.hosts| && !Decides(e, h)
    requires p.hosts[h].failures > 0 && p.hosts[h].trial == Some(t)
    requires e.Pick? ==> Since(e.now, t) < cfg.trialTimeout
    ensures p'.hosts[h].failures > 0 && p'.hosts[h].trial == Some(t)
    ensures e.Pick? ==> Chosen(cfg, p, e.now) != Some(h)
  {
    if e.Pick? {
      var q := Refresh(cfg, p, e.now);
      assert q.hosts[h].failures == p.hosts[h].failures && q.hosts[h].trial == p.hosts[h].trial;
      OpenWhileTrying(cfg, q, e.now, h);
    }
  }

  lemma {:induction false} ClockMono(cfg: Config, run: seq<Pool>, events: seq<Event>, clock: seq<nat>, a: nat, b: nat)
    requires Run(cfg, run, events, clock) && a <= b < |run|
    ensures clock[a] <= clock[b] && |run[a].hosts| == |run[b].hosts|
  {
    if a < b {
      ClockMono(cfg, run, events, clock, a, b - 1);
      assert StepOk(cfg, run[b - 1], events[b - 1], run[b], clock[b - 1], clock[b]);
    }
  }

  /** From `a` on and before `b` the trial of `h` that `pick` started at `a` is not decided, and every
      request was picked before it timed out. */
  ghost predicate Undecided(cfg: Config, run: seq<Pool>, events: seq<Event>, a: nat, b: nat, h: nat) {
    && a < b <= |events| < |run| && events[a].Pick? && Chosen(cfg, run[a], events[a].now) == Some(h)
    && h < |run[a].hosts| && run[a].hosts[h].failures > 0
    && forall k :: a < k < b ==>
         !Decides(events[k], h) && (events[k].Pick? ==> Since(events[k].now, events[a].now) < cfg.trialTimeout)
  }

  lemma {:induction false} TrialOut(cfg: Config, run: seq<Pool>, events: seq<Event>, clock: seq<nat>,
                                    a: nat, b: nat, h: nat)
    requires Run(cfg, run, events, clock) && Undecided(cfg, run, events, a, b, h)
    ensures h < |run[b].hosts| && run[b].hosts[h].failures > 0 && run[b].hosts[h].trial == Some(events[a].now)
    ensures run[b].hosts[h].until == run[a].hosts[h].until
    decreases b
  {
    hide Choose, Refresh, Best;
    assert StepOk(cfg, run[a], events[a], run[a + 1], clock[a], clock[a + 1]);
    if b == a + 1 {
      RefreshSame(cfg, run[a], events[a].now, h);
    } else {
      assert StepOk(cfg, run[b - 1], events[b - 1], run[b], clock[b - 1], clock[b]);
      TrialOut(cfg, run, events, clock, a, b - 1, h);
      TrialStays(cfg, run[b - 1], events[b - 1], run[b], clock[b - 1], clock[b], h, events[a].now);
      CoolingStays(cfg, run[b - 1], events[b - 1], run[b], clock[b - 1], clock[b], h);
    }
  }

  lemma RefreshSame(cfg: Config, p: Pool, now: nat, h: nat)
    requires h < |p.hosts|
    ensures Refresh(cfg, p, now).hosts[h].failures == p.hosts[h].failures
    ensures Refresh(cfg, p, now).hosts[h].trial == p.hosts[h].trial
    ensures Refresh(cfg, p, now).hosts[h].until == p.hosts[h].until
  {
  }

  /** No host may take a request sent at `now`. */
  predicate AllClosed(cfg: Config, p: Pool, now: nat) {
    forall j :: 0 <= j < |p.hosts| ==> !Open(cfg, p.hosts[j], now)
  }

  /** While a trial is out a second request goes to its host exactly if no host may take one and the trial's
      host is the first whose cooldown ended; then it goes out at once. */
  lemma OneRequestPerTrial(cfg: Config, run: seq<Pool>, events: seq<Event>, clock: seq<nat>, a: nat, b: nat, h: nat)
    requires Run(cfg, run, events, clock) && Undecided(cfg, run, events, a, b, h) && b < |events| && events[b].Pick?
    requires Since(events[b].now, events[a].now) < cfg.trialTimeout
    ensures var r, q := Sends(cfg, run[b], events[b].now), Refresh(cfg, run[b], events[b].now);
            && r.Some?
            && (r.value.0 == h <==>
                && AllClosed(cfg, q, events[b].now) && FirstUp(q.hosts, |q.hosts|).Some?
                && FirstUp(q.hosts, |q.hosts|).value.0 == h)
            && (r.value.0 == h && events[a].now <= events[b].now ==> r.value.1 == 0)
  {
    hide Refresh;
    var now := events[b].now;
    assert StepOk(cfg, run[b], events[b], run[b + 1], clock[b], clock[b + 1]);
    PickAnswers(cfg, run, events, clock, b);
    TrialOut(cfg, run, events, clock, a, b, h);
    RefreshSame(cfg, run[b], now, h);
    var q := Refresh(cfg, run[b], now);
    OpenWhileTrying(cfg, q, now, h);
    ChosenIsOpen(cfg, run, events, clock, a, h);
  }

  /** With one host that does happen: its failure, its trial, and a second request while the trial is out. */
  lemma SecondRequest(cfg: Config) returns (run: seq<Pool>, events: seq<Event>, clock: seq<nat>)
    requires cfg.trialTimeout > 0
    ensures Run(cfg, run, events, clock) && |events| == 3 && Undecided(cfg, run, events, 1, 2, 0)
    ensures events[2] == events[1] && Sends(cfg, run[2], 0) == Some((0, 0))
  {
    var h := Host(0, None, Unknown, None, None, None, None);
    var p := Pool(None, [h]);
    events, clock := [Failure(0, Some(0), 0), Pick(0), Pick(0)], [0, 0, 0, 0];
    var a := After(cfg, p, events[0]);
    assert a.hosts == [Host(1, Some(0), Unknown, None, None, None, None)];
    assert Refresh(cfg, a, 0).hosts == a.hosts;
    assert Best(cfg, a.hosts, 0, 1) == Some(0) by { assert Best(cfg, a.hosts, 0, 0) == None; }
    var b := After(cfg, a, events[1]);
    assert b.hosts == [Host(1, Some(0), Unknown, None, None, None, Some(0))];
    assert Refresh(cfg, b, 0).hosts == b.hosts;
    assert Best(cfg, b.hosts, 0, 1) == None by { assert Best(cfg, b.hosts, 0, 0) == None; }
    assert FirstUp(b.hosts, 1) == Some((0, 0)) by { assert FirstUp(b.hosts, 0) == None; }
    run := [p, a, b, After(cfg, b, events[2])];
  }

  /** A failed host is chosen only when its cooldown is over. */
  lemma ChosenIsOpen(cfg: Config, run: seq<Pool>, events: seq<Event>, clock: seq<nat>, a: nat, h: nat)
    requires Run(cfg, run, events, clock) && a < |events| && events[a].Pick? && h < |run[a].hosts|
    requires Chosen(cfg, run[a], events[a].now) == Some(h) && run[a].hosts[h].failures > 0
    ensures run[a].hosts[h].until.Some? ==> run[a].hosts[h].until.value <= events[a].now
  {
    hide Refresh;
    assert StepOk(cfg, run[a], events[a], run[a + 1], clock[a], clock[a + 1]);
    RefreshSame(cfg, run[a], events[a].now, h);
  }

  // ---- Cooldowns ----

  /** Failures of host `h` among the first `k` events since its last success. */
  function Streak(events: seq<Event>, h: nat, k: nat): nat
    requires k <= |events|
  {
    if k == 0 then 0
    else if events[k - 1].Success? && events[k - 1].i == h then 0
    else if events[k - 1].Failure? && events[k - 1].i == h then Streak(events, h, k - 1) + 1
    else Streak(events, h, k - 1)
  }

  /** The pool counts exactly the failures in a row, up to the largest 32-bit number. */
  lemma {:induction false} CountsStreak(cfg: Config, run: seq<Pool>, events: seq<Event>, clock: seq<nat>, h: nat, k: nat)
    requires Run(cfg, run, events, clock) && k < |run| && h < |run[k].hosts|
    ensures run[k].hosts[h].failures == Min(Streak(events, h, k), MAX_U32)
  {
    hide Choose, Refresh;
    if k == 0 { return; }
    ClockMono(cfg, run, events, clock, k - 1, k);
    CountsStreak(cfg, run, events, clock, h, k - 1);
    assert StepOk(cfg, run[k - 1], events[k - 1], run[k], clock[k - 1], clock[k]);
    if events[k - 1].Pick? || events[k - 1].Peek? { RefreshSame(cfg, run[k - 1], events[k - 1].now, h); }
  }

  /** A failed host stays in its cooldown until it succeeds or fails again. */
  lemma CoolingStays(cfg: Config, p: Pool, e: Event, p': Pool, before: nat, after: nat, h: nat)
    requires StepOk(cfg, p, e, p', before, after) && h < |p.hosts| && p.hosts[h].failures > 0
    requires !((e.Success? || e.Failure?) && e.i == h)
    ensures p'.hosts[h].failures == p.hosts[h].failures && p'.hosts[h].until == p.hosts[h].until
  {
    hide Choose;
  }

  lemma {:induction false} CoolingOut(cfg: Config, run: seq<Pool>, events: seq<Event>, clock: seq<nat>,
                                      a: nat, b: nat, h: nat)
    requires Run(cfg, run, events, clock) && a < b < |run| && events[a].Failure? && events[a].i == h
    requires forall k :: a < k < b ==> !((events[k].Success? || events[k].Failure?) && events[k].i == h)
    ensures h < |run[b].hosts|
    ensures var n := Min(Streak(events, h, a + 1), MAX_U32);
            && n > 0 && run[b].hosts[h].failures == n
            && run[b].hosts[h].until == Some(events[a].now + Cooldown(cfg, n, events[a].retryAfter))
    decreases b
  {
    hide Choose, Refresh, Cooldown;
    if b == a + 1 {
      assert StepOk(cfg, run[a], events[a], run[b], clock[a], clock[b]);
      CountsStreak(cfg, run, events, clock, h, a);
    } else {
      CoolingOut(cfg, run, events, clock, a, b - 1, h);
      assert StepOk(cfg, run[b - 1], events[b - 1], run[b], clock[b - 1], clock[b]);
      CoolingStays(cfg, run[b - 1], events[b - 1], run[b], clock[b - 1], clock[b], h);
    }
  }

  /** After a failure no request goes out to the host, at once or after the wait `pick` asks for, before the
      cooldown that the failures in a row earn it is over, unless a request that was under way succeeds. */
  lemma CooldownHolds(cfg: Config, run: seq<Pool>, events: seq<Event>, clock: seq<nat>, a: nat, b: nat, h: nat)
    requires Run(cfg, run, events, clock) && a < b < |events| && events[a].Failure? && events[a].i == h && events[b].Pick?
    requires forall k :: a < k < b ==> !((events[k].Success? || events[k].Failure?) && events[k].i == h)
    ensures var r, n := Sends(cfg, run[b], events[b].now), Min(Streak(events, h, a + 1), MAX_U32);
            && r.Some? && n > 0
            && (r.value.0 == h ==>
                events[b].now + r.value.1 >= events[a].now + Cooldown(cfg, n, events[a].retryAfter))
  {
    hide Cooldown, Refresh;
    CoolingOut(cfg, run, events, clock, a, b, h);
    PickAnswers(cfg, run, events, clock, b);
    assert StepOk(cfg, run[b], events[b], run[b + 1], clock[b], clock[b + 1]);
    RefreshSame(cfg, run[b], events[b].now, h);
  }

  /** The cooldown doubles with each failure, stops doubling after 17, and never passes its maximum. */
  lemma CooldownDoubles(cfg: Config, n: nat)
    requires n > 0
    ensures n <= 16 ==> Cooldown(cfg, n + 1, None) == Min(2 * Cooldown(cfg, n, None), cfg.max)
    ensures n > 16 ==> Cooldown(cfg, n + 1, None) == Cooldown(cfg, n, None)
    ensures Cooldown(cfg, 1, None) == Min(cfg.base, cfg.max)
  {
    if n <= 16 {
      assert Pow2(n) == 2 * Pow2(n - 1);
      assert cfg.base * Pow2(n) == 2 * (cfg.base * Pow2(n - 1));
    }
  }

  // ---- The order of hosts, and the age of samples ----

  /** A host ranks before another: measured hosts by their time, then unmeasured ones, then unreachable ones. */
  predicate Ranks(a: Latency, b: Latency) {
    match (a, b)
    case (Measured(x), Measured(y)) => x < y
    case (Measured(_), _) => true
    case (Unknown, Unreachable) => true
    case (_, _) => false
  }

  /** More than twice as fast, or of a better class. */
  predicate Beats(fast: Latency, slow: Latency) {
    if fast.Measured? && slow.Measured? then 2 * fast.time < slow.time else Ranks(fast, slow)
  }

  lemma LessIsRanks(a: Latency, b: Latency)
    ensures Less(a, b) <==> Ranks(a, b)
  {
  }

  /** `b` is the open host a request of `now` would go to if none were in use: it ranks before every other open
      host, or stands before it in the list. */
  ghost predicate Fastest(cfg: Config, hosts: seq<Host>, now: nat, b: nat) {
    && b < |hosts| && Open(cfg, hosts[b], now)
    && forall j :: 0 <= j < |hosts| && j != b && Open(cfg, hosts[j], now) ==>
         Ranks(hosts[b].latency, hosts[j].latency) || (!Ranks(hosts[j].latency, hosts[b].latency) && b < j)
  }

  lemma BestIsFastest(cfg: Config, hosts: seq<Host>, now: nat)
    ensures var b := Best(cfg, hosts, now, |hosts|); b.Some? ==> Fastest(cfg, hosts, now, b.value)
  {
    var b := Best(cfg, hosts, now, |hosts|);
    if b.Some? {
      forall j | 0 <= j < |hosts| && j != b.value && Open(cfg, hosts[j], now)
        ensures Ranks(hosts[b.value].latency, hosts[j].latency)
                || (!Ranks(hosts[j].latency, hosts[b.value].latency) && b.value < j)
      {
        assert Before(hosts, b.value, j);
        LessIsRanks(hosts[b.value].latency, hosts[j].latency);
      }
    }
  }

  /** What looking at the pool at `now` makes of a host: a sample as old as the longest cooldown is forgotten, and
      the host ranks by its probe again; a younger sample stays. */
  ghost predicate Aged(cfg: Config, was: Host, h: Host, now: nat) {
    if was.sampled.Some? && (cfg.max == 0 || was.sampled.value + cfg.max <= now)
    then h == was.(latency := if was.baseline.Some? then Measured(was.baseline.value) else Unknown, sampled := None)
    else h == was
  }

  lemma RefreshAges(cfg: Config, p: Pool, now: nat, i: nat)
    requires i < |p.hosts|
    ensures Aged(cfg, p.hosts[i], Refresh(cfg, p, now).hosts[i], now)
  {
  }

  /** In every run, at every pick: samples of the longest cooldown's age are forgotten, younger ones kept. */
  lemma SamplesAge(cfg: Config, run: seq<Pool>, events: seq<Event>, clock: seq<nat>, k: nat, i: nat)
    requires Run(cfg, run, events, clock) && k < |events| && (events[k].Pick? || events[k].Peek?) && i < |run[k].hosts|
    ensures i < |run[k + 1].hosts|
    ensures Aged(cfg, run[k].hosts[i], run[k + 1].hosts[i].(trial := run[k].hosts[i].trial), events[k].now)
  {
    hide Choose;
    assert StepOk(cfg, run[k], events[k], run[k + 1], clock[k], clock[k + 1]);
    RefreshAges(cfg, run[k], events[k].now, i);
  }

  // ---- Hysteresis ----

  /** In every run a healthy host in use is replaced only by one more than twice as fast, or of a better
      class, and only by `pick`. */
  lemma SwitchNeedsReason(cfg: Config, run: seq<Pool>, events: seq<Event>, clock: seq<nat>, k: nat, c: nat)
    requires Run(cfg, run, events, clock) && k < |events| && run[k].current == Some(c) && run[k + 1].current != Some(c)
    requires c < |run[k].hosts| && run[k].hosts[c].failures == 0
    ensures events[k].Pick? && run[k + 1].current.Some? && run[k + 1].current.value < |run[k].hosts|
    ensures var q := Refresh(cfg, run[k], events[k].now);
            Beats(q.hosts[run[k + 1].current.value].latency, q.hosts[c].latency)
  {
    hide HostAfter;
    assert StepOk(cfg, run[k], events[k], run[k + 1], clock[k], clock[k + 1]);
    RefreshSame(cfg, run[k], events[k].now, c);
  }

  /** The converse: a healthy host in use that some open host beats by more than a factor of two, or in class, is
      left. The request goes to the fastest open host, which is the one in use from then on, or on trial if it
      has failed before. */
  lemma SwitchesToFaster(cfg: Config, run: seq<Pool>, events: seq<Event>, clock: seq<nat>, k: nat, c: nat, i: nat)
    requires Run(cfg, run, events, clock) && k < |events| && events[k].Pick? && run[k].current == Some(c)
    requires c < |run[k].hosts| && run[k].hosts[c].failures == 0 && i < |run[k].hosts|
    requires var q := Refresh(cfg, run[k], events[k].now);
             Open(cfg, q.hosts[i], events[k].now) && Beats(q.hosts[i].latency, q.hosts[c].latency)
    ensures var q, r := Refresh(cfg, run[k], events[k].now), Sends(cfg, run[k], events[k].now);
            && r.Some? && r.value.1 == 0 && Fastest(cfg, q.hosts, events[k].now, r.value.0)
            && if q.hosts[r.value.0].failures == 0 then run[k + 1].current == Some(r.value.0)
               else run[k + 1].current == Some(c) && run[k + 1].hosts[r.value.0].trial == Some(events[k].now)
  {
    hide HostAfter, Refresh;
    var now := events[k].now;
    assert StepOk(cfg, run[k], events[k], run[k + 1], clock[k], clock[k + 1]);
    var q := Refresh(cfg, run[k], now);
    RefreshSame(cfg, run[k], now, c);
    RefreshCurrent(cfg, run[k], now);
    BestIsFastest(cfg, q.hosts, now);
    var b := Best(cfg, q.hosts, now, |q.hosts|);
    assert b.Some?;
    BeatsToo(q.hosts[b.value].latency, q.hosts[i].latency, q.hosts[c].latency);
    assert b.value == i || Before(q.hosts, b.value, i);
  }

  /** Whatever ranks no later than a host that is clearly faster is clearly faster. */
  lemma BeatsToo(b: Latency, i: Latency, c: Latency)
    ensures Beats(i, c) && (b == i || Less(b, i)) ==> ClearlyFaster(b, c)
  {
  }

  /** A host may take a request exactly if its cooldown is over and, after a failure, no trial is out or it timed
      out. */
  lemma OpenExactly(cfg: Config, h: Host, now: nat)
    requires h.trial.Some? ==> h.trial.value <= now
    ensures Open(cfg, h, now) <==>
            && (h.until.Some? ==> h.until.value <= now)
            && (h.failures > 0 && h.trial.Some? ==> h.trial.value + cfg.trialTimeout <= now)
  {
  }

  /** At `now` some open host is clearly faster than `c`. */
  ghost predicate Beaten(cfg: Config, p: Pool, now: nat, c: nat) {
    var q := Refresh(cfg, p, now);
    c < |q.hosts| ==> exists i :: 0 <= i < |q.hosts| && Open(cfg, q.hosts[i], now)
                                  && Beats(q.hosts[i].latency, q.hosts[c].latency)
  }

  /** The pool does not flap: from the moment a host is in use, as long as it does not fail and no open host
      is clearly faster at a pick, every request goes to it. */
  lemma {:induction false} StaysOnHost(cfg: Config, run: seq<Pool>, events: seq<Event>, clock: seq<nat>,
                                       a: nat, b: nat, c: nat)
    requires Run(cfg, run, events, clock) && a <= b < |run| && run[a].current == Some(c)
    requires forall k :: a <= k <= b ==> c < |run[k].hosts| && run[k].hosts[c].failures == 0
    requires forall k :: a <= k < b && events[k].Pick? ==> !Beaten(cfg, run[k], events[k].now, c)
    ensures run[b].current == Some(c)
    ensures forall k :: a <= k < b && events[k].Pick? ==> Sends(cfg, run[k], events[k].now) == Some((c, 0))
    decreases b
  {
    hide Refresh, HostAfter, Sends;
    if a < b {
      StaysOnHost(cfg, run, events, clock, a, b - 1, c);
      var p, e := run[b - 1], events[b - 1];
      assert StepOk(cfg, p, e, run[b], clock[b - 1], clock[b]);
      RunOk(cfg, run, events, clock, b - 1);
      if e.Pick? { KeptAt(cfg, p, e.now, clock[b - 1], c); }
      else if e.Peek? { RefreshCurrent(cfg, p, e.now); }
    }
  }

  lemma RefreshCurrent(cfg: Config, p: Pool, now: nat)
    ensures Refresh(cfg, p, now).current == p.current
  {
  }

  /** A healthy host in use that no open host clearly beats is open and is kept. */
  lemma KeptAt(cfg: Config, p: Pool, now: nat, clock: nat, c: nat)
    requires PoolOk(cfg, p, clock) && p.current == Some(c) && p.hosts[c].failures == 0 && !Beaten(cfg, p, now, c)
    ensures Chosen(cfg, p, now) == Some(c) && Sends(cfg, p, now) == Some((c, 0))
    ensures Picked(Refresh(cfg, p, now), c, now).current == Some(c)
  {
    RefreshSame(cfg, p, now, c);
    var q := Refresh(cfg, p, now);
    assert HostOk(cfg, p.hosts[c], clock);
    assert Open(cfg, q.hosts[c], now);
    var best := Best(cfg, q.hosts, now, |q.hosts|);
    assert best.Some?;
    assert !ClearlyFaster(q.hosts[best.value].latency, q.hosts[c].latency);
  }

  /** In every run: without a healthy host in use, the fastest open host is chosen. */
  lemma FastestChosen(cfg: Config, run: seq<Pool>, events: seq<Event>, clock: seq<nat>, k: nat, i: nat)
    requires Run(cfg, run, events, clock) && k < |events| && events[k].Pick?
    requires Chosen(cfg, run[k], events[k].now) == Some(i)
    requires run[k].current.Some? && run[k].current.value < |run[k].hosts| ==> run[k].hosts[run[k].current.value].failures > 0
    ensures var q := Refresh(cfg, run[k], events[k].now);
            Fastest(cfg, q.hosts, events[k].now, i)
  {
    BestIsFastest(cfg, Refresh(cfg, run[k], events[k].now).hosts, events[k].now);
    assert StepOk(cfg, run[k], events[k], run[k + 1], clock[k], clock[k + 1]);
    var p := run[k];
    if p.current.Some? { RefreshSame(cfg, p, events[k].now, p.current.value); }
  }
}
