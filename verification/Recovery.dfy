/** What every run of the poll loop keeps: offline while cooling down, graded resume, and the back-off bound. */
module Recovery {
  import opened Wrappers
  import opened Store
  import opened Wedge
  import opened PollLoop

  // -- runs ------------------------------------------------------------------

  predicate MonotoneFrom(t: real, cycles: seq<Cycle>)
    decreases |cycles|
  {
    cycles != [] ==> cycles[0].Valid() && t <= cycles[0].entered && MonotoneFrom(cycles[0].begun, cycles[1..])
  }

  function After(cfg: Config, p: Poller, t: real, cycles: seq<Cycle>): Poller
    requires cfg.Valid() && MonotoneFrom(t, cycles)
    decreases |cycles|
  {
    if cycles == [] then p else After(cfg, Turned(cfg, p, cycles[0]).0, cycles[0].begun, cycles[1..])
  }

  function Events(cfg: Config, p: Poller, t: real, cycles: seq<Cycle>): (events: seq<Event>)
    requires cfg.Valid() && MonotoneFrom(t, cycles)
    ensures |events| == |cycles|
    decreases |cycles|
  {
    if cycles == [] then []
    else
      var (p', e) := Turned(cfg, p, cycles[0]);
      [e] + Events(cfg, p', cycles[0].begun, cycles[1..])
  }

  // -- invariants ----------------------------------------------------------------

  /** The back-off ladder is climbed exactly while a deadline is set, and a set deadline means offline. */
  predicate Sound(policy: Policy, p: Poller) {
    && (p.wedge.cooldownUntil.None? <==> p.wedge.index == 0)
    && (p.wedge.cooldownUntil.None? ==> p.wedge.probes == 0)
    && p.wedge.probes < policy.resumeAfter
    && (p.wedge.cooldownUntil.Some? ==> p.store.available == Some(false))
  }

  function Start(s: Store): Poller {
    Poller(0, true, POLLING, s)
  }

  lemma StartIsSound(cfg: Config, s: Store)
    requires cfg.Valid()
    ensures Sound(cfg.policy, Start(s))
  {
  }

  lemma {:induction false} SweepKeepsVerdict(
    s: Store, registers: seq<nat>, readings: seq<Reading>, times: seq<real>)
    requires |registers| == |readings| == |times|
    ensures LiveSwept(s, registers, readings, times).0.available == s.available
    decreases |registers|
  {
    if registers != [] && readings[0].Got? {
      SweepKeepsVerdict(
        LiveUpdated(s, registers[0], readings[0].data, times[0]), registers[1..], readings[1..], times[1..]);
    }
  }

  lemma TurnKeepsSound(cfg: Config, p: Poller, c: Cycle)
    requires cfg.Valid() && c.Valid() && Sound(cfg.policy, p)
    ensures Sound(cfg.policy, Turned(cfg, p, c).0)
  {
    hide Overlaid, LiveSwept;
  }

  lemma {:induction false} RunsKeepSound(cfg: Config, p: Poller, t: real, cycles: seq<Cycle>)
    requires cfg.Valid() && MonotoneFrom(t, cycles) && Sound(cfg.policy, p)
    ensures Sound(cfg.policy, After(cfg, p, t, cycles))
    decreases |cycles|
  {
    hide Turned;
    if cycles != [] {
      TurnKeepsSound(cfg, p, cycles[0]);
      RunsKeepSound(cfg, Turned(cfg, p, cycles[0]).0, cycles[0].begun, cycles[1..]);
    }
  }

  /** In every run of the poll loop alone, from its start, a cooldown implies unavailable. */
  lemma CooldownMeansOffline(cfg: Config, s: Store, t: real, cycles: seq<Cycle>)
    requires cfg.Valid() && MonotoneFrom(t, cycles)
    ensures var last := After(cfg, Start(s), t, cycles);
      && (last.wedge.cooldownUntil.None? <==> last.wedge.index == 0)
      && (last.wedge.cooldownUntil.Some? ==> !last.store.Verdict())
  {
    hide After;
    StartIsSound(cfg, s);
    RunsKeepSound(cfg, Start(s), t, cycles);
  }

  // -- graded resume -----------------------------------------------------------------

  function Outcomes(events: seq<Event>): seq<bool> {
    if events == [] then []
    else (if events[0].Probe? then [events[0].good] else []) + Outcomes(events[1..])
  }

  /** Length of the run of good probes at the end, given `before` good ones already counted. */
  function Streak(before: nat, outcomes: seq<bool>): nat
    decreases |outcomes|
  {
    if outcomes == [] then before else Streak(if outcomes[0] then before + 1 else 0, outcomes[1..])
  }

  /** How one more event at the front changes each count over the probe outcomes. */
  lemma FirstOutcome(before: nat, e: Event, rest: seq<Event>)
    ensures var now := if !e.Probe? then before else if e.good then before + 1 else 0;
      Streak(before, Outcomes([e] + rest)) == Streak(now, Outcomes(rest))
    ensures FailedProbes(Outcomes([e] + rest)) == FailedProbes(Outcomes(rest)) + if e == Probe(false) then 1 else 0
    ensures |Outcomes([e] + rest)| == |Outcomes(rest)| + if e.Probe? then 1 else 0
  {
    assert ([e] + rest)[1..] == rest;
    if e.Probe? {
      assert Outcomes([e] + rest)[1..] == Outcomes(rest);
    } else {
      assert Outcomes([e] + rest) == Outcomes(rest);
    }
  }

  predicate NoPoll(events: seq<Event>) {
    forall e :: e in events ==> !e.Poll?
  }

  lemma {:induction false} StreakIsTail(before: nat, outcomes: seq<bool>)
    ensures var n := Streak(before, outcomes);
      && n <= before + |outcomes|
      && (forall k :: 0 <= k < |outcomes| && k >= |outcomes| - n ==> outcomes[k])
      && (n > |outcomes| ==> n == before + |outcomes|)
    decreases |outcomes|
  {
    if outcomes != [] {
      StreakIsTail(if outcomes[0] then before + 1 else 0, outcomes[1..]);
    }
  }

  lemma {:induction false} ResumedLoopOnlyIdles(cfg: Config, p: Poller, t: real, cycles: seq<Cycle>)
    requires cfg.Valid() && MonotoneFrom(t, cycles) && p.wedge.cooldownUntil.None?
    requires NoPoll(Events(cfg, p, t, cycles))
    ensures Outcomes(Events(cfg, p, t, cycles)) == [] && After(cfg, p, t, cycles).wedge == p.wedge
    decreases |cycles|
  {
    hide Polled, Probed;
    if cycles != [] {
      var (p', e) := Turned(cfg, p, cycles[0]);
      assert e in Events(cfg, p, t, cycles);
      ResumedLoopOnlyIdles(cfg, p', cycles[0].begun, cycles[1..]);
    }
  }

  /** What one turn does to the recovery state while a deadline is set. */
  lemma TurnWhileCooling(cfg: Config, p: Poller, c: Cycle)
    requires cfg.Valid() && c.Valid() && p.wedge.cooldownUntil.Some? && p.wedge.probes < cfg.policy.resumeAfter
    ensures var (p', e) := Turned(cfg, p, c);
      && !e.Poll?
      && (e.Idle? || e.Rest? ==> p'.wedge == p.wedge)
      && (e.Probe? ==> c.entered >= p.wedge.cooldownUntil.value)
      && (e == Probe(false) ==> p'.wedge == CooldownBegun(cfg.policy, p.wedge, c.settled))
      && (e == Probe(true) ==> p'.wedge == ProbeCounted(cfg.policy, p.wedge, c.settled))
  {
    hide Overlaid, SettingsUpdated;
  }

  /**
   * From the entry of a cooldown until the next full poll the loop's probe counter is the current
   * run of good probes, and polling resumes when that run first reaches the required length.
   */
  lemma {:induction false} RecoveryTracksStreak(cfg: Config, p: Poller, t: real, cycles: seq<Cycle>)
    requires cfg.Valid() && MonotoneFrom(t, cycles)
    requires p.wedge.cooldownUntil.Some? && p.wedge.probes < cfg.policy.resumeAfter
    requires NoPoll(Events(cfg, p, t, cycles))
    ensures var w := After(cfg, p, t, cycles).wedge;
      var n := Streak(p.wedge.probes, Outcomes(Events(cfg, p, t, cycles)));
      && (w.cooldownUntil.Some? ==> w.probes == n < cfg.policy.resumeAfter)
      && (w.cooldownUntil.None? ==> n == cfg.policy.resumeAfter)
    decreases |cycles|
  {
    hide Turned;
    if cycles != [] {
      TurnWhileCooling(cfg, p, cycles[0]);
      var (p', e) := Turned(cfg, p, cycles[0]);
      var rest := Events(cfg, p', cycles[0].begun, cycles[1..]);
      assert Events(cfg, p, t, cycles) == [e] + rest;
      FirstOutcome(p.wedge.probes, e, rest);
      if p'.wedge.cooldownUntil.Some? {
        RecoveryTracksStreak(cfg, p', cycles[0].begun, cycles[1..]);
      } else {
        ResumedLoopOnlyIdles(cfg, p', cycles[0].begun, cycles[1..]);
      }
    }
  }

  /**
   * Graded resume, exactly: after a cooldown was entered, the first full poll happens on the first
   * wanted turn after `resumeAfter` good probes in a row, and never before.
   */
  lemma NextPollExactly(cfg: Config, p: Poller, t: real, cycles: seq<Cycle>, c: Cycle)
    requires cfg.Valid() && MonotoneFrom(t, cycles) && c.Valid()
    requires p.wedge.cooldownUntil.Some? && p.wedge.probes == 0
    requires NoPoll(Events(cfg, p, t, cycles))
    ensures var outcomes := Outcomes(Events(cfg, p, t, cycles));
      var n := cfg.policy.resumeAfter;
      && (Turned(cfg, After(cfg, p, t, cycles), c).1.Poll? <==> c.wanted && Streak(0, outcomes) == n)
      && (Turned(cfg, After(cfg, p, t, cycles), c).1.Poll? ==>
            |outcomes| >= n && forall k :: |outcomes| - n <= k < |outcomes| ==> outcomes[k])
  {
    hide Polled, Probed, LiveSwept, Overlaid;
    RecoveryTracksStreak(cfg, p, t, cycles);
    StreakIsTail(0, Outcomes(Events(cfg, p, t, cycles)));
    var last := After(cfg, p, t, cycles);
    if last.wedge.cooldownUntil.Some? {
      TurnWhileCooling(cfg, last, c);
    }
  }

  /** Until the deadline passes the device is not touched at all, and nothing about the recovery moves. */
  lemma {:induction false} WindowIsQuiet(cfg: Config, p: Poller, t: real, cycles: seq<Cycle>)
    requires cfg.Valid() && MonotoneFrom(t, cycles)
    requires p.wedge.cooldownUntil.Some? && p.wedge.probes < cfg.policy.resumeAfter
    requires forall c :: c in cycles ==> c.entered < p.wedge.cooldownUntil.value
    ensures forall e :: e in Events(cfg, p, t, cycles) ==> e.Idle? || e.Rest?
    ensures After(cfg, p, t, cycles).wedge == p.wedge
    decreases |cycles|
  {
    hide Turned;
    if cycles != [] {
      TurnWhileCooling(cfg, p, cycles[0]);
      WindowIsQuiet(cfg, Turned(cfg, p, cycles[0]).0, cycles[0].begun, cycles[1..]);
    }
  }

  // -- back-off bound --------------------------------------------------------------------

  /** Total length of the first `n` cooldowns of a wedge. */
  function Ladder(policy: Policy, n: nat): real
    requires policy.Valid()
  {
    if n == 0 then 0.0 else Ladder(policy, n - 1) + policy.StepAt(n - 1)
  }

  function FailedProbes(outcomes: seq<bool>): nat {
    if outcomes == [] then 0 else (if outcomes[0] then 0 else 1) + FailedProbes(outcomes[1..])
  }

  function LastSettled(t: real, cycles: seq<Cycle>): real {
    if cycles == [] then t else cycles[|cycles| - 1].settled
  }

  /**
   * In a run that has not resumed and ends in a failed probe, that probe comes no earlier than all the
   * cooldowns climbed so far, and each failure costs at most `resumeAfter` probes.
   */
  lemma {:induction false} FailuresClimbTheLadder(cfg: Config, p: Poller, t: real, cycles: seq<Cycle>, entry: real)
    requires cfg.Valid() && MonotoneFrom(t, cycles)
    requires p.wedge.cooldownUntil.Some? && p.wedge.index >= 1 && p.wedge.probes < cfg.policy.resumeAfter
    requires p.wedge.cooldownUntil.value >= entry + Ladder(cfg.policy, p.wedge.index)
    requires NoPoll(Events(cfg, p, t, cycles))
    requires cycles != [] && Events(cfg, p, t, cycles)[|cycles| - 1] == Probe(false)
    ensures var outcomes := Outcomes(Events(cfg, p, t, cycles));
      && FailedProbes(outcomes) >= 1
      && LastSettled(t, cycles) >= entry + Ladder(cfg.policy, p.wedge.index + FailedProbes(outcomes) - 1)
      && |outcomes| + p.wedge.probes <= FailedProbes(outcomes) * cfg.policy.resumeAfter
    decreases |cycles|
  {
    hide Turned, Policy.StepAt, Outcomes, FailedProbes, Streak;
    TurnWhileCooling(cfg, p, cycles[0]);
    var (p', e) := Turned(cfg, p, cycles[0]);
    var rest := Events(cfg, p', cycles[0].begun, cycles[1..]);
    assert Events(cfg, p, t, cycles) == [e] + rest;
    FirstOutcome(p.wedge.probes, e, rest);
    if |cycles| == 1 {
      NoOutcomes();
      assert 1 * cfg.policy.resumeAfter == cfg.policy.resumeAfter;
    } else {
      assert rest[|cycles| - 2] == Probe(false);
      if p'.wedge.cooldownUntil.None? {
        ResumedLoopOnlyIdles(cfg, p', cycles[0].begun, cycles[1..]);
        LastProbeCounts(rest);
      }
      FailuresClimbTheLadder(cfg, p', cycles[0].begun, cycles[1..], entry);
      OneMoreFailure(FailedProbes(Outcomes(rest)), cfg.policy.resumeAfter);
    }
  }

  lemma NoOutcomes()
    ensures Outcomes([]) == [] && FailedProbes(Outcomes([])) == 0
  {
  }

  lemma OneMoreFailure(failures: nat, n: nat)
    ensures (failures + 1) * n == failures * n + n
  {
  }

  lemma {:induction false} LastProbeCounts(events: seq<Event>)
    requires events != [] && events[|events| - 1].Probe?
    ensures Outcomes(events) != []
  {
    if |events| > 1 {
      assert events[1..][|events| - 2] == events[|events| - 1];
      LastProbeCounts(events[1..]);
    }
  }

  lemma {:induction false} DefaultLadder(n: nat)
    ensures Ladder(DefaultPolicy(), n) >= 1800.0 * n as real - 3300.0
    ensures n >= 3 ==> Ladder(DefaultPolicy(), n) == 1800.0 * n as real - 3300.0
  {
    if n > 0 {
      DefaultLadder(n - 1);
    }
    if n == 3 {
      assert Ladder(DefaultPolicy(), 2) == 900.0;
    }
  }

  /** With the default ladder, the n-th failed probe is at least 1800 n - 3300 seconds into the wedge. */
  lemma BackoffBound(cfg: Config, p: Poller, t: real, cycles: seq<Cycle>, entry: real)
    requires cfg.Valid() && cfg.policy == DefaultPolicy() && MonotoneFrom(t, cycles)
    requires p.wedge == CooldownBegun(cfg.policy, POLLING.(firstFailAt := p.wedge.firstFailAt), entry)
    requires NoPoll(Events(cfg, p, t, cycles))
    requires cycles != [] && Events(cfg, p, t, cycles)[|cycles| - 1] == Probe(false)
    ensures var outcomes := Outcomes(Events(cfg, p, t, cycles));
      && LastSettled(t, cycles) >= entry + (1800.0 * FailedProbes(outcomes) as real - 3300.0)
      && |outcomes| <= FailedProbes(outcomes) * RESUME_AFTER_PROBES
  {
    hide Turned;
    assert Ladder(cfg.policy, 1) == Ladder(cfg.policy, 0) + cfg.policy.StepAt(0);
    FailuresClimbTheLadder(cfg, p, t, cycles, entry);
    DefaultLadder(FailedProbes(Outcomes(Events(cfg, p, t, cycles))));
  }
}
