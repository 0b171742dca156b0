/** The bridge's WedgeRecovery and the coordinator's mirror of it stay in step from wedge entry to resume. */
module Lockstep {
  import opened Store
  import opened Wedge
  import opened PollLoop
  import Coordinator
  import opened Recovery

  /** The same turn as the coordinator meets it: the same clock readings, the same probe outcome. */
  function Mirror(c: Cycle, poll: bool): Coordinator.Update {
    Coordinator.Update(false, c.entered, c.settled, c.begun, c.settings.Got?, poll)
  }

  /**
   * Same ladder position, same probe count, and deadlines no clock from `now` on can tell apart: after
   * a partial success the bridge moves its deadline to the present, the coordinator leaves it.
   */
  predicate InStep(w: Wedge, k: Coordinator.Coord, now: real) {
    && w.index == k.index >= 1
    && w.probes == k.probes
    && w.cooldownUntil.Some? && k.until.Some?
    && (w.cooldownUntil == k.until || (w.cooldownUntil.value <= now && k.until.value <= now))
  }

  lemma InStepMeansSameCooldown(w: Wedge, k: Coordinator.Coord, now: real, later: real)
    requires InStep(w, k, now) && now <= later
    ensures w.InCooldown(later) == k.InCooldown(later)
  {
  }

  /** Both machines did the same thing in one turn, and they resumed together or not at all. */
  predicate SameTurn(e: Event, p: Poller, report: Coordinator.Report, k: Coordinator.Coord) {
    && (e.Rest? <==> report.CoolingDown?)
    && (e == Probe(false) <==> report.StillWedged?)
    && (e == Probe(true) && p.wedge.cooldownUntil.Some? <==> report.Confirming?)
    && (e == Probe(true) && p.wedge.cooldownUntil.None? <==> report.Fresh? || report.Cached?)
    && (p.wedge.cooldownUntil.None? <==> k.until.None?)
    && (k.until.None? ==> k.index == k.probes == p.wedge.index == p.wedge.probes == 0)
  }

  ghost predicate AgreeUntilResume(
    cfg: Config, p: Poller, k: Coordinator.Coord, t: real, cycles: seq<Cycle>, polls: seq<bool>)
    requires cfg.Valid() && MonotoneFrom(t, cycles) && |polls| == |cycles|
    decreases |cycles|
  {
    && InStep(p.wedge, k, t)
    && (cycles != [] ==>
          var (p', e) := Turned(cfg, p, cycles[0]);
          var u := Mirror(cycles[0], polls[0]);
          var (k', report) := Coordinator.Updated(cfg.policy.steps, cfg.policy.resumeAfter, k, u);
          && SameTurn(e, p', report, k')
          && (k'.until.Some? ==> AgreeUntilResume(cfg, p', k', cycles[0].begun, cycles[1..], polls[1..])))
  }

  lemma TurnInStep(cfg: Config, p: Poller, k: Coordinator.Coord, t: real, c: Cycle, poll: bool)
    requires cfg.Valid() && c.Valid() && c.wanted && t <= c.entered
    requires InStep(p.wedge, k, t) && p.wedge.probes < cfg.policy.resumeAfter && k.hasData
    ensures var (p', e) := Turned(cfg, p, c);
      var (k', report) := Coordinator.Updated(cfg.policy.steps, cfg.policy.resumeAfter, k, Mirror(c, poll));
      && SameTurn(e, p', report, k') && k'.hasData
      && (k'.until.Some? ==> InStep(p'.wedge, k', c.begun) && p'.wedge.probes < cfg.policy.resumeAfter)
  {
    hide Overlaid, SettingsUpdated, LiveSwept;
    TurnWhileCooling(cfg, p, c);
    InStepMeansSameCooldown(p.wedge, k, t, c.entered);
  }

  /**
   * For every monotone clock and every sequence of probe outcomes, whatever the coordinator's full
   * reads would return, the two implementations agree turn by turn until both resume on the same one.
   */
  lemma {:induction false} BackoffsRunInLockstep(
    cfg: Config, p: Poller, k: Coordinator.Coord, t: real, cycles: seq<Cycle>, polls: seq<bool>)
    requires cfg.Valid() && MonotoneFrom(t, cycles) && |polls| == |cycles|
    requires forall c :: c in cycles ==> c.wanted
    requires InStep(p.wedge, k, t) && p.wedge.probes < cfg.policy.resumeAfter && k.hasData
    ensures AgreeUntilResume(cfg, p, k, t, cycles, polls)
    decreases |cycles|
  {
    hide Turned, Coordinator.Updated, InStep, SameTurn;
    if cycles != [] {
      TurnInStep(cfg, p, k, t, cycles[0], polls[0]);
      var p' := Turned(cfg, p, cycles[0]).0;
      var k' := Coordinator.Updated(cfg.policy.steps, cfg.policy.resumeAfter, k, Mirror(cycles[0], polls[0])).0;
      if k'.until.Some? {
        BackoffsRunInLockstep(cfg, p', k', cycles[0].begun, cycles[1..], polls[1..]);
      }
    }
  }

  /** A wedge entered at the same moment puts the two in step, with the constants each side ships. */
  lemma WedgeEntersInStep(w: Wedge, k: Coordinator.Coord, now: real)
    requires w.index == 0 && k.index == 0
    ensures InStep(CooldownBegun(DefaultPolicy(), w, now),
                   Coordinator.CooldownEntered(Coordinator.COOLDOWN_STEPS, k, now), now)
    ensures DefaultPolicy().steps == Coordinator.COOLDOWN_STEPS
    ensures DefaultPolicy().resumeAfter == Coordinator.RESUME_AFTER_PROBES
  {
  }
}
