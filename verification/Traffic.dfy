/**
 * The poll loop among commands: when a cooldown really means unavailable, and when a command
 * leaves the machine its rest.
 */
module Traffic {
  import opened Wrappers
  import opened Store
  import opened Wedge
  import opened PollLoop
  import opened Recovery

  /**
   * One step of a run: a turn of the loop, or the verdict of the command path (MQTT, or a write-intent
   * already past its cooldown wait) on one settings read or failed write. A turn notes its verdict in one
   * go after its last read, so a command's verdict during the turn counts as one before it.
   */
  datatype Step = Turn(cycle: Cycle) | Commanded(outcome: Reading)
  {
    predicate Valid() {
      Turn? ==> cycle.Valid()
    }
  }

  ghost predicate AllValid(steps: seq<Step>) {
    forall i :: 0 <= i < |steps| ==> steps[i].Valid()
  }

  function Noted(cfg: Config, s: Store, outcome: Reading): Store {
    match outcome
    case Got(data) => SuccessNoted(SettingsUpdated(s, data))
    case Missed => FailureNoted(s, cfg.grace)
  }

  function Stepped(cfg: Config, p: Poller, step: Step): Poller
    requires cfg.Valid() && step.Valid()
  {
    match step
    case Turn(cycle) => Turned(cfg, p, cycle).0
    case Commanded(outcome) => p.(store := Noted(cfg, p.store, outcome))
  }

  ghost function Reached(cfg: Config, s: Store, steps: seq<Step>): Poller
    requires cfg.Valid() && AllValid(steps)
  {
    if steps == [] then Start(s)
    else Stepped(cfg, Reached(cfg, s, Front(steps)), Last(steps))
  }

  function Front(steps: seq<Step>): seq<Step>
    requires steps != []
  {
    steps[..|steps| - 1]
  }

  function Last(steps: seq<Step>): Step
    requires steps != []
  {
    steps[|steps| - 1]
  }

  // -- a cooldown and the verdict -----------------------------------------------------

  /** The step began or extended a cooldown. */
  predicate Climbs(cfg: Config, p: Poller, step: Step)
    requires cfg.Valid() && step.Valid()
  {
    Stepped(cfg, p, step).wedge.index > p.wedge.index
  }

  /** A command has succeeded since the last rung of the ladder was climbed. */
  ghost predicate SucceededSinceRung(cfg: Config, s: Store, steps: seq<Step>)
    requires cfg.Valid() && AllValid(steps)
  {
    && steps != []
    && !Climbs(cfg, Reached(cfg, s, Front(steps)), Last(steps))
    && ((Last(steps).Commanded? && Last(steps).outcome.Got?) || SucceededSinceRung(cfg, s, Front(steps)))
  }

  /** Command failures since the last command success. */
  function FailuresSinceSuccess(steps: seq<Step>): nat {
    if steps == [] || (Last(steps).Commanded? && Last(steps).outcome.Got?) then 0
    else FailuresSinceSuccess(Front(steps)) + if Last(steps).Commanded? then 1 else 0
  }

  /** What the exact theorem carries along: the grace counter is the command path's own once it has succeeded. */
  ghost predicate Tracked(cfg: Config, s: Store, steps: seq<Step>)
    requires cfg.Valid() && AllValid(steps)
  {
    var p := Reached(cfg, s, steps);
    var n := FailuresSinceSuccess(steps);
    && (p.wedge.cooldownUntil.None? <==> p.wedge.index == 0)
    && (p.wedge.cooldownUntil.None? ==> p.wedge.probes == 0)
    && p.wedge.probes < cfg.policy.resumeAfter
    && (p.wedge.cooldownUntil.Some? ==>
          if SucceededSinceRung(cfg, s, steps) then
            p.store.failStreak == n && p.store.available == Some(!(n >= 1 && n >= cfg.grace))
          else p.store.available == Some(false))
  }

  /** What a turn does to the store while a deadline stays set without a new rung. */
  lemma QuietTurn(cfg: Config, p: Poller, c: Cycle)
    requires cfg.Valid() && c.Valid() && p.wedge.probes < cfg.policy.resumeAfter
    requires p.wedge.cooldownUntil.None? <==> p.wedge.index == 0
    requires p.wedge.cooldownUntil.None? ==> p.wedge.probes == 0
    ensures var p' := Turned(cfg, p, c).0;
      && (p'.wedge.cooldownUntil.None? <==> p'.wedge.index == 0)
      && (p'.wedge.cooldownUntil.None? ==> p'.wedge.probes == 0)
      && p'.wedge.probes < cfg.policy.resumeAfter
      && (p'.wedge.index > p.wedge.index ==> p'.store.available == Some(false))
      && (p'.wedge.cooldownUntil.Some? && p'.wedge.index <= p.wedge.index ==>
            && p.wedge.cooldownUntil.Some?
            && p'.store.available == p.store.available && p'.store.failStreak == p.store.failStreak)
  {
    hide Overlaid, LiveSwept;
  }

  lemma {:induction false} TrafficIsTracked(cfg: Config, s: Store, steps: seq<Step>)
    requires cfg.Valid() && AllValid(steps)
    ensures Tracked(cfg, s, steps)
  {
    hide Turned, Overlaid;
    if steps != [] {
      TrafficIsTracked(cfg, s, Front(steps));
      if Last(steps).Turn? {
        QuietTurn(cfg, Reached(cfg, s, Front(steps)), Last(steps).cycle);
      }
    }
  }

  /**
   * In every run of turns and commands, at every point where a deadline is set: the store is offline if
   * and only if no command has succeeded since the last rung was climbed, or the grace of command
   * failures has run out since the last such success.
   */
  lemma CooldownIsOfflineExactly(cfg: Config, s: Store, steps: seq<Step>)
    requires cfg.Valid() && AllValid(steps)
    ensures var p := Reached(cfg, s, steps);
      var n := FailuresSinceSuccess(steps);
      p.wedge.cooldownUntil.Some? ==>
        (!p.store.Verdict() <==> !SucceededSinceRung(cfg, s, steps) || (n >= 1 && n >= cfg.grace))
  {
    hide Reached, SucceededSinceRung;
    TrafficIsTracked(cfg, s, steps);
  }

  // -- a command and the machine's rest ----------------------------------------------

  /** One of these turns began or extended a rest that lasts beyond `later`. */
  ghost predicate RestBeganBeyond(cfg: Config, p: Poller, t: real, cycles: seq<Cycle>, later: real)
    requires cfg.Valid() && MonotoneFrom(t, cycles)
    decreases |cycles|
  {
    && cycles != []
    && (|| (Climbs(cfg, p, Turn(cycles[0])) && later < Turned(cfg, p, cycles[0]).0.wedge.cooldownUntil.GetOr(later))
        || RestBeganBeyond(cfg, Turned(cfg, p, cycles[0]).0, cycles[0].begun, cycles[1..], later))
  }

  lemma TurnAndLaterRest(cfg: Config, p: Poller, c: Cycle, later: real)
    requires cfg.Valid() && c.Valid() && c.begun <= later
    requires p.wedge.cooldownUntil.None? <==> p.wedge.index == 0
    ensures var p' := Turned(cfg, p, c).0;
      && (p'.wedge.cooldownUntil.None? <==> p'.wedge.index == 0)
      && (p'.wedge.InCooldown(later) <==>
            p.wedge.InCooldown(later) || (Climbs(cfg, p, Turn(c)) && later < p'.wedge.cooldownUntil.GetOr(later)))
  {
    hide Overlaid, LiveSwept;
  }

  lemma {:induction false} LaterRestExactly(cfg: Config, p: Poller, t: real, cycles: seq<Cycle>, later: real)
    requires cfg.Valid() && MonotoneFrom(t, cycles)
    requires p.wedge.cooldownUntil.None? <==> p.wedge.index == 0
    requires cycles != [] ==> cycles[|cycles| - 1].begun <= later
    ensures After(cfg, p, t, cycles).wedge.InCooldown(later) <==>
      p.wedge.InCooldown(later) || RestBeganBeyond(cfg, p, t, cycles, later)
    decreases |cycles|
  {
    hide Turned;
    if cycles != [] {
      BegunBefore(t, cycles);
      TurnAndLaterRest(cfg, p, cycles[0], later);
      LaterRestExactly(cfg, Turned(cfg, p, cycles[0]).0, cycles[0].begun, cycles[1..], later);
    }
  }

  lemma {:induction false} BegunBefore(t: real, cycles: seq<Cycle>)
    requires MonotoneFrom(t, cycles) && cycles != []
    ensures t <= cycles[0].begun <= cycles[|cycles| - 1].begun
    decreases |cycles|
  {
    if |cycles| > 1 {
      BegunBefore(cycles[0].begun, cycles[1..]);
    }
  }

  /**
   * The consumer of write-intents consults the cooldown once, before its first attempt, between turns or
   * while one is in flight; `p` is the loop's state at that moment. Whatever it does on the link at a later
   * time, the attempt itself, a retry or the reconcile read, falls into the machine's rest if and only if a
   * turn that ends after the check begins or extends a rest lasting beyond that time.
   */
  lemma CommandsDisturbRestExactly(
    cfg: Config, p: Poller, t: real, checked: real, cycles: seq<Cycle>, later: real)
    requires cfg.Valid() && MonotoneFrom(t, cycles) && checked <= later
    requires cycles != [] ==> cycles[|cycles| - 1].begun <= later
    requires p.wedge.cooldownUntil.None? <==> p.wedge.index == 0
    requires !p.wedge.InCooldown(checked)
    ensures After(cfg, p, t, cycles).wedge.InCooldown(later) <==> RestBeganBeyond(cfg, p, t, cycles, later)
  {
    hide After, RestBeganBeyond;
    LaterRestExactly(cfg, p, t, cycles, later);
  }

  // -- the failing cases, concretely ---------------------------------------------------

  /** A turn that meets a dead link from `entered` to `settled`. */
  function DeadTurn(entered: real, settled: real): Cycle {
    Cycle(true, entered, entered, settled, settled, settled, Missed,
          seq(|LIVE_REGISTERS|, _ => Missed), seq(|LIVE_REGISTERS|, _ => settled))
  }

  /**
   * With the constants the bridge ships: a poll fails at 0; the next one, under way since 40, fails at 45 and
   * begins a cooldown. A command that finds no cooldown at 42 and gets the link at 46 falls into the rest.
   */
  lemma CheckedCommandFallsIntoRest()
    ensures var cfg := Config(DefaultPolicy(), 10, 4);
      var first, second := DeadTurn(0.0, 0.0), DeadTurn(40.0, 45.0);
      && cfg.Valid() && MonotoneFrom(0.0, [first]) && MonotoneFrom(0.0, [second])
      && var p := After(cfg, Start(Fresh()), 0.0, [first]);
      && second.entered < 42.0 < second.settled
      && !p.wedge.InCooldown(42.0)
      && RestBeganBeyond(cfg, p, 0.0, [second], 46.0)
      && After(cfg, p, 0.0, [second]).wedge.InCooldown(46.0)
  {
    var cfg := Config(DefaultPolicy(), 10, 4);
    var first, second := DeadTurn(0.0, 0.0), DeadTurn(40.0, 45.0);
    assert MonotoneFrom(0.0, [first]) && MonotoneFrom(0.0, [second]);
    AfterOne(cfg, Start(Fresh()), 0.0, first);
    var p := After(cfg, Start(Fresh()), 0.0, [first]);
    assert p.wedge == Wedge(Some(0.0), None, 0, 0);
    AfterOne(cfg, p, 0.0, second);
    assert After(cfg, p, 0.0, [second]).wedge == Wedge(Some(0.0), Some(345.0), 1, 0);
    CommandsDisturbRestExactly(cfg, p, 0.0, 42.0, [second], 46.0);
  }

  lemma AfterOne(cfg: Config, p: Poller, t: real, c: Cycle)
    requires cfg.Valid() && MonotoneFrom(t, [c])
    ensures After(cfg, p, t, [c]) == Turned(cfg, p, c).0
  {
    hide Turned;
    assert [c][1..] == [];
  }

  /**
   * With the constants the bridge ships: two failed polls 45 seconds apart begin a cooldown of 300 seconds,
   * and a command whose wait was over before answers ten seconds into it. The store is online and
   * the deadline is 290 seconds away.
   */
  lemma CommandSuccessShowsOnlineInCooldown(data: seq<int>)
    ensures var cfg := Config(DefaultPolicy(), 10, 4);
      var before := [Turn(DeadTurn(0.0, 0.0)), Turn(DeadTurn(45.0, 45.0))];
      var steps := before + [Commanded(Got(data))];
      && cfg.Valid() && AllValid(before) && AllValid(steps)
      && !Reached(cfg, Fresh(), before).store.Verdict()
      && Reached(cfg, Fresh(), steps).wedge.cooldownUntil == Some(345.0)
      && Reached(cfg, Fresh(), steps).wedge.InCooldown(55.0)
      && Reached(cfg, Fresh(), steps).store.Verdict()
  {
    var cfg := Config(DefaultPolicy(), 10, 4);
    var one, two := Turn(DeadTurn(0.0, 0.0)), Turn(DeadTurn(45.0, 45.0));
    var three := Commanded(Got(data));
    var p1, p2 := Stepped(cfg, Start(Fresh()), one), Stepped(cfg, Stepped(cfg, Start(Fresh()), one), two);
    assert p1.wedge == Wedge(Some(0.0), None, 0, 0);
    assert p2.wedge == Wedge(Some(0.0), Some(345.0), 1, 0) && p2.store.available == Some(false);
    ReachedNext(cfg, Fresh(), [], one);
    ReachedNext(cfg, Fresh(), [one], two);
    ReachedNext(cfg, Fresh(), [one, two], three);
    assert [] + [one] == [one] && [one] + [two] == [one, two];
  }

  lemma ReachedNext(cfg: Config, s: Store, steps: seq<Step>, step: Step)
    requires cfg.Valid() && AllValid(steps) && step.Valid()
    ensures AllValid(steps + [step])
    ensures Reached(cfg, s, steps + [step]) == Stepped(cfg, Reached(cfg, s, steps), step)
  {
    assert Front(steps + [step]) == steps;
  }
}
