/**
 * When the poll loop does what, computed from the events of a run and its clock readings alone: when a wedge
 * is declared, when the next probe is due, which polls read the settings, and what the store is told.
 */
module Timeline {
  import opened Wrappers
  import opened Store
  import opened Wedge
  import opened PollLoop
  import opened Recovery
  import StoreLaws

  // -- the wedge is declared ----------------------------------------------------------

  /** When the first of the failed polls since the last good poll or probe was over, if any failed. */
  function FirstMiss(clock: Option<real>, events: seq<Event>, cycles: seq<Cycle>): Option<real>
    requires |events| == |cycles|
    decreases |events|
  {
    if events == [] then clock
    else
      var next :=
        match events[0]
        case Poll(_, good) => if good then None else if clock.None? then Some(cycles[0].settled) else clock
        case Probe(_) => None
        case _ => clock;
      FirstMiss(next, events[1..], cycles[1..])
  }

  ghost predicate Clocked(cfg: Config, p: Poller, clock: Option<real>) {
    Sound(cfg.policy, p) && (p.wedge.cooldownUntil.None? ==> p.wedge.firstFailAt == clock)
  }

  lemma TurnKeepsClock(cfg: Config, p: Poller, clock: Option<real>, c: Cycle)
    requires cfg.Valid() && c.Valid() && Clocked(cfg, p, clock)
    ensures var (p', e) := Turned(cfg, p, c);
      Clocked(cfg, p', FirstMiss(clock, [e], [c]))
  {
    hide Overlaid, LiveSwept;
    TurnKeepsSound(cfg, p, c);
    assert forall e: Event :: [e][1..] == [] && [c][1..] == [];
  }

  lemma {:induction false} RunKeepsClock(cfg: Config, p: Poller, clock: Option<real>, t: real, cycles: seq<Cycle>)
    requires cfg.Valid() && MonotoneFrom(t, cycles) && Clocked(cfg, p, clock)
    ensures Clocked(cfg, After(cfg, p, t, cycles), FirstMiss(clock, Events(cfg, p, t, cycles), cycles))
    decreases |cycles|
  {
    hide Turned, Clocked;
    if cycles != [] {
      var (p', e) := Turned(cfg, p, cycles[0]);
      TurnKeepsClock(cfg, p, clock, cycles[0]);
      RunKeepsClock(cfg, p', FirstMiss(clock, [e], [cycles[0]]), cycles[0].begun, cycles[1..]);
      OneTurnClock(clock, e, cycles[0]);
    }
  }

  lemma OneTurnClock(clock: Option<real>, e: Event, c: Cycle)
    ensures FirstMiss(clock, [e], [c])
         == match e
            case Poll(_, good) => if good then None else if clock.None? then Some(c.settled) else clock
            case Probe(_) => None
            case _ => clock
  {
    assert [e][1..] == [] && [c][1..] == [];
  }

  predicate AllGot(readings: seq<Reading>) {
    forall i :: 0 <= i < |readings| ==> readings[i].Got?
  }

  lemma {:induction false} SweepIsGoodExactly(s: Store, registers: seq<nat>, readings: seq<Reading>, times: seq<real>)
    requires |registers| == |readings| == |times|
    ensures LiveSwept(s, registers, readings, times).1 <==> AllGot(readings)
    decreases |registers|
  {
    if registers != [] {
      assert readings == [readings[0]] + readings[1..];
      if readings[0].Got? {
        SweepIsGoodExactly(
          LiveUpdated(s, registers[0], readings[0].data, times[0]), registers[1..], readings[1..], times[1..]);
      }
    }
  }

  /**
   * In every run of the loop from its start: a poll happens only outside a cooldown and is good exactly when
   * every read of it was; it begins a cooldown if and only if it failed and was judged at least `wedgeAfter`
   * after the first failed poll since the last good poll or probe; and that cooldown is the first rung.
   */
  lemma WedgeDeclaredExactly(cfg: Config, s: Store, t: real, cycles: seq<Cycle>, c: Cycle)
    requires cfg.Valid() && MonotoneFrom(t, cycles) && c.Valid()
    ensures var p := After(cfg, Start(s), t, cycles);
      var (p', e) := Turned(cfg, p, c);
      var first := FirstMiss(None, Events(cfg, Start(s), t, cycles), cycles).GetOr(c.settled);
      e.Poll? ==>
        && p.wedge.cooldownUntil.None?
        && (e.good <==> (e.withSettings ==> c.settings.Got?) && AllGot(c.live))
        && (p'.wedge.cooldownUntil.Some? <==> !e.good && c.judged - first >= cfg.policy.wedgeAfter)
        && (p'.wedge.cooldownUntil.Some? ==> p'.wedge.cooldownUntil == Some(c.begun + cfg.policy.steps[0]))
  {
    hide After, Overlaid, LiveSwept;
    StartIsSound(cfg, s);
    RunKeepsClock(cfg, Start(s), None, t, cycles);
    var p := After(cfg, Start(s), t, cycles);
    SweepIsGoodExactly(p.store, LIVE_REGISTERS, c.live, c.read);
    if c.settings.Got? {
      SweepIsGoodExactly(SettingsUpdated(p.store, c.settings.data), LIVE_REGISTERS, c.live, c.read);
    }
  }

  /** With the constants the bridge ships: 45 seconds of failure, then 300 seconds of rest. */
  lemma WedgedAfter45Seconds(cfg: Config, s: Store, t: real, cycles: seq<Cycle>, c: Cycle)
    requires cfg.Valid() && cfg.policy == DefaultPolicy() && MonotoneFrom(t, cycles) && c.Valid()
    ensures var (p', e) := Turned(cfg, After(cfg, Start(s), t, cycles), c);
      var first := FirstMiss(None, Events(cfg, Start(s), t, cycles), cycles).GetOr(c.settled);
      e.Poll? ==>
        p'.wedge.cooldownUntil == if !e.good && c.judged - first >= 45.0 then Some(c.begun + 300.0) else None
  {
    hide After, Turned;
    WedgeDeclaredExactly(cfg, s, t, cycles, c);
  }

  // -- the next probe is due ------------------------------------------------------------

  /** When the next probe is due: rung `n` of the ladder after the last failed probe, or at once after a good one. */
  function Due(policy: Policy, due: real, n: nat, events: seq<Event>, cycles: seq<Cycle>): real
    requires policy.Valid() && |events| == |cycles|
    decreases |events|
  {
    if events == [] then due
    else if events[0] == Probe(false) then
      var step := policy.steps[if n < |policy.steps| then n else |policy.steps| - 1];
      Due(policy, cycles[0].settled + step, n + 1, events[1..], cycles[1..])
    else if events[0] == Probe(true) then Due(policy, cycles[0].settled, n, events[1..], cycles[1..])
    else Due(policy, due, n, events[1..], cycles[1..])
  }

  lemma {:induction false} DeadlineIsDue(cfg: Config, p: Poller, t: real, cycles: seq<Cycle>)
    requires cfg.Valid() && MonotoneFrom(t, cycles)
    requires p.wedge.cooldownUntil.Some? && p.wedge.probes < cfg.policy.resumeAfter
    requires NoPoll(Events(cfg, p, t, cycles))
    ensures var w := After(cfg, p, t, cycles).wedge;
      var due := Due(cfg.policy, p.wedge.cooldownUntil.value, p.wedge.index, Events(cfg, p, t, cycles), cycles);
      w.cooldownUntil.Some? ==> w.cooldownUntil == Some(due)
    decreases |cycles|
  {
    hide Turned;
    if cycles != [] {
      var (p', e) := Turned(cfg, p, cycles[0]);
      TurnWhileCooling(cfg, p, cycles[0]);
      assert Events(cfg, p, t, cycles)[1..] == Events(cfg, p', cycles[0].begun, cycles[1..]);
      if p'.wedge.cooldownUntil.Some? {
        DeadlineIsDue(cfg, p', cycles[0].begun, cycles[1..]);
      } else {
        ResumedLoopOnlyIdles(cfg, p', cycles[0].begun, cycles[1..]);
      }
    }
  }

  /**
   * From the entry of a cooldown to the next full poll, what a turn does: nothing when nobody wants data; a poll
   * once enough good probes came in a row; before that a rest until the next probe is due and a probe from then on.
   */
  lemma NextTurnExactly(cfg: Config, p: Poller, t: real, cycles: seq<Cycle>, c: Cycle)
    requires cfg.Valid() && MonotoneFrom(t, cycles) && c.Valid()
    requires p.wedge.cooldownUntil.Some? && p.wedge.probes == 0
    requires NoPoll(Events(cfg, p, t, cycles))
    ensures var events := Events(cfg, p, t, cycles);
      var due := Due(cfg.policy, p.wedge.cooldownUntil.value, p.wedge.index, events, cycles);
      var e := Turned(cfg, After(cfg, p, t, cycles), c).1;
      if !c.wanted then e.Idle?
      else if Streak(0, Outcomes(events)) == cfg.policy.resumeAfter then e.Poll?
      else if c.entered < due then e.Rest?
      else e == Probe(c.settings.Got?)
  {
    hide After, Polled, LiveSwept, Overlaid;
    RecoveryTracksStreak(cfg, p, t, cycles);
    DeadlineIsDue(cfg, p, t, cycles);
  }

  /** With the constants the bridge ships: two good probes in a row end the recovery; rungs of 5 to 30 minutes. */
  lemma ShippedRecovery(cfg: Config, p: Poller, t: real, cycles: seq<Cycle>, c: Cycle, entry: real)
    requires cfg.Valid() && cfg.policy == DefaultPolicy() && MonotoneFrom(t, cycles) && c.Valid() && c.wanted
    requires p.wedge.cooldownUntil == Some(entry + 300.0) && p.wedge.index == 1 && p.wedge.probes == 0
    requires NoPoll(Events(cfg, p, t, cycles))
    ensures var events := Events(cfg, p, t, cycles);
      var e := Turned(cfg, After(cfg, p, t, cycles), c).1;
      && (e.Poll? <==> Streak(0, Outcomes(events)) == 2)
      && (Outcomes(events) == [] ==> (e.Rest? <==> c.entered < entry + 300.0))
      && (forall at :: Due(cfg.policy, at, 1, [Probe(false)], [c]) == c.settled + 600.0)
      && (forall at :: Due(cfg.policy, at, 2, [Probe(false)], [c]) == c.settled + 1200.0)
      && (forall at, n: nat :: n >= 3 ==> Due(cfg.policy, at, n, [Probe(false)], [c]) == c.settled + 1800.0)
  {
    hide After, Turned;
    NextTurnExactly(cfg, p, t, cycles, c);
    NoProbeNoChange(cfg.policy, entry + 300.0, 1, Events(cfg, p, t, cycles), cycles);
    assert [Probe(false)][1..] == [] && [c][1..] == [];
  }

  lemma {:induction false} NoProbeNoChange(policy: Policy, due: real, n: nat, events: seq<Event>, cycles: seq<Cycle>)
    requires policy.Valid() && |events| == |cycles|
    ensures Outcomes(events) == [] ==> Due(policy, due, n, events, cycles) == due
    decreases |events|
  {
    if events != [] && !events[0].Probe? {
      assert Outcomes(events) == Outcomes(events[1..]);
      NoProbeNoChange(policy, due, n, events[1..], cycles[1..]);
    }
  }

  // -- which polls read the settings --------------------------------------------------

  function Active(events: seq<Event>): nat {
    if events == [] then 0 else (if events[0].Idle? then 0 else 1) + Active(events[1..])
  }

  predicate JustIdle(idle: bool, events: seq<Event>) {
    if events == [] then idle else events[|events| - 1].Idle?
  }

  lemma {:induction false} RunKeepsCadence(cfg: Config, p: Poller, t: real, cycles: seq<Cycle>)
    requires cfg.Valid() && MonotoneFrom(t, cycles)
    ensures var last := After(cfg, p, t, cycles);
      var events := Events(cfg, p, t, cycles);
      last.tick == p.tick + Active(events) && last.idle == JustIdle(p.idle, events)
    decreases |cycles|
  {
    hide Polled, Probed;
    if cycles != [] {
      var (p', e) := Turned(cfg, p, cycles[0]);
      TurnCounts(cfg, p, cycles[0]);
      RunKeepsCadence(cfg, p', cycles[0].begun, cycles[1..]);
      assert Events(cfg, p, t, cycles)[1..] == Events(cfg, p', cycles[0].begun, cycles[1..]);
    }
  }

  lemma TurnCounts(cfg: Config, p: Poller, c: Cycle)
    requires cfg.Valid() && c.Valid()
    ensures var (p', e) := Turned(cfg, p, c);
      && p'.tick == p.tick + (if e.Idle? then 0 else 1) && p'.idle == e.Idle? && (e.Idle? <==> !c.wanted)
  {
    hide Overlaid, LiveSwept;
  }

  /**
   * A poll reads the settings block exactly when it follows an idle turn, or none, or when the number of active
   * turns before it is a multiple of the cadence.
   */
  lemma CadenceExactly(cfg: Config, s: Store, t: real, cycles: seq<Cycle>, c: Cycle)
    requires cfg.Valid() && MonotoneFrom(t, cycles) && c.Valid()
    ensures var events := Events(cfg, Start(s), t, cycles);
      var e := Turned(cfg, After(cfg, Start(s), t, cycles), c).1;
      e.Poll? ==>
        (e.withSettings <==>
           events == [] || events[|events| - 1].Idle? || Active(events) % cfg.settingsEvery == 0)
  {
    hide After, Polled, Probed;
    RunKeepsCadence(cfg, Start(s), t, cycles);
  }

  // -- what the store is told -----------------------------------------------------------

  function LiveEvents(registers: seq<nat>, readings: seq<Reading>, times: seq<real>): seq<StoreLaws.StoreEvent>
    requires |registers| == |readings| == |times|
    decreases |registers|
  {
    if registers == [] || readings[0].Missed? then []
    else [StoreLaws.LiveRead(registers[0], readings[0].data, times[0])]
         + LiveEvents(registers[1..], readings[1..], times[1..])
  }

  function PollEvents(c: Cycle, withSettings: bool): seq<StoreLaws.StoreEvent>
    requires c.Valid()
  {
    if withSettings && c.settings.Missed? then []
    else
      (if withSettings then [StoreLaws.SettingsRead(c.settings.data)] else [])
      + LiveEvents([0xB000, 0xB001, 0xB002, 0xB007], c.live, c.read)
  }

  /** What one turn tells the store, from its event and whether it began a cooldown or left one. */
  function TurnEvents(e: Event, c: Cycle, began: bool, left: bool): seq<StoreLaws.StoreEvent>
    requires c.Valid() && (e == Probe(true) ==> c.settings.Got?)
  {
    match e
    case Idle => []
    case Rest => []
    case Probe(good) =>
      if !good then [StoreLaws.Wedge]
      else [StoreLaws.SettingsRead(c.settings.data)] + if left then [StoreLaws.Success] else []
    case Poll(withSettings, good) =>
      PollEvents(c, withSettings)
      + if good then [StoreLaws.Success]
        else if began then [StoreLaws.Failure, StoreLaws.Wedge]
        else [StoreLaws.Failure]
  }

  predicate Begins(p: Poller, p': Poller) {
    p'.wedge.index > p.wedge.index
  }

  predicate Leaves(p: Poller, p': Poller) {
    p.wedge.cooldownUntil.Some? && p'.wedge.cooldownUntil.None?
  }

  lemma ProbedWhatItSays(cfg: Config, p: Poller, c: Cycle)
    requires cfg.Valid() && c.Valid()
    ensures Turned(cfg, p, c).1.Probe? ==> Turned(cfg, p, c).1.good == c.settings.Got?
  {
    hide Overlaid, LiveSwept;
  }

  function LoopEvents(cfg: Config, p: Poller, t: real, cycles: seq<Cycle>): seq<StoreLaws.StoreEvent>
    requires cfg.Valid() && MonotoneFrom(t, cycles)
    decreases |cycles|
  {
    if cycles == [] then []
    else
      var (p', e) := Turned(cfg, p, cycles[0]);
      ProbedWhatItSays(cfg, p, cycles[0]);
      TurnEvents(e, cycles[0], Begins(p, p'), Leaves(p, p')) + LoopEvents(cfg, p', cycles[0].begun, cycles[1..])
  }

  lemma FedFew(s: Store, one: StoreLaws.StoreEvent, two: StoreLaws.StoreEvent, grace: int)
    ensures StoreLaws.Fed(s, [], grace) == s
    ensures StoreLaws.Fed(s, [one], grace) == StoreLaws.Seen(s, one, grace)
    ensures StoreLaws.Fed(s, [one, two], grace) == StoreLaws.Seen(StoreLaws.Seen(s, one, grace), two, grace)
  {
    hide StoreLaws.Seen;
    StoreLaws.FedLast(s, [], one, grace);
    StoreLaws.FedLast(s, [one], two, grace);
    assert [] + [one] == [one] && [one] + [two] == [one, two];
  }

  lemma {:induction false} SweepFeeds(
    s: Store, registers: seq<nat>, readings: seq<Reading>, times: seq<real>, grace: int)
    requires |registers| == |readings| == |times|
    ensures LiveSwept(s, registers, readings, times).0
         == StoreLaws.Fed(s, LiveEvents(registers, readings, times), grace)
    decreases |registers|
  {
    hide StoreLaws.Fed, LiveUpdated;
    FedFew(s, StoreLaws.Success, StoreLaws.Success, grace);
    if registers != [] && readings[0].Got? {
      var e := StoreLaws.LiveRead(registers[0], readings[0].data, times[0]);
      var s1 := LiveUpdated(s, registers[0], readings[0].data, times[0]);
      FedFew(s, e, e, grace);
      SweepFeeds(s1, registers[1..], readings[1..], times[1..], grace);
      StoreLaws.FedJoin(s, [e], LiveEvents(registers[1..], readings[1..], times[1..]), grace);
    }
  }

  lemma PollFeeds(s: Store, withSettings: bool, c: Cycle, grace: int)
    requires c.Valid()
    ensures Swept(s, withSettings, c).0 == StoreLaws.Fed(s, PollEvents(c, withSettings), grace)
  {
    hide StoreLaws.Fed, LiveSwept, SettingsUpdated;
    FedFew(s, StoreLaws.Success, StoreLaws.Success, grace);
    var live := LiveEvents([0xB000, 0xB001, 0xB002, 0xB007], c.live, c.read);
    if !withSettings {
      SweepFeeds(s, LIVE_REGISTERS, c.live, c.read, grace);
      assert [] + live == live;
    } else if c.settings.Got? {
      var e := StoreLaws.SettingsRead(c.settings.data);
      FedFew(s, e, e, grace);
      SweepFeeds(SettingsUpdated(s, c.settings.data), LIVE_REGISTERS, c.live, c.read, grace);
      StoreLaws.FedJoin(s, [e], live, grace);
    }
  }

  lemma PollTurnFeeds(cfg: Config, p: Poller, withSettings: bool, c: Cycle)
    requires cfg.Valid() && c.Valid() && p.wedge.cooldownUntil.None? && p.wedge.index == 0
    ensures var (p', good) := Polled(cfg, p, withSettings, c);
      p'.store
        == StoreLaws.Fed(p.store, TurnEvents(Poll(withSettings, good), c, Begins(p, p'), Leaves(p, p')), cfg.grace)
  {
    hide StoreLaws.Fed, LiveSwept, PollEvents, Swept;
    var (p', good) := Polled(cfg, p, withSettings, c);
    var s := Swept(p.store, withSettings, c).0;
    PollFeeds(p.store, withSettings, c, cfg.grace);
    FedFew(s, StoreLaws.Success, StoreLaws.Success, cfg.grace);
    FedFew(s, StoreLaws.Failure, StoreLaws.Wedge, cfg.grace);
    var verdict := if good then [StoreLaws.Success]
                   else if Begins(p, p') then [StoreLaws.Failure, StoreLaws.Wedge] else [StoreLaws.Failure];
    StoreLaws.FedJoin(p.store, PollEvents(c, withSettings), verdict, cfg.grace);
  }

  lemma TurnFeeds(cfg: Config, p: Poller, c: Cycle)
    requires cfg.Valid() && c.Valid() && Sound(cfg.policy, p)
    requires Turned(cfg, p, c).1 == Probe(true) ==> c.settings.Got?
    ensures var (p', e) := Turned(cfg, p, c);
      p'.store == StoreLaws.Fed(p.store, TurnEvents(e, c, Begins(p, p'), Leaves(p, p')), cfg.grace)
  {
    hide StoreLaws.Fed, Polled, PollEvents, SettingsUpdated;
    FedFew(p.store, StoreLaws.Wedge, StoreLaws.Wedge, cfg.grace);
    if c.settings.Got? {
      var read := StoreLaws.SettingsRead(c.settings.data);
      FedFew(p.store, read, StoreLaws.Success, cfg.grace);
      assert [read] + [StoreLaws.Success] == [read, StoreLaws.Success] && [read] + [] == [read];
    }
    var next := p.(idle := false, tick := p.tick + 1);
    if c.wanted && p.wedge.cooldownUntil.None? {
      PollTurnFeeds(cfg, next, p.idle || p.tick % cfg.settingsEvery == 0, c);
    }
  }

  lemma {:induction false} RunFeeds(cfg: Config, p: Poller, t: real, cycles: seq<Cycle>)
    requires cfg.Valid() && MonotoneFrom(t, cycles) && Sound(cfg.policy, p)
    ensures After(cfg, p, t, cycles).store == StoreLaws.Fed(p.store, LoopEvents(cfg, p, t, cycles), cfg.grace)
    decreases |cycles|
  {
    hide Turned, StoreLaws.Fed, StoreLaws.Seen, TurnEvents;
    if cycles == [] {
      FedFew(p.store, StoreLaws.Success, StoreLaws.Success, cfg.grace);
    } else {
      var c := cycles[0];
      var (p', e) := Turned(cfg, p, c);
      ProbedWhatItSays(cfg, p, c);
      TurnFeeds(cfg, p, c);
      TurnKeepsSound(cfg, p, c);
      RunFeeds(cfg, p', c.begun, cycles[1..]);
      StoreLaws.FedJoin(p.store, TurnEvents(e, c, Begins(p, p'), Leaves(p, p')),
                        LoopEvents(cfg, p', c.begun, cycles[1..]), cfg.grace);
    }
  }

  /**
   * In every run of the loop the store is the one made by the readings and verdicts of its turns in order: the
   * reads up to the first miss, then a success, a failure, or a failure and a wedge; a probe counts as a success
   * only when it ends the recovery.
   */
  lemma LoopStoreIsItsHistory(cfg: Config, t: real, cycles: seq<Cycle>)
    requires cfg.Valid() && MonotoneFrom(t, cycles)
    ensures After(cfg, Start(Fresh()), t, cycles).store
         == StoreLaws.StoreAfter(LoopEvents(cfg, Start(Fresh()), t, cycles), cfg.grace)
  {
    hide After, LoopEvents, StoreLaws.StoreAfter, StoreLaws.Fed;
    StartIsSound(cfg, Fresh());
    RunFeeds(cfg, Start(Fresh()), t, cycles);
    StoreLaws.FedFromFresh(LoopEvents(cfg, Start(Fresh()), t, cycles), cfg.grace);
  }
}
