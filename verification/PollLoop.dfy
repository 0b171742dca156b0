/** The poll loop of bridge/r60v_broker/broker.py: polling, wedge cooldown and graded probing, tied to the store. */
module PollLoop {
  import opened Store
  import opened Wedge

  /** The live registers read after the settings block, in order. */
  const LIVE_REGISTERS: seq<nat> := [0xB000, 0xB001, 0xB002, 0xB007]

  /** How one device read ended; any exception counts as a miss. */
  datatype Reading = Got(data: seq<int>) | Missed

  /**
   * What one turn of the loop meets: whether anyone wants data, the successive clock readings it
   * takes, and the outcome each device read would have.
   */
  datatype Cycle = Cycle(
    wanted: bool,
    entered: real,   // in_cooldown is consulted
    checked: real,   // awaiting_probe is consulted
    settled: real,   // the device reads are over
    judged: real,    // wedged is consulted
    begun: real,     // a poll failure begins a cooldown
    settings: Reading,
    live: seq<Reading>,
    read: seq<real>)  // when each live register was read
  {
    predicate Valid() {
      && |live| == |read| == |LIVE_REGISTERS|
      && entered <= checked <= settled <= judged <= begun
    }
  }

  /** What a turn did to the device link. */
  datatype Event = Idle | Rest | Probe(good: bool) | Poll(withSettings: bool, good: bool)

  datatype Config = Config(policy: Policy, settingsEvery: nat, grace: int)
  {
    predicate Valid() {
      policy.Valid() && settingsEvery >= 1
    }
  }

  datatype Poller = Poller(tick: nat, idle: bool, wedge: Wedge, store: Store)

  /** Live reads one after another; the first miss ends the cycle. */
  function LiveSwept(s: Store, registers: seq<nat>, readings: seq<Reading>, times: seq<real>): (Store, bool)
    requires |registers| == |readings| == |times|
    decreases |registers|
  {
    if registers == [] then (s, true)
    else if readings[0].Missed? then (s, false)
    else LiveSwept(LiveUpdated(s, registers[0], readings[0].data, times[0]), registers[1..], readings[1..], times[1..])
  }

  function Swept(s: Store, withSettings: bool, c: Cycle): (Store, bool)
    requires c.Valid()
  {
    if withSettings && c.settings.Missed? then (s, false)
    else
      var s1 := if withSettings then SettingsUpdated(s, c.settings.data) else s;
      LiveSwept(s1, LIVE_REGISTERS, c.live, c.read)
  }

  function Polled(cfg: Config, p: Poller, withSettings: bool, c: Cycle): (Poller, bool)
    requires cfg.Valid() && c.Valid()
  {
    var (s, good) := Swept(p.store, withSettings, c);
    if good then (p.(store := SuccessNoted(s), wedge := POLLING), true)
    else
      var w := FailureRecorded(p.wedge, c.settled);
      var s1 := FailureNoted(s, cfg.grace);
      if w.Wedged(cfg.policy, c.judged) && !w.InCooldown(c.judged) then
        (p.(store := WedgeNoted(s1, cfg.grace), wedge := CooldownBegun(cfg.policy, w, c.begun)), false)
      else (p.(store := s1, wedge := w), false)
  }

  function Probed(cfg: Config, p: Poller, c: Cycle): (Poller, bool)
    requires cfg.Valid() && c.Valid()
  {
    match c.settings
    case Missed =>
      (p.(store := WedgeNoted(p.store, cfg.grace), wedge := CooldownBegun(cfg.policy, p.wedge, c.settled)), false)
    case Got(data) =>
      var w := ProbeCounted(cfg.policy, p.wedge, c.settled);
      var s := SettingsUpdated(p.store, data);
      (p.(store := if w.cooldownUntil.None? then SuccessNoted(s) else s, wedge := w), true)
  }

  function Turned(cfg: Config, p: Poller, c: Cycle): (Poller, Event)
    requires cfg.Valid() && c.Valid()
  {
    if !c.wanted then (p.(idle := true), Idle)
    else
      var next := p.(idle := false, tick := p.tick + 1);
      if p.wedge.InCooldown(c.entered) then (next, Rest)
      else if p.wedge.AwaitingProbe(c.checked) then
        var (p', good) := Probed(cfg, next, c);
        (p', Probe(good))
      else
        var withSettings := p.idle || p.tick % cfg.settingsEvery == 0;
        var (p', good) := Polled(cfg, next, withSettings, c);
        (p', Poll(withSettings, good))
  }

  class Loop {
    const wedge: WedgeRecovery
    const store: DeviceState
    const settingsEvery: nat
    var tick: nat
    var idle: bool

    constructor (wedge: WedgeRecovery, store: DeviceState, settingsEvery: nat)
      ensures this.wedge == wedge && this.store == store && this.settingsEvery == settingsEvery
      ensures State() == Poller(0, true, wedge.State(), store.State())
    {
      this.wedge, this.store, this.settingsEvery := wedge, store, settingsEvery;
      tick, idle := 0, true;
    }

    ghost function Settings(): Config
      reads this
    {
      Config(wedge.policy, settingsEvery, store.grace)
    }

    ghost function State(): Poller
      reads this, wedge, store
    {
      Poller(tick, idle, wedge.State(), store.State())
    }

    /** One turn of `_poll_loop`. */
    method Turn(c: Cycle) returns (event: Event)
      requires Settings().Valid() && c.Valid()
      modifies this, wedge, store, store.publisher
      ensures (State(), event) == Turned(Settings(), old(State()), c)
    {
      if !c.wanted {
        idle := true;
        return Idle;
      }
      var resumed := idle;
      idle := false;
      if wedge.State().InCooldown(c.entered) {
        event := Rest;
      } else if wedge.State().AwaitingProbe(c.checked) {
        var good := ProbeLink(c);
        event := Probe(good);
      } else {
        var withSettings := resumed || tick % settingsEvery == 0;
        var good := PollOnce(withSettings, c);
        event := Poll(withSettings, good);
      }
      tick := tick + 1;
    }

    method ProbeLink(c: Cycle) returns (good: bool)
      requires Settings().Valid() && c.Valid()
      modifies wedge, store, store.publisher
      ensures (State(), good) == Probed(Settings(), old(State()), c)
    {
      if c.settings.Missed? {
        var step := wedge.BeginCooldown(c.settled);
        store.NoteWedged();
        return false;
      }
      store.UpdateSettings(c.settings.data);
      var resumed := wedge.RecordProbeSuccess(c.settled);
      if resumed {
        store.NoteSuccess();
      }
      good := true;
    }

    method SweepLive(c: Cycle) returns (good: bool)
      requires c.Valid()
      modifies store, store.publisher
      ensures (store.State(), good) == LiveSwept(old(store.State()), LIVE_REGISTERS, c.live, c.read)
    {
      for i := 0 to |LIVE_REGISTERS|
        invariant LiveSwept(store.State(), LIVE_REGISTERS[i..], c.live[i..], c.read[i..])
               == LiveSwept(old(store.State()), LIVE_REGISTERS, c.live, c.read)
      {
        if c.live[i].Missed? {
          return false;
        }
        store.UpdateLive(LIVE_REGISTERS[i], c.live[i].data, c.read[i]);
      }
      good := true;
    }

    method PollOnce(withSettings: bool, c: Cycle) returns (good: bool)
      requires Settings().Valid() && c.Valid()
      modifies wedge, store, store.publisher
      ensures (State(), good) == Polled(Settings(), old(State()), withSettings, c)
    {
      good := false;
      if !withSettings || c.settings.Got? {
        if withSettings {
          store.UpdateSettings(c.settings.data);
        }
        good := SweepLive(c);
      }
      if good {
        store.NoteSuccess();
        wedge.RecordSuccess();
      } else {
        store.NoteFailure();
        wedge.RecordFailure(c.settled);
        if wedge.State().Wedged(wedge.policy, c.judged) && !wedge.State().InCooldown(c.judged) {
          var step := wedge.BeginCooldown(c.begun);
          store.NoteWedged();
        }
      }
    }
  }
}
