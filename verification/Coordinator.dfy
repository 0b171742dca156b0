/** The bridge-less poller of custom_components/rocket_r60v/coordinator.py, a second back-off implementation. */
module Coordinator {
  import opened Wrappers

  const FAILURE_TOLERANCE: nat := 5
  const COOLDOWN_STEPS: seq<real> := [5.0 * 60.0, 10.0 * 60.0, 20.0 * 60.0, 30.0 * 60.0]
  const RESUME_AFTER_PROBES: nat := 2

  datatype Coord = Coord(failures: nat, until: Option<real>, index: nat, probes: nat, hasData: bool)
  {
    predicate InCooldown(now: real) {
      until.Some? && now < until.value
    }
  }

  const UNLOADED: Coord := Coord(0, None, 0, 0, false)

  /** What one update meets; `probe` and `poll` say whether the light and the full read would succeed. */
  datatype Update = Update(blocked: bool, entered: real, settled: real, begun: real, probe: bool, poll: bool)

  /** What the update returns or raises. */
  datatype Report =
    | Streaming       // push mode: no machine read at all
    | BridgePaused    // raised: the bridge reports the link down or recovering
    | CoolingDown     // raised: inside a cooldown window
    | Confirming      // raised: a good probe, not enough of them yet
    | StillWedged     // raised: a failed probe
    | Fresh           // a full read
    | Cached          // a failed read within the tolerance
    | Unreachable     // raised: a failed read beyond it

  function Cleared(k: Coord): Coord {
    Coord(0, None, 0, 0, k.hasData)
  }

  function CooldownEntered(ladder: seq<real>, k: Coord, now: real): Coord
    requires ladder != []
  {
    var step := ladder[if k.index < |ladder| then k.index else |ladder| - 1];
    k.(until := Some(now + step), index := k.index + 1, probes := 0)
  }

  function FullRead(ladder: seq<real>, k: Coord, u: Update): (Coord, Report)
    requires ladder != []
  {
    if u.poll then (Cleared(k).(hasData := true), Fresh)
    else
      var k1 := k.(failures := k.failures + 1);
      if !k.hasData then (k1, Unreachable)
      else if k1.failures <= FAILURE_TOLERANCE then (k1, Cached)
      else (CooldownEntered(ladder, k1, u.begun), Unreachable)
  }

  /** Polling mode of `_async_update_data`. */
  function Updated(ladder: seq<real>, confirm: nat, k: Coord, u: Update): (Coord, Report)
    requires ladder != []
  {
    if u.blocked then (k, BridgePaused)
    else if k.InCooldown(u.entered) then (k, CoolingDown)
    else if k.index == 0 then FullRead(ladder, k, u)
    else if !u.probe then (CooldownEntered(ladder, k, u.settled), StillWedged)
    else if k.probes + 1 >= confirm then FullRead(ladder, Cleared(k), u)
    else (k.(probes := k.probes + 1), Confirming)
  }

  class R60VCoordinator {
    const pushEnabled: bool
    var consecutiveFailures: nat
    var cooldownUntil: Option<real>
    var cooldownIndex: nat
    var probeSuccesses: nat
    var hasData: bool

    constructor (pushEnabled: bool)
      ensures this.pushEnabled == pushEnabled && State() == UNLOADED
    {
      this.pushEnabled := pushEnabled;
      consecutiveFailures, cooldownUntil, cooldownIndex, probeSuccesses, hasData := 0, None, 0, 0, false;
    }

    function State(): Coord
      reads this
    {
      Coord(consecutiveFailures, cooldownUntil, cooldownIndex, probeSuccesses, hasData)
    }

    method EnterCooldown(now: real)
      modifies this
      ensures State() == CooldownEntered(COOLDOWN_STEPS, old(State()), now)
    {
      var step := COOLDOWN_STEPS[if cooldownIndex < |COOLDOWN_STEPS| - 1 then cooldownIndex else |COOLDOWN_STEPS| - 1];
      cooldownUntil := Some(now + step);
      cooldownIndex := cooldownIndex + 1;
      probeSuccesses := 0;
    }

    /** `_clear_cooldown`, also the operator's override. */
    method ClearCooldown()
      modifies this
      ensures State() == Cleared(old(State()))
    {
      cooldownUntil, cooldownIndex, consecutiveFailures, probeSuccesses := None, 0, 0, 0;
    }

    method UpdateData(u: Update) returns (report: Report)
      modifies this
      ensures pushEnabled ==> report == Streaming && State() == old(State())
      ensures !pushEnabled ==> (State(), report) == Updated(COOLDOWN_STEPS, RESUME_AFTER_PROBES, old(State()), u)
    {
      if pushEnabled {
        return Streaming;
      }
      if u.blocked {
        return BridgePaused;
      }
      if State().InCooldown(u.entered) {
        return CoolingDown;
      }
      if cooldownIndex > 0 {
        if !u.probe {
          EnterCooldown(u.settled);
          return StillWedged;
        }
        probeSuccesses := probeSuccesses + 1;
        if probeSuccesses < RESUME_AFTER_PROBES {
          return Confirming;
        }
        ClearCooldown();
      }
      report := ReadSnapshot(u);
    }

    method ReadSnapshot(u: Update) returns (report: Report)
      modifies this
      ensures (State(), report) == FullRead(COOLDOWN_STEPS, old(State()), u)
    {
      if u.poll {
        ClearCooldown();
        hasData := true;
        return Fresh;
      }
      consecutiveFailures := consecutiveFailures + 1;
      if hasData && consecutiveFailures <= FAILURE_TOLERANCE {
        return Cached;
      }
      if hasData {
        EnterCooldown(u.begun);
      }
      report := Unreachable;
    }
  }
}
