/** The wedge back-off controller of bridge/r60v_broker/wedge.py; the clock is passed in as `now`. */
module Wedge {
  import opened Wrappers

  const WEDGE_AFTER: real := 45.0
  const COOLDOWN_STEPS: seq<real> := [300.0, 600.0, 1200.0, 1800.0]
  const RESUME_AFTER_PROBES: nat := 2

  datatype Policy = Policy(wedgeAfter: real, steps: seq<real>, resumeAfter: nat)
  {
    predicate Valid() {
      steps != [] && resumeAfter >= 1
    }

    /** Length of the cooldown entered at ladder position `index`; the last step repeats. */
    function StepAt(index: nat): real
      requires Valid()
    {
      steps[if index < |steps| then index else |steps| - 1]
    }
  }

  function DefaultPolicy(): (p: Policy)
    ensures p.Valid()
  {
    Policy(WEDGE_AFTER, COOLDOWN_STEPS, RESUME_AFTER_PROBES)
  }

  datatype Wedge = Wedge(firstFailAt: Option<real>, cooldownUntil: Option<real>, index: nat, probes: nat)
  {
    predicate InCooldown(now: real) {
      cooldownUntil.Some? && now < cooldownUntil.value
    }

    predicate AwaitingProbe(now: real) {
      cooldownUntil.Some? && now >= cooldownUntil.value
    }

    predicate Wedged(policy: Policy, now: real) {
      firstFailAt.Some? && now - firstFailAt.value >= policy.wedgeAfter
    }
  }

  const POLLING: Wedge := Wedge(None, None, 0, 0)

  function FailureRecorded(w: Wedge, now: real): Wedge {
    if w.firstFailAt.None? then w.(firstFailAt := Some(now)) else w
  }

  function CooldownBegun(policy: Policy, w: Wedge, now: real): Wedge
    requires policy.Valid()
  {
    w.(cooldownUntil := Some(now + policy.StepAt(w.index)), index := w.index + 1, probes := 0)
  }

  function ProbeCounted(policy: Policy, w: Wedge, now: real): Wedge {
    if w.probes + 1 >= policy.resumeAfter then POLLING
    else w.(probes := w.probes + 1, cooldownUntil := Some(now))
  }

  class WedgeRecovery {
    const policy: Policy
    var firstFailAt: Option<real>
    var cooldownUntil: Option<real>
    var cooldownIndex: nat
    var probeSuccesses: nat

    constructor (wedgeAfter: real := WEDGE_AFTER, steps: seq<real> := COOLDOWN_STEPS, resumeAfter: int := 2)
      requires steps != []
      ensures policy == Policy(wedgeAfter, steps, if resumeAfter < 1 then 1 else resumeAfter)
      ensures policy.Valid() && State() == POLLING
    {
      policy := Policy(wedgeAfter, steps, if resumeAfter < 1 then 1 else resumeAfter);
      firstFailAt, cooldownUntil, cooldownIndex, probeSuccesses := None, None, 0, 0;
    }

    function State(): Wedge
      reads this
    {
      Wedge(firstFailAt, cooldownUntil, cooldownIndex, probeSuccesses)
    }

    method RecordSuccess()
      modifies this
      ensures State() == POLLING
    {
      firstFailAt, cooldownUntil, cooldownIndex, probeSuccesses := None, None, 0, 0;
    }

    method RecordFailure(now: real)
      modifies this
      ensures State() == FailureRecorded(old(State()), now)
    {
      if firstFailAt.None? {
        firstFailAt := Some(now);
      }
    }

    method RecordProbeSuccess(now: real) returns (resumed: bool)
      modifies this
      ensures State() == ProbeCounted(policy, old(State()), now)
      ensures resumed == (old(probeSuccesses) + 1 >= policy.resumeAfter)
    {
      probeSuccesses := probeSuccesses + 1;
      if probeSuccesses >= policy.resumeAfter {
        RecordSuccess();
        return true;
      }
      cooldownUntil := Some(now);
      resumed := false;
    }

    method BeginCooldown(now: real) returns (step: real)
      requires policy.Valid()
      modifies this
      ensures State() == CooldownBegun(policy, old(State()), now)
      ensures step == policy.StepAt(old(cooldownIndex))
    {
      step := policy.steps[if cooldownIndex < |policy.steps| - 1 then cooldownIndex else |policy.steps| - 1];
      cooldownUntil := Some(now + step);
      cooldownIndex := cooldownIndex + 1;
      probeSuccesses := 0;
    }
  }
}
