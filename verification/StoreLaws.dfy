/** What the store keeps over its whole history: availability, its announcements, and eased readings. */
module StoreLaws {
  import opened Wrappers
  import opened Store

  // -- availability as a function of history -----------------------------------

  datatype StoreEvent =
    | SettingsRead(data: seq<int>)
    | LiveRead(address: nat, reading: seq<int>, now: real)
    | Success
    | Failure
    | Wedge
    | Command(target: int, bytes: seq<int>)
    | Reconcile(expected: map<nat, int>)

  function Seen(s: Store, e: StoreEvent, grace: int): Store {
    match e
    case SettingsRead(data) => SettingsUpdated(s, data)
    case LiveRead(address, reading, now) => LiveUpdated(s, address, reading, now)
    case Success => SuccessNoted(s)
    case Failure => FailureNoted(s, grace)
    case Wedge => WedgeNoted(s, grace)
    case Command(target, bytes) => Reflected(s, target, bytes)
    case Reconcile(expected) => Reconciled(s, expected)
  }

  function Heard(p: Announcer, s: Store, e: StoreEvent, grace: int): Announcer {
    if e.SettingsRead? || e.LiveRead? || (e.Command? && Reflectable(s, e.target, e.bytes)) then
      Announced(p, Seen(s, e, grace).Verdict())
    else
      AfterVerdict(p, s, Seen(s, e, grace))
  }

  function StoreAfter(events: seq<StoreEvent>, grace: int): Store {
    if events == [] then Fresh()
    else Seen(StoreAfter(events[..|events| - 1], grace), events[|events| - 1], grace)
  }

  /** The store after more events. */
  function Fed(s: Store, events: seq<StoreEvent>, grace: int): Store
    decreases |events|
  {
    if events == [] then s else Fed(Seen(s, events[0], grace), events[1..], grace)
  }

  lemma {:induction false} FedLast(s: Store, events: seq<StoreEvent>, e: StoreEvent, grace: int)
    ensures Fed(s, events + [e], grace) == Seen(Fed(s, events, grace), e, grace)
    decreases |events|
  {
    hide Seen;
    if events == [] {
      assert [e][1..] == [];
    } else {
      assert (events + [e])[1..] == events[1..] + [e];
      FedLast(Seen(s, events[0], grace), events[1..], e, grace);
    }
  }

  lemma {:induction false} FedJoin(s: Store, one: seq<StoreEvent>, two: seq<StoreEvent>, grace: int)
    ensures Fed(s, one + two, grace) == Fed(Fed(s, one, grace), two, grace)
    decreases |one|
  {
    hide Seen;
    if one == [] {
      assert one + two == two;
    } else {
      assert (one + two)[1..] == one[1..] + two;
      FedJoin(Seen(s, one[0], grace), one[1..], two, grace);
    }
  }

  lemma {:induction false} FedFromFresh(events: seq<StoreEvent>, grace: int)
    ensures Fed(Fresh(), events, grace) == StoreAfter(events, grace)
  {
    hide Seen;
    if events != [] {
      var n := |events| - 1;
      FedFromFresh(events[..n], grace);
      assert events == events[..n] + [events[n]];
      FedLast(Fresh(), events[..n], events[n], grace);
    }
  }

  function AnnouncerAfter(events: seq<StoreEvent>, grace: int): Announcer {
    if events == [] then SILENT
    else
      var n := |events| - 1;
      Heard(AnnouncerAfter(events[..n], grace), StoreAfter(events[..n], grace), events[n], grace)
  }

  function FailuresSinceSuccess(events: seq<StoreEvent>): nat {
    if events == [] || events[|events| - 1].Success? then 0
    else FailuresSinceSuccess(events[..|events| - 1]) + if events[|events| - 1].Failure? then 1 else 0
  }

  predicate WedgeSinceSuccess(events: seq<StoreEvent>) {
    events != [] && !events[|events| - 1].Success?
    && (events[|events| - 1].Wedge? || WedgeSinceSuccess(events[..|events| - 1]))
  }

  /**
   * Availability depends on nothing but what happened since the last success: the store is offline
   * exactly when a wedge was declared or the grace of consecutive failures ran out.
   */
  lemma {:induction false} OfflineExactly(events: seq<StoreEvent>, grace: int)
    ensures var s := StoreAfter(events, grace);
      && (!s.Verdict() <==>
          (WedgeSinceSuccess(events) || (FailuresSinceSuccess(events) >= 1 && FailuresSinceSuccess(events) >= grace)))
      && s.failStreak >= FailuresSinceSuccess(events)
      && (WedgeSinceSuccess(events) ==> s.failStreak >= grace)
      && (!WedgeSinceSuccess(events) ==> s.failStreak == FailuresSinceSuccess(events))
  {
    hide Overlaid, Reflectable;
    if events != [] {
      OfflineExactly(events[..|events| - 1], grace);
    }
  }

  predicate Alternating(emitted: seq<bool>) {
    forall i :: 0 <= i < |emitted| - 1 ==> emitted[i] != emitted[i + 1]
  }

  lemma HeardFollowsVerdict(p: Announcer, s: Store, e: StoreEvent, grace: int)
    ensures var after := Seen(s, e, grace);
      || Heard(p, s, e, grace) == Announced(p, after.Verdict())
      || (Heard(p, s, e, grace) == p && after.available == s.available)
  {
    hide Overlaid, Reflectable;
  }

  /** What the publisher sends strictly alternates, and once it has spoken it agrees with the store. */
  lemma {:induction false} AnnouncementsFollowVerdict(events: seq<StoreEvent>, grace: int)
    ensures var p := AnnouncerAfter(events, grace);
      && Alternating(p.emitted)
      && (p.last.Some? <==> p.emitted != [])
      && (p.emitted != [] ==> p.last == Some(p.emitted[|p.emitted| - 1]))
      && (p.emitted != [] ==> p.emitted[|p.emitted| - 1] == StoreAfter(events, grace).Verdict())
      && (StoreAfter(events, grace).available.Some? ==> p.emitted != [])
  {
    hide Seen, Heard;
    if events != [] {
      var n := |events| - 1;
      AnnouncementsFollowVerdict(events[..n], grace);
      HeardFollowsVerdict(AnnouncerAfter(events[..n], grace), StoreAfter(events[..n], grace), events[n], grace);
    }
  }

  // -- what the store holds as a function of history ------------------------------------

  /** Index of the latest reading of a live register, if there is one. */
  function LastReading(events: seq<StoreEvent>, register: nat): (k: int)
    ensures -1 <= k < |events|
    ensures k >= 0 ==> events[k].LiveRead? && events[k].address == register
    ensures forall i :: k < i < |events| && events[i].LiveRead? ==> events[i].address != register
  {
    if events == [] then -1
    else
      var n := |events| - 1;
      if events[n].LiveRead? && events[n].address == register then n else LastReading(events[..n], register)
  }

  /** Time of the latest reading of any live register. */
  function LastReadingAt(events: seq<StoreEvent>): real {
    if events == [] then 0.0
    else
      var last := events[|events| - 1];
      if last.LiveRead? then last.now else LastReadingAt(events[..|events| - 1])
  }

  /**
   * After any history each live register holds its own latest reading and only registers ever read are
   * there; the age of the readings is that of the latest one; and there is data exactly once something was read.
   */
  lemma {:induction false} ReadingsAreTheLatest(events: seq<StoreEvent>, grace: int, register: nat)
    ensures var s := StoreAfter(events, grace);
      var k := LastReading(events, register);
      && (register in s.live <==> k >= 0)
      && (k >= 0 ==> s.live[register] == events[k].reading)
      && s.liveAt == LastReadingAt(events)
      && (s.haveData <==> exists i :: 0 <= i < |events| && (events[i].LiveRead? || events[i].SettingsRead?))
  {
    hide Overlaid, Reflectable;
    if events != [] {
      ReadingsAreTheLatest(events[..|events| - 1], grace, register);
    }
  }

  /** A command that has to be shown: data has been read, and it is whole bytes inside the block. */
  predicate MustShow(s: Store, address: int, data: seq<int>) {
    && s.haveData && data != [] && 0 <= address && address + |data| <= |s.settings|
    && forall i :: 0 <= i < |data| ==> 0 <= data[i] <= 255
  }

  /** What reflecting a command changes, exactly: the overlay and the snapshot at its own addresses, or nothing. */
  lemma ReflectionExactly(s: Store, address: int, data: seq<int>)
    requires forall a :: a in s.pending && a < |s.settings| ==> s.settings[a] == s.pending[a]
    ensures var s' := Reflected(s, address, data);
      if MustShow(s, address, data) then
        && s' == s.(settings := s'.settings, pending := s'.pending)
        && |s'.settings| == |s.settings|
        && (forall a: nat :: a < |s.settings| ==>
              s'.settings[a] == if address <= a < address + |data| then data[a - address] else s.settings[a])
        && (forall a: nat :: a in s'.pending <==> a in s.pending || address <= a < address + |data|)
        && (forall a: nat :: a in s'.pending ==>
              s'.pending[a] == if address <= a < address + |data| then data[a - address] else s.pending[a])
      else s' == s
  {
    assert forall i :: 0 <= i < |data| ==> data[i] in data;
    assert Reflectable(s, address, data) == MustShow(s, address, data);
  }

  /** Which operations tell subscribers: every read, every reflected command, and a change of the verdict. */
  predicate Notifies(s: Store, e: StoreEvent, grace: int) {
    || e.SettingsRead? || e.LiveRead?
    || (e.Command? && MustShow(s, e.target, e.bytes))
    || Seen(s, e, grace).available != s.available
  }

  /** The publisher sends the present verdict exactly when it is told and has not sent that verdict last. */
  lemma EmissionsExactly(p: Announcer, s: Store, e: StoreEvent, grace: int)
    ensures var verdict := Seen(s, e, grace).Verdict();
      Heard(p, s, e, grace) ==
        if Notifies(s, e, grace) && p.last != Some(verdict) then Announcer(Some(verdict), p.emitted + [verdict]) else p
  {
    hide Overlaid;
    if e.Command? {
      assert forall i :: 0 <= i < |e.bytes| ==> e.bytes[i] in e.bytes;
      assert Reflectable(s, e.target, e.bytes) == MustShow(s, e.target, e.bytes);
    }
  }

  // -- interpolation converges -----------------------------------------------------

  function EasedTimes(current: int, target: int, step: int, k: nat): int {
    if k == 0 then current else Eased(EasedTimes(current, target, step, k - 1), target, step)
  }

  function Abs(n: int): nat {
    if n < 0 then -n else n
  }

  /** Each call closes the gap by `step` until it is closed; the estimate never leaves the interval. */
  lemma {:induction false} EasingConverges(current: int, target: int, step: int, k: nat)
    requires step >= 1
    ensures var x := EasedTimes(current, target, step, k);
      && (current <= x <= target || target <= x <= current)
      && Abs(target - x) == (if k * step < Abs(target - current) then Abs(target - current) - k * step else 0)
  {
    if k > 0 {
      EasingConverges(current, target, step, k - 1);
      assert k * step == (k - 1) * step + step;
    }
  }

  /** The setpoint is reached after exactly ceil(|gap| / step) calls, and held from then on. */
  lemma EasingReachesExactly(current: int, target: int, step: int, k: nat)
    requires step >= 1
    ensures EasedTimes(current, target, step, k) == target <==> k >= (Abs(target - current) + step - 1) / step
  {
    EasingConverges(current, target, step, k);
    CeilingExactly(Abs(target - current), step, k);
  }

  lemma CeilingExactly(gap: nat, step: int, k: nat)
    requires step >= 1
    ensures k * step >= gap <==> k >= (gap + step - 1) / step
  {
    var ceiling := (gap + step - 1) / step;
    assert ceiling * step <= gap + step - 1 < ceiling * step + step;
    if k >= ceiling {
      Scale(ceiling, k, step);
    } else {
      Scale(k, ceiling - 1, step);
      assert (ceiling - 1) * step == ceiling * step - step;
    }
  }

  lemma Scale(a: int, b: int, step: int)
    requires a <= b && step >= 0
    ensures a * step <= b * step
  {
  }

  function InterpolatedTimes(s: Store, times: seq<real>, staleAfter: real, step: int): Store {
    if times == [] then s
    else
      var n := |times| - 1;
      Interpolated(InterpolatedTimes(s, times[..n], staleAfter, step), times[n], staleAfter, step)
  }

  /** How often a boiler's reading is eased in `n` stale calls: the service boiler only while enabled. */
  function Nudges(s: Store, register: nat, n: nat): nat {
    if register == CURRENT_SERVICE_TEMP && s.SettingsByte(SERVICE_BOILER_ENABLE) == 0 then 0 else n
  }

  function Setpoint(register: nat): nat {
    if register == CURRENT_BREW_TEMP then BREW_BOILER_TEMP else SERVICE_BOILER_TEMP
  }

  lemma OneCallEases(s: Store, now: real, staleAfter: real, step: int, register: nat)
    requires s.haveData && s.SettingsByte(STANDBY) == 0 && now - s.liveAt >= staleAfter
    requires register == CURRENT_BREW_TEMP || register == CURRENT_SERVICE_TEMP
    requires register in s.live && |s.live[register]| == 1
    ensures var s' := Interpolated(s, now, staleAfter, step);
      && s' == s.(live := s'.live)
      && register in s'.live
      && s'.live[register] == (if Nudges(s, register, 1) == 0 then s.live[register]
                               else [Eased(s.live[register][0], s.SettingsByte(Setpoint(register)), step)])
  {
  }

  /**
   * While reads stay stale and the machine is on, each boiler's estimate follows the easing law toward
   * its own setpoint, the service boiler's only while that boiler is enabled; nothing but readings moves.
   */
  lemma {:induction false} StaleReadingsEase(
    s: Store, times: seq<real>, staleAfter: real, step: int, register: nat)
    requires s.haveData && s.SettingsByte(STANDBY) == 0
    requires forall t :: t in times ==> t - s.liveAt >= staleAfter
    requires register == CURRENT_BREW_TEMP || register == CURRENT_SERVICE_TEMP
    requires register in s.live && |s.live[register]| == 1
    ensures var s' := InterpolatedTimes(s, times, staleAfter, step);
      && s' == s.(live := s'.live)
      && register in s'.live
      && s'.live[register] == [EasedTimes(s.live[register][0], s.SettingsByte(Setpoint(register)), step,
                                          Nudges(s, register, |times|))]
  {
    hide Interpolated, Eased;
    if times != [] {
      var n := |times| - 1;
      assert times[n] in times && forall t :: t in times[..n] ==> t in times;
      StaleReadingsEase(s, times[..n], staleAfter, step, register);
      OneCallEases(InterpolatedTimes(s, times[..n], staleAfter, step), times[n], staleAfter, step, register);
    }
  }

  /** The machine is on, something was read, and the last live reading is old enough. */
  predicate MustEase(s: Store, now: real, staleAfter: real) {
    s.haveData && now - s.liveAt >= staleAfter && |s.settings| == 115 && s.settings[0x4A] % 256 == 0
  }

  /**
   * One call, exactly: fresh readings, a machine in standby and a store without data are left alone;
   * otherwise the brew reading at 0xB000 is eased toward settings byte 2, the service reading at 0xB001
   * toward byte 3 if byte 0x49 enables that boiler, and no other register changes.
   */
  lemma InterpolationExactly(s: Store, now: real, staleAfter: real, step: int, register: nat)
    requires |s.settings| == 115
    ensures var s' := Interpolated(s, now, staleAfter, step);
      && s' == s.(live := s'.live) && s'.live.Keys == s.live.Keys
      && (!MustEase(s, now, staleAfter) ==> s' == s)
      && (MustEase(s, now, staleAfter) && register in s.live && s.live[register] != [] ==>
            if register == 0xB000 && s.live[register][0] != s.settings[2] % 256 then
              s'.live[register] == [Eased(s.live[register][0], s.settings[2] % 256, step)]
            else if register == 0xB001 && s.settings[0x49] % 256 != 0 && s.live[register][0] != s.settings[3] % 256 then
              s'.live[register] == [Eased(s.live[register][0], s.settings[3] % 256, step)]
            else s'.live[register] == s.live[register])
  {
  }
}
