/**
 * The device state store of bridge/r60v_broker/store.py, the single arbiter of what the house sees,
 * and the availability projection of publisher.py that subscribes to it.
 */
module Store {
  import opened Wrappers
  import opened Protocol

  const CURRENT_BREW_TEMP: nat := 0xB000
  const CURRENT_SERVICE_TEMP: nat := 0xB001
  const BREW_BOILER_TEMP: nat := 0x02
  const SERVICE_BOILER_TEMP: nat := 0x03
  const SERVICE_BOILER_ENABLE: nat := 0x49
  const STANDBY: nat := 0x4A

  /** `pending` is the optimistic overlay: bytes a user command intends but no read has confirmed. */
  datatype Store = Store(
    settings: seq<int>,
    live: map<nat, seq<int>>,
    liveAt: real,
    haveData: bool,
    failStreak: int,
    available: Option<bool>,
    pending: map<nat, int>)
  {
    /** Reachability; before the first verdict the device counts as available. */
    function Verdict(): bool {
      available.GetOr(true)
    }

    function SettingsByte(address: nat): int {
      if address < |settings| then settings[address] % 256 else 0
    }
  }

  function Fresh(): Store {
    Store(seq(SETTINGS_LEN, _ => 0), map[], 0.0, false, 0, None, map[])
  }

  // -- specification ---------------------------------------------------------

  function Overlaid(settings: seq<int>, pending: map<nat, int>): (shown: seq<int>)
    ensures |shown| == |settings|
  {
    seq(|settings|, i requires 0 <= i < |settings| => if i in pending then pending[i] else settings[i])
  }

  function SettingsUpdated(s: Store, data: seq<int>): Store {
    s.(settings := Overlaid(data, s.pending), haveData := true)
  }

  function LiveUpdated(s: Store, address: nat, data: seq<int>, now: real): Store {
    s.(live := s.live[address := data], liveAt := now, haveData := true)
  }

  function SuccessNoted(s: Store): Store {
    s.(failStreak := 0, available := Some(true))
  }

  function FailureNoted(s: Store, grace: int): Store {
    var streak := s.failStreak + 1;
    s.(failStreak := streak, available := if streak >= grace then Some(false) else s.available)
  }

  function WedgeNoted(s: Store, grace: int): Store {
    s.(failStreak := if s.failStreak > grace then s.failStreak else grace, available := Some(false))
  }

  /** address -> byte for consecutive addresses, as a command writes them. */
  function Bytes(address: nat, data: seq<int>): (bytes: map<nat, int>)
    ensures forall a :: a in bytes <==> address <= a < address + |data|
    ensures forall a :: a in bytes ==> bytes[a] == data[a - address]
  {
    if data == [] then map[]
    else
      var n := |data| - 1;
      Bytes(address, data[..n])[address + n := data[n]]
  }

  lemma BytesGrow(address: nat, data: seq<int>, n: nat)
    requires n < |data|
    ensures Bytes(address, data[..n + 1]) == Bytes(address, data[..n])[address + n := data[n]]
  {
    assert data[..n + 1][..n] == data[..n];
  }

  predicate Reflectable(s: Store, address: int, data: seq<int>) {
    && s.haveData
    && address >= 0 && data != []
    && address + |data| <= |s.settings|
    && forall b :: b in data ==> 0 <= b <= 0xFF
  }

  function Reflected(s: Store, address: int, data: seq<int>): Store {
    if Reflectable(s, address, data) then
      var pending := s.pending + Bytes(address, data);
      s.(pending := pending, settings := Overlaid(s.settings, pending))
    else s
  }

  /** Overlay bytes equal to the expected ones are dropped, by value. */
  function Spent(pending: map<nat, int>, expected: map<nat, int>): map<nat, int> {
    map a | a in pending && !(a in expected && expected[a] == pending[a]) :: pending[a]
  }

  function Reconciled(s: Store, expected: map<nat, int>): Store {
    s.(pending := Spent(s.pending, expected))
  }

  /** One nudge of a reading toward its setpoint, by at most `step`. */
  function Eased(current: int, target: int, step: int): int {
    var gap := target - current;
    if gap == 0 then current
    else
      var bounded := if gap < step then gap else step;
      current + if bounded > -step then bounded else -step
  }

  function EaseRegister(s: Store, register: nat, setpoint: nat, step: int): Store {
    if register !in s.live || s.live[register] == [] || s.SettingsByte(setpoint) == s.live[register][0] then s
    else s.(live := s.live[register := [Eased(s.live[register][0], s.SettingsByte(setpoint), step)]])
  }

  function Interpolated(s: Store, now: real, staleAfter: real, step: int): Store {
    if !s.haveData || now - s.liveAt < staleAfter || s.SettingsByte(STANDBY) != 0 then s
    else
      var brewed := EaseRegister(s, CURRENT_BREW_TEMP, BREW_BOILER_TEMP, step);
      if s.SettingsByte(SERVICE_BOILER_ENABLE) == 0 then brewed
      else EaseRegister(brewed, CURRENT_SERVICE_TEMP, SERVICE_BOILER_TEMP, step)
  }

  /** The publisher's view: the last availability it sent and everything it ever sent. */
  datatype Announcer = Announcer(last: Option<bool>, emitted: seq<bool>)

  const SILENT: Announcer := Announcer(None, [])

  function Announced(p: Announcer, verdict: bool): Announcer {
    if p.last == Some(verdict) then p else Announcer(Some(verdict), p.emitted + [verdict])
  }

  // -- the classes -------------------------------------------------------------

  class StatePublisher {
    var last: Option<bool>
    var emitted: seq<bool>

    constructor ()
      ensures State() == SILENT
    {
      last, emitted := None, [];
    }

    function State(): Announcer
      reads this
    {
      Announcer(last, emitted)
    }

    /** `_on_store_change`: emit only when the verdict differs from the last one sent. */
    method OnStoreChange(available: bool)
      modifies this
      ensures State() == Announced(old(State()), available)
    {
      if Some(available) != last {
        last := Some(available);
        emitted := emitted + [available];
      }
    }
  }

  class DeviceState {
    const grace: int
    const staleAfter: real
    const step: int
    const publisher: StatePublisher

    var settings: seq<int>
    var live: map<nat, seq<int>>
    var liveAt: real
    var haveData: bool
    var failStreak: int
    var available: Option<bool>
    var pending: map<nat, int>

    constructor (publisher: StatePublisher, grace: int := 4, staleAfter: real := 12.0, step: int := 1)
      ensures this.publisher == publisher && this.grace == grace && this.staleAfter == staleAfter && this.step == step
      ensures State() == Fresh()
    {
      this.publisher, this.grace, this.staleAfter, this.step := publisher, grace, staleAfter, step;
      settings, live, liveAt := seq(SETTINGS_LEN, _ => 0), map[], 0.0;
      haveData, failStreak, available, pending := false, 0, None, map[];
    }

    function State(): Store
      reads this
    {
      Store(settings, live, liveAt, haveData, failStreak, available, pending)
    }

    method Notify()
      modifies publisher
      ensures publisher.State() == Announced(old(publisher.State()), State().Verdict())
    {
      publisher.OnStoreChange(available.GetOr(true));
    }

    /** `_apply_pending`: patch the cached block in place, one overlay byte at a time. */
    method ApplyPending()
      modifies this`settings
      ensures settings == Overlaid(old(settings), pending)
    {
      var remaining := pending.Keys;
      while remaining != {}
        invariant remaining <= pending.Keys
        invariant |settings| == |old(settings)|
        invariant forall i :: 0 <= i < |settings| ==>
          settings[i] == if i in pending && i !in remaining then pending[i] else old(settings)[i]
        decreases remaining
      {
        var a :| a in remaining;
        remaining := remaining - {a};
        if a < |settings| {
          settings := settings[a := pending[a]];
        }
      }
    }

    method UpdateSettings(data: seq<int>)
      modifies this, publisher
      ensures State() == SettingsUpdated(old(State()), data)
      ensures publisher.State() == Announced(old(publisher.State()), State().Verdict())
    {
      settings := data;
      ApplyPending();
      haveData := true;
      Notify();
    }

    method UpdateLive(address: nat, data: seq<int>, now: real)
      modifies this, publisher
      ensures State() == LiveUpdated(old(State()), address, data, now)
      ensures publisher.State() == Announced(old(publisher.State()), State().Verdict())
    {
      live := live[address := data];
      liveAt := now;
      haveData := true;
      Notify();
    }

    method SetAvailable(online: bool)
      modifies this`available, publisher
      ensures available == Some(online)
      ensures publisher.State() == if old(available) == Some(online) then old(publisher.State())
                                   else Announced(old(publisher.State()), online)
    {
      if available != Some(online) {
        available := Some(online);
        Notify();
      }
    }

    method NoteSuccess()
      modifies this, publisher
      ensures State() == SuccessNoted(old(State()))
      ensures publisher.State() == AfterVerdict(old(publisher.State()), old(State()), State())
    {
      failStreak := 0;
      SetAvailable(true);
    }

    method NoteFailure()
      modifies this, publisher
      ensures State() == FailureNoted(old(State()), grace)
      ensures publisher.State() == AfterVerdict(old(publisher.State()), old(State()), State())
    {
      failStreak := failStreak + 1;
      if failStreak >= grace {
        SetAvailable(false);
      }
    }

    method NoteWedged()
      modifies this, publisher
      ensures State() == WedgeNoted(old(State()), grace)
      ensures publisher.State() == AfterVerdict(old(publisher.State()), old(State()), State())
    {
      failStreak := if failStreak > grace then failStreak else grace;
      SetAvailable(false);
    }

    method RecordPending(address: nat, data: seq<int>)
      modifies this`pending
      ensures pending == old(pending) + Bytes(address, data)
    {
      for offset := 0 to |data|
        invariant pending == old(pending) + Bytes(address, data[..offset])
      {
        BytesGrow(address, data, offset);
        pending := pending[address + offset := data[offset]];
      }
      assert data[..|data|] == data;
    }

    method ApplyOptimistic(address: int, data: seq<int>) returns (applied: bool)
      modifies this, publisher
      ensures applied == Reflectable(old(State()), address, data)
      ensures State() == Reflected(old(State()), address, data)
      ensures publisher.State() == if applied then Announced(old(publisher.State()), State().Verdict())
                                   else old(publisher.State())
    {
      if !haveData || address < 0 || data == [] || address + |data| > |settings| {
        return false;
      }
      if exists b :: b in data && (b < 0 || b > 0xFF) {
        return false;
      }
      RecordPending(address, data);
      ApplyPending();
      Notify();
      applied := true;
    }

    method ReconcileClear(expected: map<nat, int>)
      modifies this
      ensures State() == Reconciled(old(State()), expected)
    {
      var remaining := expected.Keys;
      while remaining != {}
        invariant remaining <= expected.Keys
        invariant State() == old(State()).(pending := pending)
        invariant pending == Spent(old(pending), map a | a in expected && a !in remaining :: expected[a])
        decreases remaining
      {
        var a :| a in remaining;
        remaining := remaining - {a};
        if a in pending && pending[a] == expected[a] {
          pending := pending - {a};
        }
      }
      assert (map a | a in expected && a !in remaining :: expected[a]) == expected;
    }

    method InterpolateLiveTemps(now: real)
      modifies this`live
      ensures State() == Interpolated(old(State()), now, staleAfter, step)
    {
      if !haveData || now - liveAt < staleAfter || State().SettingsByte(STANDBY) != 0 {
        return;
      }
      Ease(CURRENT_BREW_TEMP, BREW_BOILER_TEMP);
      if State().SettingsByte(SERVICE_BOILER_ENABLE) != 0 {
        Ease(CURRENT_SERVICE_TEMP, SERVICE_BOILER_TEMP);
      }
    }

    method Ease(register: nat, setpoint: nat)
      modifies this`live
      ensures State() == EaseRegister(old(State()), register, setpoint, step)
    {
      if register !in live || live[register] == [] {
        return;
      }
      var current := live[register][0];
      var gap := State().SettingsByte(setpoint) - current;
      if gap == 0 {
        return;
      }
      var bounded := if gap < step then gap else step;
      live := live[register := [current + if bounded > -step then bounded else -step]];
    }
  }

  /** `_set_available` notifies only when the stored verdict changes. */
  function AfterVerdict(p: Announcer, before: Store, after: Store): Announcer {
    if before.available == after.available then p else Announced(p, after.Verdict())
  }
}
