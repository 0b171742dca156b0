/** How long a stranded byte lasts: until a later command covers its address, whatever else happens. */
module Stranding {
  import opened Protocol
  import opened Machine
  import opened Governor
  import opened Store
  import opened Bridge
  import opened Coherence
  import opened Overlay
  import opened Steady

  /** An overlay byte on show that no unfinished intent will ever clear. */
  ghost predicate Stranded(s: Bridge, a: nat, byte: int) {
    && a < SETTINGS_LEN && |s.store.settings| == SETTINGS_LEN && s.store.settings[a] == byte
    && a in s.store.pending && s.store.pending[a] == byte
    && !SomeCarries(Unfinished(s), a, byte)
  }

  /** An admitted command that replaces the byte in the overlay or is queued with the same byte there. */
  predicate Rescues(s: Bridge, m: Move, a: nat, byte: int) {
    && m.Command? && Admits(s, m.data) && m.address <= a < m.address + |m.data|
    && (Reflectable(s.store, m.address, m.data) || m.data[a - m.address] == byte)
  }

  lemma CommandOnStranded(s: Bridge, address: nat, data: seq<int>, a: nat, byte: int)
    requires Stranded(s, a, byte)
    ensures Stranded(Next(s, Command(address, data)), a, byte) <==> !Rescues(s, Command(address, data), a, byte)
  {
    hide SomeCarries, Unfinished;
    CommandEffect(s, address, data);
    if Admits(s, data) {
      SomeCarriesJoin(Unfinished(s), [Intent(address, data)], a, byte);
      SomeCarriesOne(Intent(address, data), a, byte);
    }
  }

  /** One move at a time, exactly: only such a command ends it. No read, clear, retry or failure does. */
  lemma StrandedExactly(s: Bridge, m: Move, a: nat, byte: int)
    requires Coherent(s) && Stranded(s, a, byte) && Enabled(s, m)
    ensures Stranded(Next(s, m), a, byte) <==> !Rescues(s, m, a, byte)
  {
    if m.Command? {
      CommandOnStranded(s, m.address, m.data, a, byte);
    } else if Clears(s, m) || Kills(s, m) {
      hide SomeCarries, Unfinished, Next, Coherent, Intent.Carries;
      var i := s.phase.intent;
      if Clears(s, m) { ClearEffect(s, m); } else { KillEffect(s, m); }
      SomeCarriesJoin([i], Unfinished(Next(s, m)), a, byte);
      SomeCarriesOne(i, a, byte);
      ClearedBytesAreNotCarried(i, a, s.store.pending);
    } else {
      hide SomeCarries, Unfinished, Next, Coherent;
      OtherEffect(s, m);
      OtherMovesShow(s, m, a);
    }
  }

  lemma OtherMovesShow(s: Bridge, m: Move, a: nat)
    requires Coherent(s) && Enabled(s, m) && !m.Command? && a < SETTINGS_LEN
    requires a in s.store.pending && s.store.settings[a] == s.store.pending[a]
    ensures var shown := Next(s, m).store.settings;
      |shown| == SETTINGS_LEN && shown[a] == s.store.pending[a]
  {
    hide Insert, Recent, Pipeline, ConsumerJobs, Delivered, Carried;
    if m.Deliver? {
      DeliveredSettings(s, m.now, a);
    }
  }

  /** No command of the run rescues the byte. */
  predicate Unrescued(s: Bridge, moves: seq<Move>, a: nat, byte: int)
    requires Runs(s, moves)
    decreases |moves|
  {
    moves != [] ==> !Rescues(s, moves[0], a, byte) && Unrescued(Next(s, moves[0]), moves[1..], a, byte)
  }

  /** Over runs of any length a stranded byte stays on show, whatever the machine holds and every poll reads. */
  lemma {:induction false} StrandedByteStays(s: Bridge, moves: seq<Move>, a: nat, byte: int)
    requires Coherent(s) && Stranded(s, a, byte) && Runs(s, moves) && Unrescued(s, moves, a, byte)
    ensures Stranded(Run(s, moves), a, byte)
    ensures |Run(s, moves).store.settings| == SETTINGS_LEN && Run(s, moves).store.settings[a] == byte
    decreases |moves|
  {
    hide Next, Enabled, Rescues, Coherent;
    if moves != [] {
      StrandedExactly(s, moves[0], a, byte);
      MoveKeepsCoherent(s, moves[0]);
      StrandedByteStays(Next(s, moves[0]), moves[1..], a, byte);
    }
  }

  /** After the killed command from power-on: its byte outlives every later poll and every other command. */
  lemma KilledByteStays(mem: Memory, later: seq<Move>)
    requires Runs(AfterKill(mem), later) && Unrescued(AfterKill(mem), later, 2, 110)
    ensures var s := Run(AfterKill(mem), later);
      |s.store.settings| == SETTINGS_LEN && s.store.settings[2] == 110
  {
    hide Runs, Run, Unrescued, Coherent, AfterKill;
    PoweredIsCoherent(mem);
    KilledIntentStrandsItsByte(mem, 0.0);
    RunsStayCoherent(Powered(mem), FirstPoll() + KilledCommand(0.0));
    StrandedByteStays(AfterKill(mem), later, 2, 110);
  }
}
