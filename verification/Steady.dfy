/**
 * No flicker-back: once a command is accepted the house keeps seeing its byte, whatever polls, retries
 * and older commands do meanwhile, provided the older unfinished commands settle on that byte.
 */
module Steady {
  import opened Wrappers
  import opened Protocol
  import opened Machine
  import opened Governor
  import opened Store
  import opened Bridge
  import opened Coherence
  import opened Overlay

  /** The bytes unfinished intents will write at `a`, in the order they will be written. */
  function Trail(intents: seq<Intent>, a: nat): seq<Byte> {
    if intents == [] then []
    else (if intents[0].Covers(a) then [intents[0].At(a)] else []) + Trail(intents[1..], a)
  }

  /** Once the trail reaches `byte` it stays there: no A, B, A. */
  predicate SettlesOn(trail: seq<Byte>, byte: Byte) {
    forall i, j :: 0 <= i < j < |trail| && trail[i] == byte ==> trail[j] == byte
  }

  predicate AllAre(trail: seq<Byte>, byte: Byte) {
    forall i :: 0 <= i < |trail| ==> trail[i] == byte
  }

  /** No MQTT or LAN job on its way touches `a`. */
  ghost predicate OnlyIntentsTouch(s: Bridge, a: nat) {
    forall j :: j in Pipeline(s) && Touches(j.op, a) ==> j.owner == Consumer
  }

  /** A resolved settings read that showed another byte at `a` still has to reach the store. */
  ghost predicate StaleReadWaits(s: Bridge, a: nat, byte: Byte) {
    exists d :: d in s.gov.done && Contradicts(d, a, byte)
  }

  /** Why the snapshot shows `byte` at `a` and will go on doing so. */
  ghost predicate Steady(s: Bridge, a: nat, byte: Byte) {
    var trail := Trail(Unfinished(s), a);
    && a < SETTINGS_LEN && |s.store.settings| == SETTINGS_LEN
    && s.store.settings[a] == byte
    && OnlyIntentsTouch(s, a)
    && (if a in s.store.pending then s.store.pending[a] == byte && SettlesOn(trail, byte)
        else AllAre(trail, byte) && s.mem[a] == byte && !StaleReadWaits(s, a, byte))
  }

  /**
   * The moves the promise allows: no other writer at `a`, no newer admitted command for another byte
   * there, and no intent carrying the byte is given up.
   */
  predicate Quiet(s: Bridge, m: Move, a: nat, byte: Byte) {
    && (m.Command? && Admits(s, m.data) && m.address <= a < m.address + |m.data| ==> m.data[a - m.address] == byte)
    && (m.Foreign? ==> !Touches(m.op, a))
    && (GivesUp(s, m) ==> !s.phase.intent.Carries(a, byte))
  }

  predicate QuietRun(s: Bridge, moves: seq<Move>, a: nat, byte: Byte)
    decreases |moves|
  {
    moves != [] ==>
      Enabled(s, moves[0]) && Quiet(s, moves[0], a, byte) && QuietRun(Next(s, moves[0]), moves[1..], a, byte)
  }

  lemma {:induction false} QuietRunsRun(s: Bridge, moves: seq<Move>, a: nat, byte: Byte)
    requires QuietRun(s, moves, a, byte)
    ensures Runs(s, moves)
    decreases |moves|
  {
    hide Next, Enabled, Quiet;
    if moves != [] {
      QuietRunsRun(Next(s, moves[0]), moves[1..], a, byte);
    }
  }

  // -- trails -------------------------------------------------------------------------

  lemma {:induction false} TrailJoin(one: seq<Intent>, two: seq<Intent>, a: nat)
    ensures Trail(one + two, a) == Trail(one, a) + Trail(two, a)
  {
    if one == [] {
      assert one + two == two;
    } else {
      assert (one + two)[1..] == one[1..] + two;
      TrailJoin(one[1..], two, a);
    }
  }

  lemma TrailOfOne(i: Intent, a: nat)
    ensures Trail([i], a) == if i.Covers(a) then [i.At(a)] else []
  {
    assert Trail([i][1..], a) == [];
  }

  lemma SettlingTail(head: seq<Byte>, tail: seq<Byte>, byte: Byte)
    requires SettlesOn(head + tail, byte)
    ensures SettlesOn(tail, byte)
    ensures byte in head ==> AllAre(tail, byte)
  {
    forall i, j | 0 <= i < j < |tail| && tail[i] == byte ensures tail[j] == byte {
      assert (head + tail)[|head| + i] == byte && (head + tail)[|head| + j] == tail[j];
    }
    if byte in head {
      var k :| 0 <= k < |head| && head[k] == byte;
      forall i | 0 <= i < |tail| ensures tail[i] == byte {
        assert (head + tail)[k] == byte && (head + tail)[|head| + i] == tail[i];
      }
    }
  }

  lemma SettlingExtends(trail: seq<Byte>, byte: Byte, more: seq<Byte>)
    requires AllAre(more, byte)
    ensures SettlesOn(trail, byte) ==> SettlesOn(trail + more, byte)
    ensures AllAre(trail, byte) ==> AllAre(trail + more, byte) && SettlesOn(trail + more, byte)
  {
  }

  // -- other writers stay away ----------------------------------------------------------

  lemma MoveKeepsOthersAway(s: Bridge, m: Move, a: nat, byte: Byte)
    requires OnlyIntentsTouch(s, a) && Enabled(s, m) && Quiet(s, m, a, byte)
    ensures OnlyIntentsTouch(Next(s, m), a)
  {
    hide Pipeline, Insert, Carried, Commanded, Reconciled, ReadNoted, ConsumerJobs, GivesUp, Intent.Carries;
    var s' := Next(s, m);
    match m
    case Command(address, data) =>
      CommandLeavesLink(s, address, data);
      SamePipeline(s, s');
    case TakeIntent => SamePipeline(s, s');
    case BeginWrite =>
      PipelineAfterSubmit(s, PRIORITY_COMMAND, s.phase.intent.WriteOp(), Consumer);
      SamePipeline(s.(gov := s'.gov), s');
    case Foreign(owner, op) => PipelineAfterSubmit(s, PriorityOf(op), op, owner);
    case Dispatch => PipelineAfterDispatch(s);
    case Complete(outcome) => PipelineAfterComplete(s, outcome);
    case Deliver(now) =>
      PipelineAfterResume(s);
      var s1 := s.(gov := Resumed(s.gov));
      PipelineAfterSubmit(s1, PRIORITY_POLL, READ_SETTINGS, Consumer);
      PipelineAfterSubmit(s1, PRIORITY_POLL, READ_SETTINGS, Mqtt);
      SamePipeline(s1.(gov := s'.gov), s');
    case Judge(_) => SamePipeline(s, s');
  }

  // -- each move keeps the byte steady -----------------------------------------------------

  lemma CommandKeepsSteady(s: Bridge, address: nat, data: seq<int>, a: nat, byte: Byte)
    requires Steady(s, a, byte) && Quiet(s, Command(address, data), a, byte)
    ensures Steady(Next(s, Command(address, data)), a, byte)
  {
    hide Trail, Unfinished, SettlesOn, AllAre, Pipeline, GivesUp;
    var m := Command(address, data);
    var s' := Next(s, m);
    MoveKeepsOthersAway(s, m, a, byte);
    CommandEffect(s, address, data);
    if Admits(s, data) {
      var i := Intent(address, data);
      TrailJoin(Unfinished(s), [i], a);
      TrailOfOne(i, a);
      assert AllAre(Trail([i], a), byte) by { OneByteTrail(i, a, byte); }
      SettlingExtends(Trail(Unfinished(s), a), byte, Trail([i], a));
      assert a in Bytes(address, data) ==> Bytes(address, data)[a] == byte;
    }
  }

  lemma OneByteTrail(i: Intent, a: nat, byte: Byte)
    requires i.Covers(a) ==> i.At(a) == byte
    ensures AllAre(Trail([i], a), byte)
  {
    TrailOfOne(i, a);
  }

  /** When the first intent carrying the byte is cleared, memory and every waiting read already show it. */
  lemma ClearedByteIsInMemory(s: Bridge, m: Move, a: nat, byte: Byte)
    requires Coherent(s) && OnlyIntentsTouch(s, a) && a < SETTINGS_LEN
    requires Clears(s, m) && !GivesUp(s, m) && s.phase.intent.Carries(a, byte)
    ensures s.mem[a] == byte && !StaleReadWaits(Next(s, m), a, byte)
  {
    hide Next, Contradicts, Insert, ConsumerJobs;
    ClearEffect(s, m);
    var d := s.gov.done[0];
    PipelineAfterResume(s);
    ResumeKeepsOneJob(s);
    assert d.job in Pipeline(s);
    assert d.job.op == s.phase.intent.WriteOp();
    assert d in s.gov.done && d.reply.Acked?;
    forall k | 0 < k < |s.gov.done| ensures !Touches(s.gov.done[k].job.op, a) {
      assert Jobs(s.gov.done[1..])[k - 1] == s.gov.done[k].job;
      assert s.gov.done[k].job in Jobs(s.gov.done[1..]);
      assert s.gov.done[k].job in Pipeline(s.(gov := Resumed(s.gov)));
      assert s.gov.done[k].job in Pipeline(s);
    }
    assert Touches(d.job.op, a);
    assert Explained(s, 0, a, d.job.op.data[a - d.job.op.address]);
    assert Next(s, m).gov.done == s.gov.done[1..];
  }

  lemma ClearKeepsSteady(s: Bridge, m: Move, a: nat, byte: Byte)
    requires Coherent(s) && Steady(s, a, byte) && Clears(s, m) && Quiet(s, m, a, byte)
    ensures Steady(Next(s, m), a, byte)
  {
    hide Next, Pipeline, Coherent, Insert, Contradicts, SettlesOn, AllAre, Trail, Unfinished;
    var s' := Next(s, m);
    var i := s.phase.intent;
    MoveKeepsOthersAway(s, m, a, byte);
    ClearEffect(s, m);
    TrailJoin([i], Unfinished(s'), a);
    TrailOfOne(i, a);
    ClearedBytesAreNotCarried(i, a, s.store.pending);
    if a in s.store.pending {
      SettlingTail(Trail([i], a), Trail(Unfinished(s'), a), byte);
      if i.Carries(a, byte) {
        ClearedByteIsInMemory(s, m, a, byte);
      }
    } else {
      AllTail(Trail([i], a), Trail(Unfinished(s'), a), byte);
      assert s'.gov.done == s.gov.done[1..];
    }
  }

  lemma AllTail(head: seq<Byte>, tail: seq<Byte>, byte: Byte)
    requires AllAre(head + tail, byte)
    ensures AllAre(tail, byte) && AllAre(head, byte)
  {
    assert forall k :: 0 <= k < |tail| ==> (head + tail)[|head| + k] == tail[k];
    assert forall k :: 0 <= k < |head| ==> (head + tail)[k] == head[k];
  }

  lemma KillKeepsSteady(s: Bridge, m: Move, a: nat, byte: Byte)
    requires Steady(s, a, byte) && Kills(s, m) && Quiet(s, m, a, byte)
    ensures Steady(Next(s, m), a, byte)
  {
    hide Next, Pipeline, Contradicts, SettlesOn, AllAre, Trail, Unfinished;
    var s' := Next(s, m);
    var i := s.phase.intent;
    MoveKeepsOthersAway(s, m, a, byte);
    KillEffect(s, m);
    TrailJoin([i], Unfinished(s'), a);
    if a in s.store.pending {
      SettlingTail(Trail([i], a), Trail(Unfinished(s'), a), byte);
    } else {
      AllTail(Trail([i], a), Trail(Unfinished(s'), a), byte);
    }
  }

  /** Completing a job: a consumer write carries the byte if the overlay is already gone; nobody else writes there. */
  lemma CompleteKeepsSteady(s: Bridge, outcome: Outcome, a: nat, byte: Byte)
    requires Coherent(s) && Steady(s, a, byte) && Enabled(s, Complete(outcome))
    ensures Steady(Next(s, Complete(outcome)), a, byte)
  {
    hide Carried, Contradicts, SettlesOn, Insert, ConsumerJobs;
    var m := Complete(outcome);
    var s' := Next(s, m);
    var job := s.gov.current.value;
    var reply := Carried(s.mem, job.op, outcome).0;
    MoveKeepsOthersAway(s, m, a, byte);
    assert Unfinished(s') == Unfinished(s) && s'.store == s.store;
    if a !in s.store.pending {
      CarriedTouches(s.mem, job.op, outcome, a);
      assert Current(s) == [job] && job in Current(s);
      assert job in Pipeline(s);
      if Touches(job.op, a) {
        assert s.phase.Writing? && job.op == s.phase.intent.WriteOp();
        assert Unfinished(s) == [s.phase.intent] + s.intents;
        TrailJoin([s.phase.intent], s.intents, a);
        TrailOfOne(s.phase.intent, a);
        WrittenByteIsData(s.mem, job.op, outcome, a);
        assert Trail(Unfinished(s), a)[0] == s.phase.intent.At(a);
        NoReadNoContradiction(Done(job, reply), a, byte);
      } else {
        NewReadAgrees(Done(job, reply), a, byte, s.mem);
      }
      assert s'.gov.done == s.gov.done + [Done(job, reply)];
    }
  }

  lemma WrittenByteIsData(mem: Memory, op: Op, outcome: Outcome, a: nat)
    requires a < SETTINGS_LEN && Touches(op, a)
    ensures Carried(mem, op, outcome).1[a] == mem[a] || Carried(mem, op, outcome).1[a] == op.data[a - op.address]
  {
  }

  lemma NoReadNoContradiction(d: Done, a: nat, byte: Byte)
    requires d.job.op.WriteOp?
    ensures !Contradicts(d, a, byte)
  {
  }

  /** Any other delivery: what reaches the store is overlaid or already shows the byte. */
  lemma DeliveryKeepsSteady(s: Bridge, now: real, a: nat, byte: Byte)
    requires Coherent(s) && Steady(s, a, byte) && Enabled(s, Deliver(now))
    requires !Clears(s, Deliver(now)) && !Kills(s, Deliver(now))
    ensures Steady(Next(s, Deliver(now)), a, byte)
  {
    var m := Deliver(now);
    var s' := Next(s, m);
    assert Quiet(s, m, a, byte);
    MoveKeepsOthersAway(s, m, a, byte);
    OtherEffect(s, m);
    MoveKeepsCoherent(s, m);
    DeliveredSettings(s, now, a);
    DeliveryOnlyDrops(s, now);
    assert s.gov.done[0] in s.gov.done;
    assert forall d :: d in s.gov.done[1..] ==> d in s.gov.done;
  }

  lemma DeliveryOnlyDrops(s: Bridge, now: real)
    requires Enabled(s, Deliver(now))
    ensures Next(s, Deliver(now)).gov.done == s.gov.done[1..] && Next(s, Deliver(now)).mem == s.mem
  {
    hide Insert, ReadNoted, Reconciled;
  }

  /** How a delivery can change the snapshot at `a`: not at all, or to the overlaid byte of a settings read. */
  lemma DeliveredSettings(s: Bridge, now: real, a: nat)
    requires Coherent(s) && Enabled(s, Deliver(now)) && a < SETTINGS_LEN
    ensures var d := s.gov.done[0];
      var shown := Next(s, Deliver(now)).store.settings;
      |shown| == SETTINGS_LEN &&
      (if d.job.op == READ_SETTINGS && d.reply.Data? && d.job.owner != LanClient then
         |d.reply.bytes| == SETTINGS_LEN
         && shown[a] == if a in s.store.pending then s.store.pending[a] else d.reply.bytes[a]
       else shown == s.store.settings)
  {
    hide Insert, ConsumerJobs, Recent, Pipeline, Bytes, Spent;
    PipelineAfterResume(s);
    assert s.gov.done[0].job in Pipeline(s);
    assert s.gov.done[0] in s.gov.done;
  }

  lemma MoveKeepsSteady(s: Bridge, m: Move, a: nat, byte: Byte)
    requires Coherent(s) && Steady(s, a, byte) && Enabled(s, m) && Quiet(s, m, a, byte)
    ensures Steady(Next(s, m), a, byte)
  {
    if m.Command? {
      hide *;
      CommandKeepsSteady(s, m.address, m.data, a, byte);
    } else if Clears(s, m) {
      hide *;
      ClearKeepsSteady(s, m, a, byte);
    } else if Kills(s, m) {
      hide *;
      KillKeepsSteady(s, m, a, byte);
    } else if m.Deliver? {
      hide *;
      DeliveryKeepsSteady(s, m.now, a, byte);
    } else if m.Complete? {
      hide *;
      CompleteKeepsSteady(s, m.outcome, a, byte);
    } else {
      hide Insert, Trail, SettlesOn, AllAre, Pipeline, Coherent, Contradicts, Quiet;
      MoveKeepsOthersAway(s, m, a, byte);
      OtherEffect(s, m);
    }
  }

  /** From a steady state, no quiet run of any length ever shows another byte. */
  lemma {:induction false} SteadyNeverFlickers(s: Bridge, moves: seq<Move>, a: nat, byte: Byte)
    requires Coherent(s) && Steady(s, a, byte) && QuietRun(s, moves, a, byte)
    ensures Runs(s, moves) && Steady(Run(s, moves), a, byte)
    ensures a < |Run(s, moves).store.settings| && Run(s, moves).store.settings[a] == byte
    decreases |moves|
  {
    hide Next, Enabled, Quiet, Coherent;
    if moves != [] {
      MoveKeepsSteady(s, moves[0], a, byte);
      MoveKeepsCoherent(s, moves[0]);
      SteadyNeverFlickers(Next(s, moves[0]), moves[1..], a, byte);
    }
  }

  /** An accepted, reflected command that covers `a`, with no other writer at `a` on its way. */
  ghost predicate Accepted(s: Bridge, i: Intent, a: nat) {
    && Coherent(s) && Admits(s, i.data) && Reflectable(s.store, i.address, i.data)
    && a < SETTINGS_LEN && i.Covers(a) && OnlyIntentsTouch(s, a)
  }

  lemma AcceptanceShows(s: Bridge, i: Intent, a: nat)
    requires Accepted(s, i, a)
    ensures var s' := Next(s, Command(i.address, i.data));
      && a in s'.store.pending && s'.store.pending[a] == i.At(a)
      && |s'.store.settings| == SETTINGS_LEN && s'.store.settings[a] == i.At(a)
      && Trail(Unfinished(s'), a) == Trail(Unfinished(s), a) + [i.At(a)]
      && OnlyIntentsTouch(s', a)
  {
    hide Trail, Pipeline, Recent, ConsumerJobs, Unfinished, Reflectable;
    CommandEffect(s, i.address, i.data);
    TrailJoin(Unfinished(s), [i], a);
    TrailOfOne(i, a);
    OwnBytesAreCarried(i, a);
    MoveKeepsOthersAway(s, Command(i.address, i.data), a, i.At(a));
  }

  /** The promise itself: the newest command's byte is shown from acceptance on. */
  lemma NoFlickerBack(s: Bridge, i: Intent, a: nat, moves: seq<Move>)
    requires Accepted(s, i, a)
    requires SettlesOn(Trail(Unfinished(s), a) + [i.At(a)], i.At(a))
    requires QuietRun(Next(s, Command(i.address, i.data)), moves, a, i.At(a))
    ensures var s' := Next(s, Command(i.address, i.data));
      && Runs(s', moves)
      && a < |Run(s', moves).store.settings| && Run(s', moves).store.settings[a] == i.At(a)
  {
    hide Next, Trail, SettlesOn, QuietRun, Coherent;
    AcceptanceShows(s, i, a);
    MoveKeepsCoherent(s, Command(i.address, i.data));
    SteadyNeverFlickers(Next(s, Command(i.address, i.data)), moves, a, i.At(a));
  }
}
