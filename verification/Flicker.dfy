/**
 * The exact condition for no flicker-back. The overlay is cleared by value, so when an older unfinished
 * command already carries the newest byte and a different one follows it (A, B, A), the first A clears
 * the newest overlay and the house is shown B: from every such state some run of successful writes does it.
 */
module Flicker {
  import opened Wrappers
  import opened Protocol
  import opened Machine
  import opened Governor
  import opened Store
  import opened Bridge
  import opened Coherence
  import opened Overlay
  import opened Progress
  import opened Steady

  // -- a scheduler that lets every write succeed ----------------------------------------

  /** Deliver first, then resolve, then dispatch, then let the consumer go on. */
  function Drive(s: Bridge): Move {
    if s.gov.done != [] then Deliver(0.0)
    else if s.gov.current.Some? then
      Complete(if Possible(s.gov.current.value.op, Success) then Success else Failure(false, false))
    else if s.gov.queue != [] then Dispatch
    else if s.phase.Waiting? then BeginWrite
    else TakeIntent
  }

  predicate MayRetry(phase: Phase) {
    phase.Writing? && phase.attempt < WRITE_RETRIES
  }

  /** Intents the machine can acknowledge, and no last attempt of theirs has failed, no error is waiting. */
  ghost predicate Healthy(s: Bridge) {
    && (forall i :: i in Unfinished(s) ==> Fits(i.address, |i.data|))
    && (forall d :: d in s.gov.done && d.job.owner == Consumer ==>
          d.reply.Data? || d.reply.Acked? || (d.reply.LinkDown? && MayRetry(s.phase)))
    && (forall d :: d in s.gov.done && d.job.owner == Mqtt ==> !d.reply.Crashed?)
  }

  /** Work is pending whenever an intent is unfinished or the consumer waits for a job. */
  lemma DriveIsEnabled(s: Bridge)
    requires Coherent(s) && Healthy(s)
    requires Unfinished(s) != [] || s.phase.Reading?
    ensures Enabled(s, Drive(s)) && Internal(Drive(s))
  {
    hide Recent;
    if s.gov.done != [] {
      assert s.gov.done[0] in s.gov.done;
    } else if s.gov.current.None? && s.gov.queue == [] {
      assert Pipeline(s) == [];
      assert ConsumerOp(s.phase).None?;
    }
  }

  lemma DriveKeepsHealthy(s: Bridge)
    requires Coherent(s) && Healthy(s) && Enabled(s, Drive(s))
    ensures Healthy(Next(s, Drive(s)))
  {
    hide Recent, Insert, Pipeline, ConsumerJobs, Carried, Reconciled, ReadNoted;
    var m := Drive(s);
    var s' := Next(s, m);
    if m.Deliver? {
      DeliveryOnlyDrops(s, 0.0);
      assert forall d :: d in s.gov.done[1..] ==> d in s.gov.done;
      DeliveryShortensUnfinished(s);
      OthersWaitInTheSamePhase(s);
    } else if m.Complete? {
      var job := s.gov.current.value;
      assert Unfinished(s') == Unfinished(s);
      CurrentConsumerFits(s);
      CompletedReply(s.mem, job.op, m.outcome);
      assert s'.gov.done == [Done(job, Carried(s.mem, job.op, m.outcome).0)];
    } else {
      assert Unfinished(s') == Unfinished(s);
    }
  }

  /** After a delivery to the consumer no reply of its own waits; any other delivery leaves its phase alone. */
  lemma OthersWaitInTheSamePhase(s: Bridge)
    requires Coherent(s) && Enabled(s, Deliver(0.0))
    ensures if s.gov.done[0].job.owner == Consumer then forall d :: d in s.gov.done[1..] ==> d.job.owner != Consumer
            else Next(s, Deliver(0.0)).phase == s.phase
  {
    hide Recent, ConsumerJobs, Insert, Reconciled, ReadNoted;
    ResumeKeepsOneJob(s);
    forall d | d in s.gov.done[1..] && s.gov.done[0].job.owner == Consumer ensures d.job.owner != Consumer {
      var k :| 0 <= k < |s.gov.done[1..]| && s.gov.done[1..][k] == d;
      assert Jobs(s.gov.done[1..])[k] == d.job;
      assert d.job in Jobs(s.gov.done[1..]);
      assert d.job in Pipeline(s.(gov := Resumed(s.gov)));
    }
  }

  lemma CompletedReply(mem: Memory, op: Op, outcome: Outcome)
    ensures var reply := Carried(mem, op, outcome).0;
      && (outcome.Success? ==> reply.Data? || reply.Acked?)
      && (outcome == Failure(false, false) ==> reply.LinkDown?)
  {
  }

  /** The consumer's own job is always one the machine can carry out. */
  lemma CurrentConsumerFits(s: Bridge)
    requires Coherent(s) && Healthy(s) && s.gov.current.Some?
    ensures s.gov.current.value.owner == Consumer ==> Possible(s.gov.current.value.op, Success)
  {
    hide Recent, ConsumerJobs;
    assert s.gov.current.value in Current(s);
    assert s.gov.current.value in Pipeline(s);
    if s.phase.Writing? {
      assert Unfinished(s)[0] == s.phase.intent;
      assert s.phase.intent in Unfinished(s);
    }
  }

  lemma DeliveryShortensUnfinished(s: Bridge)
    requires Enabled(s, Deliver(0.0))
    ensures forall i :: i in Unfinished(Next(s, Deliver(0.0))) ==> i in Unfinished(s)
  {
    hide Unfinished, Next;
    var m := Deliver(0.0);
    if Clears(s, m) {
      ClearEffect(s, m);
    } else if Kills(s, m) {
      KillEffect(s, m);
    } else {
      OtherEffect(s, m);
    }
  }

  // -- doom: the newest overlay will be cleared early ---------------------------------------

  /** The byte comes up and is left again. */
  ghost predicate Returns(trail: seq<Byte>, byte: Byte) {
    exists i, j :: 0 <= i < j < |trail| && trail[i] == byte && trail[j] != byte
  }

  ghost predicate Leaves(trail: seq<Byte>, byte: Byte) {
    exists j :: 0 <= j < |trail| && trail[j] != byte
  }

  /** The consumer waits for a read that shows, or will show, another byte. */
  ghost predicate AboutToShow(s: Bridge, a: nat, byte: Byte) {
    && a < SETTINGS_LEN && s.phase.Reading? && a !in s.store.pending
    && s.mem[a] != byte
    && (forall d :: d in s.gov.done && d.job.owner == Consumer && d.reply.Data? ==> Contradicts(d, a, byte))
  }

  ghost predicate Doomed(s: Bridge, a: nat, byte: Byte) {
    var trail := Trail(Unfinished(s), a);
    && a < SETTINGS_LEN && OnlyIntentsTouch(s, a)
    && (|| (Returns(trail, byte) && (a in s.store.pending ==> s.store.pending[a] == byte))
        || (a !in s.store.pending && Leaves(trail, byte))
        || AboutToShow(s, a, byte))
  }

  lemma DoomMeansWork(s: Bridge, a: nat, byte: Byte)
    requires Doomed(s, a, byte)
    ensures Unfinished(s) != [] || s.phase.Reading?
  {
  }

  lemma DriveIsQuiet(s: Bridge, a: nat, byte: Byte)
    requires Coherent(s) && Healthy(s) && Enabled(s, Drive(s))
    ensures Quiet(s, Drive(s), a, byte)
    ensures !Kills(s, Drive(s)) && !GivesUp(s, Drive(s))
  {
    hide Recent, Next, Pipeline, ConsumerJobs;
    if s.gov.done != [] {
      assert s.gov.done[0] in s.gov.done;
    }
  }

  lemma ReturnsTail(head: seq<Byte>, tail: seq<Byte>, byte: Byte)
    requires Returns(head + tail, byte) && |head| <= 1
    ensures byte in head ==> Leaves(tail, byte)
    ensures byte !in head ==> Returns(tail, byte)
  {
    var trail := head + tail;
    var i, j :| 0 <= i < j < |trail| && trail[i] == byte && trail[j] != byte;
    assert tail[j - |head|] == trail[j];
    if byte !in head {
      assert forall k :: 0 <= k < |head| ==> trail[k] in head;
      assert i >= |head|;
      assert tail[i - |head|] == trail[i];
    }
  }

  lemma LeavesTail(head: seq<Byte>, tail: seq<Byte>, byte: Byte)
    requires Leaves(head + tail, byte) && |head| <= 1
    ensures Leaves(tail, byte) || (head != [] && head[0] != byte)
  {
    var trail := head + tail;
    var j :| 0 <= j < |trail| && trail[j] != byte;
    if j >= |head| {
      assert tail[j - |head|] == trail[j];
    }
  }

  lemma ClearKeepsDoomed(s: Bridge, a: nat, byte: Byte)
    requires Coherent(s) && Healthy(s) && Doomed(s, a, byte)
    requires Clears(s, Deliver(0.0)) && !GivesUp(s, Deliver(0.0))
    ensures Doomed(Next(s, Deliver(0.0)), a, byte)
  {
    hide Next, Pipeline, Coherent, Healthy, Insert, Contradicts, Returns, Leaves, Trail, Unfinished;
    var m := Deliver(0.0);
    var s' := Next(s, m);
    var i := s.phase.intent;
    assert Quiet(s, m, a, byte);
    MoveKeepsOthersAway(s, m, a, byte);
    ClearEffect(s, m);
    var head, tail := Trail([i], a), Trail(Unfinished(s'), a);
    TrailJoin([i], Unfinished(s'), a);
    TrailOfOne(i, a);
    ClearedBytesAreNotCarried(i, a, s.store.pending);
    if Returns(Trail(Unfinished(s), a), byte) && (a in s.store.pending ==> s.store.pending[a] == byte) {
      ReturnsTail(head, tail, byte);
    } else {
      assert a !in s.store.pending && Leaves(Trail(Unfinished(s), a), byte);
      LeavesTail(head, tail, byte);
      if !Leaves(tail, byte) {
        ClearedByteIsInMemory(s, m, a, i.At(a));
        NoConsumerReadWaits(s, m);
      }
    }
  }

  /** After a clear no resolved job of the consumer is left to deliver. */
  lemma NoConsumerReadWaits(s: Bridge, m: Move)
    requires Coherent(s) && Clears(s, m)
    ensures forall d :: d in Next(s, m).gov.done ==> d.job.owner != Consumer
  {
    hide Recent, ConsumerJobs, Insert;
    ResumeKeepsOneJob(s);
    DeliveryOnlyDrops(s, m.now);
    forall d | d in s.gov.done[1..] ensures d.job.owner != Consumer {
      var k :| 0 <= k < |s.gov.done[1..]| && s.gov.done[1..][k] == d;
      assert Jobs(s.gov.done[1..])[k] == d.job;
      assert d.job in Jobs(s.gov.done[1..]);
      assert d.job in Pipeline(s.(gov := Resumed(s.gov)));
    }
  }

  lemma DeliveryKeepsDoomed(s: Bridge, a: nat, byte: Byte)
    requires Coherent(s) && Healthy(s) && Doomed(s, a, byte) && s.store.settings[a] == byte
    requires Enabled(s, Deliver(0.0)) && !Clears(s, Deliver(0.0)) && !Kills(s, Deliver(0.0))
    ensures var s' := Next(s, Deliver(0.0));
      Doomed(s', a, byte) || (|s'.store.settings| == SETTINGS_LEN && s'.store.settings[a] != byte)
  {
    var m := Deliver(0.0);
    var s' := Next(s, m);
    var d := s.gov.done[0];
    assert Quiet(s, m, a, byte);
    MoveKeepsOthersAway(s, m, a, byte);
    OtherEffect(s, m);
    DeliveredSettings(s, 0.0, a);
    DeliveryOnlyDrops(s, 0.0);
    assert d in s.gov.done;
    assert forall e :: e in s.gov.done[1..] ==> e in s.gov.done;
    if AboutToShow(s, a, byte) {
      ReadingDelivery(s);
    }
  }

  /** While the consumer waits for its reconcile read, a delivery either is that read or leaves it waiting. */
  lemma ReadingDelivery(s: Bridge)
    requires Coherent(s) && Healthy(s) && s.phase.Reading? && Enabled(s, Deliver(0.0))
    ensures var d := s.gov.done[0];
      if d.job.owner == Consumer then d.job.op == READ_SETTINGS && d.reply.Data?
      else Next(s, Deliver(0.0)).phase == s.phase
  {
    hide Recent, ConsumerJobs, Insert, Reconciled, ReadNoted;
    var d := s.gov.done[0];
    PipelineAfterResume(s);
    assert d.job in Pipeline(s);
    assert d in s.gov.done;
  }

  lemma CompleteKeepsDoomed(s: Bridge, a: nat, byte: Byte)
    requires Coherent(s) && Healthy(s) && Doomed(s, a, byte) && Drive(s).Complete? && Enabled(s, Drive(s))
    ensures Doomed(Next(s, Drive(s)), a, byte)
  {
    hide Carried, Returns, Leaves, Insert, ConsumerJobs, Recent;
    var m := Drive(s);
    var s' := Next(s, m);
    var job := s.gov.current.value;
    var reply := Carried(s.mem, job.op, m.outcome).0;
    DriveIsQuiet(s, a, byte);
    MoveKeepsOthersAway(s, m, a, byte);
    assert Unfinished(s') == Unfinished(s) && s'.store == s.store && s'.phase == s.phase;
    if AboutToShow(s, a, byte) {
      CarriedTouches(s.mem, job.op, m.outcome, a);
      assert job in Current(s);
      assert job in Pipeline(s);
      assert !Touches(job.op, a);
      assert s'.gov.done == [Done(job, reply)];
    }
  }

  lemma DriveKeepsDoomed(s: Bridge, a: nat, byte: Byte)
    requires Coherent(s) && Healthy(s) && Doomed(s, a, byte) && s.store.settings[a] == byte && Enabled(s, Drive(s))
    ensures var s' := Next(s, Drive(s));
      Doomed(s', a, byte) || (|s'.store.settings| == SETTINGS_LEN && s'.store.settings[a] != byte)
  {
    DriveIsQuiet(s, a, byte);
    var m := Drive(s);
    if m.Deliver? {
      if Clears(s, m) {
        hide *;
        assert m == Deliver(0.0) by { DriveDelivers(s); }
        ClearKeepsDoomed(s, a, byte);
      } else {
        hide *;
        assert m == Deliver(0.0) by { DriveDelivers(s); }
        DeliveryKeepsDoomed(s, a, byte);
      }
    } else if m.Complete? {
      hide *;
      CompleteKeepsDoomed(s, a, byte);
    } else {
      hide Insert, Trail, Returns, Leaves, Pipeline, Coherent, Contradicts, Quiet;
      MoveKeepsOthersAway(s, m, a, byte);
      OtherEffect(s, m);
    }
  }

  lemma DriveDelivers(s: Bridge)
    ensures Drive(s).Deliver? ==> Drive(s) == Deliver(0.0)
  {
  }

  /** From a doomed state a run of successful writes, without any other writer, shows another byte. */
  lemma {:induction false} DoomedRunFlickers(s: Bridge, a: nat, byte: Byte) returns (moves: seq<Move>)
    requires Coherent(s) && Healthy(s) && a < SETTINGS_LEN
    requires Doomed(s, a, byte) || s.store.settings[a] != byte
    ensures QuietRun(s, moves, a, byte) && Runs(s, moves) && AllSucceed(s, moves)
    ensures |Run(s, moves).store.settings| == SETTINGS_LEN && Run(s, moves).store.settings[a] != byte
    decreases Rank(s)
  {
    hide Next, Enabled, Quiet, Healthy, Doomed, Rank, Drive, Recent, OneConsumerJob, KnownReads, GivesUp, Kills;
    if s.store.settings[a] != byte {
      moves := [];
    } else {
      var m := Drive(s);
      DoomMeansWork(s, a, byte);
      DriveIsEnabled(s);
      DriveIsQuiet(s, a, byte);
      DriveKeepsDoomed(s, a, byte);
      DriveKeepsHealthy(s);
      MoveLowersRank(s, m);
      MoveKeepsCoherent(s, m);
      var rest := DoomedRunFlickers(Next(s, m), a, byte);
      moves := [m] + rest;
      assert moves[0] == m && moves[1..] == rest;
    }
  }

  // -- the exact condition -------------------------------------------------------------------

  lemma UnsettledReturns(trail: seq<Byte>, byte: Byte)
    ensures !SettlesOn(trail, byte) <==> Returns(trail, byte)
  {
  }

  lemma AcceptanceKeepsHealthy(s: Bridge, i: Intent, a: nat)
    requires Accepted(s, i, a) && Healthy(s)
    ensures Healthy(Next(s, Command(i.address, i.data)))
  {
    hide Pipeline, Recent, ConsumerJobs, Unfinished, Reflected;
    CommandEffect(s, i.address, i.data);
  }

  /**
   * The newest command's byte is shown in every quiet run if and only if the bytes still to be written
   * at that address, followed by the newest, settle on it: a condition on the queue at acceptance.
   * Demanding of the runs that every intent be acknowledged does not weaken the condition.
   */
  lemma NoFlickerBackExactly(s: Bridge, i: Intent, a: nat)
    requires Accepted(s, i, a) && Healthy(s)
    ensures var s' := Next(s, Command(i.address, i.data));
      SettlesOn(Trail(Unfinished(s), a) + [i.At(a)], i.At(a)) <==>
        forall moves :: QuietRun(s', moves, a, i.At(a)) ==> Shows(s', moves, a, i.At(a))
    ensures var s' := Next(s, Command(i.address, i.data));
      SettlesOn(Trail(Unfinished(s), a) + [i.At(a)], i.At(a)) <==>
        forall moves :: SmoothRun(s', moves, a, i.At(a)) ==> Shows(s', moves, a, i.At(a))
  {
    hide Next, Trail, SettlesOn, QuietRun, Coherent, Healthy, Unfinished, Runs, AllSucceed;
    var s' := Next(s, Command(i.address, i.data));
    var byte := i.At(a);
    if SettlesOn(Trail(Unfinished(s), a) + [byte], byte) {
      forall moves | QuietRun(s', moves, a, byte) ensures Shows(s', moves, a, byte) {
        NoFlickerBack(s, i, a, moves);
      }
    } else {
      AcceptanceShows(s, i, a);
      MoveKeepsCoherent(s, Command(i.address, i.data));
      AcceptanceKeepsHealthy(s, i, a);
      UnsettledReturns(Trail(Unfinished(s), a) + [byte], byte);
      var moves := DoomedRunFlickers(s', a, byte);
      assert SmoothRun(s', moves, a, byte);
      assert !Shows(s', moves, a, byte);
    }
  }

  /** A quiet run in which every intent that ends was acknowledged. */
  predicate SmoothRun(s: Bridge, moves: seq<Move>, a: nat, byte: Byte) {
    QuietRun(s, moves, a, byte) && Runs(s, moves) && AllSucceed(s, moves)
  }

  /** The snapshot at the end of the run shows `byte` at `a`. */
  ghost predicate Shows(s: Bridge, moves: seq<Move>, a: nat, byte: Byte) {
    Runs(s, moves) && a < |Run(s, moves).store.settings| && Run(s, moves).store.settings[a] == byte
  }

  // -- the failing case, concretely -------------------------------------------------------

  function SetBrew(byte: Byte): Move {
    Command(2, [byte])
  }

  /** The bridge after its first poll and the commands 110 and 112 at the brew setpoint. */
  function ThereAndBack(mem: Memory): Bridge {
    Next(Next(Polled(mem), SetBrew(110)), SetBrew(112))
  }

  lemma ThereAndBackIsReady(mem: Memory)
    ensures var s := ThereAndBack(mem);
      && s.gov == Gov([], 1, None, []) && s.phase == Idle && s.mem == mem && s.store.haveData
      && s.intents == [Intent(2, [110]), Intent(2, [112])]
  {
    hide Overlaid;
  }

  lemma TrailThereAndBack()
    ensures !SettlesOn(Trail([Intent(2, [110]), Intent(2, [112])], 2) + [110], 110)
  {
    var one, two := Intent(2, [110]), Intent(2, [112]);
    TrailJoin([one], [two], 2);
    TrailOfOne(one, 2);
    TrailOfOne(two, 2);
    assert [one, two] == [one] + [two];
    var trail := Trail([one, two], 2) + [110];
    assert trail[0] == 110 && trail[1] == 112;
  }

  lemma ThereAndBackAccepts(mem: Memory)
    ensures var s := ThereAndBack(mem);
      Coherent(s) && Healthy(s) && Accepted(s, Intent(2, [110]), 2)
  {
    hide Next, Recent, OneConsumerJob, KnownReads;
    ThereAndBackIsReady(mem);
    PoweredIsCoherent(mem);
    FirstPollReads(mem);
    RunsStayCoherent(Powered(mem), FirstPoll());
    MoveKeepsCoherent(Polled(mem), SetBrew(110));
    MoveKeepsCoherent(Next(Polled(mem), SetBrew(110)), SetBrew(112));
    assert Pipeline(ThereAndBack(mem)) == [];
  }

  /**
   * From power-on: one poll, then 110, 112 and 110 again at the brew setpoint. A continuation in which every
   * write is acknowledged and nobody else writes there shows the house something other than 110.
   */
  lemma SettingBackTheOldValueFlickers(mem: Memory) returns (rest: seq<Move>)
    ensures var start := FirstPoll() + [SetBrew(110), SetBrew(112), SetBrew(110)];
      && Runs(Powered(mem), start)
      && SmoothRun(Run(Powered(mem), start), rest, 2, 110)
      && !Shows(Run(Powered(mem), start), rest, 2, 110)
  {
    hide Next, Runs, Run, Trail, SettlesOn, Coherent, Healthy, SmoothRun, Shows, Accepted;
    var s := ThereAndBack(mem);
    var i := Intent(2, [110]);
    ThereAndBackIsReady(mem);
    ThereAndBackAccepts(mem);
    TrailThereAndBack();
    assert Unfinished(s) == [Intent(2, [110]), Intent(2, [112])] by { UnfinishedWhenIdle(s); }
    NoFlickerBackExactly(s, i, 2);
    FirstPollReads(mem);
    CommandsRun(Polled(mem));
    RunsJoin(Powered(mem), FirstPoll(), [SetBrew(110), SetBrew(112), SetBrew(110)]);
    rest :| SmoothRun(Next(s, SetBrew(110)), rest, 2, 110) && !Shows(Next(s, SetBrew(110)), rest, 2, 110);
  }

  lemma UnfinishedWhenIdle(s: Bridge)
    requires s.phase.Idle?
    ensures Unfinished(s) == s.intents
  {
  }

  lemma CommandsRun(s: Bridge)
    ensures var moves := [SetBrew(110), SetBrew(112), SetBrew(110)];
      && Runs(s, moves)
      && Run(s, moves) == Next(Next(Next(s, SetBrew(110)), SetBrew(112)), SetBrew(110))
  {
    hide Next;
    var one := Next(s, SetBrew(110));
    var two := Next(one, SetBrew(112));
    RunOne(two, SetBrew(110), []);
    RunOne(one, SetBrew(112), [SetBrew(110)]);
    RunOne(s, SetBrew(110), [SetBrew(112), SetBrew(110)]);
  }
}
