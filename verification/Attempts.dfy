/** How often an intent is tried: three attempts, counted over the moves of a run. */
module Attempts {
  import opened Machine
  import opened Governor
  import opened Store
  import opened Bridge
  import opened Coherence

  /** Attempts begun, and attempts that came back failed, since the consumer last took an intent. */
  datatype Tally = Tally(begun: nat, failed: nat)

  /** The oldest resolved job is a write attempt of the consumer. */
  predicate AttemptReturns(s: Bridge) {
    s.gov.done != [] && s.gov.done[0].job.owner == Consumer && s.gov.done[0].job.op.WriteOp?
  }

  function Counted(t: Tally, s: Bridge, m: Move): Tally {
    if m.TakeIntent? then Tally(0, 0)
    else if m.BeginWrite? then t.(begun := t.begun + 1)
    else if m.Deliver? && AttemptReturns(s) && s.gov.done[0].reply.LinkDown? then t.(failed := t.failed + 1)
    else t
  }

  function CountedRun(t: Tally, s: Bridge, moves: seq<Move>): Tally
    requires Runs(s, moves)
    decreases |moves|
  {
    if moves == [] then t else CountedRun(Counted(t, s, moves[0]), Next(s, moves[0]), moves[1..])
  }

  ghost predicate Tallies(t: Tally, s: Bridge) {
    && (s.phase.Waiting? ==> s.phase.attempt == t.failed == t.begun <= 2)
    && (s.phase.Writing? ==> s.phase.attempt == t.failed && t.begun == t.failed + 1 <= 3)
  }

  /** A returning attempt finds the consumer waiting for it, with the intent it wrote. */
  lemma AttemptsReturnToTheirIntent(s: Bridge)
    requires Coherent(s) && AttemptReturns(s)
    ensures s.phase.Writing? && s.gov.done[0].job.op == s.phase.intent.WriteOp()
    ensures !s.gov.done[0].reply.Data?
  {
    hide Recent, ConsumerJobs;
    PipelineAfterResume(s);
    assert s.gov.done[0].job in Pipeline(s);
    assert s.gov.done[0] in s.gov.done;
  }

  lemma MoveKeepsTally(t: Tally, s: Bridge, m: Move)
    requires Coherent(s) && Tallies(t, s) && Enabled(s, m)
    ensures Tallies(Counted(t, s, m), Next(s, m))
  {
    hide Recent, ConsumerJobs, Insert, Reconciled, ReadNoted, Carried, Reflected, Pipeline;
    if m.Deliver? && s.gov.done[0].job.owner == Consumer {
      PipelineAfterResume(s);
      assert s.gov.done[0].job in Pipeline(s);
    }
  }

  lemma {:induction false} RunKeepsTally(t: Tally, s: Bridge, moves: seq<Move>)
    requires Coherent(s) && Tallies(t, s) && Runs(s, moves)
    ensures Coherent(Run(s, moves)) && Tallies(CountedRun(t, s, moves), Run(s, moves))
    decreases |moves|
  {
    hide Next, Enabled, Coherent, Tallies, Counted;
    if moves != [] {
      MoveKeepsTally(t, s, moves[0]);
      MoveKeepsCoherent(s, moves[0]);
      RunKeepsTally(Counted(t, s, moves[0]), Next(s, moves[0]), moves[1..]);
    }
  }

  /** The consumer still has its intent to write, with the overlay as it was. */
  predicate TriesAgain(s: Bridge, s': Bridge)
    requires s.phase.Writing? && s.gov.done != []
  {
    s'.phase.Waiting? && s'.phase.intent == s.phase.intent && s'.store == s.store && s'.gov == Resumed(s.gov)
  }

  /** The intent is over: its overlay bytes are cleared, and the consumer's settings read is on its way. */
  predicate EndsWithReread(s: Bridge, s': Bridge)
    requires s.phase.Writing?
  {
    && s'.phase == Reading(s.phase.intent)
    && s'.store.pending == Spent(s.store.pending, Bytes(s.phase.intent.address, s.phase.intent.data))
    && exists j :: j in s'.gov.queue && j.ticket == s.gov.next && j.owner == Consumer && j.op == ReadOp(0, 115)
  }

  /**
   * In every run from power-on, when a write attempt returns to the consumer: acknowledged, it ends its
   * intent; failed, it is tried again unless it was the third since the intent was taken, and the third
   * ends it; an unexpected error ends it without clearing or reading anything.
   */
  lemma ThreeAttemptsExactly(mem: Memory, moves: seq<Move>, now: real)
    requires Runs(Powered(mem), moves) && Enabled(Run(Powered(mem), moves), Deliver(now))
    requires AttemptReturns(Run(Powered(mem), moves))
    ensures var s := Run(Powered(mem), moves);
      var s' := Next(s, Deliver(now));
      var t := CountedRun(Tally(0, 0), Powered(mem), moves);
      && s.phase.Writing? && s.gov.done[0].job.op == WriteOp(s.phase.intent.address, s.phase.intent.data)
      && t.begun == t.failed + 1 <= 3
      && (match s.gov.done[0].reply
          case LinkDown => if t.begun < 3 then TriesAgain(s, s') else EndsWithReread(s, s')
          case Acked => EndsWithReread(s, s')
          case Crashed => s'.phase == Idle && s'.store == s.store && s'.gov == Resumed(s.gov)
          case Data(_) => false)
  {
    hide Runs, Run, CountedRun, Coherent, Insert, Bytes, Spent;
    PoweredIsCoherent(mem);
    RunKeepsTally(Tally(0, 0), Powered(mem), moves);
    var s := Run(Powered(mem), moves);
    AttemptsReturnToTheirIntent(s);
    InsertMembers(s.gov.queue, Job(PRIORITY_POLL, s.gov.next, READ_SETTINGS, Consumer));
  }

  /** Between attempts the count says how many are left: fewer than three begun, and all of them failed. */
  lemma WaitingMeansFewerThanThree(mem: Memory, moves: seq<Move>)
    requires Runs(Powered(mem), moves) && Run(Powered(mem), moves).phase.Waiting?
    ensures var t := CountedRun(Tally(0, 0), Powered(mem), moves);
      && t.begun == t.failed < 3
      && Enabled(Run(Powered(mem), moves), BeginWrite)
  {
    hide Runs, Run, CountedRun, Coherent;
    PoweredIsCoherent(mem);
    RunKeepsTally(Tally(0, 0), Powered(mem), moves);
  }
}
