/** No orphaned optimism: which intents stand behind the optimistic overlay, and the one way that fails. */
module Overlay {
  import opened Wrappers
  import opened Protocol
  import opened Machine
  import opened Governor
  import opened Store
  import opened Bridge

  // -- what each move does to the overlay and the unfinished intents ------------------

  predicate WriteDelivery(s: Bridge, m: Move) {
    m.Deliver? && Enabled(s, m) && s.gov.done[0].job.owner == Consumer && s.phase.Writing?
  }

  /** The consumer is done with an intent: its overlay bytes are cleared by value. */
  predicate Clears(s: Bridge, m: Move) {
    && WriteDelivery(s, m)
    && !s.gov.done[0].reply.Crashed?
    && (s.gov.done[0].reply.LinkDown? ==> s.phase.attempt >= WRITE_RETRIES)
  }

  /** The last attempt failed too: the intent is absorbed without the machine having confirmed it. */
  predicate GivesUp(s: Bridge, m: Move) {
    Clears(s, m) && s.gov.done[0].reply.LinkDown?
  }

  /** An unexpected error ends the intent before its overlay is cleared. */
  predicate Kills(s: Bridge, m: Move) {
    WriteDelivery(s, m) && s.gov.done[0].reply.Crashed?
  }

  lemma ClearEffect(s: Bridge, m: Move)
    requires Clears(s, m)
    ensures var s' := Next(s, m);
      && Unfinished(s) == [s.phase.intent] + Unfinished(s')
      && s'.store.pending == Spent(s.store.pending, Bytes(s.phase.intent.address, s.phase.intent.data))
      && s'.store.settings == s.store.settings
      && s'.phase == Reading(s.phase.intent) && s'.mem == s.mem
      && s'.gov == Submitted(Resumed(s.gov), PRIORITY_POLL, READ_SETTINGS, Consumer)
  {
    hide Bytes, Spent, Insert;
  }

  lemma KillEffect(s: Bridge, m: Move)
    requires Kills(s, m)
    ensures var s' := Next(s, m);
      && Unfinished(s) == [s.phase.intent] + Unfinished(s')
      && s'.store == s.store && s'.mem == s.mem && s'.gov == Resumed(s.gov) && s'.phase == Idle
  {
  }

  lemma CommandEffect(s: Bridge, address: nat, data: seq<int>)
    ensures var s' := Next(s, Command(address, data));
      && s'.gov == s.gov && s'.mem == s.mem && s'.phase == s.phase
      && (!Admits(s, data) ==> s' == s)
      && (Admits(s, data) ==>
            && Unfinished(s') == Unfinished(s) + [Intent(address, data)]
            && s'.store == Reflected(s.store, address, data))
  {
    hide Reflected;
  }

  lemma OtherEffect(s: Bridge, m: Move)
    requires Enabled(s, m) && !m.Command? && !Clears(s, m) && !Kills(s, m)
    ensures Unfinished(Next(s, m)) == Unfinished(s) && Next(s, m).store.pending == s.store.pending
  {
    hide Insert, Carried, Overlaid;
  }

  // -- the overlay is matched ----------------------------------------------------------

  ghost predicate SomeCarries(intents: seq<Intent>, a: nat, byte: int) {
    exists k :: 0 <= k < |intents| && intents[k].Carries(a, byte)
  }

  /** Every overlay byte belongs to an unfinished intent that carries it at that address. */
  ghost predicate Matched(s: Bridge) {
    forall a :: a in s.store.pending ==> SomeCarries(Unfinished(s), a, s.store.pending[a])
  }

  /** The killed intent still has a byte of its own in the overlay that no queued intent carries. */
  ghost predicate Strands(s: Bridge, m: Move) {
    && Kills(s, m)
    && exists a ::
         && a in s.store.pending && s.phase.intent.Carries(a, s.store.pending[a])
         && !SomeCarries(s.intents, a, s.store.pending[a])
  }

  lemma SomeCarriesJoin(one: seq<Intent>, two: seq<Intent>, a: nat, byte: int)
    ensures SomeCarries(one + two, a, byte) <==> SomeCarries(one, a, byte) || SomeCarries(two, a, byte)
  {
    if SomeCarries(one, a, byte) {
      var k :| 0 <= k < |one| && one[k].Carries(a, byte);
      assert (one + two)[k].Carries(a, byte);
    }
    if SomeCarries(two, a, byte) {
      var k :| 0 <= k < |two| && two[k].Carries(a, byte);
      assert (one + two)[|one| + k].Carries(a, byte);
    }
  }

  lemma SomeCarriesOne(i: Intent, a: nat, byte: int)
    ensures SomeCarries([i], a, byte) <==> i.Carries(a, byte)
  {
    assert [i][0] == i;
  }

  lemma CommandKeepsMatched(s: Bridge, address: nat, data: seq<int>)
    requires Matched(s)
    ensures Matched(Next(s, Command(address, data)))
  {
    hide SomeCarries, Unfinished, Intent.Carries, Overlaid;
    CommandEffect(s, address, data);
    if Admits(s, data) {
      var s' := Next(s, Command(address, data));
      var i := Intent(address, data);
      forall a | a in s'.store.pending ensures SomeCarries(Unfinished(s'), a, s'.store.pending[a]) {
        SomeCarriesJoin(Unfinished(s), [i], a, s'.store.pending[a]);
        SomeCarriesOne(i, a, s'.store.pending[a]);
        if Reflectable(s.store, address, data) && a in Bytes(address, data) {
          OwnBytesAreCarried(i, a);
        }
      }
    }
  }

  lemma OwnBytesAreCarried(i: Intent, a: nat)
    ensures a in Bytes(i.address, i.data) <==> i.Covers(a)
    ensures i.Covers(a) ==> i.Carries(a, Bytes(i.address, i.data)[a])
  {
  }

  lemma ClearKeepsMatched(s: Bridge, m: Move)
    requires Matched(s) && Clears(s, m)
    ensures Matched(Next(s, m))
  {
    hide SomeCarries, Unfinished, Next, Intent.Carries;
    ClearEffect(s, m);
    var s' := Next(s, m);
    var i := s.phase.intent;
    forall a | a in s'.store.pending ensures SomeCarries(Unfinished(s'), a, s'.store.pending[a]) {
      SomeCarriesJoin([i], Unfinished(s'), a, s.store.pending[a]);
      SomeCarriesOne(i, a, s.store.pending[a]);
      OwnBytesAreCarried(i, a);
      ClearedBytesAreNotCarried(i, a, s.store.pending);
    }
  }

  lemma ClearedBytesAreNotCarried(i: Intent, a: nat, pending: map<nat, int>)
    ensures a in Spent(pending, Bytes(i.address, i.data)) <==> a in pending && !i.Carries(a, pending[a])
  {
    OwnBytesAreCarried(i, a);
  }

  /**
   * One move at a time: a matched overlay stays matched, except exactly when an unexpected error kills
   * an intent that has a byte of its own in the overlay which no queued intent carries.
   */
  lemma OrphansExactly(s: Bridge, m: Move)
    requires Matched(s) && Enabled(s, m)
    ensures Matched(Next(s, m)) <==> !Strands(s, m)
  {
    hide SomeCarries, Unfinished, Next, Intent.Carries;
    if m.Command? {
      CommandKeepsMatched(s, m.address, m.data);
    } else if Clears(s, m) {
      ClearKeepsMatched(s, m);
    } else if Kills(s, m) {
      KillEffect(s, m);
      KilledLeavesQueue(s, m);
      forall a | a in s.store.pending
        ensures SomeCarries(s.intents, a, s.store.pending[a]) || s.phase.intent.Carries(a, s.store.pending[a])
      {
        SomeCarriesJoin([s.phase.intent], s.intents, a, s.store.pending[a]);
        SomeCarriesOne(s.phase.intent, a, s.store.pending[a]);
      }
    } else {
      OtherEffect(s, m);
    }
  }

  lemma KilledLeavesQueue(s: Bridge, m: Move)
    requires Kills(s, m)
    ensures Unfinished(Next(s, m)) == s.intents
  {
  }

  ghost predicate NoneStrands(s: Bridge, moves: seq<Move>)
    requires Runs(s, moves)
    decreases |moves|
  {
    moves != [] ==> !Strands(s, moves[0]) && NoneStrands(Next(s, moves[0]), moves[1..])
  }

  /** Every intent of the run is acknowledged in the end: none is given up, none is killed. */
  predicate AllSucceed(s: Bridge, moves: seq<Move>)
    requires Runs(s, moves)
    decreases |moves|
  {
    moves != [] ==>
      !GivesUp(s, moves[0]) && !Kills(s, moves[0]) && AllSucceed(Next(s, moves[0]), moves[1..])
  }

  predicate Drained(s: Bridge) {
    s.intents == [] && s.phase.Idle?
  }

  /** In every run in which no error strands a byte the overlay stays matched, so a drained bridge has none. */
  lemma {:induction false} NoOrphanedOptimism(s: Bridge, moves: seq<Move>)
    requires Matched(s) && Runs(s, moves) && NoneStrands(s, moves)
    ensures Matched(Run(s, moves))
    ensures Drained(Run(s, moves)) ==> Run(s, moves).store.pending == map[]
    decreases |moves|
  {
    hide Next, Strands;
    if moves != [] {
      OrphansExactly(s, moves[0]);
      NoOrphanedOptimism(Next(s, moves[0]), moves[1..]);
    } else if Drained(s) {
      assert forall a :: a !in s.store.pending;
    }
  }

  // -- admission over runs ----------------------------------------------------------------

  /** Which commands the queue has to take: whole bytes, at least one of them, and room for it. */
  predicate MustTake(s: Bridge, data: seq<int>) {
    data != [] && (forall i :: 0 <= i < |data| ==> 0 <= data[i] <= 255) && |s.intents| < 32
  }

  /** Every command, exactly: queued last and as it came, or without any effect. */
  lemma AdmissionExactly(s: Bridge, address: nat, data: seq<int>)
    ensures var s' := Next(s, Command(address, data));
      if MustTake(s, data) then
        && s'.intents == s.intents + [Intent(address, data)]
        && s'.gov == s.gov && s'.mem == s.mem && s'.phase == s.phase
      else s' == s
  {
    CommandEffect(s, address, data);
  }

  function Admission(s: Bridge, m: Move): seq<Intent> {
    if m.Command? && MustTake(s, m.data) then [Intent(m.address, m.data)] else []
  }

  function Taking(s: Bridge, m: Move): seq<Intent>
    requires Enabled(s, m)
  {
    if m.TakeIntent? then [s.intents[0]] else []
  }

  /** The commands of a run that were admitted, in order. */
  function Admissions(s: Bridge, moves: seq<Move>): seq<Intent>
    requires Runs(s, moves)
    decreases |moves|
  {
    if moves == [] then [] else Admission(s, moves[0]) + Admissions(Next(s, moves[0]), moves[1..])
  }

  /** The intents the consumer took, in order. */
  function Takings(s: Bridge, moves: seq<Move>): seq<Intent>
    requires Runs(s, moves)
    decreases |moves|
  {
    if moves == [] then [] else Taking(s, moves[0]) + Takings(Next(s, moves[0]), moves[1..])
  }

  lemma MoveOnQueue(s: Bridge, m: Move)
    requires Enabled(s, m) && |s.intents| <= INTENT_QUEUE_MAX
    ensures |Next(s, m).intents| <= INTENT_QUEUE_MAX
    ensures s.intents + Admission(s, m) == Taking(s, m) + Next(s, m).intents
  {
    hide Insert, Reflected, Carried, Reconciled, ReadNoted;
  }

  lemma {:induction false} IntentsInOrder(s: Bridge, moves: seq<Move>)
    requires Runs(s, moves) && |s.intents| <= INTENT_QUEUE_MAX
    ensures s.intents + Admissions(s, moves) == Takings(s, moves) + Run(s, moves).intents
    ensures |Run(s, moves).intents| <= INTENT_QUEUE_MAX
    decreases |moves|
  {
    hide Next, Enabled, Admission, Taking;
    if moves != [] {
      var s1 := Next(s, moves[0]);
      MoveOnQueue(s, moves[0]);
      IntentsInOrder(s1, moves[1..]);
      Regrouped(s.intents, Admission(s, moves[0]), Taking(s, moves[0]), s1.intents, Admissions(s1, moves[1..]));
    }
  }

  lemma Regrouped(queued: seq<Intent>, come: seq<Intent>, gone: seq<Intent>, left: seq<Intent>, later: seq<Intent>)
    requires queued + come == gone + left
    ensures queued + (come + later) == gone + (left + later)
  {
    assert queued + (come + later) == (queued + come) + later;
  }

  /**
   * At every point of every run at most 32 intents are queued, and those taken so far followed by those
   * queued are exactly the admitted commands in order of acceptance: none is lost, repeated or overtaken.
   */
  lemma AdmittedAreTakenInOrder(mem: Memory, moves: seq<Move>)
    requires Runs(Powered(mem), moves)
    ensures Admissions(Powered(mem), moves) == Takings(Powered(mem), moves) + Run(Powered(mem), moves).intents
    ensures |Run(Powered(mem), moves).intents| <= 32
  {
    hide Runs, Run, Admissions, Takings;
    IntentsInOrder(Powered(mem), moves);
    assert [] + Admissions(Powered(mem), moves) == Admissions(Powered(mem), moves);
  }

  /** The run with its refused commands, malformed or beyond the bound, left out. */
  function WithoutRefused(s: Bridge, moves: seq<Move>): seq<Move>
    requires Runs(s, moves)
    decreases |moves|
  {
    if moves == [] then []
    else
      var m := moves[0];
      (if m.Command? && !MustTake(s, m.data) then [] else [m])
      + WithoutRefused(Next(s, m), moves[1..])
  }

  /** Refused commands leave no trace: the bridge ends up as if they had never arrived. */
  lemma {:induction false} RefusedLeaveNoTrace(s: Bridge, moves: seq<Move>)
    requires Runs(s, moves)
    ensures Runs(s, WithoutRefused(s, moves)) && Run(s, WithoutRefused(s, moves)) == Run(s, moves)
    decreases |moves|
  {
    hide Next, Enabled, MustTake;
    if moves != [] {
      var m := moves[0];
      var rest := WithoutRefused(Next(s, m), moves[1..]);
      RefusedLeaveNoTrace(Next(s, m), moves[1..]);
      if m.Command? && !MustTake(s, m.data) {
        AdmissionExactly(s, m.address, m.data);
        assert [] + rest == rest;
      } else {
        RunOne(s, m, rest);
      }
    }
  }

  lemma RunOne(s: Bridge, m: Move, rest: seq<Move>)
    requires Enabled(s, m) && Runs(Next(s, m), rest)
    ensures Runs(s, [m] + rest) && Run(s, [m] + rest) == Run(Next(s, m), rest)
  {
    hide Next, Enabled;
    assert ([m] + rest)[1..] == rest;
  }

  lemma {:induction false} RunsJoin(s: Bridge, one: seq<Move>, two: seq<Move>)
    requires Runs(s, one) && Runs(Run(s, one), two)
    ensures Runs(s, one + two) && Run(s, one + two) == Run(Run(s, one), two)
    decreases |one|
  {
    hide Next, Enabled;
    if one == [] {
      assert one + two == two;
    } else {
      assert (one + two)[1..] == one[1..] + two;
      RunsJoin(Next(s, one[0]), one[1..], two);
    }
  }

  // -- the failing case, concretely -----------------------------------------------------

  /** The worker carries out the only job there is, and its caller resumes. */
  function OneJob(outcome: Outcome, now: real): seq<Move> {
    [Dispatch, Complete(outcome), Deliver(now)]
  }

  lemma OneJobRuns(s: Bridge, job: Job, outcome: Outcome, now: real)
    requires s.gov == Gov([job], s.gov.next, None, []) && Possible(job.op, outcome) && job.owner != Mqtt
    ensures var (reply, mem) := Carried(s.mem, job.op, outcome);
      && Runs(s, OneJob(outcome, now))
      && Run(s, OneJob(outcome, now))
         == Delivered(s.(mem := mem, gov := Gov([], s.gov.next, None, [Done(job, reply)])), now)
  {
    hide Carried, Delivered;
    var (reply, mem) := Carried(s.mem, job.op, outcome);
    var s1 := Next(s, Dispatch);
    assert s1.gov == Gov([], s.gov.next, Some(job), []);
    var s2 := Next(s1, Complete(outcome));
    assert s2.gov == Gov([], s.gov.next, None, [Done(job, reply)]);
    RunOne(s2, Deliver(now), []);
    RunOne(s1, Complete(outcome), [Deliver(now)]);
    RunOne(s, Dispatch, [Complete(outcome), Deliver(now)]);
  }

  function FirstPoll(): seq<Move> {
    [Foreign(Poller, READ_SETTINGS)] + OneJob(Success, 0.0)
  }

  /** A bridge that has done nothing but read the settings of a machine with memory `mem`. */
  function Polled(mem: Memory): Bridge {
    Bridge(mem, Gov([], 1, None, []), [], Idle, Fresh().(settings := mem[..SETTINGS_LEN], haveData := true))
  }

  lemma FirstPollReads(mem: Memory)
    ensures Runs(Powered(mem), FirstPoll()) && Run(Powered(mem), FirstPoll()) == Polled(mem)
  {
    var job := Job(PRIORITY_POLL, 0, READ_SETTINGS, Poller);
    var s := Next(Powered(mem), Foreign(Poller, READ_SETTINGS));
    assert s.gov.queue == [job];
    OneJobRuns(s, job, Success, 0.0);
    var bytes := ReadMemory(mem, SETTINGS_BASE, SETTINGS_LEN);
    assert bytes == mem[..SETTINGS_LEN];
    assert Overlaid(bytes, map[]) == bytes;
    RunOne(Powered(mem), Foreign(Poller, READ_SETTINGS), OneJob(Success, 0.0));
  }

  /** A command of one byte whose write is killed by an unexpected error. */
  function KilledCommand(now: real): seq<Move> {
    [Command(2, [110])] + ([TakeIntent] + ([BeginWrite] + OneJob(Failure(false, true), now)))
  }

  function AfterKill(mem: Memory): Bridge {
    Polled(mem).(gov := Gov([], 2, None, []), store := Reflected(Polled(mem).store, 2, [110]))
  }

  lemma KilledAfterPoll(mem: Memory, now: real)
    ensures Runs(Polled(mem), KilledCommand(now)) && Run(Polled(mem), KilledCommand(now)) == AfterKill(mem)
  {
    hide Reflected, Runs, Run;
    var i := Intent(2, [110]);
    var s := Polled(mem);
    var s1 := Next(s, Command(2, [110]));
    assert s1.intents == [i] && s1.phase == Idle && s1.gov == s.gov;
    var s2 := Next(s1, TakeIntent);
    assert s2.intents == [] && s2.phase == Waiting(i, 0);
    var s3 := Next(s2, BeginWrite);
    var job := Job(PRIORITY_COMMAND, 1, i.WriteOp(), Consumer);
    assert s3.gov.queue == [job];
    var dies := Failure(false, true);
    OneJobRuns(s3, job, dies, now);
    RunOne(s2, BeginWrite, OneJob(dies, now));
    RunOne(s1, TakeIntent, [BeginWrite] + OneJob(dies, now));
    RunOne(s, Command(2, [110]), [TakeIntent] + ([BeginWrite] + OneJob(dies, now)));
  }

  /**
   * From power-on: one poll, then one command whose write dies of an unexpected error. Nothing is left to
   * do, the machine never saw the byte, and the house goes on being shown it.
   */
  lemma KilledIntentStrandsItsByte(mem: Memory, now: real)
    ensures var moves := FirstPoll() + KilledCommand(now);
      && Runs(Powered(mem), moves) && Run(Powered(mem), moves) == AfterKill(mem)
      && var s := AfterKill(mem);
      && Drained(s) && s.gov.queue == [] && s.gov.current.None? && s.gov.done == []
      && s.mem == mem && s.store.pending == map[2 := 110]
      && |s.store.settings| == SETTINGS_LEN && s.store.settings[2] == 110
  {
    hide Next, Enabled, Runs, Run;
    FirstPollReads(mem);
    KilledAfterPoll(mem, now);
    RunsJoin(Powered(mem), FirstPoll(), KilledCommand(now));
    assert Bytes(2, [110]) == map[2 := 110];
  }
}
