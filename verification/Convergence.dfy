/**
 * Convergence: a bridge with nothing left to write shows the machine's memory after one more settings read,
 * its own reconcile read or another's, and without other writers that memory is the initial one with the
 * intents that took effect applied in acceptance order.
 */
module Convergence {
  import opened Protocol
  import opened Machine
  import opened Governor
  import opened Store
  import opened Bridge
  import opened Coherence
  import opened Overlay

  function SettingsOf(mem: Memory): seq<int> {
    mem[..SETTINGS_LEN]
  }

  // -- a later read lands ----------------------------------------------------------------

  /** Nothing is left to write; what is still in the overlay was stranded there. */
  ghost predicate Calm(s: Bridge) {
    && Unfinished(s) == []
    && forall j :: j in Pipeline(s) ==> j.op.ReadOp?
  }

  predicate CalmMove(s: Bridge, m: Move) {
    && (m.Command? ==> !Admits(s, m.data))
    && (m.Foreign? ==> m.op.ReadOp?)
  }

  predicate CalmRun(s: Bridge, moves: seq<Move>)
    decreases |moves|
  {
    moves != [] ==> Enabled(s, moves[0]) && CalmMove(s, moves[0]) && CalmRun(Next(s, moves[0]), moves[1..])
  }

  /** A resolved settings read on its way to the store. */
  predicate Feeds(d: Done) {
    d.job.op == READ_SETTINGS && d.reply.Data? && d.job.owner != LanClient
  }

  predicate ShowsMemory(d: Done, mem: Memory) {
    Feeds(d) ==> d.reply.bytes == SettingsOf(mem)
  }

  /** From position `k` on, every read on its way shows present memory. */
  ghost predicate FreshFrom(s: Bridge, k: nat) {
    forall m :: k <= m < |s.gov.done| ==> ShowsMemory(s.gov.done[m], s.mem)
  }

  /** Present memory as the house is shown it, under the overlay. */
  function MemoryShown(s: Bridge): seq<int> {
    Overlaid(SettingsOf(s.mem), s.store.pending)
  }

  /**
   * A fresh read will have landed after `wait` more deliveries: it is at that place among the resolved
   * jobs, or it has landed already; and only fresh reads follow it.
   */
  ghost predicate Landing(s: Bridge, wait: nat) {
    if wait == 0 then s.store.settings == MemoryShown(s) && FreshFrom(s, 0)
    else wait <= |s.gov.done| && Feeds(s.gov.done[wait - 1]) && FreshFrom(s, wait - 1)
  }

  function Deliveries(moves: seq<Move>): nat {
    if moves == [] then 0 else (if moves[0].Deliver? then 1 else 0) + Deliveries(moves[1..])
  }

  function Less(n: nat, k: nat): nat {
    if n < k then 0 else n - k
  }

  lemma CalmMoveKeepsCalm(s: Bridge, m: Move)
    requires Coherent(s) && Calm(s) && Enabled(s, m) && CalmMove(s, m)
    ensures Calm(Next(s, m)) && Next(s, m).mem == s.mem && Next(s, m).store.pending == s.store.pending
  {
    hide Pipeline, Insert, Carried, Overlaid, Recent, ConsumerJobs, Reconciled;
    var s' := Next(s, m);
    NothingUnfinished(s);
    match m
    case Command(_, _) =>
    case TakeIntent =>
    case BeginWrite =>
    case Foreign(owner, op) => PipelineAfterSubmit(s, PriorityOf(op), op, owner);
    case Dispatch => PipelineAfterDispatch(s);
    case Complete(outcome) =>
      PipelineAfterComplete(s, outcome);
      assert Current(s)[0] == s.gov.current.value && s.gov.current.value in Current(s);
      CurrentIsInPipeline(s);
      ReadLeavesMemory(s.mem, s.gov.current.value.op, outcome);
    case Deliver(now) =>
      PipelineAfterResume(s);
      assert s.gov.done[0].job in Pipeline(s);
      SamePipeline(s.(gov := Resumed(s.gov)), s');
    case Judge(_) => SamePipeline(s, s');
  }

  lemma NothingUnfinished(s: Bridge)
    requires Unfinished(s) == []
    ensures s.intents == [] && !s.phase.Waiting? && !s.phase.Writing?
  {
  }

  lemma CurrentIsInPipeline(s: Bridge)
    requires s.gov.current.Some?
    ensures s.gov.current.value in Pipeline(s)
  {
    assert s.gov.current.value in Current(s);
  }

  lemma ReadLeavesMemory(mem: Memory, op: Op, outcome: Outcome)
    requires op.ReadOp?
    ensures Carried(mem, op, outcome).1 == mem
    ensures op == READ_SETTINGS && Carried(mem, op, outcome).0.Data? ==>
      Carried(mem, op, outcome).0.bytes == SettingsOf(mem)
  {
  }

  lemma DeliveryOfCalm(s: Bridge, now: real)
    requires Coherent(s) && Calm(s) && Enabled(s, Deliver(now))
    ensures var s' := Next(s, Deliver(now));
      && s'.gov.done == s.gov.done[1..]
      && s'.store.settings == if Feeds(s.gov.done[0]) then Overlaid(s.gov.done[0].reply.bytes, s.store.pending)
                              else s.store.settings
  {
    hide Insert, Recent, ConsumerJobs, Pipeline;
    PipelineAfterResume(s);
    assert s.gov.done[0].job in Pipeline(s);
    NothingUnfinished(s);
  }

  lemma CalmMoveKeepsLanding(s: Bridge, m: Move, wait: nat)
    requires Coherent(s) && Calm(s) && Enabled(s, m) && CalmMove(s, m) && Landing(s, wait)
    ensures Landing(Next(s, m), Less(wait, if m.Deliver? then 1 else 0))
  {
    hide Calm, Coherent, Pipeline, Insert, Carried, ShowsMemory;
    CalmMoveKeepsCalm(s, m);
    var s' := Next(s, m);
    if m.Deliver? {
      DeliveryOfCalm(s, m.now);
      LandingAfterDelivery(s, s', wait);
    } else if m.Complete? {
      CompleteOfCalm(s, m.outcome);
      LandingAfterComplete(s, s', wait);
    } else {
      assert s'.gov.done == s.gov.done && s'.store.settings == s.store.settings by {
        StillSettings(s, m);
      }
    }
  }

  lemma StillSettings(s: Bridge, m: Move)
    requires Enabled(s, m) && CalmMove(s, m) && !m.Deliver? && !m.Complete?
    ensures Next(s, m).gov.done == s.gov.done && Next(s, m).store.settings == s.store.settings
  {
    hide Insert;
  }

  lemma CompleteOfCalm(s: Bridge, outcome: Outcome)
    requires Calm(s) && Enabled(s, Complete(outcome))
    ensures var s' := Next(s, Complete(outcome));
      && |s'.gov.done| == |s.gov.done| + 1 && s'.gov.done[..|s.gov.done|] == s.gov.done
      && s'.store == s.store && ShowsMemory(s'.gov.done[|s.gov.done|], s.mem)
  {
    hide Pipeline, Carried;
    CurrentIsInPipeline(s);
    ReadLeavesMemory(s.mem, s.gov.current.value.op, outcome);
  }

  lemma LandingAfterDelivery(s: Bridge, s': Bridge, wait: nat)
    requires Landing(s, wait) && s.gov.done != [] && s'.gov.done == s.gov.done[1..] && s'.mem == s.mem
    requires s'.store.pending == s.store.pending
    requires s'.store.settings == if Feeds(s.gov.done[0]) then Overlaid(s.gov.done[0].reply.bytes, s.store.pending)
                                  else s.store.settings
    ensures Landing(s', Less(wait, 1))
  {
    assert wait <= 1 ==> ShowsMemory(s.gov.done[0], s.mem);
    assert forall m :: 1 <= m < |s.gov.done| ==> s'.gov.done[m - 1] == s.gov.done[m];
  }

  lemma LandingAfterComplete(s: Bridge, s': Bridge, wait: nat)
    requires Landing(s, wait) && s'.mem == s.mem && s'.store == s.store
    requires |s'.gov.done| == |s.gov.done| + 1 && s'.gov.done[..|s.gov.done|] == s.gov.done
    requires ShowsMemory(s'.gov.done[|s.gov.done|], s.mem)
    ensures Landing(s', wait)
  {
    hide ShowsMemory;
    assert forall m :: 0 <= m < |s.gov.done| ==> s'.gov.done[m] == s.gov.done[m];
  }

  lemma {:induction false} CalmRunKeepsLanding(s: Bridge, moves: seq<Move>, wait: nat)
    requires Coherent(s) && Calm(s) && Landing(s, wait) && CalmRun(s, moves)
    ensures Runs(s, moves) && Run(s, moves).mem == s.mem && Run(s, moves).store.pending == s.store.pending
    ensures Calm(Run(s, moves)) && Landing(Run(s, moves), Less(wait, Deliveries(moves)))
    decreases |moves|
  {
    hide Next, Enabled, CalmMove, Coherent, Calm, Landing;
    if moves != [] {
      var wait' := Less(wait, if moves[0].Deliver? then 1 else 0);
      CalmMoveKeepsCalm(s, moves[0]);
      CalmMoveKeepsLanding(s, moves[0], wait);
      MoveKeepsCoherent(s, moves[0]);
      CalmRunKeepsLanding(Next(s, moves[0]), moves[1..], wait');
    }
  }

  /** The worker is about to resolve a settings read that some caller will feed to the store. */
  predicate AboutToRead(s: Bridge) {
    s.gov.current.Some? && s.gov.current.value.op == READ_SETTINGS && s.gov.current.value.owner != LanClient
  }

  /** A read that completes now has been delivered by the end of the run. */
  predicate ReadArrives(s: Bridge, moves: seq<Move>)
    requires Enabled(s, Complete(Success)) && Runs(Next(s, Complete(Success)), moves)
  {
    Deliveries(moves) > |s.gov.done| || Run(Next(s, Complete(Success)), moves).gov.done == []
  }

  /**
   * Whatever failed before, once nothing is left to write and one settings read has succeeded, the
   * snapshot is the machine's memory under the overlay from the delivery of that read on.
   */
  lemma SnapshotConverges(s: Bridge, moves: seq<Move>)
    requires Coherent(s) && Calm(s) && AboutToRead(s)
    requires CalmRun(Next(s, Complete(Success)), moves)
    ensures var s1 := Next(s, Complete(Success));
      && Runs(s1, moves)
      && Run(s1, moves).mem == s.mem && Run(s1, moves).store.pending == s.store.pending
      && (ReadArrives(s, moves) ==> Run(s1, moves).store.settings == MemoryShown(s))
  {
    hide Coherent, Pipeline, CalmRun;
    var m := Complete(Success);
    var s1 := Next(s, m);
    CalmMoveKeepsCalm(s, m);
    MoveKeepsCoherent(s, m);
    CompleteOfCalm(s, Success);
    assert Feeds(s1.gov.done[|s.gov.done|]) && FreshFrom(s1, |s.gov.done|);
    CalmRunKeepsLanding(s1, moves, |s1.gov.done|);
  }

  /** No overlay byte inside the block differs from the machine's. */
  ghost predicate OverlayAgrees(s: Bridge) {
    forall a :: a in s.store.pending && a < SETTINGS_LEN ==> s.store.pending[a] == s.mem[a]
  }

  lemma ShownExactly(s: Bridge)
    ensures MemoryShown(s) == SettingsOf(s.mem) <==> OverlayAgrees(s)
  {
    if MemoryShown(s) == SettingsOf(s.mem) {
      forall a | a in s.store.pending && a < SETTINGS_LEN ensures s.store.pending[a] == s.mem[a] {
        assert MemoryShown(s)[a] == SettingsOf(s.mem)[a];
      }
    }
  }

  /**
   * From power-on, after every mix of successes, failures, killed intents, stranded bytes and other writers:
   * with nothing left to write, from the delivery of one more settings read on, every byte on show is the
   * machine's or a stranded one, and the snapshot is the machine's memory if and only if no stranded byte
   * differs from it.
   */
  lemma SnapshotIsMemoryExactly(mem: Memory, moves: seq<Move>, later: seq<Move>)
    requires Runs(Powered(mem), moves)
    requires Unfinished(Run(Powered(mem), moves)) == [] && AboutToRead(Run(Powered(mem), moves))
    requires forall j :: j in Pipeline(Run(Powered(mem), moves)) ==> j.op.ReadOp?
    requires CalmRun(Next(Run(Powered(mem), moves), Complete(Success)), later)
    ensures var s := Run(Powered(mem), moves);
      var s1 := Next(s, Complete(Success));
      && Runs(s1, later) && Run(s1, later).mem == s.mem
      && (ReadArrives(s, later) ==>
            && Run(s1, later).store.settings == MemoryShown(s)
            && (Run(s1, later).store.settings == SettingsOf(s.mem) <==> OverlayAgrees(s)))
  {
    hide Runs, Run, Pipeline, Recent, CalmRun, Next, OneConsumerJob, KnownReads, MemoryShown;
    PoweredIsCoherent(mem);
    RunsStayCoherent(Powered(mem), moves);
    SnapshotConverges(Run(Powered(mem), moves), later);
    ShownExactly(Run(Powered(mem), moves));
  }

  /** So a run that strands no byte always converges. */
  lemma FailuresStillConverge(mem: Memory, moves: seq<Move>, later: seq<Move>)
    requires Runs(Powered(mem), moves) && NoneStrands(Powered(mem), moves)
    requires Unfinished(Run(Powered(mem), moves)) == [] && AboutToRead(Run(Powered(mem), moves))
    requires forall j :: j in Pipeline(Run(Powered(mem), moves)) ==> j.op.ReadOp?
    requires CalmRun(Next(Run(Powered(mem), moves), Complete(Success)), later)
    ensures var s := Run(Powered(mem), moves);
      var s1 := Next(s, Complete(Success));
      && Runs(s1, later) && Run(s1, later).mem == s.mem
      && (ReadArrives(s, later) ==> Run(s1, later).store.settings == SettingsOf(s.mem))
  {
    hide Runs, Run, NoneStrands, Pipeline, Recent, CalmRun, Next, ReadArrives, Unfinished;
    NoOrphanedOptimism(Powered(mem), moves);
    MatchedAgrees(Run(Powered(mem), moves));
    SnapshotIsMemoryExactly(mem, moves, later);
  }

  lemma MatchedAgrees(s: Bridge)
    requires Matched(s) && Unfinished(s) == []
    ensures OverlayAgrees(s)
  {
  }

  // -- memory is the intents in acceptance order --------------------------------------------

  /** How the bridge ended one intent: did any of its attempts reach the machine's memory? */
  datatype Settled = Settled(intent: Intent, took: bool)

  /** A history of the intents: accepted ones, ended ones, and whether the one in hand took effect yet. */
  datatype Ledger = Ledger(initial: Memory, accepted: seq<Intent>, settled: seq<Settled>, took: bool)

  predicate TakesEffect(s: Bridge, m: Move) {
    && m.Complete? && s.gov.current.Some? && s.gov.current.value.owner == Consumer
    && s.gov.current.value.op.WriteOp? && (m.outcome.Success? || m.outcome.reached)
  }

  function Recorded(l: Ledger, s: Bridge, m: Move): Ledger
    requires Enabled(s, m)
  {
    if m.Command? && Admits(s, m.data) then l.(accepted := l.accepted + [Intent(m.address, m.data)])
    else if Clears(s, m) || Kills(s, m) then
      l.(settled := l.settled + [Settled(s.phase.intent, l.took)], took := false)
    else if TakesEffect(s, m) then l.(took := true)
    else l
  }

  function RecordedRun(l: Ledger, s: Bridge, moves: seq<Move>): Ledger
    requires Runs(s, moves)
    decreases |moves|
  {
    if moves == [] then l else RecordedRun(Recorded(l, s, moves[0]), Next(s, moves[0]), moves[1..])
  }

  function Applied(mem: Memory, intents: seq<Intent>): Memory {
    if intents == [] then mem
    else
      var last := intents[|intents| - 1];
      WriteMemory(Applied(mem, intents[..|intents| - 1]), last.address, last.data)
  }

  function IntentsOf(settled: seq<Settled>): seq<Intent> {
    seq(|settled|, i requires 0 <= i < |settled| => settled[i].intent)
  }

  /** The ended intents that reached the machine, still in acceptance order. */
  function Effective(settled: seq<Settled>): seq<Intent> {
    if settled == [] then []
    else
      var n := |settled| - 1;
      Effective(settled[..n]) + if settled[n].took then [settled[n].intent] else []
  }

  function InHand(s: Bridge, l: Ledger): seq<Intent> {
    if l.took && (s.phase.Waiting? || s.phase.Writing?) then [s.phase.intent] else []
  }

  ghost predicate OnlyIntentsWrite(s: Bridge) {
    forall j :: j in Pipeline(s) && j.op.WriteOp? ==> j.owner == Consumer
  }

  ghost predicate Explains(l: Ledger, s: Bridge) {
    && OnlyIntentsWrite(s)
    && l.accepted == IntentsOf(l.settled) + Unfinished(s)
    && (l.took ==> s.phase.Waiting? || s.phase.Writing?)
    && (forall d :: d in s.gov.done && d.job.owner == Consumer && d.reply.Acked? ==> l.took)
    && s.mem == Applied(l.initial, Effective(l.settled) + InHand(s, l))
  }

  lemma PoweredIsExplained(mem: Memory)
    ensures Explains(Ledger(mem, [], [], false), Powered(mem))
  {
  }

  lemma ApplyingOneMore(mem: Memory, intents: seq<Intent>, i: Intent)
    ensures Applied(mem, intents + [i]) == WriteMemory(Applied(mem, intents), i.address, i.data)
    ensures WriteMemory(Applied(mem, intents + [i]), i.address, i.data) == Applied(mem, intents + [i])
  {
    assert (intents + [i])[..|intents|] == intents;
  }

  lemma EndingOne(settled: seq<Settled>, i: Intent, took: bool)
    ensures Effective(settled + [Settled(i, took)]) == Effective(settled) + if took then [i] else []
    ensures IntentsOf(settled + [Settled(i, took)]) == IntentsOf(settled) + [i]
  {
    assert (settled + [Settled(i, took)])[..|settled|] == settled;
  }

  lemma MoveKeepsSoleWriter(s: Bridge, m: Move)
    requires OnlyIntentsWrite(s) && Enabled(s, m) && (m.Foreign? ==> m.op.ReadOp?)
    ensures OnlyIntentsWrite(Next(s, m))
  {
    hide Pipeline, Insert, Carried, Commanded, Reconciled, ReadNoted, ConsumerJobs;
    var s' := Next(s, m);
    match m
    case Command(address, data) =>
      CommandLeavesLink(s, address, data);
      SamePipeline(s, s');
    case TakeIntent => SamePipeline(s, s');
    case BeginWrite =>
      PipelineAfterSubmit(s, PRIORITY_COMMAND, s.phase.intent.WriteOp(), Consumer);
      SamePipeline(s.(gov := s'.gov), s');
    case Foreign(owner, op) => PipelineAfterSubmit(s, PriorityOf(op), op, owner);
    case Dispatch => PipelineAfterDispatch(s);
    case Complete(outcome) => PipelineAfterComplete(s, outcome);
    case Deliver(now) =>
      PipelineAfterResume(s);
      var s1 := s.(gov := Resumed(s.gov));
      PipelineAfterSubmit(s1, PRIORITY_POLL, READ_SETTINGS, Consumer);
      PipelineAfterSubmit(s1, PRIORITY_POLL, READ_SETTINGS, Mqtt);
      SamePipeline(s1.(gov := s'.gov), s');
    case Judge(_) => SamePipeline(s, s');
  }

  lemma EndingKeepsExplained(l: Ledger, s: Bridge, m: Move)
    requires Coherent(s) && Explains(l, s) && Enabled(s, m) && (Clears(s, m) || Kills(s, m))
    ensures Explains(Recorded(l, s, m), Next(s, m))
    ensures Clears(s, m) && !GivesUp(s, m) ==> l.took
  {
    hide Pipeline, Insert, ConsumerJobs, Recent, Applied, Effective, IntentsOf, Next, Unfinished;
    var s' := Next(s, m);
    var i := s.phase.intent;
    MoveKeepsSoleWriter(s, m);
    if Clears(s, m) { ClearEffect(s, m); } else { KillEffect(s, m); }
    EndingOne(l.settled, i, l.took);
    assert IntentsOf(l.settled) + ([i] + Unfinished(s')) == (IntentsOf(l.settled) + [i]) + Unfinished(s');
    assert s.gov.done[0] in s.gov.done;
    NothingOfTheConsumersWaits(s, m);
    ConsumerReplyIsWrite(s);
    assert Effective(l.settled) + [] == Effective(l.settled);
    assert Effective(l.settled) + [i] + [] == Effective(l.settled) + [i];
  }

  lemma ConsumerReplyIsWrite(s: Bridge)
    requires Coherent(s) && s.phase.Writing? && s.gov.done != [] && s.gov.done[0].job.owner == Consumer
    ensures !s.gov.done[0].reply.Data?
  {
    hide Recent, ConsumerJobs;
    PipelineAfterResume(s);
    assert s.gov.done[0].job in Pipeline(s);
    assert s.gov.done[0] in s.gov.done;
  }

  lemma NothingOfTheConsumersWaits(s: Bridge, m: Move)
    requires Coherent(s) && WriteDelivery(s, m)
    ensures Next(s, m).gov.done == s.gov.done[1..]
    ensures forall d :: d in s.gov.done[1..] ==> d.job.owner != Consumer
  {
    hide Recent, ConsumerJobs, Insert, Reconciled;
    ResumeKeepsOneJob(s);
    forall d | d in s.gov.done[1..] ensures d.job.owner != Consumer {
      var k :| 0 <= k < |s.gov.done[1..]| && s.gov.done[1..][k] == d;
      assert Jobs(s.gov.done[1..])[k] == d.job;
      assert d.job in Jobs(s.gov.done[1..]);
      assert d.job in Pipeline(s.(gov := Resumed(s.gov)));
    }
  }

  lemma CompleteKeepsExplained(l: Ledger, s: Bridge, outcome: Outcome)
    requires Coherent(s) && Explains(l, s) && Enabled(s, Complete(outcome))
    ensures Explains(Recorded(l, s, Complete(outcome)), Next(s, Complete(outcome)))
  {
    hide Pipeline, ConsumerJobs, Recent, Applied, Effective, IntentsOf, WriteMemory;
    var m := Complete(outcome);
    var s' := Next(s, m);
    var job := s.gov.current.value;
    MoveKeepsSoleWriter(s, m);
    CurrentIsInPipeline(s);
    assert Unfinished(s') == Unfinished(s);
    if job.op.WriteOp? {
      assert s.phase.Writing? && job.op == s.phase.intent.WriteOp();
      ApplyingOneMore(l.initial, Effective(l.settled), s.phase.intent);
      assert Effective(l.settled) + [] == Effective(l.settled);
    }
  }

  lemma MoveKeepsExplained(l: Ledger, s: Bridge, m: Move)
    requires Coherent(s) && Explains(l, s) && Enabled(s, m) && (m.Foreign? ==> m.op.ReadOp?)
    ensures Explains(Recorded(l, s, m), Next(s, m))
  {
    if Clears(s, m) || Kills(s, m) {
      hide *;
      EndingKeepsExplained(l, s, m);
    } else if m.Complete? {
      hide *;
      CompleteKeepsExplained(l, s, m.outcome);
    } else if m.Command? {
      hide Pipeline, Applied, Effective, IntentsOf, Unfinished, Reflected, Coherent;
      MoveKeepsSoleWriter(s, m);
      CommandEffect(s, m.address, m.data);
      if Admits(s, m.data) {
        var i := Intent(m.address, m.data);
        assert l.accepted + [i] == IntentsOf(l.settled) + (Unfinished(s) + [i]);
      }
    } else {
      hide Pipeline, Applied, Effective, IntentsOf, Insert, Unfinished, Coherent, Reconciled, ReadNoted;
      MoveKeepsSoleWriter(s, m);
      OtherEffect(s, m);
    }
  }

  /** No other client writes during the run. */
  predicate SoleWriter(moves: seq<Move>) {
    forall m :: m in moves && m.Foreign? ==> m.op.ReadOp?
  }

  ghost predicate AllTook(settled: seq<Settled>) {
    forall k :: 0 <= k < |settled| ==> settled[k].took
  }

  /** With failures allowed, memory is the initial one with the intents that took effect, in acceptance order. */
  lemma {:induction false} MemoryIsExplained(l: Ledger, s: Bridge, moves: seq<Move>)
    requires Coherent(s) && Explains(l, s) && Runs(s, moves) && SoleWriter(moves)
    ensures Explains(RecordedRun(l, s, moves), Run(s, moves)) && Coherent(Run(s, moves))
    ensures RecordedRun(l, s, moves).initial == l.initial
    ensures AllTook(l.settled) && AllSucceed(s, moves) ==> AllTook(RecordedRun(l, s, moves).settled)
    decreases |moves|
  {
    hide Next, Enabled, Coherent, Explains, GivesUp, Kills, Clears, TakesEffect;
    if moves != [] {
      assert moves[0] in moves && forall m :: m in moves[1..] ==> m in moves;
      MoveKeepsExplained(l, s, moves[0]);
      MoveKeepsCoherent(s, moves[0]);
      if Clears(s, moves[0]) || Kills(s, moves[0]) {
        EndingKeepsExplained(l, s, moves[0]);
      }
      MemoryIsExplained(Recorded(l, s, moves[0]), Next(s, moves[0]), moves[1..]);
    }
  }

  lemma {:induction false} EffectiveWhenAllTook(settled: seq<Settled>)
    requires AllTook(settled)
    ensures Effective(settled) == IntentsOf(settled)
  {
    if settled != [] {
      var n := |settled| - 1;
      EffectiveWhenAllTook(settled[..n]);
      assert IntentsOf(settled) == IntentsOf(settled[..n]) + [settled[n].intent];
    }
  }

  /** When every intent succeeded and none is left, memory is the initial one with all of them in acceptance order. */
  lemma FinishedMemoryIsTheIntents(mem: Memory, moves: seq<Move>)
    requires Runs(Powered(mem), moves) && SoleWriter(moves)
    requires Unfinished(Run(Powered(mem), moves)) == []
    ensures var l := RecordedRun(Ledger(mem, [], [], false), Powered(mem), moves);
      var s := Run(Powered(mem), moves);
      && l.accepted == IntentsOf(l.settled)
      && s.mem == Applied(mem, Effective(l.settled))
      && (AllSucceed(Powered(mem), moves) ==> s.mem == Applied(mem, l.accepted))
  {
    hide Runs, Run, RecordedRun, AllSucceed, Pipeline, Applied, Recent;
    var l := Ledger(mem, [], [], false);
    PoweredIsCoherent(mem);
    PoweredIsExplained(mem);
    MemoryIsExplained(l, Powered(mem), moves);
    var l' := RecordedRun(l, Powered(mem), moves);
    assert IntentsOf(l'.settled) + [] == IntentsOf(l'.settled);
    assert Effective(l'.settled) + [] == Effective(l'.settled);
    if AllSucceed(Powered(mem), moves) {
      EffectiveWhenAllTook(l'.settled);
    }
  }

  /** Both halves: after a later read the house sees the initial settings with every intent applied in order. */
  lemma HouseSeesTheIntents(mem: Memory, moves: seq<Move>, later: seq<Move>)
    requires Runs(Powered(mem), moves) && SoleWriter(moves) && AllSucceed(Powered(mem), moves)
    requires Unfinished(Run(Powered(mem), moves)) == [] && AboutToRead(Run(Powered(mem), moves))
    requires CalmRun(Next(Run(Powered(mem), moves), Complete(Success)), later)
    ensures var s1 := Next(Run(Powered(mem), moves), Complete(Success));
      var accepted := RecordedRun(Ledger(mem, [], [], false), Powered(mem), moves).accepted;
      Runs(s1, later) &&
      (ReadArrives(Run(Powered(mem), moves), later) ==>
         Run(s1, later).store.settings == SettingsOf(Applied(mem, accepted)))
  {
    var s := Run(Powered(mem), moves);
    var l := Ledger(mem, [], [], false);
    hide Runs, Run, RecordedRun, AllSucceed, Pipeline, Applied, Recent, CalmRun, Next, OneConsumerJob, KnownReads;
    hide ReadArrives;
    PoweredIsCoherent(mem);
    PoweredIsExplained(mem);
    MemoryIsExplained(l, Powered(mem), moves);
    FinishedMemoryIsTheIntents(mem, moves);
    NoneStrandsWhenAllSucceed(Powered(mem), moves);
    FinishedPipelineOnlyReads(s);
    FailuresStillConverge(mem, moves, later);
  }

  lemma {:induction false} NoneStrandsWhenAllSucceed(s: Bridge, moves: seq<Move>)
    requires Runs(s, moves) && AllSucceed(s, moves)
    ensures NoneStrands(s, moves)
    decreases |moves|
  {
    hide Next, Enabled, Kills, GivesUp;
    if moves != [] {
      assert !Strands(s, moves[0]);
      NoneStrandsWhenAllSucceed(Next(s, moves[0]), moves[1..]);
    }
  }

  lemma FinishedPipelineOnlyReads(s: Bridge)
    requires Coherent(s) && OnlyIntentsWrite(s) && Unfinished(s) == []
    ensures forall j :: j in Pipeline(s) ==> j.op.ReadOp?
  {
    hide Pipeline, Recent, ConsumerJobs;
  }
}
