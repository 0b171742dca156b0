/** Every move of the bridge keeps it coherent, so every reachable state is. */
module Coherence {
  import opened Wrappers
  import opened Protocol
  import opened Machine
  import opened Governor
  import opened Store
  import opened Bridge

  lemma PoweredIsCoherent(mem: Memory)
    ensures Coherent(Powered(mem))
  {
  }

  // -- the consumer has at most one job ------------------------------------------

  lemma ResumeKeepsOneJob(s: Bridge)
    requires s.gov.done != [] && OneConsumerJob(s)
    ensures var s1 := s.(gov := Resumed(s.gov));
      && (s.gov.done[0].job.owner == Consumer ==>
            ConsumerOp(s.phase).Some? && ConsumerJobs(Pipeline(s1)) == 0
            && forall j :: j in Pipeline(s1) ==> j.owner != Consumer)
      && (s.gov.done[0].job.owner != Consumer ==> OneConsumerJob(s1))
  {
    hide ConsumerJobs, Pipeline;
    PipelineAfterResume(s);
    ConsumerJobsMembers(Pipeline(s.(gov := Resumed(s.gov))));
    assert s.gov.done[0].job in Pipeline(s);
    ConsumerJobsMembers(Pipeline(s));
  }

  lemma SubmitKeepsOneJob(s: Bridge, priority: int, op: Op, owner: Owner, phase: Phase)
    requires owner == Consumer ==>
      && ConsumerJobs(Pipeline(s)) == 0 && ConsumerOp(phase) == Some(op)
      && forall j :: j in Pipeline(s) ==> j.owner != Consumer
    requires owner != Consumer ==> OneConsumerJob(s) && phase == s.phase
    ensures OneConsumerJob(s.(gov := Submitted(s.gov, priority, op, owner), phase := phase))
  {
    hide ConsumerJobs, Pipeline;
    PipelineAfterSubmit(s, priority, op, owner);
    SamePipeline(s.(gov := Submitted(s.gov, priority, op, owner)),
                 s.(gov := Submitted(s.gov, priority, op, owner), phase := phase));
  }

  lemma SamePipeline(s: Bridge, t: Bridge)
    requires t.gov == s.gov
    ensures Pipeline(t) == Pipeline(s)
  {
  }

  lemma DeliverKeepsOneJob(s: Bridge, now: real)
    requires OneConsumerJob(s) && Enabled(s, Deliver(now))
    ensures OneConsumerJob(Next(s, Deliver(now)))
  {
    hide ConsumerJobs, Pipeline, Insert, Reconciled, ReadNoted;
    var d := s.gov.done[0];
    var s1 := s.(gov := Resumed(s.gov));
    var s' := Next(s, Deliver(now));
    ResumeKeepsOneJob(s);
    if s'.gov == s1.gov {
      SamePipeline(s1, s');
    } else {
      var owner := if d.job.owner == Consumer then Consumer else Mqtt;
      SubmitKeepsOneJob(s1, PRIORITY_POLL, READ_SETTINGS, owner, s'.phase);
      SamePipeline(s1.(gov := Submitted(s1.gov, PRIORITY_POLL, READ_SETTINGS, owner), phase := s'.phase), s');
    }
  }

  lemma MoveKeepsOneJob(s: Bridge, m: Move)
    requires OneConsumerJob(s) && Enabled(s, m)
    ensures OneConsumerJob(Next(s, m))
  {
    hide ConsumerJobs, Pipeline, Delivered, Carried, Submitted, Commanded;
    match m
    case Command(address, data) =>
      CommandLeavesLink(s, address, data);
      SamePipeline(s, Next(s, m));
    case TakeIntent => SamePipeline(s, Next(s, m));
    case BeginWrite =>
      SubmitKeepsOneJob(s, PRIORITY_COMMAND, s.phase.intent.WriteOp(), Consumer, Next(s, m).phase);
    case Foreign(owner, op) => SubmitKeepsOneJob(s, PriorityOf(op), op, owner, s.phase);
    case Dispatch => PipelineAfterDispatch(s);
    case Complete(outcome) => PipelineAfterComplete(s, outcome);
    case Deliver(now) => DeliverKeepsOneJob(s, now);
    case Judge(_) => SamePipeline(s, Next(s, m));
  }

  lemma CommandLeavesLink(s: Bridge, address: nat, data: seq<int>)
    ensures var s' := Commanded(s, address, data);
      s'.gov == s.gov && s'.mem == s.mem && s'.phase == s.phase
  {
  }

  lemma MoveKeepsKnownReads(s: Bridge, m: Move)
    requires KnownReads(s) && Enabled(s, m)
    ensures KnownReads(Next(s, m))
  {
    hide ConsumerJobs, Pipeline, Insert, Carried, Commanded, Reconciled, ReadNoted;
    var s' := Next(s, m);
    match m
    case Command(address, data) =>
      CommandLeavesLink(s, address, data);
      SamePipeline(s, s');
    case TakeIntent => SamePipeline(s, s');
    case BeginWrite =>
      PipelineAfterSubmit(s, PRIORITY_COMMAND, s.phase.intent.WriteOp(), Consumer);
      SamePipeline(s.(gov := s'.gov), s');
    case Foreign(owner, op) => PipelineAfterSubmit(s, PriorityOf(op), op, owner);
    case Dispatch => PipelineAfterDispatch(s);
    case Complete(outcome) => PipelineAfterComplete(s, outcome);
    case Deliver(now) =>
      PipelineAfterResume(s);
      var s1 := s.(gov := Resumed(s.gov));
      PipelineAfterSubmit(s1, PRIORITY_POLL, READ_SETTINGS, Consumer);
      PipelineAfterSubmit(s1, PRIORITY_POLL, READ_SETTINGS, Mqtt);
      SamePipeline(s1.(gov := s'.gov), s');
    case Judge(_) => SamePipeline(s, s');
  }

  // -- resolved writes explain memory ------------------------------------------------

  /** Dropping the oldest resolved job leaves what the younger ones explain. */
  lemma ResumeKeepsRecent(s: Bridge)
    requires s.gov.done != [] && Recent(s)
    ensures Recent(s.(gov := Resumed(s.gov)))
  {
    var s1 := s.(gov := Resumed(s.gov));
    forall k: nat, x: nat |
      && k < |s1.gov.done| && s1.gov.done[k].job.owner == Consumer && s1.gov.done[k].reply.Acked?
      && x < SETTINGS_LEN && Touches(s1.gov.done[k].job.op, x)
      && (forall m :: k < m < |s1.gov.done| ==> !Touches(s1.gov.done[m].job.op, x))
      ensures Explained(s1, k, x, s1.gov.done[k].job.op.data[x - s1.gov.done[k].job.op.address])
    {
      assert s.gov.done[k + 1] == s1.gov.done[k];
      forall m | k + 1 < m < |s.gov.done| ensures !Touches(s.gov.done[m].job.op, x) {
        assert s.gov.done[m] == s1.gov.done[m - 1];
      }
      assert Touches(s.gov.done[k + 1].job.op, x);
      assert Explained(s, k + 1, x, s.gov.done[k + 1].job.op.data[x - s.gov.done[k + 1].job.op.address]);
      forall m | k < m < |s1.gov.done|
        ensures !Contradicts(s1.gov.done[m], x, s1.gov.done[k].job.op.data[x - s1.gov.done[k].job.op.address])
      {
        assert s.gov.done[m + 1] == s1.gov.done[m];
      }
    }
  }

  lemma SameResolvedSameRecent(s: Bridge, t: Bridge)
    requires Recent(s) && t.gov.done == s.gov.done && t.mem == s.mem
    ensures Recent(t)
  {
    forall k: nat, x: nat |
      && k < |t.gov.done| && t.gov.done[k].job.owner == Consumer && t.gov.done[k].reply.Acked?
      && x < SETTINGS_LEN && Touches(t.gov.done[k].job.op, x)
      && (forall m :: k < m < |t.gov.done| ==> !Touches(t.gov.done[m].job.op, x))
      ensures Explained(t, k, x, t.gov.done[k].job.op.data[x - t.gov.done[k].job.op.address])
    {
      assert Explained(s, k, x, s.gov.done[k].job.op.data[x - s.gov.done[k].job.op.address]);
    }
  }

  /** One job's effect: an untouched address keeps its byte, and a settings read shows memory. */
  lemma CarriedTouches(mem: Memory, op: Op, outcome: Outcome, x: nat)
    requires x < SETTINGS_LEN
    ensures !Touches(op, x) ==> Carried(mem, op, outcome).1[x] == mem[x]
    ensures Touches(op, x) && Carried(mem, op, outcome).0.Acked? ==>
      Carried(mem, op, outcome).1[x] == op.data[x - op.address]
    ensures op == READ_SETTINGS && Carried(mem, op, outcome).0.Data? ==>
      x < |Carried(mem, op, outcome).0.bytes| && Carried(mem, op, outcome).0.bytes[x] == mem[x]
    ensures op.ReadOp? ==> Carried(mem, op, outcome).1 == mem
  {
  }

  lemma CompleteKeepsRecent(s: Bridge, outcome: Outcome)
    requires Recent(s) && Enabled(s, Complete(outcome))
    ensures Recent(Next(s, Complete(outcome)))
  {
    hide Carried, Contradicts;
    var s' := Next(s, Complete(outcome));
    var n := |s.gov.done|;
    var job := s.gov.current.value;
    var reply := Carried(s.mem, job.op, outcome).0;
    assert s'.gov.done[n] == Done(job, reply);
    forall k: nat, x: nat |
      && k < |s'.gov.done| && s'.gov.done[k].job.owner == Consumer && s'.gov.done[k].reply.Acked?
      && x < SETTINGS_LEN && Touches(s'.gov.done[k].job.op, x)
      && (forall m :: k < m < |s'.gov.done| ==> !Touches(s'.gov.done[m].job.op, x))
      ensures Explained(s', k, x, s'.gov.done[k].job.op.data[x - s'.gov.done[k].job.op.address])
    {
      CarriedTouches(s.mem, job.op, outcome, x);
      if k < n {
        var byte := s.gov.done[k].job.op.data[x - s.gov.done[k].job.op.address];
        assert !Touches(job.op, x);
        forall m | k < m < n ensures !Touches(s.gov.done[m].job.op, x) {
          assert s'.gov.done[m] == s.gov.done[m];
        }
        assert Explained(s, k, x, byte);
        NewReadAgrees(Done(job, reply), x, byte, s.mem);
      }
    }
  }

  lemma NewReadAgrees(d: Done, x: nat, byte: Byte, mem: Memory)
    requires x < SETTINGS_LEN && mem[x] == byte
    requires d.job.op == READ_SETTINGS && d.reply.Data? ==> x < |d.reply.bytes| && d.reply.bytes[x] == mem[x]
    ensures !Contradicts(d, x, byte)
  {
  }

  lemma MoveKeepsRecent(s: Bridge, m: Move)
    requires Recent(s) && Enabled(s, m)
    ensures Recent(Next(s, m))
  {
    hide Recent, Carried, Insert, Commanded, Reconciled, ReadNoted;
    if m.Deliver? {
      ResumeKeepsRecent(s);
      SameResolvedSameRecent(s.(gov := Resumed(s.gov)), Next(s, m));
    } else if m.Complete? {
      CompleteKeepsRecent(s, m.outcome);
    } else {
      if m.Command? {
        CommandLeavesLink(s, m.address, m.data);
      }
      SameResolvedSameRecent(s, Next(s, m));
    }
  }

  // -- the rest -------------------------------------------------------------------------

  lemma CompleteAnswersWell(s: Bridge, outcome: Outcome)
    requires Enabled(s, Complete(outcome))
    ensures var op := s.gov.current.value.op;
      WellAnswered(Done(s.gov.current.value, Carried(s.mem, op, outcome).0))
  {
  }

  lemma MoveKeepsShape(s: Bridge, m: Move)
    requires Coherent(s) && Enabled(s, m)
    ensures var s' := Next(s, m);
      && |s'.store.settings| == SETTINGS_LEN
      && |s'.intents| <= INTENT_QUEUE_MAX
      && (s'.phase.Waiting? || s'.phase.Writing? ==> s'.phase.attempt <= WRITE_RETRIES)
      && (forall d :: d in s'.gov.done ==> WellAnswered(d))
  {
    hide Recent, Pipeline, ConsumerJobs, Insert, Carried, Bytes, Spent;
    if m.Complete? {
      CompleteAnswersWell(s, m.outcome);
    }
    if m.Deliver? {
      PipelineAfterResume(s);
      assert s.gov.done[0].job in Pipeline(s);
      assert s.gov.done[0] in s.gov.done;
      assert forall d :: d in s.gov.done[1..] ==> d in s.gov.done;
    }
  }

  lemma MoveKeepsCoherent(s: Bridge, m: Move)
    requires Coherent(s) && Enabled(s, m)
    ensures Coherent(Next(s, m))
  {
    hide Next, Recent, OneConsumerJob, KnownReads;
    MoveKeepsShape(s, m);
    MoveKeepsOneJob(s, m);
    MoveKeepsKnownReads(s, m);
    MoveKeepsRecent(s, m);
  }

  /** In every run the intent queue stays within its bound, the consumer has one job, and reads show recent writes. */
  lemma {:induction false} RunsStayCoherent(s: Bridge, moves: seq<Move>)
    requires Coherent(s) && Runs(s, moves)
    ensures Coherent(Run(s, moves))
    decreases |moves|
  {
    hide Next, Coherent;
    if moves != [] {
      MoveKeepsCoherent(s, moves[0]);
      RunsStayCoherent(Next(s, moves[0]), moves[1..]);
    }
  }
}
