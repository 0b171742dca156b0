/** Who goes first on the device link: writes before reads, and within each kind the earlier submission. */
module Precedence {
  import opened Protocol
  import opened Machine
  import opened Governor
  import opened Store
  import opened Bridge
  import opened Coherence
  import Frontend

  /** `a` has to be carried out before `b` when both are queued. */
  predicate GoesFirst(a: Job, b: Job) {
    if a.op.WriteOp? == b.op.WriteOp? then a.ticket < b.ticket else a.op.WriteOp?
  }

  ghost predicate InLine(s: Bridge) {
    && (forall i, j :: 0 <= i < j < |s.gov.queue| ==> GoesFirst(s.gov.queue[i], s.gov.queue[j]))
    && (forall j :: j in s.gov.queue ==> j.ticket < s.gov.next && j.priority == PriorityOfKind(j.op))
  }

  function PriorityOfKind(op: Op): int {
    if op.WriteOp? then PRIORITY_COMMAND else PRIORITY_POLL
  }

  lemma {:induction false} InsertKeepsLine(queue: seq<Job>, job: Job)
    requires forall i, j :: 0 <= i < j < |queue| ==> GoesFirst(queue[i], queue[j])
    requires forall j :: j in queue ==> j.ticket < job.ticket && j.priority == PriorityOfKind(j.op)
    requires job.priority == PriorityOfKind(job.op)
    ensures var longer := Insert(queue, job);
      forall i, j :: 0 <= i < j < |longer| ==> GoesFirst(longer[i], longer[j])
  {
    if queue == [] {
    } else if Before(job, queue[0]) {
      assert forall j :: j in queue ==> j == queue[0] || GoesFirst(queue[0], j);
    } else {
      var rest := Insert(queue[1..], job);
      InsertKeepsLine(queue[1..], job);
      InsertMembers(queue[1..], job);
      forall i | 0 <= i < |rest| ensures GoesFirst(queue[0], rest[i]) {
        assert rest[i] in rest;
      }
    }
  }

  lemma SubmitKeepsInLine(s: Bridge, op: Op, owner: Owner)
    requires InLine(s)
    ensures InLine(s.(gov := Submitted(s.gov, PriorityOfKind(op), op, owner)))
  {
    var job := Job(PriorityOfKind(op), s.gov.next, op, owner);
    InsertKeepsLine(s.gov.queue, job);
    InsertMembers(s.gov.queue, job);
  }

  lemma MoveKeepsInLine(s: Bridge, m: Move)
    requires InLine(s) && Enabled(s, m)
    ensures InLine(Next(s, m))
  {
    hide Insert, Carried, Commanded, Reconciled, ReadNoted, GoesFirst;
    match m
    case Command(address, data) => CommandLeavesLink(s, address, data);
    case TakeIntent =>
    case BeginWrite => SubmitKeepsInLine(s, s.phase.intent.WriteOp(), Consumer);
    case Foreign(owner, op) => SubmitKeepsInLine(s, op, owner);
    case Dispatch =>
    case Complete(outcome) =>
    case Deliver(now) =>
      var s1 := s.(gov := Resumed(s.gov));
      assert InLine(s1);
      SubmitKeepsInLine(s1, READ_SETTINGS, Consumer);
      SubmitKeepsInLine(s1, READ_SETTINGS, Mqtt);
    case Judge(_) =>
  }

  lemma {:induction false} RunsStayInLine(s: Bridge, moves: seq<Move>)
    requires InLine(s) && Runs(s, moves)
    ensures InLine(Run(s, moves))
    decreases |moves|
  {
    hide Next, InLine;
    if moves != [] {
      MoveKeepsInLine(s, moves[0]);
      RunsStayInLine(Next(s, moves[0]), moves[1..]);
    }
  }

  /**
   * In every run from power-on, the job the worker takes goes before every other one queued: no read is
   * taken while a write waits, and among writes, as among reads, the earliest submitted is taken.
   */
  lemma DispatchTakesWritesFirst(mem: Memory, moves: seq<Move>, other: Job)
    requires Runs(Powered(mem), moves) && Enabled(Run(Powered(mem), moves), Dispatch)
    requires other in Run(Powered(mem), moves).gov.queue
    ensures var s := Run(Powered(mem), moves);
      var taken := Next(s, Dispatch).gov.current.value;
      && taken in s.gov.queue
      && (other != taken ==>
            && (taken.op.ReadOp? ==> other.op.ReadOp?)
            && (taken.op.ReadOp? == other.op.ReadOp? ==> taken.ticket < other.ticket))
  {
    hide Runs, Run;
    RunsStayInLine(Powered(mem), moves);
    var queue := Run(Powered(mem), moves).gov.queue;
    var i :| 0 <= i < |queue| && queue[i] == other;
    assert i > 0 ==> GoesFirst(queue[0], queue[i]);
  }

  /** The jobs a run of the bridge dispatches, in order. */
  function DispatchedJobs(s: Bridge, moves: seq<Move>): seq<Job>
    requires Runs(s, moves)
    decreases |moves|
  {
    if moves == [] then []
    else (if moves[0].Dispatch? then [s.gov.queue[0]] else []) + DispatchedJobs(Next(s, moves[0]), moves[1..])
  }

  /** A job that leaves the queue has been dispatched, and none comes back. */
  lemma MoveOnLine(s: Bridge, m: Move, job: Job)
    requires InLine(s) && Enabled(s, m) && job.ticket < s.gov.next
    ensures job in Next(s, m).gov.queue ==> job in s.gov.queue && !(m.Dispatch? && s.gov.queue[0] == job)
    ensures s.gov.next <= Next(s, m).gov.next
  {
    hide Insert, Carried, Commanded, Reconciled, ReadNoted;
    match m
    case Command(address, data) => CommandLeavesLink(s, address, data);
    case TakeIntent =>
    case BeginWrite =>
      InsertMembers(s.gov.queue, Job(PRIORITY_COMMAND, s.gov.next, s.phase.intent.WriteOp(), Consumer));
    case Foreign(owner, op) => InsertMembers(s.gov.queue, Job(PriorityOf(op), s.gov.next, op, owner));
    case Dispatch =>
      if job in s.gov.queue[1..] {
        var i :| 0 < i < |s.gov.queue| && s.gov.queue[i] == job;
        assert GoesFirst(s.gov.queue[0], s.gov.queue[i]);
      }
    case Complete(outcome) =>
    case Deliver(now) =>
      InsertMembers(s.gov.queue, Job(PRIORITY_POLL, s.gov.next, READ_SETTINGS, Consumer));
      InsertMembers(s.gov.queue, Job(PRIORITY_POLL, s.gov.next, READ_SETTINGS, Mqtt));
    case Judge(_) =>
  }

  /** While a write waits, only writes submitted before it are dispatched. */
  lemma {:induction false} OnlyEarlierWritesPass(s: Bridge, moves: seq<Move>, write: Job)
    requires InLine(s) && Runs(s, moves) && write.op.WriteOp? && write.ticket < s.gov.next
    requires write in Run(s, moves).gov.queue
    ensures write in s.gov.queue
    ensures forall j :: j in DispatchedJobs(s, moves) ==> j.op.WriteOp? && j.ticket < write.ticket
    decreases |moves|
  {
    hide Next, Enabled, InLine;
    if moves != [] {
      MoveKeepsInLine(s, moves[0]);
      TicketsOnlyGrow(s, moves[0]);
      OnlyEarlierWritesPass(Next(s, moves[0]), moves[1..], write);
      MoveOnLine(s, moves[0], write);
      if moves[0].Dispatch? {
        HeadGoesFirst(s, write);
      }
    }
  }

  lemma TicketsOnlyGrow(s: Bridge, m: Move)
    requires Enabled(s, m)
    ensures s.gov.next <= Next(s, m).gov.next
  {
    hide Insert, Carried, Commanded, Reconciled, ReadNoted;
    if m.Command? {
      CommandLeavesLink(s, m.address, m.data);
    }
  }

  lemma HeadGoesFirst(s: Bridge, job: Job)
    requires InLine(s) && job in s.gov.queue && Enabled(s, Dispatch)
    ensures s.gov.queue[0] == job || GoesFirst(s.gov.queue[0], job)
  {
    var i :| 0 <= i < |s.gov.queue| && s.gov.queue[i] == job;
    assert i > 0 ==> GoesFirst(s.gov.queue[0], s.gov.queue[i]);
  }

  /**
   * A write-intent goes ahead of every poll: between the moment the consumer begins an attempt and the
   * moment its write is taken, the worker takes nothing but writes submitted earlier.
   */
  lemma IntentsGoAheadOfPolls(mem: Memory, before: seq<Move>, after: seq<Move>)
    requires Runs(Powered(mem), before) && Enabled(Run(Powered(mem), before), BeginWrite)
    requires Runs(Next(Run(Powered(mem), before), BeginWrite), after)
    ensures var s := Run(Powered(mem), before);
      var s1 := Next(s, BeginWrite);
      && (exists write :: IsWriteOf(write, s.phase.intent, s.gov.next) && write in s1.gov.queue)
      && (forall write :: IsWriteOf(write, s.phase.intent, s.gov.next) && write in Run(s1, after).gov.queue ==>
            forall j :: j in DispatchedJobs(s1, after) ==> j.op.WriteOp? && j.ticket < s.gov.next)
  {
    hide Runs, Run, DispatchedJobs;
    RunsStayInLine(Powered(mem), before);
    var s := Run(Powered(mem), before);
    var s1 := Next(s, BeginWrite);
    MoveKeepsInLine(s, BeginWrite);
    var mine := Job(PRIORITY_COMMAND, s.gov.next, s.phase.intent.WriteOp(), Consumer);
    InsertMembers(s.gov.queue, mine);
    assert IsWriteOf(mine, s.phase.intent, s.gov.next) && mine in s1.gov.queue;
    forall write | IsWriteOf(write, s.phase.intent, s.gov.next) && write in Run(s1, after).gov.queue
      ensures forall j :: j in DispatchedJobs(s1, after) ==> j.op.WriteOp? && j.ticket < s.gov.next
    {
      OnlyEarlierWritesPass(s1, after, write);
    }
  }

  /** The consumer's write job of an intent, with the ticket it was given. */
  predicate IsWriteOf(job: Job, i: Intent, ticket: nat) {
    job.owner == Consumer && job.ticket == ticket && job.op == WriteOp(i.address, i.data)
  }

  /** A LAN frame is ranked like any other caller's job: the front-end's submission is the bridge's move for it. */
  lemma LanFramesRankAlike(s: Bridge, frame: Frame)
    ensures Enabled(s, Foreign(LanClient, Frontend.JobOf(frame)))
    ensures Next(s, Foreign(LanClient, Frontend.JobOf(frame))).gov
         == Submitted(s.gov, Frontend.Urgency(frame), Frontend.JobOf(frame), LanClient)
  {
  }
}
