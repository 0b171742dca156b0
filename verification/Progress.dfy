/**
 * Progress: every move the bridge makes on its own lowers a rank that counts the work left, retries
 * included, so it cannot go on for ever and stops only when everything is done.
 */
module Progress {
  import opened Governor
  import opened Store
  import opened Bridge
  import opened Coherence
  import opened Overlay

  /** The bridge's own moves; the others are the outside world's. */
  predicate Internal(m: Move) {
    !m.Command? && !m.Foreign? && !m.Judge?
  }

  /** Extra work a job's delivery will submit; the consumer's is counted with its phase. */
  function Sequel(j: Job): nat {
    if j.op.WriteOp? && j.owner == Mqtt then 3 else 0
  }

  function Load(jobs: seq<Job>, each: nat): nat {
    if jobs == [] then 0 else each + Sequel(jobs[0]) + Load(jobs[1..], each)
  }

  function AttemptsLeft(attempt: nat): nat {
    if attempt < WRITE_RETRIES then WRITE_RETRIES - attempt else 0
  }

  function PhaseWork(phase: Phase): nat {
    match phase
    case Waiting(_, attempt) => 7 + 4 * AttemptsLeft(attempt)
    case Writing(_, attempt) => 3 + 4 * AttemptsLeft(attempt)
    case _ => 0
  }

  function Rank(s: Bridge): nat {
    Load(Jobs(s.gov.done), 1) + Load(Current(s), 2) + Load(s.gov.queue, 3)
    + PhaseWork(s.phase) + (8 + 4 * WRITE_RETRIES) * |s.intents|
  }

  lemma {:induction false} LoadJoin(one: seq<Job>, two: seq<Job>, each: nat)
    ensures Load(one + two, each) == Load(one, each) + Load(two, each)
  {
    if one == [] {
      assert one + two == two;
    } else {
      assert (one + two)[1..] == one[1..] + two;
      LoadJoin(one[1..], two, each);
    }
  }

  lemma {:induction false} LoadInsert(queue: seq<Job>, job: Job, each: nat)
    ensures Load(Insert(queue, job), each) == Load(queue, each) + each + Sequel(job)
  {
    if queue == [] || Before(job, queue[0]) {
      assert ([job] + queue)[1..] == queue;
    } else {
      LoadInsert(queue[1..], job, each);
      assert ([queue[0]] + Insert(queue[1..], job))[1..] == Insert(queue[1..], job);
    }
  }

  lemma LoadOne(j: Job, each: nat)
    ensures Load([j], each) == each + Sequel(j)
  {
    assert [j][1..] == [];
  }

  /** A delivery takes its job's load away; what it submits or leaves to be tried again was counted. */
  lemma DeliveryLowersRank(s: Bridge, now: real)
    requires Enabled(s, Deliver(now))
    ensures Rank(Next(s, Deliver(now))) < Rank(s)
  {
    hide Insert, Load, Reconciled, ReadNoted;
    var d := s.gov.done[0];
    var s' := Next(s, Deliver(now));
    assert Jobs(s.gov.done) == [d.job] + Jobs(s.gov.done[1..]);
    LoadJoin([d.job], Jobs(s.gov.done[1..]), 1);
    LoadOne(d.job, 1);
    if s'.gov != Resumed(s.gov) {
      LoadInsert(s.gov.queue, Job(PRIORITY_POLL, s.gov.next, READ_SETTINGS, d.job.owner), 3);
    }
  }

  lemma MoveLowersRank(s: Bridge, m: Move)
    requires Enabled(s, m) && Internal(m)
    ensures Rank(Next(s, m)) < Rank(s)
  {
    hide Insert, Load, Carried, Delivered;
    var s' := Next(s, m);
    NoLoad();
    match m
    case TakeIntent =>
    case BeginWrite =>
      LoadInsert(s.gov.queue, Job(PRIORITY_COMMAND, s.gov.next, s.phase.intent.WriteOp(), Consumer), 3);
    case Dispatch =>
      var job := s.gov.queue[0];
      assert s.gov.queue == [job] + s'.gov.queue;
      LoadJoin([job], s'.gov.queue, 3);
      LoadOne(job, 2);
      LoadOne(job, 3);
    case Complete(outcome) =>
      var job := s.gov.current.value;
      assert Jobs(s'.gov.done) == Jobs(s.gov.done) + [job];
      LoadJoin(Jobs(s.gov.done), [job], 1);
      LoadOne(job, 1);
      LoadOne(job, 2);
    case Deliver(now) => DeliveryLowersRank(s, now);
  }

  lemma NoLoad()
    ensures forall each :: Load([], each) == 0
  {
  }

  /** An unexpected error waits for the MQTT command loop: its delivery ends the process. */
  predicate Dying(s: Bridge) {
    s.gov.done != [] && s.gov.done[0].job.owner == Mqtt && s.gov.done[0].reply.Crashed?
  }

  predicate AtRest(s: Bridge) {
    Drained(s) && s.gov.queue == [] && s.gov.current.None? && s.gov.done == []
  }

  ghost predicate Stuck(s: Bridge) {
    forall m :: Internal(m) ==> !Enabled(s, m)
  }

  lemma StuckExactly(s: Bridge)
    requires Coherent(s) && !Dying(s)
    ensures Stuck(s) <==> AtRest(s)
  {
    hide Recent;
    if Stuck(s) {
      assert !Enabled(s, Deliver(0.0)) && !Enabled(s, Complete(Failure(false, false))) && !Enabled(s, Dispatch);
      assert !Enabled(s, BeginWrite) && !Enabled(s, TakeIntent);
      assert Pipeline(s) == [];
    }
  }

  /**
   * Left to itself, with any outcomes, the bridge takes no more moves than its rank, and where it can take
   * no further one every intent has been ended, every job delivered and, if its overlay was matched and
   * nothing stranded, every optimistic byte is gone.
   */
  lemma {:induction false} OwnMovesEndAtRest(s: Bridge, moves: seq<Move>)
    requires Coherent(s) && Runs(s, moves) && forall m :: m in moves ==> Internal(m)
    ensures |moves| + Rank(Run(s, moves)) <= Rank(s)
    ensures !Dying(Run(s, moves)) ==> (Stuck(Run(s, moves)) <==> AtRest(Run(s, moves)))
    ensures Matched(s) && NoneStrands(s, moves) && AtRest(Run(s, moves)) ==> Run(s, moves).store.pending == map[]
    decreases |moves|
  {
    hide Next, Enabled, Rank, Stuck, AtRest, Matched, Strands, Recent, OneConsumerJob, KnownReads;
    if moves == [] {
      if !Dying(s) {
        StuckExactly(s);
      }
    } else {
      assert moves[0] in moves && forall m :: m in moves[1..] ==> m in moves;
      MoveLowersRank(s, moves[0]);
      MoveKeepsCoherent(s, moves[0]);
      OwnMovesEndAtRest(Next(s, moves[0]), moves[1..]);
    }
    if Matched(s) && NoneStrands(s, moves) && AtRest(Run(s, moves)) {
      NoOrphanedOptimism(s, moves);
      assert Drained(Run(s, moves)) by { RestIsDrained(Run(s, moves)); }
    }
  }

  lemma RestIsDrained(s: Bridge)
    requires AtRest(s)
    ensures Drained(s)
  {
  }
}
