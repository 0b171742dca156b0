/**
 * The bridge as a transition system: one worker on the device link, a bounded queue of write-intents
 * with a single consumer, polls, MQTT commands and LAN requests beside it, and the store they feed.
 * One move is the code of bridge/r60v_broker/broker.py between two awaits.
 */
module Bridge {
  import opened Wrappers
  import opened Protocol
  import opened Machine
  import opened Governor
  import opened Store

  const INTENT_QUEUE_MAX: nat := 32
  const WRITE_RETRIES: nat := 2
  const AVAILABILITY_GRACE: int := 4

  datatype Intent = Intent(address: nat, data: seq<Byte>)
  {
    predicate Covers(a: nat) {
      address <= a < address + |data|
    }

    function At(a: nat): Byte
      requires Covers(a)
    {
      data[a - address]
    }

    predicate Carries(a: nat, byte: int) {
      Covers(a) && At(a) == byte
    }

    function WriteOp(): Op {
      Op.WriteOp(address, data)
    }
  }

  /** Where the consumer of write-intents stands between two awaits. */
  datatype Phase =
    | Idle
    | Waiting(intent: Intent, attempt: nat)  // in the cooldown wait or between two attempts
    | Writing(intent: Intent, attempt: nat)  // its write job is with the governor
    | Reading(intent: Intent)                // overlay cleared, the reconcile read is with the governor

  datatype Bridge = Bridge(mem: Memory, gov: Gov, intents: seq<Intent>, phase: Phase, store: Store)

  const READ_SETTINGS: Op := ReadOp(SETTINGS_BASE, SETTINGS_LEN)

  function Powered(mem: Memory): Bridge {
    Bridge(mem, IDLE, [], Idle, Fresh())
  }

  /** The poll loop's verdicts on the store (their timing is the subject of the poll-loop modules). */
  datatype Verdict = Reachable | Missing | Stuck

  datatype Move =
    | Command(address: nat, data: seq<int>)  // a WebSocket command frame arrives
    | TakeIntent                             // the consumer gets the next intent
    | BeginWrite                             // its waits are over: one write attempt is submitted
    | Foreign(owner: Owner, op: Op)          // a poll, MQTT or LAN job is submitted
    | Dispatch                               // the worker takes the next job
    | Complete(outcome: Outcome)             // the worker resolves its job
    | Deliver(now: real)                     // the caller of the oldest resolved job runs on
    | Judge(verdict: Verdict)                // the poll loop notes a verdict

  predicate ValidBytes(data: seq<int>) {
    data != [] && forall i :: 0 <= i < |data| ==> 0 <= data[i] <= 0xFF
  }

  predicate Admits(s: Bridge, data: seq<int>) {
    ValidBytes(data) && |s.intents| < INTENT_QUEUE_MAX
  }

  function Commanded(s: Bridge, address: nat, data: seq<int>): Bridge {
    if Admits(s, data) then
      s.(intents := s.intents + [Intent(address, data)], store := Reflected(s.store, address, data))
    else s
  }

  function PriorityOf(op: Op): int {
    if op.ReadOp? then PRIORITY_POLL else PRIORITY_COMMAND
  }

  function WriteBegun(s: Bridge): Bridge
    requires s.phase.Waiting?
  {
    var i := s.phase.intent;
    s.(gov := Submitted(s.gov, PRIORITY_COMMAND, i.WriteOp(), Consumer), phase := Writing(i, s.phase.attempt))
  }

  /** The consumer resumes from its write: retry, be killed by an unexpected error, or clear and re-read. */
  function WriteReturned(s: Bridge, reply: Reply): Bridge
    requires s.phase.Writing?
  {
    var i := s.phase.intent;
    if reply.Crashed? then s.(phase := Idle)
    else if reply.LinkDown? && s.phase.attempt < WRITE_RETRIES then s.(phase := Waiting(i, s.phase.attempt + 1))
    else
      var cleared := Reconciled(s.store, Bytes(i.address, i.data));
      s.(store := if reply.LinkDown? then FailureNoted(cleared, AVAILABILITY_GRACE) else cleared,
         phase := Reading(i),
         gov := Submitted(s.gov, PRIORITY_POLL, READ_SETTINGS, Consumer))
  }

  /** A settings read whose caller feeds the store and counts it as a success. */
  function ReadNoted(store: Store, reply: Reply): Store {
    match reply
    case Data(bytes) => SuccessNoted(SettingsUpdated(store, bytes))
    case LinkDown => FailureNoted(store, AVAILABILITY_GRACE)
    case _ => store
  }

  function PollReturned(s: Bridge, op: Op, reply: Reply, now: real): Bridge {
    if !reply.Data? then s
    else if op == READ_SETTINGS then s.(store := SettingsUpdated(s.store, reply.bytes))
    else s.(store := LiveUpdated(s.store, op.address, reply.bytes, now))
  }

  function MqttReturned(s: Bridge, op: Op, reply: Reply): Bridge {
    if op.ReadOp? then s.(store := ReadNoted(s.store, reply))
    else if reply.Acked? then s.(gov := Submitted(s.gov, PRIORITY_POLL, READ_SETTINGS, Mqtt))
    else if reply.LinkDown? then s.(store := FailureNoted(s.store, AVAILABILITY_GRACE))
    else s
  }

  function Delivered(s: Bridge, now: real): Bridge
    requires s.gov.done != []
  {
    var d := s.gov.done[0];
    var s1 := s.(gov := Resumed(s.gov));
    match d.job.owner
    case Consumer =>
      if s.phase.Writing? then WriteReturned(s1, d.reply)
      else if s.phase.Reading? then s1.(store := ReadNoted(s1.store, d.reply), phase := Idle)
      else s1
    case Poller => PollReturned(s1, d.job.op, d.reply, now)
    case Mqtt => MqttReturned(s1, d.job.op, d.reply)
    case LanClient => s1
  }

  function Judged(store: Store, verdict: Verdict): Store {
    match verdict
    case Reachable => SuccessNoted(store)
    case Missing => FailureNoted(store, AVAILABILITY_GRACE)
    case Stuck => WedgeNoted(store, AVAILABILITY_GRACE)
  }

  /** An unexpected error in the MQTT command loop ends the process, so no move delivers one. */
  predicate Enabled(s: Bridge, m: Move) {
    match m
    case Command(_, _) => true
    case TakeIntent => s.phase.Idle? && s.intents != []
    case BeginWrite => s.phase.Waiting?
    case Foreign(owner, op) =>
      owner != Consumer && (owner == Poller ==> op.ReadOp?) && (owner == Mqtt ==> op.WriteOp?)
    case Dispatch => s.gov.current.None? && s.gov.queue != []
    case Complete(outcome) => s.gov.current.Some? && Possible(s.gov.current.value.op, outcome)
    case Deliver(_) => s.gov.done != [] && !(s.gov.done[0].job.owner == Mqtt && s.gov.done[0].reply.Crashed?)
    case Judge(_) => true
  }

  function Next(s: Bridge, m: Move): Bridge
    requires Enabled(s, m)
  {
    match m
    case Command(address, data) => Commanded(s, address, data)
    case TakeIntent => s.(phase := Waiting(s.intents[0], 0), intents := s.intents[1..])
    case BeginWrite => WriteBegun(s)
    case Foreign(owner, op) => s.(gov := Submitted(s.gov, PriorityOf(op), op, owner))
    case Dispatch => s.(gov := Taken(s.gov))
    case Complete(outcome) =>
      var (reply, mem) := Carried(s.mem, s.gov.current.value.op, outcome);
      s.(mem := mem, gov := Finished(s.gov, reply))
    case Deliver(now) => Delivered(s, now)
    case Judge(verdict) => s.(store := Judged(s.store, verdict))
  }

  predicate Runs(s: Bridge, moves: seq<Move>)
    decreases |moves|
  {
    moves != [] ==> Enabled(s, moves[0]) && Runs(Next(s, moves[0]), moves[1..])
  }

  function Run(s: Bridge, moves: seq<Move>): Bridge
    requires Runs(s, moves)
    decreases |moves|
  {
    if moves == [] then s else Run(Next(s, moves[0]), moves[1..])
  }

  // -- coherence ----------------------------------------------------------------

  /** Intents accepted whose overlay bytes have not been cleared: the one being written, then the queue. */
  function Unfinished(s: Bridge): seq<Intent> {
    (if s.phase.Waiting? || s.phase.Writing? then [s.phase.intent] else []) + s.intents
  }

  function Current(s: Bridge): seq<Job> {
    if s.gov.current.Some? then [s.gov.current.value] else []
  }

  /** Every job not delivered yet: resolved, being carried out, queued. */
  function Pipeline(s: Bridge): seq<Job> {
    Jobs(s.gov.done) + Current(s) + s.gov.queue
  }

  function ConsumerJobs(jobs: seq<Job>): nat {
    if jobs == [] then 0 else (if jobs[0].owner == Consumer then 1 else 0) + ConsumerJobs(jobs[1..])
  }

  /** The job the consumer is waiting for, if any. */
  function ConsumerOp(phase: Phase): Option<Op> {
    match phase
    case Writing(i, _) => Some(i.WriteOp())
    case Reading(_) => Some(READ_SETTINGS)
    case _ => None
  }

  ghost predicate OneConsumerJob(s: Bridge) {
    && ConsumerJobs(Pipeline(s)) == (if ConsumerOp(s.phase).Some? then 1 else 0)
    && (forall j :: j in Pipeline(s) && j.owner == Consumer ==> ConsumerOp(s.phase) == Some(j.op))
  }

  /** MQTT's only reads are the settings reads that follow its writes. */
  ghost predicate KnownReads(s: Bridge) {
    forall j :: j in Pipeline(s) && j.owner == Mqtt && j.op.ReadOp? ==> j.op == READ_SETTINGS
  }

  predicate WellAnswered(d: Done) {
    && (d.reply.Data? ==> d.job.op.ReadOp? && |d.reply.bytes| == d.job.op.length)
    && (d.reply.Acked? ==> d.job.op.WriteOp?)
  }

  predicate Touches(op: Op, x: nat) {
    op.WriteOp? && op.address <= x < op.address + |op.data|
  }

  /** A resolved settings read that showed something other than `byte` at `x`. */
  predicate Contradicts(d: Done, x: nat, byte: Byte) {
    d.job.op == READ_SETTINGS && d.reply.Data? && x < |d.reply.bytes| && d.reply.bytes[x] != byte
  }

  /**
   * A resolved consumer write explains memory, and every read resolved after it, at each address no
   * later-resolved job has written.
   */
  ghost predicate Recent(s: Bridge) {
    forall k: nat, x: nat ::
      && k < |s.gov.done| && s.gov.done[k].job.owner == Consumer && s.gov.done[k].reply.Acked?
      && x < SETTINGS_LEN && Touches(s.gov.done[k].job.op, x)
      && (forall m :: k < m < |s.gov.done| ==> !Touches(s.gov.done[m].job.op, x))
      ==> Explained(s, k, x, s.gov.done[k].job.op.data[x - s.gov.done[k].job.op.address])
  }

  ghost predicate Explained(s: Bridge, k: nat, x: nat, byte: Byte)
    requires x < MEMORY_SIZE
  {
    s.mem[x] == byte && forall m :: k < m < |s.gov.done| ==> !Contradicts(s.gov.done[m], x, byte)
  }

  ghost predicate Coherent(s: Bridge) {
    && |s.store.settings| == SETTINGS_LEN
    && |s.intents| <= INTENT_QUEUE_MAX
    && (s.phase.Waiting? || s.phase.Writing? ==> s.phase.attempt <= WRITE_RETRIES)
    && OneConsumerJob(s)
    && KnownReads(s)
    && (forall d :: d in s.gov.done ==> WellAnswered(d))
    && Recent(s)
  }

  lemma {:induction false} ConsumerJobsJoin(one: seq<Job>, two: seq<Job>)
    ensures ConsumerJobs(one + two) == ConsumerJobs(one) + ConsumerJobs(two)
  {
    if one == [] {
      assert one + two == two;
    } else {
      assert (one + two)[1..] == one[1..] + two;
      ConsumerJobsJoin(one[1..], two);
    }
  }

  lemma {:induction false} ConsumerJobsInsert(queue: seq<Job>, job: Job)
    ensures ConsumerJobs(Insert(queue, job)) == ConsumerJobs(queue) + if job.owner == Consumer then 1 else 0
  {
    if queue == [] || Before(job, queue[0]) {
      assert ([job] + queue)[1..] == queue;
    } else {
      ConsumerJobsInsert(queue[1..], job);
      assert ([queue[0]] + Insert(queue[1..], job))[1..] == Insert(queue[1..], job);
    }
  }

  lemma {:induction false} ConsumerJobsMembers(jobs: seq<Job>)
    ensures ConsumerJobs(jobs) == 0 <==> forall j :: j in jobs ==> j.owner != Consumer
  {
    if jobs != [] {
      ConsumerJobsMembers(jobs[1..]);
      assert forall j :: j in jobs <==> j == jobs[0] || j in jobs[1..];
    }
  }

  /** Submitting, dispatching, completing and delivering, as they change the pipeline. */
  lemma PipelineAfterSubmit(s: Bridge, priority: int, op: Op, owner: Owner)
    ensures var s' := s.(gov := Submitted(s.gov, priority, op, owner));
      var job := Job(priority, s.gov.next, op, owner);
      && ConsumerJobs(Pipeline(s')) == ConsumerJobs(Pipeline(s)) + (if owner == Consumer then 1 else 0)
      && (forall j :: j in Pipeline(s') <==> j == job || j in Pipeline(s))
  {
    hide Insert, ConsumerJobs;
    var job := Job(priority, s.gov.next, op, owner);
    var front := Jobs(s.gov.done) + Current(s);
    InsertMembers(s.gov.queue, job);
    ConsumerJobsInsert(s.gov.queue, job);
    ConsumerJobsJoin(front, s.gov.queue);
    ConsumerJobsJoin(front, Insert(s.gov.queue, job));
  }

  lemma PipelineAfterDispatch(s: Bridge)
    requires Enabled(s, Dispatch)
    ensures Pipeline(Next(s, Dispatch)) == Pipeline(s)
  {
  }

  lemma PipelineAfterComplete(s: Bridge, outcome: Outcome)
    requires Enabled(s, Complete(outcome))
    ensures Pipeline(Next(s, Complete(outcome))) == Pipeline(s)
  {
    hide Carried;
    var reply := Carried(s.mem, s.gov.current.value.op, outcome).0;
    assert Jobs(s.gov.done + [Done(s.gov.current.value, reply)]) == Jobs(s.gov.done) + [s.gov.current.value];
  }

  lemma PipelineAfterResume(s: Bridge)
    requires s.gov.done != []
    ensures var s' := s.(gov := Resumed(s.gov));
      && Pipeline(s) == [s.gov.done[0].job] + Pipeline(s')
      && ConsumerJobs(Pipeline(s))
         == ConsumerJobs(Pipeline(s')) + (if s.gov.done[0].job.owner == Consumer then 1 else 0)
  {
    assert Jobs(s.gov.done) == [s.gov.done[0].job] + Jobs(s.gov.done[1..]);
    assert Pipeline(s) == [s.gov.done[0].job] + Pipeline(s.(gov := Resumed(s.gov)));
  }
}
