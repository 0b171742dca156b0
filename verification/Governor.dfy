/** The single-worker priority queue of bridge/r60v_broker/governor.py that owns the device link. */
module Governor {
  import opened Wrappers
  import opened Protocol
  import opened Machine
  import Framing
  import opened Client

  const PRIORITY_COMMAND: int := 0
  const PRIORITY_POLL: int := 10

  datatype Op = ReadOp(address: nat, length: nat) | WriteOp(address: nat, data: seq<Byte>)
  {
    function ToRequest(): Framing.Request {
      if ReadOp? then Framing.Read(address, length) else Framing.Write(address, data)
    }

    predicate WellFormed() {
      ToRequest().WellFormed()
    }
  }

  /** What a caller's future is resolved with: LinkDown is R60VConnectionError, Crashed any other exception. */
  datatype Reply = Data(bytes: seq<Byte>) | Acked | LinkDown | Crashed

  datatype Owner = Consumer | Poller | Mqtt | LanClient

  datatype Job = Job(priority: int, ticket: nat, op: Op, owner: Owner)

  datatype Done = Done(job: Job, reply: Reply)

  predicate Before(a: Job, b: Job) {
    a.priority < b.priority || (a.priority == b.priority && a.ticket < b.ticket)
  }

  /** The priority queue kept in dispatch order. */
  function Insert(queue: seq<Job>, job: Job): seq<Job> {
    if queue == [] || Before(job, queue[0]) then [job] + queue
    else [queue[0]] + Insert(queue[1..], job)
  }

  lemma {:induction false} InsertMembers(queue: seq<Job>, job: Job)
    ensures multiset(Insert(queue, job)) == multiset(queue) + multiset{job}
    ensures forall j :: j in Insert(queue, job) <==> j == job || j in queue
  {
    if queue == [] || Before(job, queue[0]) {
    } else {
      InsertMembers(queue[1..], job);
      assert queue == [queue[0]] + queue[1..];
    }
  }

  function Jobs(finished: seq<Done>): seq<Job> {
    seq(|finished|, i requires 0 <= i < |finished| => finished[i].job)
  }

  /** `done` holds resolved futures whose callers have not run again yet, in completion order. */
  datatype Gov = Gov(queue: seq<Job>, next: nat, current: Option<Job>, done: seq<Done>)

  const IDLE: Gov := Gov([], 0, None, [])

  function Submitted(g: Gov, priority: int, op: Op, owner: Owner): Gov {
    g.(queue := Insert(g.queue, Job(priority, g.next, op, owner)), next := g.next + 1)
  }

  function Taken(g: Gov): Gov
    requires g.current.None? && g.queue != []
  {
    g.(queue := g.queue[1..], current := Some(g.queue[0]))
  }

  function Finished(g: Gov, reply: Reply): Gov
    requires g.current.Some?
  {
    g.(current := None, done := g.done + [Done(g.current.value, reply)])
  }

  function Resumed(g: Gov): Gov
    requires g.done != []
  {
    g.(done := g.done[1..])
  }

  // -- the device as a job sees it -----------------------------------------

  /** How the client's attempt at one job ended; a failed attempt may still have reached the machine. */
  datatype Outcome = Success | Failure(reached: bool, crash: bool)

  predicate Possible(op: Op, outcome: Outcome) {
    outcome.Success? && op.WriteOp? ==> Fits(op.address, |op.data|)
  }

  function Carried(mem: Memory, op: Op, outcome: Outcome): (Reply, Memory) {
    var effect := if op.WriteOp? && (outcome.Success? || outcome.reached) then WriteMemory(mem, op.address, op.data)
                  else mem;
    match outcome
    case Failure(_, crash) => (if crash then Crashed else LinkDown, effect)
    case Success => (if op.ReadOp? then Data(ReadMemory(mem, op.address, op.length)) else Acked, effect)
  }

  function ReplyFor(op: Op, ended: Ended): Reply {
    match ended
    case Raised(unexpected) => if unexpected then Crashed else LinkDown
    case Replied(frame) => if op.ReadOp? then Data(frame.data) else Acked
  }

  /** The retrying client over an unreliable link is one of the outcomes the job model allows. */
  lemma ClientCarriesJobs(fates: nat -> Fate, connected: bool, w: Wire, op: Op, tries: nat) returns (outcome: Outcome)
    requires op.WellFormed()
    ensures var (ended, _, w') := Requested(fates, connected, w, op.ToRequest(), tries, CONNECTION_ATTEMPTS);
      Possible(op, outcome) && Carried(w.mem, op, outcome) == (ReplyFor(op, ended), w'.mem)
  {
    var q := op.ToRequest();
    var (ended, _, w') := Requested(fates, connected, w, q, tries, CONNECTION_ATTEMPTS);
    RetriesActAsOneDelivery(fates, connected, w, q, tries, CONNECTION_ATTEMPTS);
    MachineCarries(w.mem, op);
    outcome := if ended.Replied? then Success else Failure(w'.mem != w.mem, ended.unexpected);
    if ended.Replied? {
      ReplyParses(w.mem, q);
    }
  }

  /**
   * The unexpected error of a job is real: `close_link` running in the pause before a job's first write
   * makes the job end in it, with the machine untouched.
   */
  lemma CloseUnderJobCrashes(fates: nat -> Fate, w: Wire, op: Op, tries: nat)
    requires op.WellFormed() && tries > 0 && fates(w.sends) == Severed(false)
    ensures var (ended, open, w') := Requested(fates, true, w, op.ToRequest(), tries, CONNECTION_ATTEMPTS);
      && !open
      && (ReplyFor(op, ended), w'.mem) == (Crashed, w.mem) == Carried(w.mem, op, Failure(false, true))
  {
    hide Heard, Answer, Framing.Request.Text, Requested;
    var q := op.ToRequest();
    assert SeveredWithin(fates, w.sends, tries);
    CloseUnderExchangeRaises(fates, w, q, tries, CONNECTION_ATTEMPTS);
    TryActsAtMostOnce(fates, w, q, false);
    assert Try(fates, w, q, false).1.mem == w.mem;
  }

  lemma MachineCarries(mem: Memory, op: Op)
    requires op.WellFormed()
    ensures var q := op.ToRequest();
      && Answer(mem, q.Text()).1 == (if op.ReadOp? then mem else WriteMemory(mem, op.address, op.data))
      && Answer(mem, q.Text()).0.Some? == (op.ReadOp? || Fits(op.address, |op.data|))
  {
    hide ParseFrame;
    Framing.RequestParts(op.ToRequest());
  }

  // -- the class -------------------------------------------------------------

  class DeviceGovernor {
    const client: R60VClient
    var queue: seq<Job>
    var counter: nat
    var current: Option<Job>
    var done: seq<Done>

    ghost predicate Valid()
      reads this, client, client.link, client.link.machine
    {
      && client.Valid()
      && (forall j :: j in queue ==> j.op.WellFormed())
      && (current.Some? ==> current.value.op.WellFormed())
    }

    ghost function State(): Gov
      reads this
    {
      Gov(queue, counter, current, done)
    }

    constructor (client: R60VClient)
      requires client.Valid()
      ensures Valid() && this.client == client && State() == IDLE
    {
      this.client := client;
      queue, counter, current, done := [], 0, None, [];
    }

    /** `_submit`: returns the ticket whose future the caller awaits. */
    method Submit(priority: int, op: Op, owner: Owner) returns (ticket: nat)
      requires Valid() && op.WellFormed()
      modifies this
      ensures Valid() && ticket == old(counter)
      ensures State() == Submitted(old(State()), priority, op, owner)
    {
      var job := Job(priority, counter, op, owner);
      ticket, counter := counter, counter + 1;
      InsertMembers(queue, job);
      queue := Insert(queue, job);
    }

    /** First half of a worker turn: take the next job. */
    method Take()
      requires Valid() && current.None? && queue != []
      modifies this
      ensures Valid() && State() == Taken(old(State()))
    {
      current, queue := Some(queue[0]), queue[1..];
    }

    /** Second half: carry the job out through the client and resolve its future. */
    method Finish()
      requires Valid() && current.Some?
      modifies this, client, client.link, client.link.machine.settings
      ensures Valid()
      ensures var op := old(current).value.op;
        var (ended, open, wire) := Requested(client.link.fates, old(client.connected), old(client.link.State()),
                                             op.ToRequest(), client.maxRetries + 1, CONNECTION_ATTEMPTS);
        && client.connected == open && client.link.State() == wire
        && State() == Finished(old(State()), ReplyFor(op, ended))
    {
      hide Requested, ReplyFor, MachineModel.Contents;
      var job := current.value;
      var ended := client.Send(job.op.ToRequest());
      done := done + [Done(job, ReplyFor(job.op, ended))];
      current := None;
    }

    /** The caller of the oldest resolved future runs again. */
    method Resume() returns (finished: Done)
      requires Valid() && done != []
      modifies this
      ensures Valid() && finished == old(done)[0] && State() == Resumed(old(State()))
    {
      finished, done := done[0], done[1..];
    }
  }
}
