/** Every run of the governor is linear: one job at a time, in priority order, nothing lost or repeated. */
module Linearization {
  import opened Machine
  import opened Governor

  datatype Event =
    | Submit(priority: int, op: Op, owner: Owner)
    | Take
    | Finish(outcome: Outcome)
    | Resume

  /** The governor with its device and a full history: what was submitted and what finished, with outcomes. */
  datatype Record = Record(gov: Gov, mem: Memory, submitted: seq<Job>, finished: seq<Done>, outcomes: seq<Outcome>)

  predicate Enabled(r: Record, e: Event) {
    match e
    case Submit(_, _, _) => true
    case Take => r.gov.current.None? && r.gov.queue != []
    case Finish(outcome) => r.gov.current.Some? && Possible(r.gov.current.value.op, outcome)
    case Resume => r.gov.done != []
  }

  function Step(r: Record, e: Event): Record
    requires Enabled(r, e)
  {
    match e
    case Submit(priority, op, owner) =>
      r.(gov := Submitted(r.gov, priority, op, owner),
         submitted := r.submitted + [Job(priority, r.gov.next, op, owner)])
    case Take => r.(gov := Taken(r.gov))
    case Finish(outcome) =>
      var job := r.gov.current.value;
      var (reply, mem) := Carried(r.mem, job.op, outcome);
      r.(gov := Finished(r.gov, reply), mem := mem,
         finished := r.finished + [Done(job, reply)], outcomes := r.outcomes + [outcome])
    case Resume => r.(gov := Resumed(r.gov))
  }

  predicate Runs(r: Record, events: seq<Event>)
    decreases |events|
  {
    events != [] ==> Enabled(r, events[0]) && Runs(Step(r, events[0]), events[1..])
  }

  function Run(r: Record, events: seq<Event>): Record
    requires Runs(r, events)
    decreases |events|
  {
    if events == [] then r else Run(Step(r, events[0]), events[1..])
  }

  /** Jobs in the order the worker took them. */
  function Started(r: Record): seq<Job> {
    Jobs(r.finished) + if r.gov.current.Some? then [r.gov.current.value] else []
  }

  /** Memory after carrying out jobs one at a time, each with its outcome. */
  function Replayed(mem: Memory, jobs: seq<Job>, outcomes: seq<Outcome>): Memory
    requires |jobs| == |outcomes|
  {
    if jobs == [] then mem
    else
      var n := |jobs| - 1;
      Carried(Replayed(mem, jobs[..n], outcomes[..n]), jobs[n].op, outcomes[n]).1
  }

  /** Nothing submitted is lost, invented or run twice. */
  ghost predicate Conserved(r: Record) {
    && |r.submitted| == r.gov.next
    && (forall k :: 0 <= k < |r.submitted| ==> r.submitted[k].ticket == k)
    && multiset(r.submitted) == multiset(Started(r)) + multiset(r.gov.queue)
  }

  /** Replies and memory are those of running the finished jobs one at a time, in start order. */
  ghost predicate Replays(r: Record, initial: Memory) {
    && |r.outcomes| == |r.finished|
    && (forall k :: 0 <= k < |r.finished| ==> r.finished[k].reply == ReplyAt(r, initial, k))
    && r.mem == Replayed(initial, Jobs(r.finished), r.outcomes)
  }

  function ReplyAt(r: Record, initial: Memory, k: nat): Reply
    requires |r.outcomes| == |r.finished| && k < |r.finished|
  {
    Carried(Replayed(initial, Jobs(r.finished)[..k], r.outcomes[..k]), r.finished[k].job.op, r.outcomes[k]).0
  }

  /** Callers resume in completion order. */
  ghost predicate ResumesInOrder(r: Record) {
    |r.gov.done| <= |r.finished| && r.gov.done == r.finished[|r.finished| - |r.gov.done|..]
  }

  ghost predicate Linear(r: Record, initial: Memory) {
    Conserved(r) && Replays(r, initial) && ResumesInOrder(r)
  }

  predicate Sorted(queue: seq<Job>) {
    forall i, j :: 0 <= i < j < |queue| ==> Before(queue[i], queue[j])
  }

  lemma {:induction false} InsertKeepsOrder(queue: seq<Job>, job: Job)
    requires Sorted(queue)
    requires forall j :: j in queue ==> j.ticket < job.ticket
    ensures Sorted(Insert(queue, job))
  {
    if queue == [] || Before(job, queue[0]) {
    } else {
      InsertKeepsOrder(queue[1..], job);
      InsertMembers(queue[1..], job);
      var rest := Insert(queue[1..], job);
      forall i | 0 <= i < |rest| ensures Before(queue[0], rest[i]) {
        assert rest[i] in rest;
      }
    }
  }

  ghost predicate Orderly(g: Gov) {
    Sorted(g.queue) && forall j :: j in g.queue ==> j.ticket < g.next
  }

  lemma StepKeepsOrder(r: Record, e: Event)
    requires Orderly(r.gov) && Enabled(r, e)
    ensures Orderly(Step(r, e).gov)
  {
    if e.Submit? {
      var job := Job(e.priority, r.gov.next, e.op, e.owner);
      InsertKeepsOrder(r.gov.queue, job);
      InsertMembers(r.gov.queue, job);
    }
  }

  /** Every dispatch takes the least (priority, ticket) queued. */
  lemma DispatchTakesLeast(g: Gov, job: Job)
    requires Orderly(g) && g.current.None? && job in g.queue
    ensures var first := Taken(g).current.value; first == job || Before(first, job)
  {
    var i :| 0 <= i < |g.queue| && g.queue[i] == job;
    assert i == 0 || Before(g.queue[0], g.queue[i]);
  }

  lemma StartedAfter(r: Record, e: Event)
    requires Enabled(r, e)
    ensures Started(Step(r, e)) == Started(r) + if e.Take? then [r.gov.queue[0]] else []
  {
    hide Carried, Insert;
  }

  /** The bookkeeping of a submission, on job lists alone. */
  lemma SubmitBalances(submitted: seq<Job>, started: seq<Job>, queue: seq<Job>, job: Job)
    requires multiset(submitted) == multiset(started) + multiset(queue)
    ensures multiset(submitted + [job]) == multiset(started) + multiset(Insert(queue, job))
  {
    InsertMembers(queue, job);
  }

  lemma TakeBalances(submitted: seq<Job>, started: seq<Job>, queue: seq<Job>)
    requires multiset(submitted) == multiset(started) + multiset(queue) && queue != []
    ensures multiset(submitted) == multiset(started + [queue[0]]) + multiset(queue[1..])
  {
    assert queue == [queue[0]] + queue[1..];
  }

  lemma StepConserves(r: Record, e: Event)
    requires Conserved(r) && Enabled(r, e)
    ensures Conserved(Step(r, e))
  {
    hide Carried, Insert, Started;
    StartedAfter(r, e);
    assert Started(r) + [] == Started(r);
    if e.Submit? {
      SubmitBalances(r.submitted, Started(r), r.gov.queue, Job(e.priority, r.gov.next, e.op, e.owner));
    } else if e.Take? {
      TakeBalances(r.submitted, Started(r), r.gov.queue);
    }
  }

  lemma FinishReplays(r: Record, outcome: Outcome, initial: Memory)
    requires Replays(r, initial) && Enabled(r, Finish(outcome))
    ensures Replays(Step(r, Finish(outcome)), initial)
  {
    hide Finished, Carried;
    var r' := Step(r, Finish(outcome));
    var n := |r.finished|;
    assert Jobs(r'.finished)[..n] == Jobs(r.finished) && r'.outcomes[..n] == r.outcomes;
    forall k | 0 <= k < n
      ensures r'.finished[k].reply == ReplyAt(r', initial, k)
    {
      assert Jobs(r'.finished)[..k] == Jobs(r.finished)[..k] && r'.outcomes[..k] == r.outcomes[..k];
      assert r.finished[k].reply == ReplyAt(r, initial, k);
    }
  }

  lemma StepKeepsLinear(r: Record, e: Event, initial: Memory)
    requires Linear(r, initial) && Enabled(r, e)
    ensures Linear(Step(r, e), initial)
  {
    hide Conserved, Replayed, Carried;
    StepConserves(r, e);
    if e.Finish? {
      FinishReplays(r, e.outcome, initial);
    } else {
      assert forall k :: 0 <= k < |r.finished| ==> ReplyAt(Step(r, e), initial, k) == ReplyAt(r, initial, k);
    }
  }

  lemma {:induction false} RunsKeepLinear(r: Record, events: seq<Event>, initial: Memory)
    requires Linear(r, initial) && Orderly(r.gov) && Runs(r, events)
    ensures Linear(Run(r, events), initial) && Orderly(Run(r, events).gov)
    decreases |events|
  {
    if events != [] {
      StepKeepsLinear(r, events[0], initial);
      StepKeepsOrder(r, events[0]);
      RunsKeepLinear(Step(r, events[0]), events[1..], initial);
    }
  }

  function Opening(mem: Memory): Record {
    Record(IDLE, mem, [], [], [])
  }

  lemma StartIsLinear(mem: Memory)
    ensures Linear(Opening(mem), mem) && Orderly(IDLE)
  {
  }

  /**
   * In every run of a governor from its start, no submitted job is lost, invented or repeated, every
   * caller is answered as if the started jobs had run one at a time in start order, and callers resume
   * in completion order.
   */
  lemma RunsAreLinear(mem: Memory, events: seq<Event>)
    requires Runs(Opening(mem), events)
    ensures Linear(Run(Opening(mem), events), mem) && Orderly(Run(Opening(mem), events).gov)
  {
    hide Linear, Runs, Run;
    StartIsLinear(mem);
    RunsKeepLinear(Opening(mem), events, mem);
  }

  /** No job is carried out twice: tickets are never repeated among the started jobs. */
  lemma StartedOnce(r: Record, initial: Memory, i: nat, j: nat)
    requires Linear(r, initial) && i < j < |Started(r)|
    ensures Started(r)[i].ticket != Started(r)[j].ticket
  {
    var started := Started(r);
    if started[i].ticket == started[j].ticket {
      var t := started[i].ticket;
      assert started[i] in multiset(r.submitted) && started[j] in multiset(r.submitted);
      assert started[i] == r.submitted[t] == started[j];
      OnceInHistory(r.submitted, t);
      TwiceIn(started, i, j);
      assert false;
    }
  }

  lemma OnceInHistory(jobs: seq<Job>, t: nat)
    requires t < |jobs| && forall k :: 0 <= k < |jobs| ==> jobs[k].ticket == k
    ensures multiset(jobs)[jobs[t]] == 1
  {
    assert jobs == jobs[..t] + [jobs[t]] + jobs[t + 1..];
    assert jobs[t] !in jobs[..t] && jobs[t] !in jobs[t + 1..];
  }

  lemma TwiceIn(jobs: seq<Job>, i: nat, j: nat)
    requires i < j < |jobs| && jobs[i] == jobs[j]
    ensures multiset(jobs)[jobs[i]] >= 2
  {
    assert jobs == jobs[..i] + [jobs[i]] + jobs[i + 1..j] + [jobs[j]] + jobs[j + 1..];
  }

  lemma {:induction false} StartedOnlyGrows(r: Record, events: seq<Event>)
    requires Runs(r, events)
    ensures Started(r) <= Started(Run(r, events))
    decreases |events|
  {
    if events != [] {
      StartedOnlyGrows(Step(r, events[0]), events[1..]);
      StartedAfter(r, events[0]);
    }
  }

  ghost predicate CommandsAreMostUrgent(r: Record, events: seq<Event>) {
    && (forall j :: j in r.gov.queue ==> j.priority >= PRIORITY_COMMAND)
    && (forall e :: e in events && e.Submit? ==> e.priority >= PRIORITY_COMMAND)
  }

  /**
   * Commands beat polls: once a command is queued, every job the worker starts before it is a
   * command submitted earlier.
   */
  lemma {:induction false} NothingOvertakesACommand(r: Record, events: seq<Event>, command: Job, k: nat)
    requires Orderly(r.gov) && Runs(r, events) && CommandsAreMostUrgent(r, events)
    requires command in r.gov.queue && command.priority == PRIORITY_COMMAND
    requires var started := Started(Run(r, events));
      && |Started(r)| <= k < |started|
      && forall m :: |Started(r)| <= m < k ==> started[m] != command
    ensures var job := Started(Run(r, events))[k];
      job == command || (job.priority == PRIORITY_COMMAND && job.ticket < command.ticket)
    decreases |events|
  {
    StartedOnlyGrows(r, events);
    if events != [] {
      var r1 := Step(r, events[0]);
      StepKeepsOrder(r, events[0]);
      StartedOnlyGrows(r1, events[1..]);
      StartedAfter(r, events[0]);
      if events[0].Take? {
        DispatchTakesLeast(r.gov, command);
        assert r.gov.queue[0] in r.gov.queue;
        assert r.gov.queue == [r.gov.queue[0]] + r1.gov.queue;
        assert Started(Run(r, events))[|Started(r)|] == r.gov.queue[0];
        if k > |Started(r)| {
          NothingOvertakesACommand(r1, events[1..], command, k);
        }
      } else {
        if events[0].Submit? {
          InsertMembers(r.gov.queue, Job(events[0].priority, r.gov.next, events[0].op, events[0].owner));
        }
        NothingOvertakesACommand(r1, events[1..], command, k);
      }
    }
  }
}
