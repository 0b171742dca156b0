/**
 * The bridge as its parts see it: the store sees a history of readings and verdicts, the governor a history of
 * submissions, and each is the bridge's own store and governor.
 */
module Refinement {
  import opened Machine
  import opened Governor
  import opened Store
  import opened Bridge
  import opened Coherence
  import opened Overlay
  import StoreLaws
  import Linearization

  // -- the store ----------------------------------------------------------------------

  /** What a settings read tells the store when its caller counts it. */
  function ReadEvents(reply: Reply): seq<StoreLaws.StoreEvent> {
    match reply
    case Data(bytes) => [StoreLaws.SettingsRead(bytes), StoreLaws.Success]
    case LinkDown => [StoreLaws.Failure]
    case _ => []
  }

  /** What the delivery of one reply tells the store. */
  function ReplyEvents(s: Bridge, d: Done, now: real): seq<StoreLaws.StoreEvent> {
    match d.job.owner
    case LanClient => []
    case Poller =>
      if !d.reply.Data? then []
      else if d.job.op == ReadOp(0, 115) then [StoreLaws.SettingsRead(d.reply.bytes)]
      else [StoreLaws.LiveRead(d.job.op.address, d.reply.bytes, now)]
    case Mqtt =>
      if d.job.op.ReadOp? then ReadEvents(d.reply) else if d.reply.LinkDown? then [StoreLaws.Failure] else []
    case Consumer =>
      if s.phase.Reading? then ReadEvents(d.reply)
      else if !s.phase.Writing? || d.reply.Crashed? || (d.reply.LinkDown? && s.phase.attempt < 2) then []
      else
        [StoreLaws.Reconcile(Bytes(s.phase.intent.address, s.phase.intent.data))]
        + if d.reply.LinkDown? then [StoreLaws.Failure] else []
  }

  function VerdictEvent(verdict: Verdict): StoreLaws.StoreEvent {
    match verdict
    case Reachable => StoreLaws.Success
    case Missing => StoreLaws.Failure
    case Stuck => StoreLaws.Wedge
  }

  function MoveEvents(s: Bridge, m: Move): seq<StoreLaws.StoreEvent>
    requires Enabled(s, m)
  {
    match m
    case Command(address, data) => if MustTake(s, data) then [StoreLaws.Command(address, data)] else []
    case Deliver(now) => ReplyEvents(s, s.gov.done[0], now)
    case Judge(verdict) => [VerdictEvent(verdict)]
    case _ => []
  }

  function RunEvents(s: Bridge, moves: seq<Move>): seq<StoreLaws.StoreEvent>
    requires Runs(s, moves)
    decreases |moves|
  {
    if moves == [] then [] else MoveEvents(s, moves[0]) + RunEvents(Next(s, moves[0]), moves[1..])
  }

  lemma FedTwice(s: Store, one: StoreLaws.StoreEvent, two: StoreLaws.StoreEvent)
    ensures StoreLaws.Fed(s, [], 4) == s
    ensures StoreLaws.Fed(s, [one], 4) == StoreLaws.Seen(s, one, 4)
    ensures StoreLaws.Fed(s, [one, two], 4) == StoreLaws.Seen(StoreLaws.Seen(s, one, 4), two, 4)
  {
    hide StoreLaws.Seen;
    StoreLaws.FedLast(s, [], one, 4);
    StoreLaws.FedLast(s, [one], two, 4);
    assert [] + [one] == [one] && [one] + [two] == [one, two];
  }

  lemma MoveFeedsStore(s: Bridge, m: Move)
    requires Enabled(s, m)
    ensures Next(s, m).store == StoreLaws.Fed(s.store, MoveEvents(s, m), 4)
  {
    hide Insert, Carried, StoreLaws.Fed, Bytes, Spent, Overlaid, Reflected;
    FedTwice(s.store, StoreLaws.Success, StoreLaws.Failure);
    match m
    case Command(address, data) =>
      AdmissionExactly(s, address, data);
      FedTwice(s.store, StoreLaws.Command(address, data), StoreLaws.Failure);
    case Judge(verdict) => FedTwice(s.store, VerdictEvent(verdict), StoreLaws.Failure);
    case Deliver(now) => DeliveryFeedsStore(s, now);
    case _ =>
  }

  lemma DeliveryFeedsStore(s: Bridge, now: real)
    requires Enabled(s, Deliver(now))
    ensures Next(s, Deliver(now)).store == StoreLaws.Fed(s.store, MoveEvents(s, Deliver(now)), 4)
  {
    hide Insert, StoreLaws.Fed, Bytes, Spent, Overlaid;
    var d := s.gov.done[0];
    FedTwice(s.store, StoreLaws.Failure, StoreLaws.Failure);
    if d.reply.Data? {
      FedTwice(s.store, StoreLaws.SettingsRead(d.reply.bytes), StoreLaws.Success);
      FedTwice(s.store, StoreLaws.LiveRead(d.job.op.address, d.reply.bytes, now), StoreLaws.Success);
    }
    if s.phase.Writing? {
      var spent := StoreLaws.Reconcile(Bytes(s.phase.intent.address, s.phase.intent.data));
      FedTwice(s.store, spent, StoreLaws.Failure);
      assert [spent] + [StoreLaws.Failure] == [spent, StoreLaws.Failure];
      assert [spent] + [] == [spent];
    }
  }

  lemma {:induction false} RunFeedsStore(s: Bridge, moves: seq<Move>)
    requires Runs(s, moves)
    ensures Run(s, moves).store == StoreLaws.Fed(s.store, RunEvents(s, moves), 4)
    decreases |moves|
  {
    hide Next, Enabled, MoveEvents, StoreLaws.Fed, StoreLaws.Seen;
    if moves == [] {
      FedTwice(s.store, StoreLaws.Success, StoreLaws.Success);
    } else {
      var s1 := Next(s, moves[0]);
      MoveFeedsStore(s, moves[0]);
      RunFeedsStore(s1, moves[1..]);
      StoreLaws.FedJoin(s.store, MoveEvents(s, moves[0]), RunEvents(s1, moves[1..]), 4);
    }
  }

  /**
   * In every run from power-on the store is the one its history makes, so the house sees the machine offline
   * exactly when, since the last counted success, the loop declared a wedge or four failures were counted.
   */
  lemma BridgeStoreIsItsHistory(mem: Memory, moves: seq<Move>)
    requires Runs(Powered(mem), moves)
    ensures var events := RunEvents(Powered(mem), moves);
      var store := Run(Powered(mem), moves).store;
      && store == StoreLaws.StoreAfter(events, 4)
      && (!store.Verdict() <==> StoreLaws.WedgeSinceSuccess(events) || StoreLaws.FailuresSinceSuccess(events) >= 4)
  {
    hide Runs, Run, RunEvents, StoreLaws.StoreAfter, StoreLaws.Fed;
    RunFeedsStore(Powered(mem), moves);
    StoreLaws.FedFromFresh(RunEvents(Powered(mem), moves), 4);
    StoreLaws.OfflineExactly(RunEvents(Powered(mem), moves), 4);
  }

  // -- the governor -------------------------------------------------------------------

  function ReadAgain(owner: Owner): Linearization.Event {
    Linearization.Submit(10, ReadOp(0, 115), owner)
  }

  /** What the delivery of a reply submits next: the settings read after a write that is over. */
  function FollowUp(s: Bridge, d: Done): seq<Linearization.Event> {
    if d.job.owner == Mqtt && d.job.op.WriteOp? && d.reply.Acked? then [ReadAgain(Mqtt)]
    else if d.job.owner == Consumer && s.phase.Writing? && !d.reply.Crashed?
      && (d.reply.LinkDown? ==> s.phase.attempt >= 2) then [ReadAgain(Consumer)]
    else []
  }

  function LinkEvents(s: Bridge, m: Move): seq<Linearization.Event>
    requires Enabled(s, m)
  {
    match m
    case BeginWrite =>
      [Linearization.Submit(0, WriteOp(s.phase.intent.address, s.phase.intent.data), Consumer)]
    case Foreign(owner, op) => [Linearization.Submit(if op.ReadOp? then 10 else 0, op, owner)]
    case Dispatch => [Linearization.Take]
    case Complete(outcome) => [Linearization.Finish(outcome)]
    case Deliver(_) => [Linearization.Resume] + FollowUp(s, s.gov.done[0])
    case _ => []
  }

  function LinkRun(s: Bridge, moves: seq<Move>): seq<Linearization.Event>
    requires Runs(s, moves)
    decreases |moves|
  {
    if moves == [] then [] else LinkEvents(s, moves[0]) + LinkRun(Next(s, moves[0]), moves[1..])
  }

  predicate Mirrors(r: Linearization.Record, s: Bridge) {
    r.gov == s.gov && r.mem == s.mem
  }

  lemma LinkStep(r: Linearization.Record, s: Bridge, m: Move)
    requires Mirrors(r, s) && Coherent(s) && Enabled(s, m)
    ensures Linearization.Runs(r, LinkEvents(s, m))
    ensures Mirrors(Linearization.Run(r, LinkEvents(s, m)), Next(s, m))
  {
    hide Insert, Carried, Reconciled, ReadNoted, Recent, ConsumerJobs, Coherent;
    if m.Command? {
      CommandLeavesLink(s, m.address, m.data);
    } else if m.Deliver? {
      LinkDelivery(r, s, m.now);
    } else if LinkEvents(s, m) != [] {
      OneEvent(r, LinkEvents(s, m)[0]);
      assert LinkEvents(s, m) == [LinkEvents(s, m)[0]];
    }
  }

  lemma OneEvent(r: Linearization.Record, e: Linearization.Event)
    requires Linearization.Enabled(r, e)
    ensures Linearization.Runs(r, [e]) && Linearization.Run(r, [e]) == Linearization.Step(r, e)
  {
    hide Linearization.Step, Linearization.Enabled;
    assert [e][1..] == [];
  }

  lemma LinkDelivery(r: Linearization.Record, s: Bridge, now: real)
    requires Mirrors(r, s) && Coherent(s) && Enabled(s, Deliver(now))
    ensures var events := LinkEvents(s, Deliver(now));
      Linearization.Runs(r, events) && Mirrors(Linearization.Run(r, events), Next(s, Deliver(now)))
  {
    hide Insert, Reconciled, ReadNoted, Recent, ConsumerJobs, Pipeline, KnownReads;
    var d := s.gov.done[0];
    assert d in s.gov.done;
    OneEvent(r, Linearization.Resume);
    var r1 := Linearization.Step(r, Linearization.Resume);
    var rest := FollowUp(s, d);
    if rest != [] {
      OneEvent(r1, rest[0]);
      assert rest == [rest[0]];
    }
    var events := [Linearization.Resume] + rest;
    assert events[0] == Linearization.Resume && events[1..] == rest;
  }

  lemma {:induction false} RunMirrors(r: Linearization.Record, s: Bridge, moves: seq<Move>)
    requires Mirrors(r, s) && Coherent(s) && Runs(s, moves)
    ensures Linearization.Runs(r, LinkRun(s, moves))
    ensures Mirrors(Linearization.Run(r, LinkRun(s, moves)), Run(s, moves))
    decreases |moves|
  {
    hide Next, Enabled, LinkEvents, Coherent, Linearization.Step, Linearization.Enabled, Mirrors;
    if moves != [] {
      var s1 := Next(s, moves[0]);
      LinkStep(r, s, moves[0]);
      MoveKeepsCoherent(s, moves[0]);
      var r1 := Linearization.Run(r, LinkEvents(s, moves[0]));
      RunMirrors(r1, s1, moves[1..]);
      LinkRunsJoin(r, LinkEvents(s, moves[0]), LinkRun(s1, moves[1..]));
    }
  }

  lemma {:induction false} LinkRunsJoin(
    r: Linearization.Record, one: seq<Linearization.Event>, two: seq<Linearization.Event>)
    requires Linearization.Runs(r, one) && Linearization.Runs(Linearization.Run(r, one), two)
    ensures Linearization.Runs(r, one + two)
    ensures Linearization.Run(r, one + two) == Linearization.Run(Linearization.Run(r, one), two)
    decreases |one|
  {
    hide Linearization.Step, Linearization.Enabled;
    if one == [] {
      assert one + two == two;
    } else {
      assert (one + two)[1..] == one[1..] + two;
      LinkRunsJoin(Linearization.Step(r, one[0]), one[1..], two);
    }
  }

  /**
   * The link of every run of the bridge is a run of the governor, so it is linear: each job the bridge submits
   * is carried out once, one at a time, and answered accordingly.
   */
  lemma BridgeLinkIsLinear(mem: Memory, moves: seq<Move>)
    requires Runs(Powered(mem), moves)
    ensures var start := Linearization.Opening(mem);
      var events := LinkRun(Powered(mem), moves);
      && Linearization.Runs(start, events)
      && Linearization.Run(start, events).gov == Run(Powered(mem), moves).gov
      && Linearization.Run(start, events).mem == Run(Powered(mem), moves).mem
      && Linearization.Linear(Linearization.Run(start, events), mem)
  {
    hide Runs, Run, LinkRun, Linearization.Linear, Linearization.Runs, Linearization.Run, Coherent;
    PoweredIsCoherent(mem);
    RunMirrors(Linearization.Opening(mem), Powered(mem), moves);
    Linearization.RunsAreLinear(mem, LinkRun(Powered(mem), moves));
  }
}
