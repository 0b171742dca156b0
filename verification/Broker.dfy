/** The orchestrator of bridge/r60v_broker/broker.py: each method is the code of one move of the bridge. */
module Broker {
  import opened Machine
  import opened Client
  import opened Governor
  import opened Store
  import opened Wedge
  import opened Bridge

  /** The store and the wedge recovery a broker is built from, with the settings it gives them: none. */
  method ShippedParts(publisher: StatePublisher) returns (store: DeviceState, recovery: WedgeRecovery)
    ensures fresh(store) && fresh(recovery)
    ensures store.grace == 4 && store.staleAfter == 12.0 && store.step == 1 && store.State() == Fresh()
    ensures recovery.policy == Policy(45.0, [300.0, 600.0, 1200.0, 1800.0], 2) && recovery.State() == POLLING
  {
    store := new DeviceState(publisher);
    recovery := new WedgeRecovery();
  }

  class Broker {
    const governor: DeviceGovernor
    const store: DeviceState
    var intents: seq<Intent>
    var phase: Phase

    ghost predicate Valid()
      reads this, governor, governor.client, governor.client.link, governor.client.link.machine
    {
      governor.Valid() && store.grace == AVAILABILITY_GRACE
    }

    ghost function State(): Bridge
      requires Valid()
      reads this, governor, governor.client, governor.client.link, governor.client.link.machine,
            governor.client.link.machine.settings, store
    {
      Bridge(governor.client.link.machine.Contents(), governor.State(), intents, phase, store.State())
    }

    constructor (governor: DeviceGovernor, store: DeviceState)
      requires governor.Valid() && store.grace == AVAILABILITY_GRACE
      requires governor.State() == IDLE && store.State() == Fresh()
      ensures Valid() && this.governor == governor && this.store == store
      ensures State() == Powered(governor.client.link.machine.Contents())
    {
      this.governor, this.store := governor, store;
      intents, phase := [], Idle;
    }

    /** `_on_ws_command`: enqueue first, then reflect. */
    method OnWsCommand(address: nat, data: seq<int>)
      requires Valid()
      modifies this, store, store.publisher
      ensures Valid() && State() == Next(old(State()), Command(address, data))
    {
      if data == [] || exists i :: 0 <= i < |data| && (data[i] < 0 || data[i] > 0xFF) {
        return;
      }
      if |intents| >= INTENT_QUEUE_MAX {
        return;
      }
      intents := intents + [Intent(address, data)];
      var shown := store.ApplyOptimistic(address, data);
    }

    /** `_write_intent_loop`: the single consumer takes the next intent. */
    method GetIntent()
      requires Valid() && Enabled(State(), TakeIntent)
      modifies this
      ensures Valid() && State() == Next(old(State()), TakeIntent)
    {
      phase, intents := Waiting(intents[0], 0), intents[1..];
    }

    /** The cooldown wait or the retry pause is over: submit one attempt. */
    method SubmitWrite()
      requires Valid() && Enabled(State(), BeginWrite) && phase.intent.WriteOp().WellFormed()
      modifies this, governor
      ensures Valid() && State() == Next(old(State()), BeginWrite)
    {
      hide Insert;
      var ticket := governor.Submit(PRIORITY_COMMAND, phase.intent.WriteOp(), Consumer);
      phase := Writing(phase.intent, phase.attempt);
    }

    /** The rest of `_write_and_reconcile` after a write attempt came back. */
    method AfterWrite(reply: Reply)
      requires Valid() && phase.Writing?
      modifies this, governor, store, store.publisher
      ensures Valid() && State() == WriteReturned(old(State()), reply)
    {
      hide Insert, Bytes, Spent;
      var i := phase.intent;
      if reply.Crashed? {
        phase := Idle;
        return;
      }
      if reply.LinkDown? && phase.attempt < WRITE_RETRIES {
        phase := Waiting(i, phase.attempt + 1);
        return;
      }
      store.ReconcileClear(Bytes(i.address, i.data));
      if reply.LinkDown? {
        store.NoteFailure();
      }
      var ticket := governor.Submit(PRIORITY_POLL, READ_SETTINGS, Consumer);
      phase := Reading(i);
    }

    method NoteRead(reply: Reply)
      requires Valid()
      modifies store, store.publisher
      ensures Valid() && State() == old(State()).(store := ReadNoted(old(State()).store, reply))
    {
      match reply
      case Data(bytes) =>
        store.UpdateSettings(bytes);
        store.NoteSuccess();
      case LinkDown => store.NoteFailure();
      case Acked =>
      case Crashed =>
    }

    method AfterPoll(op: Op, reply: Reply, now: real)
      requires Valid()
      modifies store, store.publisher
      ensures Valid() && State() == PollReturned(old(State()), op, reply, now)
    {
      if reply.Data? {
        if op == READ_SETTINGS {
          store.UpdateSettings(reply.bytes);
        } else {
          store.UpdateLive(op.address, reply.bytes, now);
        }
      }
    }

    /** `_apply_command` after its write or its read came back. */
    method AfterMqtt(op: Op, reply: Reply)
      requires Valid()
      modifies governor, store, store.publisher
      ensures Valid() && State() == MqttReturned(old(State()), op, reply)
    {
      hide Insert;
      if op.ReadOp? {
        NoteRead(reply);
      } else if reply.Acked? {
        var ticket := governor.Submit(PRIORITY_POLL, READ_SETTINGS, Mqtt);
      } else if reply.LinkDown? {
        store.NoteFailure();
      }
    }

    /** The caller of the oldest resolved job resumes. */
    method RunCaller(now: real)
      requires Valid() && Enabled(State(), Deliver(now))
      modifies this, governor, store, store.publisher
      ensures Valid() && State() == Next(old(State()), Deliver(now))
    {
      hide WriteReturned, PollReturned, MqttReturned, ReadNoted;
      var d := governor.Resume();
      match d.job.owner
      case Consumer =>
        if phase.Writing? {
          AfterWrite(d.reply);
        } else if phase.Reading? {
          NoteRead(d.reply);
          phase := Idle;
        }
      case Poller => AfterPoll(d.job.op, d.reply, now);
      case Mqtt => AfterMqtt(d.job.op, d.reply);
      case LanClient =>
    }

    method RunWorker()
      requires Valid() && Enabled(State(), Dispatch)
      modifies governor
      ensures Valid() && State() == Next(old(State()), Dispatch)
    {
      governor.Take();
    }

    /** The worker's I/O through the retrying client is one of the outcomes a move may have. */
    method FinishJob() returns (ghost outcome: Outcome)
      requires Valid() && governor.current.Some?
      modifies governor, governor.client, governor.client.link, governor.client.link.machine.settings
      ensures Valid() && Enabled(old(State()), Complete(outcome))
      ensures State() == Next(old(State()), Complete(outcome))
    {
      hide Requested, Carried, ReplyFor, MachineModel.Contents;
      var op := governor.current.value.op;
      var client := governor.client;
      ghost var wire := client.link.State();
      outcome := ClientCarriesJobs(client.link.fates, client.connected, wire, op, client.maxRetries + 1);
      governor.Finish();
    }
  }
}
