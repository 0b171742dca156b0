/**
 * The half-duplex client of bridge/r60v_broker/client.py over a link that may swallow requests,
 * lose replies or break, but never delivers a reply after its timeout.
 */
module Client {
  import opened Wrappers
  import opened Protocol
  import opened ProtocolLaws
  import opened Machine
  import opened Framing

  /**
   * What the link does with one transmission. A warm-up lost to a socket error is not among them: the code
   * drops that connection, reconnects and warms up again, and such a read changes nothing.
   */
  datatype Fate =
    | Delivered               // the machine acts and its reply arrives
    | Swallowed               // the machine never sees it
    | ReplyLost               // the machine acts, nothing comes back
    | Faulted(reached: bool)  // socket fault or unparsable reply; the machine may have acted
    | Severed(reached: bool)  // close_link ran in the pause before the write, or while the write drained
  {
    predicate Reached() {
      Delivered? || ReplyLost? || ((Faulted? || Severed?) && reached)
    }

    predicate Silent() {
      Swallowed? || ReplyLost?
    }
  }

  /** The machine's memory and the transmissions begun; `warmups` counts the throwaway reads among `sends`. */
  datatype Wire = Wire(mem: Memory, sends: nat, warmups: nat)

  datatype Reception = Arrived(text: string) | Silence | Fault | Closed

  function Transmit(fates: nat -> Fate, w: Wire, frame: string, warming: bool): (Reception, Wire) {
    var fate := fates(w.sends);
    var (reply, mem) := Answer(w.mem, frame);
    var w' := Wire(if fate.Reached() then mem else w.mem, w.sends + 1, w.warmups + if warming then 1 else 0);
    if fate.Silent() then (Silence, w')
    else if fate.Severed? then (Closed, w')
    else if fate.Delivered? && reply.Some? then (Arrived(reply.value), w')
    else (Fault, w')
  }

  datatype Verdict = Got(frame: Frame) | Again | Broken | Unexpected

  /**
   * What the client makes of one transmission of `q`; it waits for exactly the expected reply length,
   * and an exchange whose socket was closed under it fails with an error nobody expects.
   */
  function Heard(q: Request, reception: Reception): Verdict
    requires q.WellFormed()
  {
    match reception
    case Silence => Again
    case Fault => Broken
    case Closed => Unexpected
    case Arrived(text) =>
      var want := ReplyLength(q);
      if |text| < want then Again
      else
        match ParseFrame(text[..want])
        case Ok(frame) => Got(frame)
        case Err(_) => Broken
  }

  function Try(fates: nat -> Fate, w: Wire, q: Request, warming: bool): (Verdict, Wire)
    requires q.WellFormed()
  {
    var (reception, w') := Transmit(fates, w, q.Text(), warming);
    (Heard(q, reception), w')
  }

  /** How an exchange or a request ends: a reply, or an exception, expected (R60VConnectionError) or not. */
  datatype Ended = Replied(frame: Frame) | Raised(unexpected: bool)

  /** One exchange on an open socket: a silent try is repeated, a fault is not. */
  function Exchange(fates: nat -> Fate, w: Wire, q: Request, tries: nat, warming: bool): (Ended, Wire)
    requires q.WellFormed()
    decreases tries
  {
    hide *;
    if tries == 0 then (Raised(false), w)
    else
      var (verdict, w') := Try(fates, w, q, warming);
      match verdict
      case Again => Exchange(fates, w', q, tries - 1, warming)
      case Broken => (Raised(false), w')
      case Unexpected => (Raised(true), w')
      case Got(frame) => (Replied(frame), w')
  }

  const WARM_UP: Request := Request.Read(SETTINGS_BASE, SETTINGS_LEN)

  /** The connection that comes up sends one throwaway read; only an unexpected error of it escapes. */
  function Connect(fates: nat -> Fate, w: Wire, tries: nat): (bool, Wire) {
    var (ended, w') := Exchange(fates, w, WARM_UP, tries, true);
    (ended != Raised(true), w')
  }

  /** The request as seen by its caller: up to `attempts` connections, each with up to `tries` transmissions. */
  function Requested(fates: nat -> Fate, connected: bool, w: Wire, q: Request, tries: nat, attempts: nat)
    : (Ended, bool, Wire)
    requires q.WellFormed()
    decreases attempts
  {
    hide *;
    if attempts == 0 then (Raised(false), connected, w)
    else
      var (up, open) := if connected then (true, w) else Connect(fates, w, tries);
      if !up then (Raised(true), false, open)
      else
        var (ended, w') := Exchange(fates, open, q, tries, false);
        if ended == Raised(false) then Requested(fates, false, w', q, tries, attempts - 1)
        else (ended, ended.Replied?, w')
  }

  const CONNECTION_ATTEMPTS: nat := 2

  /** The socket and the machine at its far end. */
  class Link {
    const machine: MachineModel
    const fates: nat -> Fate
    var sends: nat
    var warmups: nat

    ghost predicate Valid()
      reads this, machine
    {
      machine.Valid()
    }

    ghost function State(): Wire
      requires Valid()
      reads this, machine, machine.settings
    {
      Wire(machine.Contents(), sends, warmups)
    }

    constructor (machine: MachineModel, fates: nat -> Fate)
      requires machine.Valid()
      ensures Valid() && this.machine == machine && this.fates == fates
      ensures State() == Wire(machine.Contents(), 0, 0)
    {
      this.machine, this.fates := machine, fates;
      sends, warmups := 0, 0;
    }

    method Transmission(frame: string, warming: bool) returns (reception: Reception)
      requires Valid()
      modifies this, machine.settings
      ensures Valid()
      ensures (reception, State()) == Transmit(fates, old(State()), frame, warming)
    {
      var fate := fates(sends);
      sends := sends + 1;
      warmups := warmups + if warming then 1 else 0;
      reception := if fate.Silent() then Silence else if fate.Severed? then Closed else Fault;
      if fate.Reached() {
        var reply := machine.Process(frame);
        if fate.Delivered? && reply.Some? {
          reception := Arrived(reply.value);
        }
      }
    }
  }

  class R60VClient {
    const link: Link
    const maxRetries: nat
    var connected: bool

    ghost predicate Valid()
      reads this, link, link.machine
    {
      link.Valid()
    }

    constructor (link: Link, maxRetries: nat := 3)
      requires link.Valid()
      ensures Valid() && this.link == link && this.maxRetries == maxRetries && !connected
    {
      this.link, this.maxRetries := link, maxRetries;
      connected := false;
    }

    /** `_exchange`; when `close_link` ran while it waited, the next use of the socket finds none. */
    method TryExchange(q: Request, warming: bool) returns (ended: Ended)
      requires Valid() && q.WellFormed() && connected
      modifies this, link, link.machine.settings
      ensures Valid() && connected == (ended != Raised(true))
      ensures (ended, link.State()) == Exchange(link.fates, old(link.State()), q, maxRetries + 1, warming)
    {
      hide Transmit, Heard, Request.Text, MachineModel.Contents, MachineModel.Valid;
      for attempt := 0 to maxRetries + 1
        invariant Valid() && connected
        invariant Exchange(link.fates, link.State(), q, maxRetries + 1 - attempt, warming)
               == Exchange(link.fates, old(link.State()), q, maxRetries + 1, warming)
      {
        var reception := link.Transmission(q.Text(), warming);
        if reception.Closed? {
          Close();
        }
        if !connected {
          ClosedIsUnexpected(q);
          return Raised(true);
        }
        match Heard(q, reception)
        case Again =>
        case Broken => return Raised(false);
        case Unexpected => HeardUnexpected(q, reception);
        case Got(frame) => return Replied(frame);
      }
      ended := Raised(false);
    }

    method EnsureConnected() returns (up: bool)
      requires Valid()
      modifies this, link, link.machine.settings
      ensures Valid() && connected == up
      ensures (up, link.State()) == if old(connected) then (true, old(link.State()))
                                    else Connect(link.fates, old(link.State()), maxRetries + 1)
    {
      up := true;
      if !connected {
        connected := true;
        var ignored := TryExchange(WARM_UP, true);
        up := connected;
      }
    }

    method Send(q: Request) returns (ended: Ended)
      requires Valid() && q.WellFormed()
      modifies this, link, link.machine.settings
      ensures Valid()
      ensures (ended, connected, link.State())
           == Requested(link.fates, old(connected), old(link.State()), q, maxRetries + 1, CONNECTION_ATTEMPTS)
    {
      hide Exchange, Connect;
      for attempt := 0 to CONNECTION_ATTEMPTS
        invariant Valid()
        invariant Requested(link.fates, connected, link.State(), q, maxRetries + 1, CONNECTION_ATTEMPTS - attempt)
               == Requested(link.fates, old(connected), old(link.State()), q, maxRetries + 1, CONNECTION_ATTEMPTS)
      {
        var up := EnsureConnected();
        if !up {
          return Raised(true);
        }
        ended := TryExchange(q, false);
        if ended != Raised(false) {
          return;
        }
        Close();
      }
      ended := Raised(false);
    }

    /** `close`, `_drop` and the governor's `close_link`: the next request reconnects. */
    method Close()
      modifies this
      ensures !connected
    {
      connected := false;
    }
  }

  lemma ClosedIsUnexpected(q: Request)
    requires q.WellFormed()
    ensures Heard(q, Closed).Unexpected?
  {
  }

  lemma HeardUnexpected(q: Request, reception: Reception)
    requires q.WellFormed()
    ensures Heard(q, reception).Unexpected? ==> reception.Closed?
  {
  }

  // -- retries act as one delivery -----------------------------------------

  function FrameOf(ended: Ended): Frame {
    if ended.Replied? then ended.frame else Frame(READ, 0, 0, [], "", "")
  }

  lemma ReplyParses(mem: Memory, q: Request)
    requires q.WellFormed() && Answer(mem, q.Text()).0.Some?
    ensures var text := Answer(mem, q.Text()).0.value;
      && ParseFrame(text).Ok?
      && text[..|text|] == text && |text| == ReplyLength(q)
      && (q.Read? ==> ParseFrame(text).value.data == ReadMemory(mem, q.address, q.length))
  {
    RequestParts(q);
    ReplyLengthIsExpected(mem, q);
    if q.Read? {
      var bytes := ReadMemory(mem, q.address, q.length);
      FrameRoundTrip(READ, q.address, q.length, bytes);
      MaskedBytes(bytes);
    } else {
      AckRoundTrip(WRITE, q.address, |q.data|);
    }
  }

  /** The outcome of a request that was carried out exactly once on memory `mem`. */
  ghost predicate CarriedOutOnce(mem: Memory, q: Request, reply: Frame, after: Memory)
    requires q.WellFormed()
  {
    var (text, mem') := Answer(mem, q.Text());
    text.Some? && ParseFrame(text.value) == Ok(reply) && after == mem'
  }

  ghost predicate UntouchedOrOnce(mem: Memory, q: Request, after: Memory) {
    after == mem || after == Answer(mem, q.Text()).1
  }

  predicate Answerable(q: Request) {
    q.Read? || Fits(q.address, |q.data|)
  }

  /** Everything later proofs use about one transmission. */
  lemma TryActsAtMostOnce(fates: nat -> Fate, w: Wire, q: Request, warming: bool)
    requires q.WellFormed()
    ensures var (verdict, w') := Try(fates, w, q, warming);
      && UntouchedOrOnce(w.mem, q, w'.mem)
      && (verdict.Got? ==> CarriedOutOnce(w.mem, q, verdict.frame, w'.mem))
      && (verdict.Again? <==> fates(w.sends).Silent())
      && (verdict.Unexpected? <==> fates(w.sends).Severed?)
      && (verdict.Got? <==> fates(w.sends).Delivered? && Answerable(q))
      && w'.sends == w.sends + 1 && w'.warmups == w.warmups + if warming then 1 else 0
  {
    hide ParseFrame, Answer, ReplyLength;
    assert Answer(w.mem, q.Text()).0.Some? == Answerable(q) by {
      ReplyLengthIsExpected(w.mem, q);
    }
    if Answerable(q) {
      ReplyParses(w.mem, q);
    }
  }

  lemma OnceThenAgain(mem: Memory, q: Request, once: Memory, reply: Frame, after: Memory)
    requires q.WellFormed() && UntouchedOrOnce(mem, q, once)
    ensures UntouchedOrOnce(once, q, after) ==> UntouchedOrOnce(mem, q, after)
    ensures CarriedOutOnce(once, q, reply, after) ==> CarriedOutOnce(mem, q, reply, after)
  {
    hide Answer;
    AnswerTwice(mem, q.Text());
  }

  lemma {:induction false} ExchangeActsOnce(fates: nat -> Fate, w: Wire, q: Request, tries: nat, warming: bool)
    requires q.WellFormed()
    ensures var (reply, w') := Exchange(fates, w, q, tries, warming);
      && UntouchedOrOnce(w.mem, q, w'.mem)
      && (reply.Replied? ==> CarriedOutOnce(w.mem, q, reply.frame, w'.mem))
      && w.sends <= w'.sends <= w.sends + tries
      && w'.warmups - w.warmups == if warming then w'.sends - w.sends else 0
    decreases tries
  {
    hide Try, CarriedOutOnce, Fate.Silent;
    if tries > 0 {
      TryActsAtMostOnce(fates, w, q, warming);
      var (verdict, w') := Try(fates, w, q, warming);
      if verdict.Again? {
        ExchangeActsOnce(fates, w', q, tries - 1, warming);
        var (reply, w'') := Exchange(fates, w', q, tries - 1, warming);
        OnceThenAgain(w.mem, q, w'.mem, FrameOf(reply), w''.mem);
      }
    }
  }

  lemma ConnectLeavesMemory(fates: nat -> Fate, w: Wire, tries: nat)
    ensures Connect(fates, w, tries).1.mem == w.mem
    ensures var w' := Connect(fates, w, tries).1;
      w'.sends - w.sends == w'.warmups - w.warmups && w.sends <= w'.sends
  {
    hide Exchange;
    assert WARM_UP.WellFormed();
    ReadLeavesMemory(w.mem, WARM_UP);
    ExchangeActsOnce(fates, w, WARM_UP, tries, true);
  }

  lemma ReadLeavesMemory(mem: Memory, q: Request)
    requires q.WellFormed() && q.Read?
    ensures Answer(mem, q.Text()).1 == mem
  {
    hide ParseFrame, Request.Text;
    RequestParts(q);
  }

  /**
   * However the link behaves, a request that returns was carried out exactly once; one that raises
   * left the memory alone or was carried out once; and its own frame went out at most
   * `attempts * tries` times.
   */
  lemma {:induction false} RetriesActAsOneDelivery(
    fates: nat -> Fate, connected: bool, w: Wire, q: Request, tries: nat, attempts: nat)
    requires q.WellFormed()
    ensures var (reply, open, w') := Requested(fates, connected, w, q, tries, attempts);
      && UntouchedOrOnce(w.mem, q, w'.mem)
      && (reply.Replied? ==> CarriedOutOnce(w.mem, q, reply.frame, w'.mem) && open)
      && (reply.Raised? && attempts > 0 ==> !open)
      && 0 <= (w'.sends - w.sends) - (w'.warmups - w.warmups) <= attempts * tries
    decreases attempts
  {
    hide Exchange, CarriedOutOnce, Connect, Answer, Request.WellFormed, Request.Text;
    if attempts > 0 {
      assert attempts * tries == (attempts - 1) * tries + tries;
      ConnectLeavesMemory(fates, w, tries);
      var (up, open) := if connected then (true, w) else Connect(fates, w, tries);
      ExchangeActsOnce(fates, open, q, tries, false);
      var (reply, w') := Exchange(fates, open, q, tries, false);
      if up && reply == Raised(false) {
        RetriesActAsOneDelivery(fates, false, w', q, tries, attempts - 1);
        var (reply', _, w'') := Requested(fates, false, w', q, tries, attempts - 1);
        OnceThenAgain(w.mem, q, w'.mem, FrameOf(reply'), w''.mem);
      }
    }
  }

  /** The first of the next `tries` transmissions that is not met with silence is delivered. */
  ghost predicate AnsweredWithin(fates: nat -> Fate, sends: nat, tries: nat) {
    exists k :: sends <= k < sends + tries && fates(k).Delivered? && forall j :: sends <= j < k ==> fates(j).Silent()
  }

  /** Exactly when an exchange succeeds: the machine answers such a request and the link delivers in time. */
  lemma {:induction false} ExchangeSucceedsExactly(fates: nat -> Fate, w: Wire, q: Request, tries: nat, warming: bool)
    requires q.WellFormed()
    ensures Exchange(fates, w, q, tries, warming).0.Replied?
       <==> Answerable(q) && AnsweredWithin(fates, w.sends, tries)
    decreases tries
  {
    hide Try, Answerable, CarriedOutOnce;
    if tries > 0 {
      TryActsAtMostOnce(fates, w, q, warming);
      var (verdict, w') := Try(fates, w, q, warming);
      if verdict.Again? {
        ExchangeSucceedsExactly(fates, w', q, tries - 1, warming);
        assert AnsweredWithin(fates, w.sends, tries) <==> AnsweredWithin(fates, w'.sends, tries - 1);
      } else if fates(w.sends).Delivered? {
        assert AnsweredWithin(fates, w.sends, tries);
      }
    }
  }

  /** The first of the next `tries` transmissions that is not met with silence has its socket closed under it. */
  ghost predicate SeveredWithin(fates: nat -> Fate, sends: nat, tries: nat) {
    exists k :: sends <= k < sends + tries && fates(k).Severed? && forall j :: sends <= j < k ==> fates(j).Silent()
  }

  /** Exactly when an exchange dies of an unexpected error. */
  lemma {:induction false} ExchangeDiesExactly(fates: nat -> Fate, w: Wire, q: Request, tries: nat, warming: bool)
    requires q.WellFormed()
    ensures Exchange(fates, w, q, tries, warming).0 == Raised(true) <==> SeveredWithin(fates, w.sends, tries)
    decreases tries
  {
    hide Try, Answerable, CarriedOutOnce;
    if tries > 0 {
      TryActsAtMostOnce(fates, w, q, warming);
      var (verdict, w') := Try(fates, w, q, warming);
      if verdict.Again? {
        ExchangeDiesExactly(fates, w', q, tries - 1, warming);
        assert SeveredWithin(fates, w.sends, tries) <==> SeveredWithin(fates, w'.sends, tries - 1);
      } else if fates(w.sends).Severed? {
        assert SeveredWithin(fates, w.sends, tries);
      }
    }
  }

  /** No second connection is tried after such an error: it reaches the caller of the request at once. */
  lemma CloseUnderExchangeRaises(fates: nat -> Fate, w: Wire, q: Request, tries: nat, attempts: nat)
    requires q.WellFormed() && attempts > 0 && SeveredWithin(fates, w.sends, tries)
    ensures var (ended, open, w') := Requested(fates, true, w, q, tries, attempts);
      ended == Raised(true) && !open && w' == Exchange(fates, w, q, tries, false).1
  {
    hide Exchange, SeveredWithin;
    ExchangeDiesExactly(fates, w, q, tries, false);
  }

  /** How many transmissions have begun when an exchange of up to `tries` ends, whatever it asks for. */
  function AfterExchange(fates: nat -> Fate, sends: nat, tries: nat): nat
    decreases tries
  {
    if tries == 0 then sends
    else if fates(sends).Silent() then AfterExchange(fates, sends + 1, tries - 1)
    else sends + 1
  }

  lemma {:induction false} ExchangeSends(fates: nat -> Fate, w: Wire, q: Request, tries: nat, warming: bool)
    requires q.WellFormed()
    ensures Exchange(fates, w, q, tries, warming).1.sends == AfterExchange(fates, w.sends, tries)
    decreases tries
  {
    hide Try, Answerable, CarriedOutOnce, Fate.Silent;
    if tries > 0 {
      TryActsAtMostOnce(fates, w, q, warming);
      var (verdict, w') := Try(fates, w, q, warming);
      if verdict.Again? {
        ExchangeSends(fates, w', q, tries - 1, warming);
      }
    }
  }

  /**
   * The link lets a request through: no socket is closed under a warm-up or an exchange before one
   * connection delivers within its tries.
   */
  ghost predicate LetsThrough(fates: nat -> Fate, connected: bool, sends: nat, tries: nat, attempts: nat)
    decreases attempts
  {
    && attempts > 0
    && (connected || !SeveredWithin(fates, sends, tries))
    && var open := if connected then sends else AfterExchange(fates, sends, tries);
    || AnsweredWithin(fates, open, tries)
    || (&& !SeveredWithin(fates, open, tries)
        && LetsThrough(fates, false, AfterExchange(fates, open, tries), tries, attempts - 1))
  }

  /** Exactly when a request succeeds, over all its connections, their warm-ups and their tries. */
  lemma {:induction false} RequestSucceedsExactly(
    fates: nat -> Fate, connected: bool, w: Wire, q: Request, tries: nat, attempts: nat)
    requires q.WellFormed()
    ensures Requested(fates, connected, w, q, tries, attempts).0.Replied?
       <==> Answerable(q) && LetsThrough(fates, connected, w.sends, tries, attempts)
    decreases attempts
  {
    hide Exchange, AfterExchange, SeveredWithin, AnsweredWithin, Answerable;
    if attempts > 0 {
      assert WARM_UP.WellFormed();
      ExchangeSends(fates, w, WARM_UP, tries, true);
      ExchangeDiesExactly(fates, w, WARM_UP, tries, true);
      var open := if connected then w else Connect(fates, w, tries).1;
      ExchangeSends(fates, open, q, tries, false);
      ExchangeDiesExactly(fates, open, q, tries, false);
      ExchangeSucceedsExactly(fates, open, q, tries, false);
      var w' := Exchange(fates, open, q, tries, false).1;
      RequestSucceedsExactly(fates, false, w', q, tries, attempts - 1);
    }
  }

  /** The link closes a socket under a request: during a warm-up or an exchange that no answer ended before. */
  ghost predicate ClosesUnder(
    fates: nat -> Fate, answerable: bool, connected: bool, sends: nat, tries: nat, attempts: nat)
    decreases attempts
  {
    && attempts > 0
    && var open := if connected then sends else AfterExchange(fates, sends, tries);
    || (!connected && SeveredWithin(fates, sends, tries))
    || SeveredWithin(fates, open, tries)
    || (&& !(answerable && AnsweredWithin(fates, open, tries))
        && ClosesUnder(fates, answerable, false, AfterExchange(fates, open, tries), tries, attempts - 1))
  }

  /** Exactly when a request dies of an unexpected error, over all its connections and their warm-ups. */
  lemma {:induction false} RequestDiesExactly(
    fates: nat -> Fate, connected: bool, w: Wire, q: Request, tries: nat, attempts: nat)
    requires q.WellFormed()
    ensures Requested(fates, connected, w, q, tries, attempts).0 == Raised(true)
       <==> ClosesUnder(fates, Answerable(q), connected, w.sends, tries, attempts)
    decreases attempts
  {
    hide Exchange, AfterExchange, SeveredWithin, AnsweredWithin, Answerable;
    if attempts > 0 {
      assert WARM_UP.WellFormed();
      ExchangeSends(fates, w, WARM_UP, tries, true);
      ExchangeDiesExactly(fates, w, WARM_UP, tries, true);
      var open := if connected then w else Connect(fates, w, tries).1;
      ExchangeSends(fates, open, q, tries, false);
      ExchangeDiesExactly(fates, open, q, tries, false);
      ExchangeSucceedsExactly(fates, open, q, tries, false);
      var w' := Exchange(fates, open, q, tries, false).1;
      RequestDiesExactly(fates, false, w', q, tries, attempts - 1);
    }
  }
}
