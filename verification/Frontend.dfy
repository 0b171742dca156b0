/** The LAN front-end of bridge/r60v_broker/tcp_frontend.py: a proxy that answers as the machine would. */
module Frontend {
  import opened Wrappers
  import opened Protocol
  import opened Machine
  import opened Framing
  import opened Client
  import opened Governor

  /** The upstream side: link behaviour, retry budget, socket state and wire. */
  datatype Upstream = Upstream(fates: nat -> Fate, tries: nat, connected: bool, wire: Wire)

  function Asked(u: Upstream, q: Framing.Request): (Ended, Upstream)
    requires q.WellFormed()
  {
    var (ended, open, wire) := Requested(u.fates, u.connected, u.wire, q, u.tries, CONNECTION_ATTEMPTS);
    (ended, u.(connected := open, wire := wire))
  }

  /** The job a parsed request is submitted as. */
  function JobOf(frame: Frame): Op {
    if frame.command == READ then ReadOp(frame.address, frame.length) else WriteOp(frame.address, frame.data)
  }

  function Urgency(frame: Frame): int {
    if frame.command == READ then PRIORITY_POLL else PRIORITY_COMMAND
  }

  /** The parsed request fits the protocol's 16-bit fields when printed again. */
  predicate Relayable(raw: string) {
    ParseFrame(raw).Ok? ==> JobOf(ParseFrame(raw).value).WellFormed()
  }

  /** `_dispatch`: None drops the LAN client. */
  function Dispatched(u: Upstream, raw: string): (Option<string>, Upstream)
    requires Relayable(raw)
  {
    match ParseFrame(raw)
    case Err(_) => (None, u)
    case Ok(frame) =>
      var (ended, u') := Asked(u, JobOf(frame).ToRequest());
      if ended.Raised? then (None, u')
      else if frame.command == READ then
        (Some(BuildFrame(READ, frame.address, frame.length, ended.frame.data)), u')
      else (Some(BuildAck(WRITE, frame.address, frame.length)), u')
  }

  class R60VFrontend {
    const governor: DeviceGovernor

    constructor (governor: DeviceGovernor)
      ensures this.governor == governor
    {
      this.governor := governor;
    }

    ghost predicate Valid()
      reads this, governor, governor.client, governor.client.link, governor.client.link.machine
    {
      governor.Valid()
    }

    ghost function State(): Upstream
      requires Valid()
      reads this, governor, governor.client, governor.client.link, governor.client.link.machine,
            governor.client.link.machine.settings
    {
      var client := governor.client;
      Upstream(client.link.fates, client.maxRetries + 1, client.connected, client.link.State())
    }

    /** First half of `_dispatch`, whatever else the governor holds: parse and submit. */
    method Accept(raw: string) returns (accepted: Option<Frame>)
      requires Valid() && Relayable(raw)
      modifies governor
      ensures Valid()
      ensures match ParseFrame(raw)
              case Err(_) => accepted == None && governor.State() == old(governor.State())
              case Ok(frame) => (
                && accepted == Some(frame)
                && governor.State() == Submitted(old(governor.State()), Urgency(frame), JobOf(frame), LanClient))
    {
      hide ParseFrame, Insert;
      match ParseFrame(raw)
      case Err(_) =>
        accepted := None;
      case Ok(frame) =>
        var ticket := governor.Submit(Urgency(frame), JobOf(frame), LanClient);
        accepted := Some(frame);
    }

    /** Second half, when the job's future is resolved: present the reply, or drop the client. */
    method Present(frame: Frame, reply: Reply) returns (response: Option<string>)
      ensures response.Some? <==> reply.Data? || reply.Acked?
      ensures reply.Data? ==> response == Some(BuildFrame(READ, frame.address, frame.length, reply.bytes))
      ensures reply.Acked? ==> response == Some(BuildAck(WRITE, frame.address, frame.length))
    {
      match reply
      case Data(bytes) => response := Some(BuildFrame(READ, frame.address, frame.length, bytes));
      case Acked => response := Some(BuildAck(WRITE, frame.address, frame.length));
      case LinkDown => response := None;
      case Crashed => response := None;
    }

    /** Both halves through a governor that has nothing else to do. */
    method Dispatch(raw: string) returns (response: Option<string>)
      requires Valid() && Relayable(raw)
      requires governor.queue == [] && governor.current.None? && governor.done == []
      modifies governor, governor.client, governor.client.link, governor.client.link.machine.settings
      ensures Valid()
      ensures (response, State()) == Dispatched(old(State()), raw)
      ensures governor.queue == [] && governor.current.None? && governor.done == []
    {
      hide Requested, ParseFrame, BuildFrame, BuildAck, MachineModel.Contents;
      var accepted := Accept(raw);
      if accepted.None? {
        return None;
      }
      governor.Take();
      governor.Finish();
      var finished := governor.Resume();
      response := Present(accepted.value, finished.reply);
    }
  }

  // -- transparency --------------------------------------------------------

  lemma ParseHexQuadBound(s: string)
    requires |s| == 4 && ParseHex(s).Some?
    ensures ParseHex(s).value < 0x10000
  {
    assert s[..3][..2] == s[..2] && s[..2][..1] == s[..1];
    assert ParseHex(s[..1]) == HexValue(s[0]);
    assert ParseHex(s[..2]).Some? && ParseHex(s[..2]).value < 0x100;
    assert ParseHex(s[..3]).Some? && ParseHex(s[..3]).value < 0x1000;
  }

  lemma {:induction false} DecodedLength(text: string)
    requires |text| % 2 == 0
    ensures DecodePairs(text).Ok? ==> 2 * |DecodePairs(text).value| == |text|
  {
    if text != "" {
      DecodedLength(text[2..]);
    }
  }

  /** Any text short enough for a 16-bit length field can be relayed. */
  lemma ShortTextsRelay(raw: string)
    requires |raw| <= 11 + 2 * 0xFFFF
    ensures Relayable(raw)
  {
    if ParseFrame(raw).Ok? {
      ParseHexQuadBound(raw[1..5]);
      ParseHexQuadBound(raw[5..9]);
      if |raw[9..|raw| - 2]| % 2 == 0 {
        DecodedLength(raw[9..|raw| - 2]);
      }
    }
  }

  /** What the machine does with a text is what it does with the request the proxy sends instead. */
  lemma RelayedRequestActsAlike(mem: Memory, raw: string)
    requires ParseFrame(raw).Ok? && Relayable(raw)
    ensures var q := JobOf(ParseFrame(raw).value).ToRequest();
      && Answer(mem, q.Text()).1 == Answer(mem, raw).1
      && Answer(mem, q.Text()).0.Some? == Answer(mem, raw).0.Some?
  {
    hide ParseFrame;
    MachineCarries(mem, JobOf(ParseFrame(raw).value));
  }

  /**
   * A reply from the proxy is, character for character, the machine's own; no reply means no effect or
   * the machine's own.
   */
  lemma DispatchIsTransparent(u: Upstream, raw: string)
    requires Relayable(raw)
    ensures var (response, u') := Dispatched(u, raw);
      var (direct, mem) := Answer(u.wire.mem, raw);
      && (response.Some? ==> response == direct && u'.wire.mem == mem)
      && (response.None? ==> u'.wire.mem == u.wire.mem || u'.wire.mem == mem)
  {
    hide ParseFrame, BuildFrame, BuildAck, Requested, Request.Text;
    if ParseFrame(raw).Ok? {
      var frame := ParseFrame(raw).value;
      var q := JobOf(frame).ToRequest();
      RelayedRequestActsAlike(u.wire.mem, raw);
      RetriesActAsOneDelivery(u.fates, u.connected, u.wire, q, u.tries, CONNECTION_ATTEMPTS);
      if Asked(u, q).0.Replied? {
        ReplyParses(u.wire.mem, q);
      }
    }
  }

  /**
   * Wherever a request begins, on an open socket or not, one of its connections delivers in time: faults
   * and silence may cost it the first, as long as no socket is closed under it.
   */
  ghost predicate Reliable(u: Upstream) {
    forall n: nat, open: bool :: LetsThrough(u.fates, open, n, u.tries, CONNECTION_ATTEMPTS)
  }

  lemma {:induction false} ReliableExchangeReaches(
    fates: nat -> Fate, w: Wire, q: Framing.Request, tries: nat, warming: bool)
    requires q.WellFormed() && AnsweredWithin(fates, w.sends, tries)
    ensures Exchange(fates, w, q, tries, warming).1.mem == Answer(w.mem, q.Text()).1
    decreases tries
  {
    hide Answer, Answerable, CarriedOutOnce, Request.Text;
    TryReaches(fates, w, q, warming);
    TryActsAtMostOnce(fates, w, q, warming);
    var (verdict, w') := Try(fates, w, q, warming);
    if verdict.Again? {
      var k :| w.sends <= k < w.sends + tries && fates(k).Delivered?
        && forall j :: w.sends <= j < k ==> fates(j).Silent();
      assert k > w.sends;
      ReliableExchangeReaches(fates, w', q, tries - 1, warming);
      AnswerTwice(w.mem, q.Text());
    }
  }

  lemma TryReaches(fates: nat -> Fate, w: Wire, q: Framing.Request, warming: bool)
    requires q.WellFormed()
    ensures fates(w.sends).Delivered? ==> Try(fates, w, q, warming).1.mem == Answer(w.mem, q.Text()).1
  {
    hide Answer, Heard;
  }

  lemma AnsweredIsNotSevered(fates: nat -> Fate, sends: nat, tries: nat)
    requires AnsweredWithin(fates, sends, tries)
    ensures !SeveredWithin(fates, sends, tries)
  {
  }

  /** A request the link lets through reaches the machine, answered or not. */
  lemma {:induction false} LetThroughReaches(
    fates: nat -> Fate, connected: bool, w: Wire, q: Framing.Request, tries: nat, attempts: nat)
    requires q.WellFormed() && LetsThrough(fates, connected, w.sends, tries, attempts)
    ensures Requested(fates, connected, w, q, tries, attempts).2.mem == Answer(w.mem, q.Text()).1
    decreases attempts
  {
    hide Exchange, Answer, Answerable, Request.Text, AnsweredWithin, SeveredWithin, AfterExchange, CarriedOutOnce;
    assert WARM_UP.WellFormed();
    ExchangeSends(fates, w, WARM_UP, tries, true);
    ExchangeDiesExactly(fates, w, WARM_UP, tries, true);
    ConnectLeavesMemory(fates, w, tries);
    var open := if connected then w else Connect(fates, w, tries).1;
    ExchangeSends(fates, open, q, tries, false);
    ExchangeDiesExactly(fates, open, q, tries, false);
    ExchangeActsOnce(fates, open, q, tries, false);
    var (ended, w') := Exchange(fates, open, q, tries, false);
    AnswerTwice(w.mem, q.Text());
    if AnsweredWithin(fates, open.sends, tries) {
      AnsweredIsNotSevered(fates, open.sends, tries);
      ReliableExchangeReaches(fates, open, q, tries, false);
      RetriesActAsOneDelivery(fates, false, w', q, tries, attempts - 1);
    } else {
      ExchangeSucceedsExactly(fates, open, q, tries, false);
      LetThroughReaches(fates, false, w', q, tries, attempts - 1);
    }
  }

  /** Over a reliable link any request has the machine's own effect, and is answered exactly when it answers. */
  lemma ReliableAskedIsTheMachine(u: Upstream, q: Framing.Request)
    requires q.WellFormed() && Reliable(u)
    ensures var (ended, u') := Asked(u, q);
      ended.Replied? == Answerable(q) && u'.wire.mem == Answer(u.wire.mem, q.Text()).1 && Reliable(u')
  {
    hide Requested, Answer, Answerable, Request.Text, LetsThrough;
    assert LetsThrough(u.fates, u.connected, u.wire.sends, u.tries, CONNECTION_ATTEMPTS);
    LetThroughReaches(u.fates, u.connected, u.wire, q, u.tries, CONNECTION_ATTEMPTS);
    RequestSucceedsExactly(u.fates, u.connected, u.wire, q, u.tries, CONNECTION_ATTEMPTS);
  }

  /** Over a reliable link the proxy answers every text exactly as the machine would, refusals included. */
  lemma ReliableDispatchIsTheMachine(u: Upstream, raw: string)
    requires Relayable(raw) && Reliable(u)
    ensures Dispatched(u, raw).0 == Answer(u.wire.mem, raw).0
    ensures Dispatched(u, raw).1.wire.mem == Answer(u.wire.mem, raw).1
    ensures Reliable(Dispatched(u, raw).1)
  {
    hide ParseFrame, BuildFrame, BuildAck, Requested, Request.Text, LetsThrough;
    DispatchIsTransparent(u, raw);
    if ParseFrame(raw).Ok? {
      var q := JobOf(ParseFrame(raw).value).ToRequest();
      RelayedRequestActsAlike(u.wire.mem, raw);
      MachineCarries(u.wire.mem, JobOf(ParseFrame(raw).value));
      ReliableAskedIsTheMachine(u, q);
    }
  }

  lemma SplitTextsAreShort(side: Reader, stream: string)
    requires Split(side, stream).Some?
    ensures Relayable(Split(side, stream).value.0)
    ensures |Split(side, stream).value.1| < |stream|
  {
    hide ParseFrame;
    if ParseHex(stream[..9][5..9]).Some? {
      ParseHexQuadBound(stream[..9][5..9]);
    }
    ShortTextsRelay(Split(side, stream).value.0);
  }

  /** What other callers of the governor do between two frames: any request, or closing the link. */
  datatype Aside = Asking(q: Framing.Request) | Closing
  {
    predicate WellFormed() {
      Asking? ==> q.WellFormed()
    }
  }

  predicate AllWellFormed(asides: seq<Aside>) {
    forall i :: 0 <= i < |asides| ==> asides[i].WellFormed()
  }

  function Meanwhile(u: Upstream, asides: seq<Aside>): Upstream
    requires AllWellFormed(asides)
    decreases |asides|
  {
    if asides == [] then u
    else
      var first := asides[0];
      assert first.WellFormed();
      Meanwhile(if first.Closing? then u.(connected := false) else Asked(u, first.q).1, asides[1..])
  }

  /** The same requests put to the machine itself. */
  function MeanwhileDirect(mem: Memory, asides: seq<Aside>): Memory
    decreases |asides|
  {
    if asides == [] then mem
    else MeanwhileDirect(if asides[0].Closing? then mem else Answer(mem, asides[0].q.Text()).1, asides[1..])
  }

  function FirstOf(asides: seq<seq<Aside>>): seq<Aside> {
    if asides == [] then [] else asides[0]
  }

  function RestOf(asides: seq<seq<Aside>>): seq<seq<Aside>> {
    if asides == [] then [] else asides[1..]
  }

  ghost predicate EachWellFormed(asides: seq<seq<Aside>>) {
    forall k :: 0 <= k < |asides| ==> AllWellFormed(asides[k])
  }

  /**
   * Replies a LAN client sees, and the machine's memory afterwards, when it sends `stream` to the
   * front-end and other callers act before each of its frames.
   */
  ghost function ProxySession(u: Upstream, stream: string, asides: seq<seq<Aside>>): (string, Memory)
    requires EachWellFormed(asides)
    decreases |stream|
  {
    var u1 := Meanwhile(u, FirstOf(asides));
    match Split(FrontendSide, stream)
    case None => ("", u1.wire.mem)
    case Some((raw, rest)) =>
      SplitTextsAreShort(FrontendSide, stream);
      match Dispatched(u1, raw)
      case (None, u') => ("", u'.wire.mem)
      case (Some(reply), u') => var (more, mem) := ProxySession(u', rest, RestOf(asides)); (reply + more, mem)
  }

  /** The same session held with the machine directly, which meets the same other requests. */
  function MachineSession(mem: Memory, stream: string, asides: seq<seq<Aside>>): (string, Memory)
    decreases |stream|
  {
    var mem1 := MeanwhileDirect(mem, FirstOf(asides));
    match Split(EmulatorSide, stream)
    case None => ("", mem1)
    case Some((raw, rest)) =>
      SplitTextsAreShort(EmulatorSide, stream);
      match Answer(mem1, raw)
      case (None, mem') => ("", mem')
      case (Some(reply), mem') =>
        var (more, last) := MachineSession(mem', rest, RestOf(asides)); (reply + more, last)
  }

  lemma {:induction false} AsidesActAlike(u: Upstream, asides: seq<Aside>)
    requires AllWellFormed(asides) && Reliable(u)
    ensures Meanwhile(u, asides).wire.mem == MeanwhileDirect(u.wire.mem, asides) && Reliable(Meanwhile(u, asides))
    decreases |asides|
  {
    hide Asked, Answer, Request.Text, LetsThrough;
    if asides != [] {
      var first := asides[0];
      assert first.WellFormed();
      if first.Asking? {
        ReliableAskedIsTheMachine(u, first.q);
      }
      AsidesActAlike(if first.Closing? then u.(connected := false) else Asked(u, first.q).1, asides[1..]);
    }
  }

  /** Where the two ends would cut a malformed write differently, both refuse it. */
  lemma SidesDisagreeOnlyOnRefusals(stream: string)
    ensures var one, two := Split(FrontendSide, stream), Split(EmulatorSide, stream);
      || one == two
      || (two.Some? && ParseFrame(two.value.0).Err? && (one.Some? ==> ParseFrame(one.value.0).Err?))
  {
    if |stream| >= 9 && stream[0] == WRITE && ParseHex(stream[..9][5..9]).None? {
      if |stream| >= 11 {
        assert stream[..11][5..9] == stream[..9][5..9];
      }
    }
  }

  /**
   * To a LAN client the front-end is indistinguishable from the machine: over a reliable link, whatever
   * other callers do between its frames, any character stream, well-formed or not, gets the same reply
   * characters and leaves the same memory.
   */
  lemma {:induction false} ProxyIsTransparent(u: Upstream, stream: string, asides: seq<seq<Aside>>)
    requires Reliable(u) && EachWellFormed(asides)
    ensures ProxySession(u, stream, asides) == MachineSession(u.wire.mem, stream, asides)
    decreases |stream|
  {
    hide ParseFrame, Dispatched, Answer, Reliable, Split, Meanwhile, MeanwhileDirect;
    AsidesActAlike(u, FirstOf(asides));
    var u1 := Meanwhile(u, FirstOf(asides));
    SidesDisagreeOnlyOnRefusals(stream);
    var one, two := Split(FrontendSide, stream), Split(EmulatorSide, stream);
    if one.Some? {
      SplitTextsAreShort(FrontendSide, stream);
      ReliableDispatchIsTheMachine(u1, one.value.0);
      BadTextsAreRefused(u1.wire.mem, one.value.0);
    }
    if two.Some? {
      SplitTextsAreShort(EmulatorSide, stream);
      BadTextsAreRefused(u1.wire.mem, two.value.0);
    }
    if one == two && one.Some? && Dispatched(u1, one.value.0).0.Some? {
      ProxyIsTransparent(Dispatched(u1, one.value.0).1, one.value.1, RestOf(asides));
    }
  }

  lemma BadTextsAreRefused(mem: Memory, raw: string)
    ensures ParseFrame(raw).Err? ==> Answer(mem, raw) == (None, mem)
  {
    hide ParseFrame;
  }

  // -- over any link ---------------------------------------------------------------------

  predicate OnlyReads(asides: seq<seq<Aside>>) {
    forall k, i :: 0 <= k < |asides| && 0 <= i < |asides[k]| && asides[k][i].Asking? ==> asides[k][i].q.Read?
  }

  lemma {:induction false} ReadsLeaveMemory(u: Upstream, asides: seq<Aside>)
    requires AllWellFormed(asides)
    requires forall i :: 0 <= i < |asides| && asides[i].Asking? ==> asides[i].q.Read?
    ensures Meanwhile(u, asides).wire.mem == u.wire.mem
    decreases |asides|
  {
    hide Requested, Answer, Request.Text, CarriedOutOnce;
    if asides != [] {
      var first := asides[0];
      assert first.WellFormed();
      if first.Asking? {
        RetriesActAsOneDelivery(u.fates, u.connected, u.wire, first.q, u.tries, CONNECTION_ATTEMPTS);
        ReadLeavesMemory(u.wire.mem, first.q);
      }
      ReadsLeaveMemory(if first.Closing? then u.(connected := false) else Asked(u, first.q).1, asides[1..]);
    }
  }

  /** A stream cut anywhere after its first frame starts with the same frame. */
  lemma SplitCut(side: Reader, stream: string, k: nat)
    requires Split(side, stream).Some? && k <= |Split(side, stream).value.1|
    ensures var (raw, rest) := Split(side, stream).value;
      |raw| + k <= |stream| && Split(side, stream[..|raw| + k]) == Some((raw, rest[..k]))
  {
    var (raw, rest) := Split(side, stream).value;
    var shorter := stream[..|raw| + k];
    assert shorter[..9] == stream[..9];
    assert shorter[..|raw|] == raw && shorter[|raw|..] == rest[..k];
  }

  lemma OneFrameSession(mem: Memory, raw: string)
    requires Split(EmulatorSide, raw) == Some((raw, ""))
    ensures MachineSession(mem, raw, []).1 == Answer(mem, raw).1
  {
    hide Answer, Split;
    assert Split(EmulatorSide, "").None? by { EmptyHasNoFrame(); }
  }

  lemma EmptyHasNoFrame()
    ensures Split(EmulatorSide, "").None?
  {
  }

  /**
   * Over any link, faults, silence and severed sockets included, and beside any reads of other callers: what
   * a LAN client hears is the beginning of the machine's own session, and the machine ends up as if the
   * client had sent it the first `cut` characters of its stream and hung up.
   */
  lemma {:induction false} ProxyIsTruthful(u: Upstream, stream: string, asides: seq<seq<Aside>>) returns (cut: nat)
    requires EachWellFormed(asides) && OnlyReads(asides)
    ensures cut <= |stream|
    ensures ProxySession(u, stream, asides).0 <= MachineSession(u.wire.mem, stream, []).0
    ensures ProxySession(u, stream, asides).1 == MachineSession(u.wire.mem, stream[..cut], []).1
    decreases |stream|
  {
    hide ParseFrame, Dispatched, Answer, Split, Meanwhile, MachineSession;
    var u1 := Meanwhile(u, FirstOf(asides));
    assert u1.wire.mem == u.wire.mem by { ReadsLeaveMemory(u, FirstOf(asides)); }
    SidesDisagreeOnlyOnRefusals(stream);
    cut := 0;
    NothingSent(u.wire.mem, stream);
    if Split(FrontendSide, stream).Some? {
      var (raw, rest) := Split(FrontendSide, stream).value;
      SplitTextsAreShort(FrontendSide, stream);
      DispatchIsTransparent(u1, raw);
      BadTextsAreRefused(u1.wire.mem, raw);
      var (response, u') := Dispatched(u1, raw);
      if response.Some? {
        var more := ProxyIsTruthful(u', rest, RestOf(asides));
        SplitCut(EmulatorSide, stream, more);
        MachineGoesOn(u.wire.mem, stream);
        MachineGoesOn(u.wire.mem, stream[..|raw| + more]);
        cut := |raw| + more;
      } else if u'.wire.mem != u.wire.mem {
        SplitCut(EmulatorSide, stream, 0);
        SplitWhole(EmulatorSide, stream);
        assert rest[..0] == "";
        OneFrameSession(u.wire.mem, raw);
        cut := |raw|;
      }
    }
  }

  lemma SplitWhole(side: Reader, stream: string)
    requires Split(side, stream).Some?
    ensures var raw := Split(side, stream).value.0; |raw| <= |stream| && stream[..|raw|] == raw
  {
  }

  lemma NothingSent(mem: Memory, stream: string)
    ensures stream[..0] == "" && MachineSession(mem, "", []) == ("", mem)
  {
    hide Answer;
  }

  /** One frame the machine answers, and the rest of the session. */
  lemma MachineGoesOn(mem: Memory, stream: string)
    requires Split(EmulatorSide, stream).Some?
    ensures var (raw, rest) := Split(EmulatorSide, stream).value;
      var (reply, mem') := Answer(mem, raw);
      reply.Some? ==>
        var (more, last) := MachineSession(mem', rest, []);
        MachineSession(mem, stream, []) == (reply.value + more, last)
  {
    hide Answer, Split;
  }
}
