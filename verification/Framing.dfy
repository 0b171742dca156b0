/** Self-delimiting request streams: `_read_request` of tcp_frontend.py and `_read_rest` of emulator.py. */
module Framing {
  import opened Wrappers
  import opened Protocol
  import opened ProtocolLaws
  import opened Machine

  /** A request a well-behaved peer sends; the printed fields are four digits wide. */
  datatype Request = Read(address: nat, length: nat) | Write(address: nat, data: seq<Byte>)
  {
    predicate WellFormed() {
      address < 0x10000 && (if Read? then length else |data|) < 0x10000
    }

    function Text(): string {
      if Read? then BuildRead(address, length) else BuildWrite(address, data)
    }
  }

  /** Which end reads: after a write whose length field is not hex the front-end takes two more, the emulator none. */
  datatype Reader = FrontendSide | EmulatorSide

  /** Characters that follow a 9-character envelope. */
  function RestLength(side: Reader, envelope: string): nat
    requires |envelope| == 9
  {
    if envelope[0] != WRITE then 2
    else if ParseHex(envelope[5..9]).Some? then 2 * ParseHex(envelope[5..9]).value + 2
    else if side.FrontendSide? then 2
    else 0
  }

  /** First request text of a stream and what follows it; None when the peer closes first. */
  function Split(side: Reader, stream: string): Option<(string, string)> {
    if |stream| < 9 then None
    else
      var end := 9 + RestLength(side, stream[..9]);
      if |stream| < end then None else Some((stream[..end], stream[end..]))
  }

  /** Everything a server loop reads from a stream before the peer closes. */
  function SplitAll(side: Reader, stream: string): seq<string>
    decreases |stream|
  {
    match Split(side, stream)
    case None => []
    case Some((first, rest)) => [first] + SplitAll(side, rest)
  }

  class StreamReader {
    var rest: string

    constructor (stream: string)
      ensures rest == stream
    {
      rest := stream;
    }

    /** `readexactly`: on a short stream nothing more can be read and the caller sees the close. */
    method ReadExactly(n: nat) returns (chunk: Option<string>)
      modifies this
      ensures |old(rest)| < n ==> chunk == None && rest == ""
      ensures |old(rest)| >= n ==> chunk == Some(old(rest)[..n]) && rest == old(rest)[n..]
    {
      if |rest| < n {
        rest := "";
        return None;
      }
      chunk := Some(rest[..n]);
      rest := rest[n..];
    }

    method ReadRequest(side: Reader) returns (request: Option<string>)
      modifies this
      ensures match Split(side, old(rest))
              case None => request == None && rest == ""
              case Some((first, tail)) => request == Some(first) && rest == tail
    {
      var envelope := ReadExactly(9);
      if envelope == None {
        return None;
      }
      var count := 2;
      if envelope.value[0] == WRITE {
        var length := ParseHex(envelope.value[5..9]);
        count := if length.Some? then 2 * length.value + 2 else if side == FrontendSide then 2 else 0;
      }
      var tail := ReadExactly(count);
      if tail == None {
        return None;
      }
      request := Some(envelope.value + tail.value);
      assert request.value == old(rest)[..9 + count];
    }
  }

  /** Reply length the client waits for: known from the request's envelope alone. */
  function ExpectedResponseLen(request: string): nat
    requires |request| >= 9 && ParseHex(request[5..9]).Some?
  {
    if request[0] == READ then 9 + ParseHex(request[5..9]).value * 2 + 2 else 9 + |ACK| + 2
  }

  // -- framing laws ---------------------------------------------------------

  function Stream(requests: seq<Request>): string {
    if requests == [] then "" else requests[0].Text() + Stream(requests[1..])
  }

  function Texts(requests: seq<Request>): seq<string> {
    if requests == [] then [] else [requests[0].Text()] + Texts(requests[1..])
  }

  lemma RequestParts(q: Request)
    requires q.WellFormed()
    ensures |q.Text()| >= 11
    ensures forall side :: |q.Text()| == 9 + RestLength(side, q.Text()[..9])
    ensures ParseHex(q.Text()[5..9]) == Some(if q.Read? then q.length else |q.data|)
    ensures q.Text()[0] == (if q.Read? then READ else WRITE)
    ensures ParseFrame(q.Text()).Ok?
    ensures var f := ParseFrame(q.Text()).value;
      f.command == (if q.Read? then READ else WRITE) && f.address == q.address
      && f.length == (if q.Read? then q.length else |q.data|) && f.data == (if q.Read? then [] else q.data)
  {
    var command := if q.Read? then READ else WRITE;
    var length := if q.Read? then q.length else |q.data|;
    var data: seq<Byte> := if q.Read? then [] else q.data;
    EnvelopeShape(command, q.address, length);
    DataRoundTrip(data);
    FrameRoundTrip(command, q.address, length, data);
    MaskedBytes(data);
    var e := BuildEnvelope(command, q.address, length);
    SealedParts(e, EncodeData(data));
    assert q.Text()[..9] == e;
    assert q.Text()[5..9] == e[5..9];
  }

  lemma SplitOne(side: Reader, q: Request, tail: string)
    requires q.WellFormed()
    ensures Split(side, q.Text() + tail) == Some((q.Text(), tail))
  {
    RequestParts(q);
    var stream := q.Text() + tail;
    assert stream[..9] == q.Text()[..9];
    assert stream[..|q.Text()|] == q.Text() && stream[|q.Text()|..] == tail;
  }

  /** Requests sent back to back are cut apart exactly where they were joined. */
  lemma {:induction false} StreamsSplitUniquely(side: Reader, requests: seq<Request>)
    requires forall q :: q in requests ==> q.WellFormed()
    ensures SplitAll(side, Stream(requests)) == Texts(requests)
  {
    if requests != [] {
      SplitOne(side, requests[0], Stream(requests[1..]));
      StreamsSplitUniquely(side, requests[1..]);
    }
  }

  /** A stream has one reading: two request lists with the same text are the same list. */
  lemma {:induction false} StreamsAreUnambiguous(one: seq<Request>, two: seq<Request>)
    requires forall q :: q in one ==> q.WellFormed()
    requires forall q :: q in two ==> q.WellFormed()
    requires Stream(one) == Stream(two)
    ensures one == two
  {
    if one != [] { RequestParts(one[0]); SplitOne(FrontendSide, one[0], Stream(one[1..])); }
    if two != [] { RequestParts(two[0]); SplitOne(FrontendSide, two[0], Stream(two[1..])); }
    if one != [] && two != [] {
      assert one[0] == two[0];
      StreamsAreUnambiguous(one[1..], two[1..]);
      assert one == [one[0]] + one[1..] && two == [two[0]] + two[1..];
    }
  }

  /** The reply length the client computes for a request it is about to send. */
  function ReplyLength(q: Request): nat
    requires q.WellFormed()
  {
    RequestParts(q);
    ExpectedResponseLen(q.Text())
  }

  /**
   * What the machine does with a read, exactly: it answers the region's bytes, zeros beyond its 256, and
   * changes nothing.
   */
  lemma MachineReadsExactly(mem: Memory, q: Request)
    requires q.WellFormed() && q.Read?
    ensures var (reply, mem') := Answer(mem, q.Text());
      && mem' == mem && reply.Some? && ParseFrame(reply.value).Ok?
      && var f := ParseFrame(reply.value).value;
      && f.command == 'r' && f.address == q.address && f.length == q.length && |f.data| == q.length
      && forall i :: 0 <= i < q.length ==> f.data[i] == if q.address + i < 256 then mem[q.address + i] else 0
  {
    hide ParseFrame, BuildFrame, RestLength, Request.Text;
    RequestParts(q);
    var bytes := ReadMemory(mem, q.address, q.length);
    FrameRoundTrip(READ, q.address, q.length, bytes);
    MaskedBytes(bytes);
  }

  /**
   * And with a write: its bytes are stored in the region only, and it is acknowledged unless it starts inside
   * and runs past the end.
   */
  lemma MachineWritesExactly(mem: Memory, q: Request)
    requires q.WellFormed() && q.Write?
    ensures var (reply, mem') := Answer(mem, q.Text());
      && (forall a :: 0 <= a < 256 ==>
            mem'[a] == if q.address <= a < q.address + |q.data| then q.data[a - q.address] else mem[a])
      && (reply.Some? <==> q.address >= 256 || q.address + |q.data| <= 256)
      && (reply.Some? ==>
            && ParseFrame(reply.value).Ok?
            && var f := ParseFrame(reply.value).value;
            f.IsAck() && f.command == 'w' && f.address == q.address && f.length == |q.data|)
  {
    hide ParseFrame, BuildAck, RestLength, Request.Text, Frame.IsAck;
    RequestParts(q);
    AckRoundTrip(WRITE, q.address, |q.data|);
  }

  /** The length the client waits for is the length the machine sends. */
  lemma ReplyLengthIsExpected(mem: Memory, q: Request)
    requires q.WellFormed()
    ensures var reply := Answer(mem, q.Text()).0;
      && reply.Some? == (q.Read? || Fits(q.address, |q.data|))
      && (reply.Some? ==> |reply.value| == ReplyLength(q))
  {
    RequestParts(q);
    if q.Read? {
      var bytes := ReadMemory(mem, q.address, q.length);
      DataRoundTrip(bytes);
      EnvelopeShape(READ, q.address, q.length);
      SealedParts(BuildEnvelope(READ, q.address, q.length), EncodeData(bytes));
    } else {
      AckRoundTrip(WRITE, q.address, |q.data|);
    }
  }
}
