/** What the wire codec promises: frames read back as printed, acks are unmistakable, single errors are caught. */
module ProtocolLaws {
  import opened Wrappers
  import opened Protocol

  predicate IsPrintedDigit(c: char) {
    '0' <= c <= '9' || 'A' <= c <= 'F'
  }

  // -- hex fields ---------------------------------------------------------

  lemma HexDigitParses(n: nat)
    requires n < 16
    ensures HexValue(HexDigit(n)) == Some(n) && IsPrintedDigit(HexDigit(n))
  {
    assert n == 0 || n == 1 || n == 2 || n == 3 || n == 4 || n == 5 || n == 6 || n == 7
        || n == 8 || n == 9 || n == 10 || n == 11 || n == 12 || n == 13 || n == 14 || n == 15;
  }

  lemma ParseHexAppend(s: string, value: nat, n: nat)
    requires s != "" && ParseHex(s) == Some(value) && n < 16
    ensures ParseHex(s + [HexDigit(n)]) == Some(16 * value + n)
  {
    HexDigitParses(n);
    assert (s + [HexDigit(n)])[..|s|] == s;
  }

  lemma {:induction false} PadHexParses(n: nat, width: nat)
    ensures PadHex(n, width) != ""
    ensures ParseHex(PadHex(n, width)) == Some(n)
    ensures forall c :: c in PadHex(n, width) ==> IsPrintedDigit(c)
    decreases n, width
  {
    hide HexDigit, ParseHex, IsPrintedDigit;
    if n < 16 && width <= 1 {
      OneDigitParses(n);
    } else {
      var w := if width == 0 then 0 else width - 1;
      PadHexParses(n / 16, w);
      HexDigitParses(n % 16);
      ParseHexAppend(PadHex(n / 16, w), n / 16, n % 16);
    }
  }

  lemma OneDigitParses(n: nat)
    requires n < 16
    ensures ParseHex([HexDigit(n)]) == Some(n) && forall c :: c in [HexDigit(n)] ==> IsPrintedDigit(c)
  {
    HexDigitParses(n);
  }

  lemma PadHexPair(n: nat)
    requires n < 0x100
    ensures |PadHex(n, 2)| == 2
  {
    assert |PadHex(n / 16, 1)| == 1;
  }

  lemma PadHexQuad(n: nat)
    requires n < 0x10000
    ensures |PadHex(n, 4)| == 4
  {
    assert |PadHex(n / 16 / 16 / 16, 1)| == 1;
    assert |PadHex(n / 16 / 16, 2)| == 2;
    assert |PadHex(n / 16, 3)| == 3;
  }

  lemma ChecksumShape(message: string)
    ensures |Checksum(message)| == 2
    ensures Upper(Checksum(message)) == Checksum(message)
    ensures forall c :: c in Checksum(message) ==> IsPrintedDigit(c)
  {
    PadHexPair(TextSum(message) % 256);
    PadHexParses(TextSum(message) % 256, 2);
    var printed := Checksum(message);
    assert forall i :: 0 <= i < 2 ==> printed[i] in printed;
    assert Upper(printed) == printed;
  }

  // -- data fields --------------------------------------------------------

  /** The bytes a list of integers is sent as: encode_data masks each with 0xFF. */
  function Masked(data: seq<int>): (bytes: seq<Byte>)
    ensures |bytes| == |data|
  {
    seq(|data|, i requires 0 <= i < |data| => data[i] % 256)
  }

  lemma MaskedBytes(data: seq<Byte>)
    ensures Masked(data) == data
  {
  }

  lemma EncodedPair(b: int)
    ensures |PadHex(b % 256, 2)| == 2 && ParseHex(PadHex(b % 256, 2)) == Some(b % 256)
    ensures forall c :: c in PadHex(b % 256, 2) ==> IsPrintedDigit(c)
  {
    PadHexPair(b % 256);
    PadHexParses(b % 256, 2);
  }

  lemma {:induction false} DataRoundTrip(data: seq<int>)
    ensures |EncodeData(data)| == 2 * |data|
    ensures forall c :: c in EncodeData(data) ==> IsPrintedDigit(c)
    ensures DecodeData(EncodeData(data)) == Ok(Masked(data))
  {
    hide PadHex, ParseHex;
    if data != [] {
      var pair, rest := PadHex(data[0] % 256, 2), EncodeData(data[1..]);
      DataRoundTrip(data[1..]);
      EncodedPair(data[0]);
      assert EncodeData(data) == pair + rest;
      assert (pair + rest)[..2] == pair && (pair + rest)[2..] == rest;
      assert Masked(data) == [data[0] % 256] + Masked(data[1..]);
    }
  }

  // -- whole frames -------------------------------------------------------

  lemma EnvelopeShape(command: Command, address: nat, length: nat)
    requires address < 0x10000 && length < 0x10000
    ensures var e := BuildEnvelope(command, address, length);
      && |e| == 9 && e[0] == command
      && ParseHex(e[1..5]) == Some(address) && ParseHex(e[5..9]) == Some(length)
      && forall c :: c in e[1..] ==> IsPrintedDigit(c)
  {
    PadHexQuad(address);
    PadHexQuad(length);
    PadHexParses(address, 4);
    PadHexParses(length, 4);
    var e := BuildEnvelope(command, address, length);
    assert e[1..5] == PadHex(address, 4);
    assert e[5..9] == PadHex(length, 4);
    assert e[1..] == PadHex(address, 4) + PadHex(length, 4);
  }

  /** Splitting a sealed text into envelope, payload and checksum gives back the parts it was built from. */
  lemma SealedParts(envelope: string, payload: string)
    requires |envelope| == 9
    ensures var raw := Sealed(envelope + payload);
      && |raw| == 11 + |payload|
      && raw[..9] == envelope && raw[9..|raw| - 2] == payload
      && raw[..|raw| - 2] == envelope + payload
      && raw[|raw| - 2..] == Checksum(envelope + payload)
  {
    ChecksumShape(envelope + payload);
  }

  /** Parsing envelope, payload and a supplied checksum: only the checksum's value, not its case, matters. */
  lemma ParseParts(command: Command, address: nat, length: nat, payload: string, supplied: string)
    requires address < 0x10000 && length < 0x10000 && |supplied| == 2
    ensures var e := BuildEnvelope(command, address, length);
      var raw := e + payload + supplied;
      var data := if payload == ACK then Ok([]) else DecodeData(payload);
      ParseFrame(raw) == if data.Err? then Err(data.error)
                         else if Checksum(e + payload) != Upper(supplied) then Err(ChecksumMismatch)
                         else Ok(Frame(command, address, length, data.value, supplied, raw))
  {
    hide PadHex, ParseHex, Checksum, Upper, DecodeData, BuildEnvelope;
    var e := BuildEnvelope(command, address, length);
    EnvelopeShape(command, address, length);
    var raw := e + payload + supplied;
    assert raw[..9] == e && raw[9..|raw| - 2] == payload;
    assert raw[..|raw| - 2] == e + payload && raw[|raw| - 2..] == supplied;
    assert raw[1..5] == e[1..5] && raw[5..9] == e[5..9];
  }

  lemma ParseSealed(command: Command, address: nat, length: nat, payload: string)
    requires address < 0x10000 && length < 0x10000
    ensures var e := BuildEnvelope(command, address, length);
      var raw := Sealed(e + payload);
      var data := if payload == ACK then Ok([]) else DecodeData(payload);
      ParseFrame(raw) == if data.Err? then Err(data.error)
                         else Ok(Frame(command, address, length, data.value, Checksum(e + payload), raw))
  {
    hide ParseFrame, BuildEnvelope, Checksum, DecodeData;
    var e := BuildEnvelope(command, address, length);
    ChecksumShape(e + payload);
    ParseParts(command, address, length, payload, Checksum(e + payload));
  }

  /** Reads, writes and read replies: what was printed is what is parsed, and it is not an ack. */
  lemma FrameRoundTrip(command: Command, address: nat, length: nat, data: seq<int>)
    requires address < 0x10000 && length < 0x10000
    ensures var raw := BuildFrame(command, address, length, data);
      && ParseFrame(raw).Ok?
      && ParseFrame(raw).value == Frame(command, address, length, Masked(data), raw[|raw| - 2..], raw)
      && !ParseFrame(raw).value.IsAck()
  {
    var e := BuildEnvelope(command, address, length);
    var payload := EncodeData(data);
    DataRoundTrip(data);
    EnvelopeShape(command, address, length);
    PayloadIsNoAck(data);
    ParseSealed(command, address, length, payload);
    SealedParts(e, payload);
    ChecksumShape(e + payload);
    PrintedTailIsNoAck(Sealed(e + payload), e, payload + Checksum(e + payload));
  }

  lemma PrintedTailIsNoAck(raw: string, head: string, tail: string)
    requires raw == head + tail && |head| == 9 && |tail| >= 2
    requires forall c :: c in tail ==> IsPrintedDigit(c)
    ensures raw[9..11] != ACK
  {
    assert raw[9..11][1] == tail[1] && tail[1] in tail;
  }

  lemma AckRoundTrip(command: Command, address: nat, length: nat)
    requires address < 0x10000 && length < 0x10000
    ensures var raw := BuildAck(command, address, length);
      && |raw| == 13
      && ParseFrame(raw).Ok?
      && ParseFrame(raw).value == Frame(command, address, length, [], raw[|raw| - 2..], raw)
      && ParseFrame(raw).value.IsAck()
  {
    var e := BuildEnvelope(command, address, length);
    EnvelopeShape(command, address, length);
    ParseSealed(command, address, length, ACK);
    SealedParts(e, ACK);
    var raw := Sealed(e + ACK);
    assert raw[9..11] == raw[9..|raw| - 2];
  }

  // -- error detection ----------------------------------------------------

  /** A wire byte as the receiver sees it: ASCII, or U+FFFD when the byte was not ASCII. */
  predicate Receivable(c: char) {
    c as int < 0x80 || c == '\U{FFFD}'
  }

  lemma {:induction false} TextSumReplaced(s: string, i: nat, c: char)
    requires i < |s|
    ensures TextSum(s[i := c]) == TextSum(s) - CharSum(s[i]) + CharSum(c)
  {
    var n := |s| - 1;
    if i == n {
      assert s[i := c][..n] == s[..n];
    } else {
      TextSumReplaced(s[..n], i, c);
      assert s[i := c][..n] == s[..n][i := c];
    }
  }

  /** Every character of a built frame is a printed digit, a command letter or a letter of the ack. */
  predicate FrameChar(c: char) {
    IsPrintedDigit(c) || c == READ || c == WRITE || c == 'O' || c == 'K'
  }

  lemma TwoDigitSumsDiffer(m: nat, n: nat)
    requires m < 256 && n < 256 && m != n
    ensures PadHex(m, 2) != PadHex(n, 2)
  {
    PadHexParses(m, 2);
    PadHexParses(n, 2);
  }

  lemma NonMultipleMovesRemainder(total: nat, shift: int)
    requires 0 <= total + shift
    requires -256 < shift < 0 || 0 < shift < 256 || 256 < shift < 512 || 512 < shift < 768
    ensures (total + shift) % 256 != total % 256
  {
    var q, r := total / 256, total % 256;
    var q', r' := (total + shift) / 256, (total + shift) % 256;
    assert shift == 256 * (q' - q) + (r' - r);
  }

  lemma ReplacementMovesChecksum(total: nat, x: char, c: char, moved: nat)
    requires FrameChar(x) && Receivable(c) && c != x
    requires moved == total - CharSum(x) + CharSum(c)
    ensures moved % 256 != total % 256
  {
    var shift := CharSum(c) - CharSum(x);
    assert c == '\U{FFFD}' ==> 500 <= shift <= 571 && shift != 512;
    assert -256 < shift < 0 || 0 < shift < 256 || 256 < shift < 512 || 512 < shift < 768;
    NonMultipleMovesRemainder(total, shift);
  }

  /**
   * A frame with one corrupted character before its checksum never parses, whatever its length:
   * the additive checksum moves by a non-zero amount modulo 256.
   */
  lemma SingleErrorDetected(body: string, i: nat, c: char)
    requires i < |body| && FrameChar(body[i])
    requires Receivable(c) && c != body[i]
    ensures ParseFrame(Sealed(body)[i := c]).Err?
  {
    ChecksumShape(body);
    var raw := Sealed(body)[i := c];
    var n := |body|;
    assert raw[..|raw| - 2] == body[i := c];
    assert raw[|raw| - 2..] == Checksum(body);
    TextSumReplaced(body, i, c);
    ReplacementMovesChecksum(TextSum(body), body[i], c, TextSum(body[i := c]));
    TwoDigitSumsDiffer(TextSum(body[i := c]) % 256, TextSum(body) % 256);
    assert Checksum(raw[..|raw| - 2]) != Upper(raw[|raw| - 2..]);
  }

  lemma BuiltFrameDetectsErrors(command: Command, address: nat, length: nat, data: seq<int>, i: nat, c: char)
    requires address < 0x10000 && length < 0x10000
    requires i < |BuildFrame(command, address, length, data)| - 2
    requires Receivable(c) && c != BuildFrame(command, address, length, data)[i]
    ensures ParseFrame(BuildFrame(command, address, length, data)[i := c]).Err?
  {
    var e := BuildEnvelope(command, address, length);
    EnvelopeShape(command, address, length);
    DataRoundTrip(data);
    SealedParts(e, EncodeData(data));
    var body := e + EncodeData(data);
    assert i > 0 ==> body[i] in e[1..] || body[i] in EncodeData(data);
    assert FrameChar(body[i]);
    SingleErrorDetected(body, i, c);
  }

  lemma AckDetectsErrors(command: Command, address: nat, length: nat, i: nat, c: char)
    requires address < 0x10000 && length < 0x10000
    requires i < |BuildAck(command, address, length)| - 2
    requires Receivable(c) && c != BuildAck(command, address, length)[i]
    ensures ParseFrame(BuildAck(command, address, length)[i := c]).Err?
  {
    var e := BuildEnvelope(command, address, length);
    EnvelopeShape(command, address, length);
    SealedParts(e, ACK);
    var body := e + ACK;
    assert 0 < i < 9 ==> body[i] in e[1..];
    assert FrameChar(body[i]);
    SingleErrorDetected(body, i, c);
  }

  /** In the checksum itself only a change of letter case goes unnoticed. */
  lemma ChecksumErrorDetected(command: Command, address: nat, length: nat, data: seq<int>, i: nat, c: char)
    requires address < 0x10000 && length < 0x10000
    requires 9 + 2 * |data| <= i < 11 + 2 * |data|
    ensures var raw := BuildFrame(command, address, length, data);
      && |raw| == 11 + 2 * |data|
      && (ParseFrame(raw[i := c]).Ok? <==> UpperChar(c) == raw[i])
  {
    hide ParseFrame, BuildEnvelope, Checksum, DecodeData, EncodeData, UpperChar;
    var e := BuildEnvelope(command, address, length);
    var payload := EncodeData(data);
    EnvelopeShape(command, address, length);
    DataRoundTrip(data);
    PayloadIsNoAck(data);
    var body := e + payload;
    var was := Checksum(body);
    ChecksumShape(body);
    var now := was[i - |body| := c];
    assert Sealed(body)[i := c] == body + now;
    ParseParts(command, address, length, payload, now);
    assert Upper(was) == was && was[i - |body|] == Sealed(body)[i];
    assert Upper(now)[i - |body|] == UpperChar(c);
    if UpperChar(c) == was[i - |body|] {
      assert Upper(now) == was;
    }
  }

  lemma PayloadIsNoAck(data: seq<int>)
    ensures EncodeData(data) != ACK
  {
    DataRoundTrip(data);
    assert EncodeData(data) == [] || EncodeData(data)[0] in EncodeData(data);
  }

  // -- which texts are frames ------------------------------------------------------------

  lemma {:induction false} TextSumJoin(s: string, t: string)
    ensures TextSum(s + t) == TextSum(s) + TextSum(t)
  {
    if t == "" {
      assert s + t == s;
    } else {
      var n := |t| - 1;
      assert (s + t)[..|s + t| - 1] == s + t[..n];
      TextSumJoin(s, t[..n]);
    }
  }

  /** The value a checksum prints. */
  function ChecksumValue(message: string): nat {
    ParseHex(Checksum(message)).GetOr(0)
  }

  lemma ChecksumPrints(message: string)
    ensures ParseHex(Checksum(message)) == Some(TextSum(message) % 256)
    ensures ChecksumValue(message) == TextSum(message) % 256
  {
    hide PadHex, ParseHex;
    PadHexParses(TextSum(message) % 256, 2);
  }

  lemma SumOfOne(c: char)
    ensures TextSum([c]) == CharSum(c) && TextSum("") == 0
  {
    assert [c][..0] == "";
  }

  /** The checksum is the sum of the characters modulo 256, fixed by its values on the shortest texts. */
  lemma ChecksumIsTheSum(s: string, t: string, c: char)
    ensures ChecksumValue("") == 0
    ensures c as int < 0x80 ==> ChecksumValue([c]) == c as int
    ensures ChecksumValue(s + t) == (ChecksumValue(s) + ChecksumValue(t)) % 256
  {
    hide TextSum, ChecksumValue, Checksum, PadHex, ParseHex;
    ChecksumPrints("");
    ChecksumPrints([c]);
    SumOfOne(c);
    ChecksumPrints(s);
    ChecksumPrints(t);
    ChecksumPrints(s + t);
    TextSumJoin(s, t);
    SumOfRemainders(TextSum(s), TextSum(t));
  }

  lemma SumOfRemainders(a: nat, b: nat)
    ensures (a + b) % 256 == (a % 256 + b % 256) % 256
  {
  }

  predicate IsHexText(s: string) {
    forall i :: 0 <= i < |s| ==> '0' <= s[i] <= '9' || 'A' <= s[i] <= 'F' || 'a' <= s[i] <= 'f'
  }

  /** Envelope, payload and checksum in their places; the payload is whole bytes or the ack text. */
  predicate HasFrameShape(raw: string) {
    && |raw| >= 11 && (raw[0] == 'r' || raw[0] == 'w')
    && IsHexText(raw[1..5]) && IsHexText(raw[5..9])
    && (raw[9..|raw| - 2] == "OK" || (|raw| % 2 == 1 && IsHexText(raw[9..|raw| - 2])))
  }

  lemma {:induction false} HexTextParses(s: string)
    requires s != ""
    ensures ParseHex(s).Some? <==> IsHexText(s)
  {
    var n := |s| - 1;
    if n > 0 {
      HexTextParses(s[..n]);
      assert s == s[..n] + [s[n]];
    } else {
      assert s == [s[0]];
    }
  }

  lemma {:induction false} HexPairsDecode(s: string)
    requires |s| % 2 == 0
    ensures DecodePairs(s).Ok? <==> IsHexText(s)
  {
    if s != "" {
      HexTextParses(s[..2]);
      HexPairsDecode(s[2..]);
      assert s == s[..2] + s[2..];
    }
  }

  lemma PairValue(s: string)
    requires |s| == 2
    ensures ParseHex(s) == if HexValue(s[0]).Some? && HexValue(s[1]).Some?
                           then Some(16 * HexValue(s[0]).value + HexValue(s[1]).value) else None
  {
    hide HexValue;
    assert ParseHex(s[..1]) == HexValue(s[0]);
  }

  /** Two hex digits in either case are determined by their value. */
  lemma PairsByValue(printed: string, supplied: string)
    requires |printed| == |supplied| == 2 && forall c :: c in printed ==> IsPrintedDigit(c)
    ensures printed == Upper(supplied) <==> ParseHex(supplied) == ParseHex(printed)
  {
    assert printed[0] in printed && printed[1] in printed;
    DigitsByValue(printed[0], supplied[0]);
    DigitsByValue(printed[1], supplied[1]);
    PairValue(printed);
    PairValue(supplied);
    hide HexValue, UpperChar, ParseHex, IsPrintedDigit;
    assert Upper(supplied)[0] == UpperChar(supplied[0]) && Upper(supplied)[1] == UpperChar(supplied[1]);
  }

  lemma DigitsByValue(printed: char, supplied: char)
    requires IsPrintedDigit(printed)
    ensures HexValue(printed).Some? && HexValue(printed).value < 16
    ensures HexValue(supplied).Some? ==> HexValue(supplied).value < 16
    ensures printed == UpperChar(supplied) <==> HexValue(supplied) == HexValue(printed)
  {
  }

  /** All texts: one parses if and only if it has a frame's shape and its last two characters print the checksum. */
  lemma ParsesExactly(raw: string)
    ensures ParseFrame(raw).Ok? <==>
      HasFrameShape(raw) && ParseHex(raw[|raw| - 2..]) == Some(ChecksumValue(raw[..|raw| - 2]))
  {
    hide ParseHex, Checksum, ChecksumValue, Upper, DecodePairs, IsHexText, TextSum;
    if |raw| >= 11 {
      var n := |raw| - 2;
      HexTextParses(raw[1..5]);
      HexTextParses(raw[5..9]);
      PayloadDecodes(raw[9..n]);
      ChecksumShape(raw[..n]);
      ChecksumPrints(raw[..n]);
      PairsByValue(Checksum(raw[..n]), raw[n..]);
      assert |raw[9..n]| == |raw| - 11;
    }
  }

  lemma PayloadDecodes(payload: string)
    ensures DecodeData(payload).Ok? <==> |payload| % 2 == 0 && IsHexText(payload)
  {
    if |payload| % 2 == 0 {
      HexPairsDecode(payload);
    }
  }

  /** The digits themselves, and fields read most significant digit first. */
  lemma HexDigitsAreHex(n: nat, high: string, c: char)
    ensures n < 10 ==> HexDigit(n) as int == 48 + n
    ensures 10 <= n < 16 ==> HexDigit(n) as int == 55 + n
    ensures high != "" && ParseHex(high).Some? && '0' <= c <= '9' ==>
      ParseHex(high + [c]) == Some(16 * ParseHex(high).value + (c as int - 48))
  {
    if n < 16 {
      HexDigitParses(n);
    }
    assert (high + [c])[..|high|] == high;
  }

  /** Genuine frames, character for character: the settings poll, a write of zero to the language, an ack. */
  lemma GenuineFrames()
    ensures BuildRead(SETTINGS_BASE, SETTINGS_LEN) == "r00000073FC"
    ensures BuildWrite(1, [0]) == "w000100010059"
    ensures BuildAck(WRITE, 2, 1) == "w00020001OK94"
  {
    PadSmall(0);
    PadSmall(1);
    PadSmall(2);
    PadSmall(0x73);
    PadPair(0);
    hide PadHex, Checksum;
    assert EncodeData([0]) == "00" by { assert [0][1..] == []; }
    assert BuildEnvelope(READ, 0, 0x73) + EncodeData([]) == "r00000073";
    assert BuildEnvelope(WRITE, 1, 1) + EncodeData([0]) == "w0001000100";
    assert BuildEnvelope(WRITE, 2, 1) + ACK == "w00020001OK";
    GenuineChecksums();
  }

  lemma GenuineChecksums()
    ensures Checksum("r00000073") == "FC"
    ensures Checksum("w0001000100") == "59"
    ensures Checksum("w00020001OK") == "94"
  {
    hide TextSum, Checksum, PadHex;
    SumOfFour('r', '0', '0', '0');
    SumOfFour('0', '0', '0', '7');
    SumOfOne('3');
    ChecksumOfBlocks(['r', '0', '0', '0'], ['0', '0', '0', '7'], ['3'], 0xFC);
    SumOfFour('w', '0', '0', '0');
    SumOfFour('1', '0', '0', '0');
    SumOfThree('1', '0', '0');
    ChecksumOfBlocks(['w', '0', '0', '0'], ['1', '0', '0', '0'], ['1', '0', '0'], 0x59);
    SumOfFour('2', '0', '0', '0');
    SumOfThree('1', 'O', 'K');
    ChecksumOfBlocks(['w', '0', '0', '0'], ['2', '0', '0', '0'], ['1', 'O', 'K'], 0x94);
    assert "r00000073" == ['r', '0', '0', '0'] + ['0', '0', '0', '7'] + ['3'];
    assert "w0001000100" == ['w', '0', '0', '0'] + ['1', '0', '0', '0'] + ['1', '0', '0'];
    assert "w00020001OK" == ['w', '0', '0', '0'] + ['2', '0', '0', '0'] + ['1', 'O', 'K'];
  }

  lemma ChecksumOfBlocks(one: string, two: string, three: string, value: nat)
    requires value < 256 && (TextSum(one) + TextSum(two) + TextSum(three)) % 256 == value
    ensures Checksum(one + two + three) == [HexDigit(value / 16), HexDigit(value % 16)]
  {
    hide TextSum, PadHex;
    TextSumJoin(one + two, three);
    TextSumJoin(one, two);
    PadPair(value);
  }

  lemma SumOfThree(a: char, b: char, c: char)
    ensures TextSum([a, b, c]) == CharSum(a) + CharSum(b) + CharSum(c)
  {
    hide CharSum;
    SumOfOne(a);
    assert [a, b][..1] == [a] && [a, b, c][..2] == [a, b];
  }

  lemma SumOfFour(a: char, b: char, c: char, d: char)
    ensures TextSum([a, b, c, d]) == CharSum(a) + CharSum(b) + CharSum(c) + CharSum(d)
  {
    hide CharSum;
    SumOfThree(a, b, c);
    assert [a, b, c, d][..3] == [a, b, c];
  }

  lemma PadPair(n: nat)
    requires n < 256
    ensures PadHex(n, 2) == [HexDigit(n / 16), HexDigit(n % 16)]
  {
    assert PadHex(n / 16, 1) == [HexDigit(n / 16)];
  }

  lemma PadSmall(n: nat)
    requires n < 256
    ensures PadHex(n, 4) == "00" + [HexDigit(n / 16), HexDigit(n % 16)]
  {
    assert PadHex(n / 16 / 16 / 16, 1) == "0";
    assert PadHex(n / 16 / 16, 2) == "0" + [HexDigit(n / 16 / 16)];
    assert PadHex(n / 16, 3) == "00" + [HexDigit(n / 16)];
  }
}
