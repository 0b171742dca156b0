/** The wire codec of bridge/r60v_broker/protocol.py: hex framing with an additive checksum. */
module Protocol {
  import opened Wrappers

  const ACK: string := "OK"
  const READ: Command := 'r'
  const WRITE: Command := 'w'
  const SETTINGS_BASE: nat := 0
  const SETTINGS_LEN: nat := 0x73

  type Command = c: char | c == 'r' || c == 'w' witness 'r'

  datatype ProtocolError =
    | TooShort
    | InvalidCommand
    | BadEnvelope
    | OddData
    | NonHexData
    | ChecksumMismatch

  datatype Frame = Frame(command: Command, address: nat, length: nat, data: seq<Byte>, checksum: string, raw: string)
  {
    predicate IsAck() {
      |raw| >= 11 && raw[9..11] == ACK
    }
  }

  // -- hexadecimal text ---------------------------------------------------

  function HexDigit(n: nat): char
    requires n < 16
  {
    "0123456789ABCDEF"[n]
  }

  /** Uppercase hex, zero-padded to at least `width` digits; a wider number is never truncated. */
  function PadHex(n: nat, width: nat): string
    decreases n, width
  {
    if n < 16 && width <= 1 then [HexDigit(n)]
    else PadHex(n / 16, if width == 0 then 0 else width - 1) + [HexDigit(n % 16)]
  }

  function HexValue(c: char): Option<nat> {
    if '0' <= c <= '9' then Some(c as int - '0' as int)
    else if 'A' <= c <= 'F' then Some(c as int - 'A' as int + 10)
    else if 'a' <= c <= 'f' then Some(c as int - 'a' as int + 10)
    else None
  }

  /** Base-16 reading of a digit string, either case; empty or non-hex text is rejected. */
  function ParseHex(s: string): Option<nat> {
    if |s| == 0 then None
    else if |s| == 1 then HexValue(s[0])
    else
      match (ParseHex(s[..|s| - 1]), HexValue(s[|s| - 1]))
      case (Some(high), Some(low)) => Some(16 * high + low)
      case _ => None
  }

  // -- checksum -----------------------------------------------------------

  /** Sum of the UTF-8 bytes of one character; for ASCII that is its code. */
  function CharSum(c: char): nat {
    var n := c as int;
    if n < 0x80 then n
    else if n < 0x800 then (0xC0 + n / 0x40) + (0x80 + n % 0x40)
    else if n < 0x10000 then (0xE0 + n / 0x1000) + (0x80 + n / 0x40 % 0x40) + (0x80 + n % 0x40)
    else (0xF0 + n / 0x40000) + (0x80 + n / 0x1000 % 0x40) + (0x80 + n / 0x40 % 0x40) + (0x80 + n % 0x40)
  }

  function TextSum(s: string): nat {
    if s == "" then 0 else TextSum(s[..|s| - 1]) + CharSum(s[|s| - 1])
  }

  function Checksum(message: string): string {
    PadHex(TextSum(message) % 256, 2)
  }

  function UpperChar(c: char): char {
    if 'a' <= c <= 'z' then (c as int - 'a' as int + 'A' as int) as char else c
  }

  function Upper(s: string): (r: string)
    ensures |r| == |s|
  {
    seq(|s|, i requires 0 <= i < |s| => UpperChar(s[i]))
  }

  // -- data fields --------------------------------------------------------

  function EncodeData(data: seq<int>): string {
    if data == [] then "" else PadHex(data[0] % 256, 2) + EncodeData(data[1..])
  }

  function DecodePairs(s: string): Result<seq<Byte>, ProtocolError>
    requires |s| % 2 == 0
  {
    if s == "" then Ok([])
    else
      match ParseHex(s[..2])
      case None => Err(NonHexData)
      case Some(v) =>
        ParseHexPairIsByte(s[..2]);
        match DecodePairs(s[2..])
        case Err(e) => Err(e)
        case Ok(rest) => Ok([v as Byte] + rest)
  }

  lemma ParseHexPairIsByte(s: string)
    requires |s| == 2
    ensures ParseHex(s).Some? ==> ParseHex(s).value < 256
  {
    assert ParseHex(s[..1]) == HexValue(s[0]);
  }

  function DecodeData(text: string): Result<seq<Byte>, ProtocolError> {
    if |text| % 2 != 0 then Err(OddData) else DecodePairs(text)
  }

  // -- building frames ----------------------------------------------------

  function BuildEnvelope(command: Command, address: nat, length: nat): string {
    [command] + PadHex(address, 4) + PadHex(length, 4)
  }

  function Sealed(body: string): string {
    body + Checksum(body)
  }

  function BuildFrame(command: Command, address: nat, length: nat, data: seq<int>): string {
    Sealed(BuildEnvelope(command, address, length) + EncodeData(data))
  }

  function BuildRead(address: nat, length: nat): string {
    BuildFrame(READ, address, length, [])
  }

  function BuildWrite(address: nat, data: seq<int>): string {
    BuildFrame(WRITE, address, |data|, data)
  }

  function BuildAck(command: Command, address: nat, length: nat): string {
    Sealed(BuildEnvelope(command, address, length) + ACK)
  }

  // -- parsing frames -----------------------------------------------------

  function ParseFrame(raw: string): Result<Frame, ProtocolError> {
    if |raw| < 11 then Err(TooShort)
    else if raw[0] != 'r' && raw[0] != 'w' then Err(InvalidCommand)
    else
      match (ParseHex(raw[1..5]), ParseHex(raw[5..9]))
      case (Some(address), Some(length)) =>
        var payload := raw[9..|raw| - 2];
        var supplied := raw[|raw| - 2..];
        var data := if payload == ACK then Ok([]) else DecodeData(payload);
        if data.Err? then Err(data.error)
        else if Checksum(raw[..|raw| - 2]) != Upper(supplied) then Err(ChecksumMismatch)
        else Ok(Frame(raw[0], address, length, data.value, supplied, raw))
      case _ => Err(BadEnvelope)
  }
}
