/** The reference machine of bridge/r60v_broker/emulator.py: a 256-byte memory behind the wire protocol. */
module Machine {
  import opened Wrappers
  import opened Protocol

  const MEMORY_SIZE: nat := 0x100

  type Memory = m: seq<Byte> | |m| == MEMORY_SIZE witness seq(MEMORY_SIZE, _ => 0)

  /** The bytes a read answers with; past the end of the settings region they are zero padding. */
  function ReadMemory(mem: Memory, address: nat, length: nat): (bytes: seq<Byte>)
    ensures |bytes| == length
  {
    seq(length, i requires 0 <= i < length => if address + i < MEMORY_SIZE then mem[address + i] else 0)
  }

  /** A write's effect: addresses from 0x100 on are ignored, in-range bytes are stored. */
  function WriteMemory(mem: Memory, address: nat, data: seq<Byte>): Memory {
    seq(MEMORY_SIZE, i requires 0 <= i < MEMORY_SIZE =>
      if address <= i < address + |data| then data[i - address] else mem[i])
  }

  /** A write that starts inside the region but runs past its end breaks the emulator's connection half-way. */
  predicate Fits(address: nat, count: nat) {
    address >= MEMORY_SIZE || address + count <= MEMORY_SIZE
  }

  /** Reply (if the connection survives) and memory after one request text. */
  function Answer(mem: Memory, raw: string): (Option<string>, Memory) {
    match ParseFrame(raw)
    case Err(_) => (None, mem)
    case Ok(frame) =>
      if frame.command == READ then
        (Some(BuildFrame(READ, frame.address, frame.length, ReadMemory(mem, frame.address, frame.length))), mem)
      else
        (if Fits(frame.address, |frame.data|) then Some(BuildAck(WRITE, frame.address, frame.length)) else None,
         WriteMemory(mem, frame.address, frame.data))
  }

  class MachineModel {
    const settings: array<Byte>

    ghost predicate Valid()
      reads this
    {
      settings.Length == MEMORY_SIZE
    }

    ghost function Contents(): Memory
      requires Valid()
      reads this, settings
    {
      settings[..]
    }

    constructor (initial: Memory)
      ensures Valid() && fresh(settings)
      ensures Contents() == initial
    {
      settings := new Byte[MEMORY_SIZE](i requires 0 <= i < MEMORY_SIZE => initial[i]);
    }

    method Read(address: nat, length: nat) returns (bytes: seq<Byte>)
      requires Valid()
      ensures bytes == ReadMemory(Contents(), address, length)
    {
      if address < MEMORY_SIZE {
        var end := if address + length < MEMORY_SIZE then address + length else MEMORY_SIZE;
        bytes := settings[address..end];
        bytes := bytes + seq(length - |bytes|, _ => 0);
      } else {
        bytes := seq(length, _ => 0);
      }
    }

    /** Stores byte by byte; `survived` is false when the store runs past the end of the region. */
    method Write(address: nat, data: seq<Byte>) returns (survived: bool)
      requires Valid()
      modifies settings
      ensures Contents() == WriteMemory(old(Contents()), address, data)
      ensures survived == Fits(address, |data|)
    {
      if address >= MEMORY_SIZE {
        return true;
      }
      var offset := 0;
      while offset < |data|
        invariant 0 <= offset <= |data| && address + offset <= MEMORY_SIZE
        invariant Contents() == WriteMemory(old(Contents()), address, data[..offset])
      {
        if address + offset >= MEMORY_SIZE {
          return false;
        }
        settings[address + offset] := data[offset];
        offset := offset + 1;
      }
      assert data[..offset] == data;
      survived := true;
    }

    method Process(raw: string) returns (reply: Option<string>)
      requires Valid()
      modifies settings
      ensures (reply, Contents()) == Answer(old(Contents()), raw)
    {
      match ParseFrame(raw)
      case Err(_) =>
        reply := None;
      case Ok(frame) =>
        if frame.command == READ {
          var bytes := Read(frame.address, frame.length);
          reply := Some(BuildFrame(READ, frame.address, frame.length, bytes));
        } else {
          var survived := Write(frame.address, frame.data);
          reply := if survived then Some(BuildAck(WRITE, frame.address, frame.length)) else None;
        }
    }
  }

  // -- what every request leaves behind ------------------------------------

  /** The value a write puts at one address of the region, and the addresses it leaves alone. */
  lemma WriteThenRead(mem: Memory, address: nat, data: seq<Byte>, i: nat)
    requires i < MEMORY_SIZE
    ensures ReadMemory(WriteMemory(mem, address, data), i, 1)
         == if address <= i < address + |data| then [data[i - address]] else ReadMemory(mem, i, 1)
  {
    assert WriteMemory(mem, address, data)[i]
        == if address <= i < address + |data| then data[i - address] else mem[i];
  }

  /** Repeating a request changes nothing and is answered alike: what makes a blind retry safe. */
  lemma AnswerTwice(mem: Memory, raw: string)
    ensures Answer(Answer(mem, raw).1, raw) == Answer(mem, raw)
  {
    match ParseFrame(raw)
    case Err(_) =>
    case Ok(frame) =>
      var once := WriteMemory(mem, frame.address, frame.data);
      assert WriteMemory(once, frame.address, frame.data) == once;
  }
}
