/**
 * The bus of the later design: the same 0xFFFF-byte array as the flat
 * memory, with writes to the PPU's memory-mapped registers forwarded to the
 * PPU, fatal reads of the write-only ones, a zero-page-wrapping word read,
 * two's-complement decoding, and the PRG copy mirrored at $8000 and $C000.
 */
module AddressBus {
  import opened Bytes
  import opened Wrappers
  import FlatMemory
  import PpuRegisters
  import AddressLatch

  const Size := FlatMemory.Size

  /** Where `readData` places the PRG bytes, and where it mirrors them. */
  const PrgStart: nat := 0x8000
  const PrgMirror: nat := 0xC000

  /** The process exit of a read from a PPU register, as an error value. */
  datatype ReadError = PpuRegisterNotReadable(addr: word)

  /** The PPU setter a write to `addr` is forwarded to, if any. */
  function ForwardTarget(addr: word): (t: Option<PpuRegisters.Register>)
    ensures t.Some? <==> addr in {0x2000, 0x2001, 0x2003, 0x2004, 0x2005, 0x2006, 0x2007, 0x4014}
    ensures t != Some(PpuRegisters.OamDma)
    ensures addr == 0x4014 ==> t == Some(PpuRegisters.OamData)
  {
    if addr == 0x2000 then Some(PpuRegisters.Control)
    else if addr == 0x2001 then Some(PpuRegisters.Mask)
    else if addr == 0x2003 then Some(PpuRegisters.OamAddress)
    else if addr == 0x2004 then Some(PpuRegisters.OamData)
    else if addr == 0x2005 then Some(PpuRegisters.Scroll)
    else if addr == 0x2006 then Some(PpuRegisters.Address)
    else if addr == 0x2007 then Some(PpuRegisters.Data)
    else if addr == 0x4014 then Some(PpuRegisters.OamData)
    else None
  }

  /** The PPU registers whose read ends the process. */
  predicate ReadForbidden(addr: word)
  {
    addr == 0x2000 || addr == 0x2001 || addr == 0x2003 || addr == 0x2005 || addr == 0x2006 || addr == 0x4014
  }

  /** Everything a bus write can change: the byte array and the PPU's registers. */
  datatype BusState = BusState(ram: seq<byte>, ppu: PpuRegisters.Registers)

  /** What a write of `b` to `addr` does to the PPU: the forwarded register's setter takes it, or nothing happens. */
  function Forward(p: PpuRegisters.Registers, addr: word, b: byte): PpuRegisters.Registers
  {
    match ForwardTarget(addr)
    case Some(reg) => PpuRegisters.Set(p, reg, b)
    case None => p
  }

  /** `write_8`: a forwarded address goes to its PPU setter, any other is stored. */
  function Store8(s: BusState, addr: word, b: byte): (s': BusState)
    requires |s.ram| == Size && addr < Size
    ensures |s'.ram| == Size
    ensures ForwardTarget(addr).Some? ==> s'.ram == s.ram && s'.ppu == PpuRegisters.Set(s.ppu, ForwardTarget(addr).value, b)
    ensures ForwardTarget(addr).None? ==> s'.ram == s.ram[addr := b] && s'.ppu == s.ppu
  {
    match ForwardTarget(addr)
    case Some(reg) => s.(ppu := PpuRegisters.Set(s.ppu, reg, b))
    case None => s.(ram := s.ram[addr := b])
  }

  /**
   * `write_16`: the low byte then the high byte, each through `write_8`; the
   * second address is `addr + 1` cut to 16 bits.
   */
  function Store16(s: BusState, addr: word, w: word): (s': BusState)
    requires |s.ram| == Size && addr < Size && Wrap16(addr + 1) < Size
    ensures |s'.ram| == Size
    ensures forall i :: 0 <= i < Size && i != addr && i != addr + 1 ==> s'.ram[i] == s.ram[i]
    ensures ForwardTarget(addr).None? ==> s'.ram[addr] == Lo(w)
    ensures ForwardTarget(addr + 1).None? ==> s'.ram[addr + 1] == Hi(w)
    ensures ForwardTarget(addr).Some? ==> s'.ram[addr] == s.ram[addr]
    ensures ForwardTarget(addr + 1).Some? ==> s'.ram[addr + 1] == s.ram[addr + 1]
    ensures s'.ppu == Forward(Forward(s.ppu, addr, Lo(w)), addr + 1, Hi(w))
  {
    Store8(Store8(s, addr, Lo(w)), Wrap16(addr + 1), Hi(w))
  }

  /** `read`: fatal for a write-only PPU register, otherwise the stored byte. */
  function Load(ram: seq<byte>, addr: word): (r: Result<byte, ReadError>)
    requires |ram| == Size && addr < Size
    ensures r.Failure? <==> addr in {0x2000, 0x2001, 0x2003, 0x2005, 0x2006, 0x4014}
    ensures r.Success? ==> r.value == ram[addr]
    ensures r.Failure? ==> ForwardTarget(addr).Some?
  {
    if ReadForbidden(addr) then Failure(PpuRegisterNotReadable(addr)) else Success(ram[addr])
  }

  /** `read_16`: two reads, low byte first, either of which may be fatal. */
  function Load16(ram: seq<byte>, addr: word): (r: Result<word, ReadError>)
    requires |ram| == Size && addr < Size && Wrap16(addr + 1) < Size
    ensures r.Failure? <==> ReadForbidden(addr) || ReadForbidden(addr + 1)
    ensures r.Success? ==> r.value == FlatMemory.Load16(ram, addr)
  {
    match Load(ram, addr)
    case Failure(e) => Failure(e)
    case Success(p1) =>
      match Load(ram, Wrap16(addr + 1))
      case Failure(e) => Failure(e)
      case Success(p2) => Success(Word(p1, p2))
  }

  /**
   * `read_16_zero_page_wrap`: both bytes come from the zero page, the
   * address and its successor each taken modulo 256.
   */
  function ZeroPageLoad16(ram: seq<byte>, addr: word): (w: word)
    requires |ram| == Size
    ensures Lo(w) == ram[addr % 0x100] && Hi(w) == ram[(addr + 1) % 0x100]
  {
    var p1 := Load(ram, addr % 0x100);
    var p2 := Load(ram, (addr + 1) % 0x100);
    Word(p1.value, p2.value)
  }

  /**
   * The two's-complement value of a byte, computed as `read_signed` does:
   * for a byte with bit 7 set, the negation of `(unsigned char)(~value + 1)`.
   */
  function Signed(b: byte): (r: int)
    ensures -0x80 <= r < 0x80
    ensures r < 0 <==> b >= 0x80
    ensures r % 0x100 == b
  {
    var complement: int := -(b as int) - 1;  // ~value, after promotion to int
    if b / 0x80 == 1 then -((complement + 1) % 0x100) else b
  }

  /** `read_signed`: the byte at `addr` decoded as a signed value. */
  function LoadSigned(ram: seq<byte>, addr: word): (r: Result<int, ReadError>)
    requires |ram| == Size && addr < Size
    ensures r.Failure? <==> ReadForbidden(addr)
    ensures r.Success? ==> r.value == Signed(ram[addr])
  {
    match Load(ram, addr)
    case Failure(e) => Failure(e)
    case Success(v) => Success(Signed(v))
  }

  /** `readData`: the PRG bytes copied to $8000 and again to $C000. */
  function Mirror(ram: seq<byte>, data: seq<byte>): (r: seq<byte>)
    requires |ram| == Size && PrgMirror + |data| <= Size
    ensures |r| == Size
    ensures forall i :: 0 <= i < |data| ==> r[PrgStart + i] == data[i] && r[PrgMirror + i] == data[i]
    ensures forall i :: 0 <= i < Size && !(PrgStart <= i < PrgStart + |data|) && !(PrgMirror <= i < PrgMirror + |data|) ==> r[i] == ram[i]
  {
    FlatMemory.Blit(FlatMemory.Blit(ram, PrgStart, data), PrgMirror, data)
  }

  /** A word stored on two plain RAM cells reads back unchanged, and the PPU is untouched. */
  lemma Load16OfStore16(s: BusState, addr: word, w: word)
    requires |s.ram| == Size && addr + 1 < Size
    requires ForwardTarget(addr).None? && ForwardTarget(addr + 1).None?
    ensures Load16(Store16(s, addr, w).ram, addr) == Success(w)
    ensures Store16(s, addr, w).ppu == s.ppu
  {
    WordOfHalves(w);
  }

  /**
   * Each forwarded address reaches its own setter and no RAM cell; $4014
   * reaches `setOamData`, and `setOamDma` is never called.
   */
  lemma ForwardedWrites(s: BusState, b: byte)
    requires |s.ram| == Size
    ensures Store8(s, 0x2000, b) == s.(ppu := s.ppu.(control := b))
    ensures Store8(s, 0x2001, b) == s.(ppu := s.ppu.(mask := b))
    ensures Store8(s, 0x2003, b) == s.(ppu := s.ppu.(oamAddress := b))
    ensures Store8(s, 0x2004, b) == s.(ppu := s.ppu.(oamData := b))
    ensures Store8(s, 0x2005, b) == s.(ppu := s.ppu.(scroll := b))
    ensures Store8(s, 0x2006, b) == s.(ppu := s.ppu.(address := AddressLatch.Store(s.ppu.address, b)))
    ensures Store8(s, 0x2007, b) == s.(ppu := s.ppu.(data := b))
    ensures Store8(s, 0x4014, b) == s.(ppu := s.ppu.(oamData := b))
    ensures forall addr: word :: addr < Size ==> Store8(s, addr, b).ppu.oamDma == s.ppu.oamDma
  {
  }

  /** Writing 0x40 then 0x02 to $2006 from the latch's high state makes the PPU address 0x4002. */
  lemma PpuAddressWrites(s: BusState)
    requires |s.ram| == Size && s.ppu.address.isHigh
    ensures Store8(Store8(s, 0x2006, 0x40), 0x2006, 0x02).ram == s.ram
    ensures AddressLatch.Value(Store8(Store8(s, 0x2006, 0x40), 0x2006, 0x02).ppu.address) == 0x4002
  {
    var l := Store8(Store8(s, 0x2006, 0x40), 0x2006, 0x02).ppu.address;
    assert l == AddressLatch.StoreAll(s.ppu.address, [0x40, 0x02]) by {
      assert [0x40, 0x02][..1] == [0x40];
      assert [0x40][..0] == [];
    }
    AddressLatch.StoreAllLastPair(s.ppu.address, [0x40, 0x02]);
  }

  /** The zero-page word read depends only on the address modulo 256. */
  lemma ZeroPageLoad16Mod(ram: seq<byte>, addr: word)
    requires |ram| == Size
    ensures ZeroPageLoad16(ram, addr) == ZeroPageLoad16(ram, addr % 0x100)
  {
    assert (addr + 1) % 0x100 == (addr % 0x100 + 1) % 0x100;
    WordOfHalves(ZeroPageLoad16(ram, addr));
    WordOfHalves(ZeroPageLoad16(ram, addr % 0x100));
  }

  /** A pointer at $xxFF takes its high byte from cell $00, not from the next page. */
  lemma ZeroPageLoad16Wraps(ram: seq<byte>, addr: word)
    requires |ram| == Size && addr % 0x100 == 0xFF
    ensures Lo(ZeroPageLoad16(ram, addr)) == ram[0xFF] && Hi(ZeroPageLoad16(ram, addr)) == ram[0]
  {
  }

  /** The two copies made by `readData` agree byte for byte. */
  lemma MirrorAgrees(ram: seq<byte>, data: seq<byte>, i: nat)
    requires |ram| == Size && PrgMirror + |data| <= Size && i < |data|
    ensures Mirror(ram, data)[PrgStart + i] == Mirror(ram, data)[PrgMirror + i] == data[i]
  {
  }

  class Bus {
    const ram: FlatMemory.Memory
    const ppu: PpuRegisters.Ppu

    ghost predicate Valid()
      reads this, ram
    {
      ram.Valid()
    }

    function State(): BusState
      reads this, ram, ram.cells, ppu, ppu.address
    {
      BusState(ram.cells[..], ppu.State())
    }

    constructor (ppu: PpuRegisters.Ppu)
      ensures Valid() && this.ppu == ppu && fresh(ram) && fresh(ram.cells)
    {
      this.ppu := ppu;
      ram := new FlatMemory.Memory();
    }

    /** Copies the PRG bytes to $8000 and mirrors them at $C000. */
    method ReadData(data: seq<byte>)
      requires Valid() && PrgMirror + |data| <= Size
      modifies ram.cells
      ensures ram.cells[..] == Mirror(old(ram.cells[..]), data)
    {
      Write(PrgStart, data);
      Write(PrgMirror, data);
    }

    /** The block copy stores the bytes directly: no PPU forwarding. */
    method Write(addr: word, data: seq<byte>)
      requires Valid() && addr + |data| <= Size
      modifies ram.cells
      ensures ram.cells[..] == FlatMemory.Blit(old(ram.cells[..]), addr, data)
    {
      ram.Write(addr, data);
    }

    method Write8(addr: word, b: byte)
      requires Valid() && addr < Size
      modifies ram.cells, ppu, ppu.address
      ensures State() == Store8(old(State()), addr, b)
    {
      if addr == 0x2000 {
        ppu.SetControl(b);
      } else if addr == 0x2001 {
        ppu.SetMask(b);
      } else if addr == 0x2003 {
        ppu.SetOamAddress(b);
      } else if addr == 0x2004 {
        ppu.SetOamData(b);
      } else if addr == 0x2005 {
        ppu.SetScroll(b);
      } else if addr == 0x2006 {
        ppu.SetAddress(b);
      } else if addr == 0x2007 {
        ppu.SetData(b);
      } else if addr == 0x4014 {
        ppu.SetOamData(b);
      } else {
        ram.Write8(addr, b);
      }
    }

    method Write16(addr: word, w: word)
      requires Valid() && addr < Size && Wrap16(addr + 1) < Size
      modifies ram.cells, ppu, ppu.address
      ensures State() == Store16(old(State()), addr, w)
    {
      Write8(addr, Lo(w));
      Write8(Wrap16(addr + 1), Hi(w));
    }

    method Read(addr: word) returns (r: Result<byte, ReadError>)
      requires Valid() && addr < Size
      ensures r == Load(ram.cells[..], addr)
    {
      if addr == 0x2000 || addr == 0x2001 || addr == 0x2003 || addr == 0x2005 || addr == 0x2006 || addr == 0x4014 {
        return Failure(PpuRegisterNotReadable(addr));
      }
      var b := ram.Read(addr);
      return Success(b);
    }

    method Read16(addr: word) returns (r: Result<word, ReadError>)
      requires Valid() && addr < Size && Wrap16(addr + 1) < Size
      ensures r == Load16(ram.cells[..], addr)
    {
      var p1 := Read(addr);
      if p1.Failure? {
        return Failure(p1.error);
      }
      var p2 := Read(Wrap16(addr + 1));
      if p2.Failure? {
        return Failure(p2.error);
      }
      return Success(Word(p1.value, p2.value));
    }

    method Read16ZeroPageWrap(addr: word) returns (w: word)
      requires Valid()
      ensures w == ZeroPageLoad16(ram.cells[..], addr)
    {
      var p1 := Read(addr % 0x100);
      var p2 := Read((addr + 1) % 0x100);
      w := Word(p1.value, p2.value);
    }

    method ReadSigned(addr: word) returns (r: Result<int, ReadError>)
      requires Valid() && addr < Size
      ensures r == LoadSigned(ram.cells[..], addr)
    {
      var value := Read(addr);
      if value.Failure? {
        return Failure(value.error);
      }
      return Success(Signed(value.value));
    }
  }
}
