/**
 * The flat memory of the early design (`Memory`): an array of 0xFFFF bytes
 * with byte and little-endian word access and a block copy. The array has
 * 0xFFFF entries, so the valid indices are 0 .. 0xFFFE and every access
 * requires an index below `Size`.
 */
module FlatMemory {
  import opened Bytes

  /** Number of cells of `unsigned char memory[0xffff]`. */
  const Size: nat := 0xFFFF

  /** `std::copy` of `data` into `m` starting at index `at`, one byte after the other. */
  function Blit(m: seq<byte>, at: nat, data: seq<byte>): (r: seq<byte>)
    requires at + |data| <= |m|
    ensures |r| == |m|
    ensures forall i :: at <= i < at + |data| ==> r[i] == data[i - at]
    ensures forall i :: 0 <= i < |m| && !(at <= i < at + |data|) ==> r[i] == m[i]
    decreases |data|
  {
    if |data| == 0 then m
    else
      var r := Blit(m[at := data[0]], at + 1, data[1..]);
      r
  }

  /** The little-endian word stored at `addr` and `addr + 1`. */
  function Load16(m: seq<byte>, addr: nat): (w: word)
    requires addr + 1 < |m|
    ensures w == m[addr + 1] as int * 0x100 + m[addr] as int
  {
    Word(m[addr], m[addr + 1])
  }

  /** Stores `w` little-endian: low byte at `addr`, high byte at `addr + 1`. */
  function Store16(m: seq<byte>, addr: nat, w: word): (r: seq<byte>)
    requires addr + 1 < |m|
    ensures |r| == |m|
    ensures r[addr] == Lo(w) && r[addr + 1] == Hi(w)
    ensures forall i :: 0 <= i < |m| && i != addr && i != addr + 1 ==> r[i] == m[i]
  {
    m[addr := Lo(w)][addr + 1 := Hi(w)]
  }

  /** A word written with `Store16` reads back unchanged with `Load16`. */
  lemma Load16OfStore16(m: seq<byte>, addr: nat, w: word)
    requires addr + 1 < |m|
    ensures Load16(Store16(m, addr, w), addr) == w
  {
    WordOfHalves(w);
  }

  /** The bytes {0x34, 0x12} copied to address 0 read as the word 0x1234. */
  lemma BlitThenLoad16(m: seq<byte>)
    requires |m| == Size
    ensures Load16(Blit(m, 0, [0x34, 0x12]), 0) == 0x1234
  {
    var r := Blit(m, 0, [0x34, 0x12]);
    assert r[0] == 0x34 && r[1] == 0x12;
  }

  class Memory {
    const cells: array<byte>

    ghost predicate Valid()
      reads this
    {
      cells.Length == Size
    }

    /** The cells start out indeterminate, so nothing is promised about them. */
    constructor ()
      ensures Valid() && fresh(cells)
    {
      cells := new byte[Size];
    }

    /** Copies `data` to the cells starting at `addr`. */
    method Write(addr: word, data: seq<byte>)
      requires Valid() && addr + |data| <= Size
      modifies cells
      ensures cells[..] == Blit(old(cells[..]), addr, data)
    {
      var i := 0;
      while i < |data|
        invariant 0 <= i <= |data|
        invariant forall k :: addr <= k < addr + i ==> cells[k] == data[k - addr]
        invariant forall k :: 0 <= k < cells.Length && !(addr <= k < addr + i) ==> cells[k] == old(cells[k])
      {
        cells[addr + i] := data[i];
        i := i + 1;
      }
      assert cells[..] == Blit(old(cells[..]), addr, data);
    }

    /** Stores one byte at `addr` and changes no other cell. */
    method Write8(addr: word, b: byte)
      requires Valid() && addr < Size
      modifies cells
      ensures cells[..] == old(cells[..])[addr := b]
    {
      cells[addr] := b;
    }

    /** Stores `w` little-endian at `addr` and `addr + 1`. */
    method Write16(addr: word, w: word)
      requires Valid() && addr + 1 < Size
      modifies cells
      ensures cells[..] == Store16(old(cells[..]), addr, w)
    {
      cells[addr] := Lo(w);
      cells[addr + 1] := Hi(w);
    }

    /** The byte at `addr`; nothing changes. */
    method Read(addr: word) returns (b: byte)
      requires Valid() && addr < Size
      ensures b == cells[addr]
    {
      b := cells[addr];
    }

    /** The little-endian word at `addr`; nothing changes. */
    method Read16(addr: word) returns (w: word)
      requires Valid() && addr + 1 < Size
      ensures w == Load16(cells[..], addr)
    {
      var p1 := cells[addr];
      var p2 := cells[addr + 1];
      w := Word(p1, p2);
    }
  }
}
