/**
 * The CPU's status byte and the accessors the CPU class defines inline.
 * The documented layout, from bit 7 down to bit 0, is N V s s D I Z C:
 * negative, overflow, two unused bits, decimal, interrupt disable, zero,
 * carry.
 */
module StatusFlags {
  import opened Bytes

  const CarryMask: bv8 := 0x01
  const ZeroMask: bv8 := 0x02
  const InterruptMask: bv8 := 0x04
  const DecimalMask: bv8 := 0x08
  const OverflowMask: bv8 := 0x40
  const NegativeMask: bv8 := 0x80

  /** Bit `k` of the status byte, as 0 or 1: the reference the accessors are checked against. */
  function Bit(status: bv8, k: nat): (b: byte)
    requires k < 8
    ensures b == 0 || b == 1
  {
    ((status >> k) & 1) as int
  }

  /** `getZero`: bit 1 shifted down to bit 0. */
  function Zero(status: bv8): (r: byte)
    ensures r == Bit(status, 1)
  {
    ((status & ZeroMask) >> 1) as int
  }

  /** `getCarry`: bit 0 masked in place. */
  function Carry(status: bv8): (r: byte)
    ensures r == Bit(status, 0)
  {
    (status & CarryMask) as int
  }

  /** `getNegative`: 1 when bit 7 is set. */
  function Negative(status: bv8): (r: byte)
    ensures r == Bit(status, 7)
  {
    if status & NegativeMask != 0 then 1 else 0
  }

  /** `getOverflow`: 1 when bit 6 is set. */
  function Overflow(status: bv8): (r: byte)
    ensures r == Bit(status, 6)
  {
    if status & OverflowMask != 0 then 1 else 0
  }

  /**
   * `getSP_16`: the stack pointer's address in page one. The source ORs
   * 0x0100 in twice; OR is idempotent, so this is 0x0100 plus the pointer.
   */
  function StackAddress(sp: byte): (r: word)
    ensures r == 0x0100 + sp
    ensures 0x0100 <= r <= 0x01FF && Lo(r) == sp && Hi(r) == 0x01
  {
    (0x0100 | (0x0100 | (sp as bv8) as bv16)) as int
  }
}
