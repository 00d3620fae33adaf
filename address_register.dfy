/**
 * The PPU address register: a two-byte latch written one byte at a time.
 * The first write after construction sets the high byte, the next the low
 * byte, and the two alternate from then on.
 */
module AddressLatch {
  import opened Bytes

  /** The register's state: its two bytes and whether the next write sets the high one. */
  datatype Latch = Latch(high: byte, low: byte, isHigh: bool)

  /** One `write`: fills the byte the latch points at and flips the latch. */
  function Store(l: Latch, b: byte): (l': Latch)
    ensures l'.isHigh == !l.isHigh
    ensures l.isHigh ==> l'.high == b && l'.low == l.low
    ensures !l.isHigh ==> l'.low == b && l'.high == l.high
  {
    if l.isHigh then l.(high := b, isHigh := false) else l.(low := b, isHigh := true)
  }

  /** What `read` returns: the high byte above the low byte. */
  function Value(l: Latch): (v: word)
    ensures Hi(v) == l.high && Lo(v) == l.low
  {
    Word(l.low, l.high)
  }

  /** The writes of `bs` in order, the last one applied last. */
  function StoreAll(l: Latch, bs: seq<byte>): (l': Latch)
    ensures bs == [] ==> l' == l
    ensures |bs| > 0 ==> (if l'.isHigh then l'.low else l'.high) == bs[|bs| - 1]
    decreases |bs|
  {
    if bs == [] then l else Store(StoreAll(l, bs[..|bs| - 1]), bs[|bs| - 1])
  }

  /** Every write flips the latch, so an even number of writes restores it. */
  lemma {:induction false} StoreAllParity(l: Latch, bs: seq<byte>)
    ensures StoreAll(l, bs).isHigh == (l.isHigh == (|bs| % 2 == 0))
    decreases |bs|
  {
    if bs != [] {
      StoreAllParity(l, bs[..|bs| - 1]);
    }
  }

  /**
   * Starting in the high state, an even number of writes leaves the latch in
   * the high state holding the last two bytes written, the earlier one as
   * the high byte.
   */
  lemma {:induction false} StoreAllLastPair(l: Latch, bs: seq<byte>)
    requires l.isHigh && |bs| >= 2 && |bs| % 2 == 0
    ensures StoreAll(l, bs).isHigh
    ensures Value(StoreAll(l, bs)) == bs[|bs| - 2] as int * 0x100 + bs[|bs| - 1] as int
  {
    var n := |bs|;
    StoreAllParity(l, bs[..n - 2]);
    assert bs[..n - 1][..n - 2] == bs[..n - 2];
    assert StoreAll(l, bs) == Store(Store(StoreAll(l, bs[..n - 2]), bs[n - 2]), bs[n - 1]);
  }

  class AddressRegister {
    var low: byte
    var high: byte
    var isHigh: bool

    function State(): Latch
      reads this
    {
      Latch(high, low, isHigh)
    }

    /** Only the latch is initialised; the two bytes start indeterminate. */
    constructor ()
      ensures State().isHigh
    {
      isHigh := true;
    }

    method Write(b: byte)
      modifies this
      ensures State() == Store(old(State()), b)
    {
      if isHigh {
        high := b;
      } else {
        low := b;
      }
      isHigh := !isHigh;
    }

    /** Reading combines the two bytes and changes nothing. */
    function Read(): (v: word)
      reads this
      ensures v == Value(State())
    {
      Word(low, high)
    }
  }
}
