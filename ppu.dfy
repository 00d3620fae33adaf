/**
 * The PPU as far as the bus sees it: eight setters, each remembering the
 * last byte it was given, except the address setter, which feeds the
 * address latch.
 */
module PpuRegisters {
  import opened Bytes
  import AddressLatch

  /** The setters `setControl` … `setOamDma`. */
  datatype Register = Control | Mask | OamAddress | OamData | Scroll | Address | Data | OamDma

  /** The abstract PPU state: what each setter last stored. */
  datatype Registers = Registers(
    control: byte,
    mask: byte,
    oamAddress: byte,
    oamData: byte,
    scroll: byte,
    address: AddressLatch.Latch,
    data: byte,
    oamDma: byte)

  /** Calling the setter of `reg` with `v`: that register takes `v`, every other one keeps its value. */
  function Set(r: Registers, reg: Register, v: byte): (r': Registers)
    ensures r'.control == (if reg == Control then v else r.control)
    ensures r'.mask == (if reg == Mask then v else r.mask)
    ensures r'.oamAddress == (if reg == OamAddress then v else r.oamAddress)
    ensures r'.oamData == (if reg == OamData then v else r.oamData)
    ensures r'.scroll == (if reg == Scroll then v else r.scroll)
    ensures r'.address == (if reg == Address then AddressLatch.Store(r.address, v) else r.address)
    ensures r'.data == (if reg == Data then v else r.data)
    ensures r'.oamDma == (if reg == OamDma then v else r.oamDma)
  {
    match reg
    case Control => r.(control := v)
    case Mask => r.(mask := v)
    case OamAddress => r.(oamAddress := v)
    case OamData => r.(oamData := v)
    case Scroll => r.(scroll := v)
    case Address => r.(address := AddressLatch.Store(r.address, v))
    case Data => r.(data := v)
    case OamDma => r.(oamDma := v)
  }

  class Ppu {
    var control: byte
    var mask: byte
    var oamAddress: byte
    var oamData: byte
    var scroll: byte
    const address: AddressLatch.AddressRegister
    var data: byte
    var oamDma: byte

    function State(): Registers
      reads this, address
    {
      Registers(control, mask, oamAddress, oamData, scroll, address.State(), data, oamDma)
    }

    /** A new PPU owns a new address register in its high state; the other registers are indeterminate. */
    constructor ()
      ensures fresh(address) && State().address.isHigh
    {
      address := new AddressLatch.AddressRegister();
    }

    method SetControl(v: byte)
      modifies this
      ensures State() == Set(old(State()), Control, v)
    {
      control := v;
    }

    method SetMask(v: byte)
      modifies this
      ensures State() == Set(old(State()), Mask, v)
    {
      mask := v;
    }

    method SetOamAddress(v: byte)
      modifies this
      ensures State() == Set(old(State()), OamAddress, v)
    {
      oamAddress := v;
    }

    method SetOamData(v: byte)
      modifies this
      ensures State() == Set(old(State()), OamData, v)
    {
      oamData := v;
    }

    method SetScroll(v: byte)
      modifies this
      ensures State() == Set(old(State()), Scroll, v)
    {
      scroll := v;
    }

    method SetAddress(v: byte)
      modifies address
      ensures State() == Set(old(State()), Address, v)
    {
      address.Write(v);
    }

    method SetData(v: byte)
      modifies this
      ensures State() == Set(old(State()), Data, v)
    {
      data := v;
    }

    method SetOamDma(v: byte)
      modifies this
      ensures State() == Set(old(State()), OamDma, v)
    {
      oamDma := v;
    }
  }
}
