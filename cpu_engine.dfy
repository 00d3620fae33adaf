/**
 * The early CPU as the object it is in the emulator: registers as fields,
 * handlers that update them in place, and the flat memory reached through
 * the owning system. Every method is proved against the functions of
 * `CpuSemantics`.
 */
module CpuEngine {
  import opened Bytes
  import opened Wrappers
  import FlatMemory
  import StatusFlags
  import S = CpuSemantics

  class Cpu {
    var pc: word
    var sp: byte
    var a: byte
    var x: byte
    var y: byte
    var status: bv8
    /** `system->memory`: the system's flat memory. */
    const memory: FlatMemory.Memory

    function Regs(): S.Registers
      reads this
    {
      S.Registers(pc, sp, a, x, y, status)
    }

    /** Runs `resetState`; pc and sp stay indeterminate. */
    constructor (memory: FlatMemory.Memory)
      ensures this.memory == memory
      ensures a == 0 && x == 0 && y == 0 && status == 0
    {
      this.memory := memory;
      a, x, y, status := 0, 0, 0, 0;
    }

    function GetPC(): (p: int)
      reads this
      ensures 0 <= p <= 0xFFFF && p == Regs().pc
    {
      pc
    }

    function GetA(): (v: byte)
      reads this
      ensures v == Regs().a
    {
      a
    }

    function GetX(): (v: byte)
      reads this
      ensures v == Regs().x
    {
      x
    }

    function GetY(): (v: byte)
      reads this
      ensures v == Regs().y
    {
      y
    }

    function GetSP(): (v: byte)
      reads this
      ensures v == Regs().sp
    {
      sp
    }

    function GetStatus(): (v: bv8)
      reads this
      ensures v == Regs().status
    {
      status
    }

    function GetZero(): (v: byte)
      reads this
      ensures v == StatusFlags.Bit(Regs().status, 1)
    {
      StatusFlags.Zero(status)
    }

    function GetSP16(): (v: word)
      reads this
      ensures 0x0100 <= v <= 0x01FF && Lo(v) == Regs().sp
    {
      StatusFlags.StackAddress(sp)
    }

    function GetCarry(): (v: byte)
      reads this
      ensures v == StatusFlags.Bit(Regs().status, 0)
    {
      StatusFlags.Carry(status)
    }

    function GetNegative(): (v: byte)
      reads this
      ensures v == StatusFlags.Bit(Regs().status, 7)
    {
      StatusFlags.Negative(status)
    }

    function GetOverflow(): (v: byte)
      reads this
      ensures v == StatusFlags.Bit(Regs().status, 6)
    {
      StatusFlags.Overflow(status)
    }

    method ResetInterrupt()
      requires memory.Valid()
      modifies this
      ensures Regs() == S.Reset(old(Regs()), memory.cells[..])
    {
      pc := memory.Read16(S.ResetVector);
      ResetState();
    }

    method ResetState()
      modifies this
      ensures Regs() == S.ResetState(old(Regs()))
    {
      status := 0;
      a := 0;
      x := 0;
      y := 0;
    }

    /** Ten fetch/execute steps; the memory is only read. */
    method Run()
      requires memory.Valid() && S.Run(Regs(), memory.cells[..], S.Steps).Some?
      modifies this
      ensures Regs() == S.Run(old(Regs()), memory.cells[..], S.Steps).value
      ensures memory.cells[..] == old(memory.cells[..])
    {
      RunSteps(S.Steps);
    }

    /** The loop of `run`, for a step count of `n`. */
    method RunSteps(n: nat)
      requires memory.Valid() && S.Run(Regs(), memory.cells[..], n).Some?
      modifies this
      ensures Regs() == S.Run(old(Regs()), memory.cells[..], n).value
      ensures memory.cells[..] == old(memory.cells[..])
    {
      ghost var start := Regs();
      for i := 0 to n
        invariant S.Run(start, memory.cells[..], n) == S.Run(Regs(), memory.cells[..], n - i)
      {
        S.RunFirstStep(Regs(), memory.cells[..], n - i);
        Cycle();
      }
    }

    /** One iteration of the loop in `run`: fetch, execute, advance pc. */
    method Cycle()
      requires memory.Valid() && S.Step(Regs(), memory.cells[..]).Some?
      modifies this
      ensures Regs() == S.Step(old(Regs()), memory.cells[..]).value
    {
      var opCode := memory.Read(pc);
      ExecOpCode(opCode);
      pc := Wrap16(pc + 1);
    }

    method ExecOpCode(opCode: byte)
      requires memory.Valid() && S.Exec(Regs(), memory.cells[..], opCode).Some?
      modifies this
      ensures Regs() == S.Exec(old(Regs()), memory.cells[..], opCode).value
    {
      match opCode
      case 0x00 => return;
      case 0xa0 => Ldy(S.Immediate);
      case 0xa2 => Ldx(S.Immediate);
      case 0xa5 => Lda(S.ZeroPage);
      case 0xa9 => Lda(S.Immediate);
      case 0xad => Lda(S.Absolute);
      case 0xb5 => Lda(S.ZeroPageX);
      case 0xb6 => Ldx(S.ZeroPageY);
      case 0xaa => Tax();
      case 0xe8 => Inx();
      case _ =>
    }

    method Lda(mode: S.AddressingMode)
      requires memory.Valid() && S.LoadRegister(Regs(), memory.cells[..], S.A, mode).Some?
      modifies this
      ensures Regs() == S.LoadRegister(old(Regs()), memory.cells[..], S.A, mode).value
    {
      pc := Wrap16(pc + 1);
      ghost var stepped := Regs();
      var address := GetAddress(mode);
      a := memory.Read(address);
      assert S.Operand(stepped, memory.cells[..], mode) == Some(a);
      UpdateZeroAndNegativeFlag(a);
    }

    method Ldx(mode: S.AddressingMode)
      requires memory.Valid() && S.LoadRegister(Regs(), memory.cells[..], S.X, mode).Some?
      modifies this
      ensures Regs() == S.LoadRegister(old(Regs()), memory.cells[..], S.X, mode).value
    {
      pc := Wrap16(pc + 1);
      ghost var stepped := Regs();
      var address := GetAddress(mode);
      x := memory.Read(address);
      assert S.Operand(stepped, memory.cells[..], mode) == Some(x);
      UpdateZeroAndNegativeFlag(x);
    }

    method Ldy(mode: S.AddressingMode)
      requires memory.Valid() && S.LoadRegister(Regs(), memory.cells[..], S.Y, mode).Some?
      modifies this
      ensures Regs() == S.LoadRegister(old(Regs()), memory.cells[..], S.Y, mode).value
    {
      pc := Wrap16(pc + 1);
      ghost var stepped := Regs();
      var address := GetAddress(mode);
      y := memory.Read(address);
      assert S.Operand(stepped, memory.cells[..], mode) == Some(y);
      UpdateZeroAndNegativeFlag(y);
    }

    method Tax()
      modifies this
      ensures Regs() == S.Tax(old(Regs()))
    {
      x := a;
      UpdateZeroAndNegativeFlag(x);
    }

    method Inx()
      modifies this
      ensures Regs() == S.Inx(old(Regs()))
    {
      x := (x + 1) % 0x100;
      UpdateZeroAndNegativeFlag(x);
    }

    method UpdateZeroAndNegativeFlag(result: byte)
      modifies this
      ensures Regs() == old(Regs()).(status := S.UpdateZeroAndNegativeFlag(old(status), result))
    {
      if result == 0 {
        status := status | 0x02;
      } else {
        status := status & 0xFD;
      }
      if result >= 0x80 {
        status := status | 0x40;
      } else {
        status := status & 0xBF;
      }
    }

    /** Resolves the operand address of `mode` at pc; nothing changes. */
    method GetAddress(mode: S.AddressingMode) returns (address: word)
      requires memory.Valid() && S.AddressDefined(Regs(), mode)
      ensures address == S.GetAddress(Regs(), memory.cells[..], mode)
      decreases if mode.ZeroPageX? || mode.ZeroPageY? then 1 else 0
    {
      match mode
      case Immediate =>
        address := pc;
      case ZeroPage =>
        address := memory.Read(pc);
      case ZeroPageX =>
        var base := GetAddress(S.ZeroPage);
        address := base + x;
      case ZeroPageY =>
        var base := GetAddress(S.ZeroPage);
        address := base + y;
      case Absolute =>
        address := memory.Read16(pc);
    }
  }
}
