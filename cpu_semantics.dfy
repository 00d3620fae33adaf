/**
 * What the early CPU does, as functions of its registers and a snapshot of
 * the flat memory. No handler writes memory, so the memory is an input and
 * never a result. An access past the array's last cell, undefined in the
 * emulator, makes a step yield `None`.
 */
module CpuSemantics {
  import opened Bytes
  import opened Wrappers
  import FlatMemory
  import StatusFlags

  const Size := FlatMemory.Size

  /** Where `resetInterrupt` reads the start address. */
  const ResetVector: nat := 0xFFFC

  /** `run` executes exactly this many fetch/execute steps. */
  const Steps: nat := 10

  /** The 6502 addressing modes; `getAddress` resolves the first five. */
  datatype AddressingMode =
    | Immediate
    | ZeroPage
    | ZeroPageX
    | ZeroPageY
    | Absolute
    | AbsoluteX
    | AbsoluteY
    | Indirect
    | IndexedIndirect
    | IndirectIndexed
    | Accumulator

  datatype Registers = Registers(pc: word, sp: byte, a: byte, x: byte, y: byte, status: bv8)

  /** `resetState`: accumulator, index registers and status cleared; pc and sp kept. */
  function ResetState(r: Registers): (r': Registers)
    ensures r'.a == 0 && r'.x == 0 && r'.y == 0 && r'.status == 0
    ensures r'.pc == r.pc && r'.sp == r.sp
  {
    r.(a := 0, x := 0, y := 0, status := 0)
  }

  /** `resetInterrupt`: pc from the little-endian reset vector, then `resetState`; sp is not assigned. */
  function Reset(r: Registers, m: seq<byte>): (r': Registers)
    requires |m| == Size
    ensures r'.pc == m[ResetVector + 1] as int * 0x100 + m[ResetVector] as int
    ensures r'.a == 0 && r'.x == 0 && r'.y == 0 && r'.status == 0 && r'.sp == r.sp
  {
    ResetState(r.(pc := FlatMemory.Load16(m, ResetVector)))
  }

  /**
   * `updateZeroAndNegativeFlag`: bit 1 records a zero result and bit 6
   * copies bit 7 of the result; no other bit changes.
   */
  function UpdateZeroAndNegativeFlag(status: bv8, result: byte): (s: bv8)
    ensures (s & StatusFlags.ZeroMask != 0) <==> result == 0
    ensures (s & StatusFlags.OverflowMask != 0) <==> result >= 0x80
    ensures s & 0xBD == status & 0xBD
  {
    var s1 := if result == 0 then status | 0x02 else status & 0xFD;
    if result >= 0x80 then s1 | 0x40 else s1 & 0xBF  // bit 7 of the byte
  }

  /** The flag update keeps carry, interrupt disable, decimal mode and bit 7 as they were. */
  lemma FlagUpdateKeepsOtherFlags(status: bv8, result: byte)
    ensures var s := UpdateZeroAndNegativeFlag(status, result);
      s & StatusFlags.CarryMask == status & StatusFlags.CarryMask
      && s & StatusFlags.InterruptMask == status & StatusFlags.InterruptMask
      && s & StatusFlags.DecimalMask == status & StatusFlags.DecimalMask
      && s & StatusFlags.NegativeMask == status & StatusFlags.NegativeMask
  {
  }

  /** The register contents `getAddress` needs for `mode` lie inside the array. */
  predicate AddressDefined(r: Registers, mode: AddressingMode)
  {
    match mode
    case Immediate => true
    case ZeroPage => r.pc < Size
    case ZeroPageX => r.pc < Size
    case ZeroPageY => r.pc < Size
    case Absolute => r.pc + 1 < Size
    case _ => false
  }

  /** `getAddress`: the effective address of the operand at pc. */
  function GetAddress(r: Registers, m: seq<byte>, mode: AddressingMode): (addr: word)
    requires |m| == Size && AddressDefined(r, mode)
    ensures mode.Immediate? ==> addr == r.pc
    ensures mode.ZeroPage? ==> addr == m[r.pc] && addr < 0x100
    ensures mode.ZeroPageX? ==> addr == m[r.pc] as int + r.x as int && addr < 0x1FF
    ensures mode.ZeroPageY? ==> addr == m[r.pc] as int + r.y as int && addr < 0x1FF
    ensures mode.Absolute? ==> addr == m[r.pc + 1] as int * 0x100 + m[r.pc] as int
    decreases if mode.ZeroPageX? || mode.ZeroPageY? then 1 else 0
  {
    match mode
    case Immediate => r.pc
    case ZeroPage => m[r.pc]
    case ZeroPageX => GetAddress(r, m, ZeroPage) + r.x
    case ZeroPageY => GetAddress(r, m, ZeroPage) + r.y
    case Absolute => FlatMemory.Load16(m, r.pc)
  }

  /** `read(getAddress(mode))`, or `None` when that leaves the array. */
  function Operand(r: Registers, m: seq<byte>, mode: AddressingMode): (o: Option<byte>)
    requires |m| == Size
    ensures o.Some? ==> AddressDefined(r, mode) && GetAddress(r, m, mode) < Size && o.value == m[GetAddress(r, m, mode)]
    ensures mode.Immediate? && r.pc < Size ==> o == Some(m[r.pc])
    ensures mode.ZeroPage? && r.pc < Size ==> o == Some(m[m[r.pc]])
    ensures (mode.ZeroPageX? || mode.ZeroPageY?) && r.pc < Size ==> o.Some?
    ensures mode.Absolute? && r.pc + 1 < Size ==> (o.None? <==> m[r.pc + 1] == 0xFF && m[r.pc] == 0xFF)
    ensures !(mode.Immediate? || mode.ZeroPage? || mode.ZeroPageX? || mode.ZeroPageY? || mode.Absolute?) ==> o.None?
  {
    if AddressDefined(r, mode) && GetAddress(r, m, mode) < Size then Some(m[GetAddress(r, m, mode)]) else None
  }

  /** The register a load writes: `lda`, `ldx` and `ldy` differ only in this. */
  datatype Target = A | X | Y

  function Get(r: Registers, t: Target): byte
  {
    match t
    case A => r.a
    case X => r.x
    case Y => r.y
  }

  function Set(r: Registers, t: Target, v: byte): (r': Registers)
    ensures Get(r', t) == v
    ensures r'.pc == r.pc && r'.sp == r.sp && r'.status == r.status
    ensures forall u :: u != t ==> Get(r', u) == Get(r, u)
  {
    match t
    case A => r.(a := v)
    case X => r.(x := v)
    case Y => r.(y := v)
  }

  /**
   * `lda`, `ldx`, `ldy`: step past the opcode, load the operand into the
   * target register, update the flags from it; `None` when the operand
   * lies outside the array.
   */
  function LoadRegister(r: Registers, m: seq<byte>, t: Target, mode: AddressingMode): (o: Option<Registers>)
    requires |m| == Size
    ensures o.None? <==> Operand(r.(pc := Wrap16(r.pc + 1)), m, mode).None?
    ensures o.Some? ==> Operand(r.(pc := Wrap16(r.pc + 1)), m, mode) == Some(Get(o.value, t))
    ensures o.Some? ==> o.value == Set(r, t, Get(o.value, t)).(pc := Wrap16(r.pc + 1),
      status := UpdateZeroAndNegativeFlag(r.status, Get(o.value, t)))
  {
    var r1 := r.(pc := Wrap16(r.pc + 1));
    match Operand(r1, m, mode)
    case None => None
    case Some(v) => Some(Set(r1, t, v).(status := UpdateZeroAndNegativeFlag(r1.status, v)))
  }

  /** `tax`: X takes A; the flags follow X. */
  function Tax(r: Registers): (r': Registers)
    ensures r'.x == r.a && r'.(x := r.x, status := r.status) == r
    ensures r'.status == UpdateZeroAndNegativeFlag(r.status, r.a)
  {
    r.(x := r.a, status := UpdateZeroAndNegativeFlag(r.status, r.a))
  }

  /** `inx`: X plus one in 8 bits; the flags follow X. */
  function Inx(r: Registers): (r': Registers)
    ensures r'.x == (r.x + 1) % 0x100 && r'.(x := r.x, status := r.status) == r
    ensures r'.status == UpdateZeroAndNegativeFlag(r.status, r'.x)
    ensures r.x == 0xFF ==> r'.x == 0 && r'.status & StatusFlags.ZeroMask != 0
  {
    var x := (r.x + 1) % 0x100;
    r.(x := x, status := UpdateZeroAndNegativeFlag(r.status, x))
  }

  /** The opcodes `execOpCode` hands to a handler (0x00 returns at once). */
  predicate Dispatched(op: byte)
  {
    op in {0xa0, 0xa2, 0xa5, 0xa9, 0xad, 0xb5, 0xb6, 0xaa, 0xe8}
  }

  /** Bytes a handler consumes after the opcode, by advancing pc itself. */
  function OperandBytes(op: byte): nat
  {
    if op in {0xa0, 0xa2, 0xa5, 0xa9, 0xad, 0xb5, 0xb6} then 1 else 0
  }

  /** What `execOpCode`'s switch does with an opcode. */
  datatype Instruction =
    | Load(target: Target, mode: AddressingMode)
    | Transfer   // tax
    | Increment  // inx
    | Nothing    // 0x00 and every opcode without a case

  /** The case of `execOpCode`'s switch an opcode selects. */
  function Decode(op: byte): (i: Instruction)
    ensures i.Nothing? <==> !Dispatched(op)
    ensures i.Load? <==> OperandBytes(op) == 1
  {
    if op == 0xa0 then Load(Y, Immediate)
    else if op == 0xa2 then Load(X, Immediate)
    else if op == 0xa5 then Load(A, ZeroPage)
    else if op == 0xa9 then Load(A, Immediate)
    else if op == 0xad then Load(A, Absolute)
    else if op == 0xb5 then Load(A, ZeroPageX)
    else if op == 0xb6 then Load(X, ZeroPageY)
    else if op == 0xaa then Transfer
    else if op == 0xe8 then Increment
    else Nothing
  }

  /** `execOpCode`: run the handler of the decoded case; 0x00 and every other byte do nothing. */
  function Exec(r: Registers, m: seq<byte>, op: byte): (o: Option<Registers>)
    requires |m| == Size
    ensures !Dispatched(op) ==> o == Some(r)
    ensures o.Some? ==> o.value.sp == r.sp
  {
    match Decode(op)
    case Load(t, mode) => LoadRegister(r, m, t, mode)
    case Transfer => Some(Tax(r))
    case Increment => Some(Inx(r))
    case Nothing => Some(r)
  }

  /** One iteration of `run`: fetch the opcode at pc, execute it, then advance pc by one. */
  function Step(r: Registers, m: seq<byte>): (o: Option<Registers>)
    requires |m| == Size
    ensures o.Some? ==> r.pc < Size && o.value.sp == r.sp
  {
    if r.pc < Size then
      match Exec(r, m, m[r.pc])
      case None => None
      case Some(r') => Some(r'.(pc := Wrap16(r'.pc + 1)))
    else None
  }

  /** `n` iterations of the loop in `run`, stopping at the first undefined step. */
  function Run(r: Registers, m: seq<byte>, n: nat): (o: Option<Registers>)
    requires |m| == Size
    ensures n == 0 ==> o == Some(r)
    ensures o.Some? ==> o.value.sp == r.sp
    decreases n
  {
    if n == 0 then Some(r)
    else
      match Step(r, m)
      case None => None
      case Some(q) => Run(q, m, n - 1)
  }

  /**
   * Each step moves pc one byte past the opcode plus the bytes its handler
   * consumed: an absolute load, whose instruction is three bytes long,
   * moves it by two.
   */
  lemma StepAdvancesPc(r: Registers, m: seq<byte>)
    requires |m| == Size && Step(r, m).Some?
    ensures r.pc < Size
    ensures Step(r, m).value.pc == Wrap16(r.pc + 1 + OperandBytes(m[r.pc]))
  {
    var op := m[r.pc];
    var r1 := Exec(r, m, op).value;
    if OperandBytes(op) == 1 {
      assert r1.pc == Wrap16(r.pc + 1);
    } else {
      assert r1.pc == r.pc;
    }
  }

  /** An immediate load puts the byte after the opcode in its register; only that register, pc and the flags change. */
  lemma LoadImmediateStep(r: Registers, m: seq<byte>)
    requires |m| == Size && r.pc + 1 < Size
    requires m[r.pc] in {0xa9, 0xa2, 0xa0}
    ensures var op, v := m[r.pc], m[r.pc + 1];
      Step(r, m) == Some(r.(pc := r.pc + 2,
        a := if op == 0xa9 then v else r.a,
        x := if op == 0xa2 then v else r.x,
        y := if op == 0xa0 then v else r.y,
        status := UpdateZeroAndNegativeFlag(r.status, v)))
  {
    var r1 := r.(pc := r.pc + 1);
    assert AddressDefined(r1, Immediate) && GetAddress(r1, m, Immediate) == r.pc + 1;
  }

  /** LDA zp: A takes the byte at the zero-page address after the opcode. */
  lemma LoadZeroPageStep(r: Registers, m: seq<byte>)
    requires |m| == Size && r.pc + 1 < Size && m[r.pc] == 0xa5
    ensures var v := m[m[r.pc + 1]];
      Step(r, m) == Some(r.(pc := r.pc + 2, a := v, status := UpdateZeroAndNegativeFlag(r.status, v)))
  {
    assert Operand(r.(pc := r.pc + 1), m, ZeroPage) == Some(m[m[r.pc + 1]]);
  }

  /** LDA zp,X: A takes the byte at the zero-page address plus X, with no 8-bit wrap. */
  lemma LoadZeroPageXStep(r: Registers, m: seq<byte>)
    requires |m| == Size && r.pc + 1 < Size && m[r.pc] == 0xb5
    ensures var v := m[m[r.pc + 1] as int + r.x as int];
      Step(r, m) == Some(r.(pc := r.pc + 2, a := v, status := UpdateZeroAndNegativeFlag(r.status, v)))
  {
    assert Operand(r.(pc := r.pc + 1), m, ZeroPageX) == Some(m[m[r.pc + 1] as int + r.x as int]);
  }

  /** LDX zp,Y: X takes the byte at the zero-page address plus Y, with no 8-bit wrap. */
  lemma LoadZeroPageYStep(r: Registers, m: seq<byte>)
    requires |m| == Size && r.pc + 1 < Size && m[r.pc] == 0xb6
    ensures var v := m[m[r.pc + 1] as int + r.y as int];
      Step(r, m) == Some(r.(pc := r.pc + 2, x := v, status := UpdateZeroAndNegativeFlag(r.status, v)))
  {
    assert Operand(r.(pc := r.pc + 1), m, ZeroPageY) == Some(m[m[r.pc + 1] as int + r.y as int]);
  }

  /**
   * LDA abs: A takes the byte at the little-endian address after the
   * opcode; pc moves by two, so it rests on the address's high byte.
   */
  lemma LoadAbsoluteStep(r: Registers, m: seq<byte>)
    requires |m| == Size && r.pc + 2 < Size && m[r.pc] == 0xad
    requires m[r.pc + 2] as int * 0x100 + m[r.pc + 1] as int < Size
    ensures var v := m[m[r.pc + 2] as int * 0x100 + m[r.pc + 1] as int];
      Step(r, m) == Some(r.(pc := r.pc + 2, a := v, status := UpdateZeroAndNegativeFlag(r.status, v)))
  {
    var address := m[r.pc + 2] as int * 0x100 + m[r.pc + 1] as int;
    assert Operand(r.(pc := r.pc + 1), m, Absolute) == Some(m[address]);
  }

  /** LDA $FFFF reads past the array's last cell: the step is undefined. */
  lemma LoadAbsoluteOutside(r: Registers, m: seq<byte>)
    requires |m| == Size && r.pc + 2 < Size && m[r.pc] == 0xad
    requires m[r.pc + 1] == 0xFF && m[r.pc + 2] == 0xFF
    ensures Step(r, m) == None
  {
    assert Operand(r.(pc := r.pc + 1), m, Absolute) == None;
  }

  /** TAX and INX: the step is the handler's register update, then pc past the opcode. */
  lemma TransferAndIncrementStep(r: Registers, m: seq<byte>)
    requires |m| == Size && r.pc < Size && m[r.pc] in {0xaa, 0xe8}
    ensures Step(r, m) == Some((if m[r.pc] == 0xaa then Tax(r) else Inx(r)).(pc := r.pc + 1))
  {
  }

  /** The flag update never touches the bit `getNegative` reads; the sign of the result shows in `getOverflow`. */
  lemma FlagUpdateAsSeenByAccessors(status: bv8, result: byte)
    ensures StatusFlags.Zero(UpdateZeroAndNegativeFlag(status, result)) == (if result == 0 then 1 else 0)
    ensures StatusFlags.Overflow(UpdateZeroAndNegativeFlag(status, result)) == (if result >= 0x80 then 1 else 0)
    ensures StatusFlags.Negative(UpdateZeroAndNegativeFlag(status, result)) == StatusFlags.Negative(status)
    ensures StatusFlags.Carry(UpdateZeroAndNegativeFlag(status, result)) == StatusFlags.Carry(status)
  {
    var s := UpdateZeroAndNegativeFlag(status, result);
    assert s & 0xBD == status & 0xBD;
  }

  /** Indexed zero-page addresses are not cut to 8 bits: $FF plus X = 2 is $0101. */
  lemma ZeroPageIndexedDoesNotWrap(r: Registers, m: seq<byte>)
    requires |m| == Size && r.pc < Size && m[r.pc] == 0xFF && r.x == 2
    ensures GetAddress(r, m, ZeroPageX) == 0x0101
  {
  }

  /** A run of `n > 0` steps is one step followed by a run of `n - 1`. */
  lemma RunFirstStep(r: Registers, m: seq<byte>, n: nat)
    requires |m| == Size && n > 0 && Run(r, m, n).Some?
    ensures Step(r, m).Some? && Run(r, m, n) == Run(Step(r, m).value, m, n - 1)
  {
  }

  /** A defined step followed by `n` more is a run of `n + 1`. */
  lemma RunAfterStep(r: Registers, m: seq<byte>, n: nat)
    requires |m| == Size && Step(r, m).Some?
    ensures Run(r, m, n + 1) == Run(Step(r, m).value, m, n)
  {
  }

  /** Opcode 0x00, and any byte `execOpCode` does not dispatch, changes no register; the step only moves pc past it. */
  lemma UndispatchedStep(r: Registers, m: seq<byte>)
    requires |m| == Size && r.pc < Size && !Dispatched(m[r.pc])
    ensures Step(r, m) == Some(r.(pc := r.pc + 1))
  {
    assert Exec(r, m, m[r.pc]) == Some(r);
  }

  /** Over a stretch of zero bytes every step is a no-op that only advances pc. */
  lemma {:induction false} ZeroBytesRun(r: Registers, m: seq<byte>, n: nat)
    requires |m| == Size && r.pc + n <= Size
    requires forall i :: r.pc <= i < r.pc + n ==> m[i] == 0
    ensures Run(r, m, n) == Some(r.(pc := r.pc + n))
    decreases n
  {
    if n > 0 {
      UndispatchedStep(r, m);
      ZeroBytesRun(r.(pc := r.pc + 1), m, n - 1);
    }
  }
}
