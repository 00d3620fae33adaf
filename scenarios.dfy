/**
 * The test harness of the early design, `System::insertDisk`: copy the
 * program to $8000, point the reset vector at it, reset the CPU and run it.
 * The lemmas replay the CPU tests on any memory whose bytes after the
 * program are zero, so that the steps left over after the program are
 * no-ops.
 */
module Scenarios {
  import opened Bytes
  import opened Wrappers
  import FlatMemory
  import S = CpuSemantics
  import CpuEngine

  /** Where `insertDisk` places the program, and the value it writes to the reset vector. */
  const Start: nat := 0x8000

  /** The memory after `insertDisk`'s two writes. */
  function Loaded(m: seq<byte>, program: seq<byte>): (m': seq<byte>)
    requires |m| == S.Size && Start + |program| <= S.Size
    ensures |m'| == S.Size
    ensures forall i :: Start <= i < Start + |program| && i != S.ResetVector && i != S.ResetVector + 1 ==> m'[i] == program[i - Start]
    ensures forall i :: 0 <= i < S.Size && !(Start <= i < Start + |program|) && i != S.ResetVector && i != S.ResetVector + 1 ==> m'[i] == m[i]
    ensures FlatMemory.Load16(m', S.ResetVector) == Start
  {
    var m1 := FlatMemory.Blit(m, Start, program);
    FlatMemory.Load16OfStore16(m1, S.ResetVector, Start);
    FlatMemory.Store16(m1, S.ResetVector, Start)
  }

  /**
   * The registers after `insertDisk` when `run` takes `n` steps: load,
   * reset, then step. `run` itself takes `Steps` steps.
   */
  function Booted(m: seq<byte>, r: S.Registers, program: seq<byte>, n: nat): (b: Option<S.Registers>)
    requires |m| == S.Size && Start + |program| <= S.Size
    ensures n == 0 ==> b == Some(r.(pc := Start, a := 0, x := 0, y := 0, status := 0))
    ensures b.Some? ==> b.value.sp == r.sp
  {
    var m' := Loaded(m, program);
    ResetAtProgram(m, r, program);
    S.Run(S.Reset(r, m'), m', n)
  }

  /** The `count` bytes after a program of `len` bytes exist and are zero. */
  ghost predicate ZeroAfter(m: seq<byte>, len: nat, count: nat)
    requires |m| == S.Size
  {
    && Start + len + count <= S.ResetVector
    && forall i :: Start + len <= i < Start + len + count ==> m[i] == 0
  }

  /** After `insertDisk`'s reset, pc is at the program and A, X, Y and the status are clear. */
  lemma {:induction false} ResetAtProgram(m: seq<byte>, r: S.Registers, program: seq<byte>)
    requires |m| == S.Size && Start + |program| <= S.Size
    ensures S.Reset(r, Loaded(m, program)) == r.(pc := Start, a := 0, x := 0, y := 0, status := 0)
  {
    assert FlatMemory.Load16(Loaded(m, program), S.ResetVector) == Start;
  }

  // The loaded memory of each test program: its instruction bytes, then
  // zeros from the end of its last instruction on.

  lemma {:induction false} ImmediateLoaded(m: seq<byte>, op: byte, v: byte, k: nat)
    requires |m| == S.Size && ZeroAfter(m, 3, k)
    ensures var m' := Loaded(m, [op, v, 0x00]);
      m'[Start] == op && m'[Start + 1] == v
      && (forall i :: Start + 2 <= i < Start + 2 + k ==> m'[i] == 0)
  {
    var m' := Loaded(m, [op, v, 0x00]);
    assert m'[Start + 0] == op && m'[Start + 1] == v && m'[Start + 2] == 0x00;
  }

  lemma {:induction false} LdaZeroPageLoaded(m: seq<byte>, k: nat)
    requires |m| == S.Size && ZeroAfter(m, 3, k)
    ensures var m' := Loaded(m, [0xa5, 0x05, 0x00]);
      m'[Start] == 0xa5 && m'[Start + 1] == 0x05
      && (forall i :: Start + 2 <= i < Start + 2 + k ==> m'[i] == 0)
      && m'[0x05] == m[0x05]
  {
    var m' := Loaded(m, [0xa5, 0x05, 0x00]);
    assert m'[Start + 0] == 0xa5 && m'[Start + 1] == 0x05 && m'[Start + 2] == 0x00;
  }

  lemma {:induction false} LdaZeroPageXLoaded(m: seq<byte>, k: nat)
    requires |m| == S.Size && ZeroAfter(m, 6, k)
    ensures var m' := Loaded(m, [0xa2, 0x80, 0xb5, 0x05, 0x00, 0x00]);
      m'[Start] == 0xa2 && m'[Start + 1] == 0x80 && m'[Start + 2] == 0xb5 && m'[Start + 3] == 0x05
      && (forall i :: Start + 4 <= i < Start + 4 + k ==> m'[i] == 0)
      && m'[0x85] == m[0x85]
  {
    var m' := Loaded(m, [0xa2, 0x80, 0xb5, 0x05, 0x00, 0x00]);
    assert m'[Start + 0] == 0xa2 && m'[Start + 1] == 0x80 && m'[Start + 2] == 0xb5 && m'[Start + 3] == 0x05 && m'[Start + 4] == 0x00 && m'[Start + 5] == 0x00;
  }

  lemma {:induction false} LdaAbsoluteLoaded(m: seq<byte>, k: nat)
    requires |m| == S.Size && ZeroAfter(m, 4, k)
    ensures var m' := Loaded(m, [0xad, 0x34, 0x12, 0x00]);
      m'[Start] == 0xad && m'[Start + 1] == 0x34 && m'[Start + 2] == 0x12
      && (forall i :: Start + 3 <= i < Start + 3 + k ==> m'[i] == 0)
      && m'[0x1234] == m[0x1234]
  {
    var m' := Loaded(m, [0xad, 0x34, 0x12, 0x00]);
    assert m'[Start + 0] == 0xad && m'[Start + 1] == 0x34 && m'[Start + 2] == 0x12 && m'[Start + 3] == 0x00;
  }

  lemma {:induction false} TaxLoaded(m: seq<byte>, k: nat)
    requires |m| == S.Size && ZeroAfter(m, 4, k)
    ensures var m' := Loaded(m, [0xa9, 0x80, 0xaa, 0x00]);
      m'[Start] == 0xa9 && m'[Start + 1] == 0x80 && m'[Start + 2] == 0xaa
      && (forall i :: Start + 3 <= i < Start + 3 + k ==> m'[i] == 0)
  {
    var m' := Loaded(m, [0xa9, 0x80, 0xaa, 0x00]);
    assert m'[Start + 0] == 0xa9 && m'[Start + 1] == 0x80 && m'[Start + 2] == 0xaa && m'[Start + 3] == 0x00;
  }

  lemma {:induction false} InxLoaded(m: seq<byte>, k: nat)
    requires |m| == S.Size && ZeroAfter(m, 5, k)
    ensures var m' := Loaded(m, [0xa2, 0x80, 0xe8, 0x00, 0x00]);
      m'[Start] == 0xa2 && m'[Start + 1] == 0x80 && m'[Start + 2] == 0xe8
      && (forall i :: Start + 3 <= i < Start + 3 + k ==> m'[i] == 0)
  {
    var m' := Loaded(m, [0xa2, 0x80, 0xe8, 0x00, 0x00]);
    assert m'[Start + 0] == 0xa2 && m'[Start + 1] == 0x80 && m'[Start + 2] == 0xe8 && m'[Start + 3] == 0x00 && m'[Start + 4] == 0x00;
  }

  lemma {:induction false} LdxZeroPageYLoaded(m: seq<byte>, k: nat)
    requires |m| == S.Size && ZeroAfter(m, 6, k)
    ensures var m' := Loaded(m, [0xa0, 0x80, 0xb6, 0x05, 0x00, 0x00]);
      m'[Start] == 0xa0 && m'[Start + 1] == 0x80 && m'[Start + 2] == 0xb6 && m'[Start + 3] == 0x05
      && (forall i :: Start + 4 <= i < Start + 4 + k ==> m'[i] == 0)
      && m'[0x85] == m[0x85]
  {
    var m' := Loaded(m, [0xa0, 0x80, 0xb6, 0x05, 0x00, 0x00]);
    assert m'[Start + 0] == 0xa0 && m'[Start + 1] == 0x80 && m'[Start + 2] == 0xb6 && m'[Start + 3] == 0x05 && m'[Start + 4] == 0x00 && m'[Start + 5] == 0x00;
  }

  // Runs on any memory: each fixes the instruction bytes at pc and the zeros after them.

  /** An immediate load (LDA, LDX or LDY #v) followed by `k` zero bytes. */
  lemma {:induction false} ImmediateRun(r0: S.Registers, m: seq<byte>, k: nat)
    requires |m| == S.Size && r0.pc + 2 + k <= S.Size
    requires m[r0.pc] in {0xa9, 0xa2, 0xa0}
    requires forall i :: r0.pc + 2 <= i < r0.pc + 2 + k ==> m[i] == 0
    ensures var op, v := m[r0.pc], m[r0.pc + 1];
      S.Run(r0, m, 1 + k) == Some(r0.(pc := r0.pc + 2 + k,
        a := if op == 0xa9 then v else r0.a,
        x := if op == 0xa2 then v else r0.x,
        y := if op == 0xa0 then v else r0.y,
        status := S.UpdateZeroAndNegativeFlag(r0.status, v)))
  {
    var op, v := m[r0.pc], m[r0.pc + 1];
    S.LoadImmediateStep(r0, m);
    S.ZeroBytesRun(r0.(pc := r0.pc + 2, a := if op == 0xa9 then v else r0.a, x := if op == 0xa2 then v else r0.x,
                       y := if op == 0xa0 then v else r0.y, status := S.UpdateZeroAndNegativeFlag(r0.status, v)), m, k);
  }

  /** LDA zp: A takes the byte at the zero-page address that follows the opcode. */
  lemma {:induction false} LdaZeroPageRun(r0: S.Registers, m: seq<byte>, k: nat)
    requires |m| == S.Size && r0.pc + 2 + k <= S.Size
    requires m[r0.pc] == 0xa5
    requires forall i :: r0.pc + 2 <= i < r0.pc + 2 + k ==> m[i] == 0
    ensures var v := m[m[r0.pc + 1]];
      S.Run(r0, m, 1 + k) == Some(r0.(pc := r0.pc + 2 + k, a := v, status := S.UpdateZeroAndNegativeFlag(r0.status, v)))
  {
    var v := m[m[r0.pc + 1]];
    S.LoadZeroPageStep(r0, m);
    S.ZeroBytesRun(r0.(pc := r0.pc + 2, a := v, status := S.UpdateZeroAndNegativeFlag(r0.status, v)), m, k);
  }

  /** LDA zp,X: A takes the byte at zp + X, with no 8-bit wrap. */
  lemma {:induction false} LdaZeroPageXTail(r1: S.Registers, m: seq<byte>, k: nat)
    requires |m| == S.Size && r1.pc + 2 + k <= S.Size
    requires m[r1.pc] == 0xb5
    requires forall i :: r1.pc + 2 <= i < r1.pc + 2 + k ==> m[i] == 0
    ensures var v := m[m[r1.pc + 1] as int + r1.x as int];
      S.Run(r1, m, 1 + k) == Some(r1.(pc := r1.pc + 2 + k, a := v, status := S.UpdateZeroAndNegativeFlag(r1.status, v)))
  {
    var v := m[m[r1.pc + 1] as int + r1.x as int];
    S.LoadZeroPageXStep(r1, m);
    S.RunAfterStep(r1, m, k);
    S.ZeroBytesRun(r1.(pc := r1.pc + 2, a := v, status := S.UpdateZeroAndNegativeFlag(r1.status, v)), m, k);
  }

  /** LDX zp,Y: X takes the byte at zp + Y, with no 8-bit wrap. */
  lemma {:induction false} LdxZeroPageYTail(r1: S.Registers, m: seq<byte>, k: nat)
    requires |m| == S.Size && r1.pc + 2 + k <= S.Size
    requires m[r1.pc] == 0xb6
    requires forall i :: r1.pc + 2 <= i < r1.pc + 2 + k ==> m[i] == 0
    ensures var v := m[m[r1.pc + 1] as int + r1.y as int];
      S.Run(r1, m, 1 + k) == Some(r1.(pc := r1.pc + 2 + k, x := v, status := S.UpdateZeroAndNegativeFlag(r1.status, v)))
  {
    var v := m[m[r1.pc + 1] as int + r1.y as int];
    S.LoadZeroPageYStep(r1, m);
    S.RunAfterStep(r1, m, k);
    S.ZeroBytesRun(r1.(pc := r1.pc + 2, x := v, status := S.UpdateZeroAndNegativeFlag(r1.status, v)), m, k);
  }

  /** LDX #i; LDA zp,X: A takes the byte at zp + i. */
  lemma {:induction false} LdaZeroPageXRun(r0: S.Registers, m: seq<byte>, k: nat)
    requires |m| == S.Size && r0.pc + 4 + k <= S.Size
    requires m[r0.pc] == 0xa2 && m[r0.pc + 2] == 0xb5
    requires forall i :: r0.pc + 4 <= i < r0.pc + 4 + k ==> m[i] == 0
    ensures var i := m[r0.pc + 1];
      var v := m[m[r0.pc + 3] as int + i as int];
      S.Run(r0, m, 2 + k) == Some(r0.(pc := r0.pc + 4 + k, x := i, a := v,
        status := S.UpdateZeroAndNegativeFlag(S.UpdateZeroAndNegativeFlag(r0.status, i), v)))
  {
    var i := m[r0.pc + 1];
    var r1 := r0.(pc := r0.pc + 2, x := i, status := S.UpdateZeroAndNegativeFlag(r0.status, i));
    S.LoadImmediateStep(r0, m);
    S.RunAfterStep(r0, m, 1 + k);
    LdaZeroPageXTail(r1, m, k);
  }

  /** LDY #i; LDX zp,Y: X takes the byte at zp + i. */
  lemma {:induction false} LdxZeroPageYRun(r0: S.Registers, m: seq<byte>, k: nat)
    requires |m| == S.Size && r0.pc + 4 + k <= S.Size
    requires m[r0.pc] == 0xa0 && m[r0.pc + 2] == 0xb6
    requires forall i :: r0.pc + 4 <= i < r0.pc + 4 + k ==> m[i] == 0
    ensures var i := m[r0.pc + 1];
      var v := m[m[r0.pc + 3] as int + i as int];
      S.Run(r0, m, 2 + k) == Some(r0.(pc := r0.pc + 4 + k, y := i, x := v,
        status := S.UpdateZeroAndNegativeFlag(S.UpdateZeroAndNegativeFlag(r0.status, i), v)))
  {
    var i := m[r0.pc + 1];
    var r1 := r0.(pc := r0.pc + 2, y := i, status := S.UpdateZeroAndNegativeFlag(r0.status, i));
    S.LoadImmediateStep(r0, m);
    S.RunAfterStep(r0, m, 1 + k);
    LdxZeroPageYTail(r1, m, k);
  }

  /**
   * LDA abs: A takes the byte at the little-endian address after the
   * opcode. The load moves pc by two only, so the address's high byte is
   * fetched next as an opcode; when that byte is not dispatched it changes
   * nothing but pc.
   */
  lemma {:induction false} LdaAbsoluteRun(r0: S.Registers, m: seq<byte>, k: nat)
    requires |m| == S.Size && r0.pc + 3 + k <= S.Size
    requires m[r0.pc] == 0xad && !S.Dispatched(m[r0.pc + 2])
    requires m[r0.pc + 2] as int * 0x100 + m[r0.pc + 1] as int < S.Size
    requires forall i :: r0.pc + 3 <= i < r0.pc + 3 + k ==> m[i] == 0
    ensures var v := m[m[r0.pc + 2] as int * 0x100 + m[r0.pc + 1] as int];
      S.Run(r0, m, 2 + k) == Some(r0.(pc := r0.pc + 3 + k, a := v, status := S.UpdateZeroAndNegativeFlag(r0.status, v)))
  {
    var address := m[r0.pc + 2] as int * 0x100 + m[r0.pc + 1] as int;
    var v := m[address];
    var r1 := r0.(pc := r0.pc + 2, a := v, status := S.UpdateZeroAndNegativeFlag(r0.status, v));
    var r2 := r1.(pc := r0.pc + 3);
    S.LoadAbsoluteStep(r0, m);
    S.UndispatchedStep(r1, m);
    S.ZeroBytesRun(r2, m, k);
    assert S.Run(r1, m, 1 + k) == S.Run(r2, m, k);
  }

  /** LDA #v; TAX: A and X both hold v. */
  lemma {:induction false} TaxRun(r0: S.Registers, m: seq<byte>, k: nat)
    requires |m| == S.Size && r0.pc + 3 + k <= S.Size
    requires m[r0.pc] == 0xa9 && m[r0.pc + 2] == 0xaa
    requires forall i :: r0.pc + 3 <= i < r0.pc + 3 + k ==> m[i] == 0
    ensures var v := m[r0.pc + 1];
      S.Run(r0, m, 2 + k) == Some(r0.(pc := r0.pc + 3 + k, a := v, x := v,
        status := S.UpdateZeroAndNegativeFlag(S.UpdateZeroAndNegativeFlag(r0.status, v), v)))
  {
    var v := m[r0.pc + 1];
    var r1 := r0.(pc := r0.pc + 2, a := v, status := S.UpdateZeroAndNegativeFlag(r0.status, v));
    var r2 := r1.(pc := r0.pc + 3, x := v, status := S.UpdateZeroAndNegativeFlag(r1.status, v));
    S.LoadImmediateStep(r0, m);
    S.TransferAndIncrementStep(r1, m);
    S.ZeroBytesRun(r2, m, k);
    assert S.Run(r1, m, 1 + k) == S.Run(r2, m, k);
  }

  /** LDX #v; INX: X holds v + 1 in 8 bits. */
  lemma {:induction false} InxRun(r0: S.Registers, m: seq<byte>, k: nat)
    requires |m| == S.Size && r0.pc + 3 + k <= S.Size
    requires m[r0.pc] == 0xa2 && m[r0.pc + 2] == 0xe8
    requires forall i :: r0.pc + 3 <= i < r0.pc + 3 + k ==> m[i] == 0
    ensures var v := m[r0.pc + 1];
      var x := (v as int + 1) % 0x100;
      S.Run(r0, m, 2 + k) == Some(r0.(pc := r0.pc + 3 + k, x := x,
        status := S.UpdateZeroAndNegativeFlag(S.UpdateZeroAndNegativeFlag(r0.status, v), x)))
  {
    var v := m[r0.pc + 1];
    var x := (v as int + 1) % 0x100;
    var r1 := r0.(pc := r0.pc + 2, x := v, status := S.UpdateZeroAndNegativeFlag(r0.status, v));
    var r2 := r1.(pc := r0.pc + 3, x := x, status := S.UpdateZeroAndNegativeFlag(r1.status, x));
    S.LoadImmediateStep(r0, m);
    S.TransferAndIncrementStep(r1, m);
    S.ZeroBytesRun(r2, m, k);
    assert S.Run(r1, m, 1 + k) == S.Run(r2, m, k);
  }

  // The CPU tests, run through `insertDisk` on a memory that is zero after
  // the program; `k` counts the steps of `run` left after the program.

  /** LDA #v, LDX #v and LDY #v load v; the status holds only the flag update of v. */
  lemma {:induction false} ImmediateProgram(m: seq<byte>, r: S.Registers, op: byte, v: byte, k: nat)
    requires op in {0xa9, 0xa2, 0xa0}
    requires |m| == S.Size && ZeroAfter(m, 3, k)
    ensures Booted(m, r, [op, v, 0x00], 1 + k) == Some(r.(pc := Start + 2 + k,
      a := if op == 0xa9 then v else 0,
      x := if op == 0xa2 then v else 0,
      y := if op == 0xa0 then v else 0,
      status := S.UpdateZeroAndNegativeFlag(0, v)))
  {
    var program := [op, v, 0x00];
    ResetAtProgram(m, r, program);
    ImmediateLoaded(m, op, v, k);
    ImmediateRun(S.Reset(r, Loaded(m, program)), Loaded(m, program), k);
  }

  /** LDA $05 loads the byte the test stored at $05. */
  lemma {:induction false} LdaZeroPageProgram(m: seq<byte>, r: S.Registers, k: nat)
    requires |m| == S.Size && ZeroAfter(m, 3, k)
    ensures Booted(m, r, [0xa5, 0x05, 0x00], 1 + k) == Some(r.(pc := Start + 2 + k,
      a := m[0x05], x := 0, y := 0, status := S.UpdateZeroAndNegativeFlag(0, m[0x05])))
  {
    var program := [0xa5, 0x05, 0x00];
    ResetAtProgram(m, r, program);
    LdaZeroPageLoaded(m, k);
    LdaZeroPageRun(S.Reset(r, Loaded(m, program)), Loaded(m, program), k);
  }

  /** LDX #$80; LDA $05,X loads the byte the test stored at $85. */
  lemma {:induction false} LdaZeroPageXProgram(m: seq<byte>, r: S.Registers, k: nat)
    requires |m| == S.Size && ZeroAfter(m, 6, k)
    ensures Booted(m, r, [0xa2, 0x80, 0xb5, 0x05, 0x00, 0x00], 2 + k) == Some(r.(pc := Start + 4 + k,
      a := m[0x85], x := 0x80, y := 0, status := S.UpdateZeroAndNegativeFlag(0x40, m[0x85])))
  {
    var program := [0xa2, 0x80, 0xb5, 0x05, 0x00, 0x00];
    ResetAtProgram(m, r, program);
    LdaZeroPageXLoaded(m, k);
    LdaZeroPageXRun(S.Reset(r, Loaded(m, program)), Loaded(m, program), k);
  }

  /** LDA $1234 loads the byte the test stored at $1234; the operand's $12 runs as a no-op. */
  lemma {:induction false} LdaAbsoluteProgram(m: seq<byte>, r: S.Registers, k: nat)
    requires |m| == S.Size && ZeroAfter(m, 4, k)
    ensures Booted(m, r, [0xad, 0x34, 0x12, 0x00], 2 + k) == Some(r.(pc := Start + 3 + k,
      a := m[0x1234], x := 0, y := 0, status := S.UpdateZeroAndNegativeFlag(0, m[0x1234])))
  {
    var program := [0xad, 0x34, 0x12, 0x00];
    ResetAtProgram(m, r, program);
    LdaAbsoluteLoaded(m, k);
    LdaAbsoluteRun(S.Reset(r, Loaded(m, program)), Loaded(m, program), k);
  }

  /** LDA #$80; TAX: X is $80 and the status is $40. */
  lemma {:induction false} TaxProgram(m: seq<byte>, r: S.Registers, k: nat)
    requires |m| == S.Size && ZeroAfter(m, 4, k)
    ensures Booted(m, r, [0xa9, 0x80, 0xaa, 0x00], 2 + k) == Some(r.(pc := Start + 3 + k,
      a := 0x80, x := 0x80, y := 0, status := 0x40))
  {
    var program := [0xa9, 0x80, 0xaa, 0x00];
    ResetAtProgram(m, r, program);
    TaxLoaded(m, k);
    TaxRun(S.Reset(r, Loaded(m, program)), Loaded(m, program), k);
  }

  /** LDX #$80; INX: X is $81 and the status is $40. */
  lemma {:induction false} InxProgram(m: seq<byte>, r: S.Registers, k: nat)
    requires |m| == S.Size && ZeroAfter(m, 5, k)
    ensures Booted(m, r, [0xa2, 0x80, 0xe8, 0x00, 0x00], 2 + k) == Some(r.(pc := Start + 3 + k,
      a := 0, x := 0x81, y := 0, status := 0x40))
  {
    var program := [0xa2, 0x80, 0xe8, 0x00, 0x00];
    ResetAtProgram(m, r, program);
    InxLoaded(m, k);
    InxRun(S.Reset(r, Loaded(m, program)), Loaded(m, program), k);
  }

  /** LDY #$80; LDX $05,Y loads the byte the test stored at $85 into X. */
  lemma {:induction false} LdxZeroPageYProgram(m: seq<byte>, r: S.Registers, k: nat)
    requires |m| == S.Size && ZeroAfter(m, 6, k)
    ensures Booted(m, r, [0xa0, 0x80, 0xb6, 0x05, 0x00, 0x00], 2 + k) == Some(r.(pc := Start + 4 + k,
      a := 0, x := m[0x85], y := 0x80, status := S.UpdateZeroAndNegativeFlag(0x40, m[0x85])))
  {
    var program := [0xa0, 0x80, 0xb6, 0x05, 0x00, 0x00];
    ResetAtProgram(m, r, program);
    LdxZeroPageYLoaded(m, k);
    LdxZeroPageYRun(S.Reset(r, Loaded(m, program)), Loaded(m, program), k);
  }

  // The CPU tests as written: `run` takes `Steps` = 10 steps, and every
  // test reads its registers afterwards.

  /** LdaImmediateSetsRegisterA: LDA #$40 leaves A = $40 and a clear status. */
  lemma LdaImmediateTest(m: seq<byte>, r: S.Registers)
    requires |m| == S.Size && ZeroAfter(m, 3, 9)
    ensures Booted(m, r, [0xa9, 0x40, 0x00], S.Steps) == Some(r.(pc := Start + 11, a := 0x40, x := 0, y := 0, status := 0))
  {
    ImmediateProgram(m, r, 0xa9, 0x40, 9);
  }

  /** LdaZeroPageSetsRegisterA: with 9 stored at $05, LDA $05 leaves A = 9. */
  lemma LdaZeroPageTest(m: seq<byte>, r: S.Registers)
    requires |m| == S.Size && ZeroAfter(m, 3, 9) && m[0x05] == 9
    ensures Booted(m, r, [0xa5, 0x05, 0x00], S.Steps) == Some(r.(pc := Start + 11, a := 9, x := 0, y := 0, status := 0))
  {
    LdaZeroPageProgram(m, r, 9);
  }

  /** LdaZeroPageXSetsRegisterA: with 9 stored at $85, LDX #$80; LDA $05,X leaves A = 9. */
  lemma LdaZeroPageXTest(m: seq<byte>, r: S.Registers)
    requires |m| == S.Size && ZeroAfter(m, 6, 8) && m[0x85] == 9
    ensures Booted(m, r, [0xa2, 0x80, 0xb5, 0x05, 0x00, 0x00], S.Steps) == Some(r.(pc := Start + 12, a := 9, x := 0x80, y := 0, status := 0))
  {
    LdaZeroPageXProgram(m, r, 8);
  }

  /** LdaZAbsoluteSetsRegisterA: with 9 stored at $1234, LDA $1234 leaves A = 9. */
  lemma LdaAbsoluteTest(m: seq<byte>, r: S.Registers)
    requires |m| == S.Size && ZeroAfter(m, 4, 8) && m[0x1234] == 9
    ensures Booted(m, r, [0xad, 0x34, 0x12, 0x00], S.Steps) == Some(r.(pc := Start + 11, a := 9, x := 0, y := 0, status := 0))
  {
    LdaAbsoluteProgram(m, r, 8);
  }

  /** LdaSetsZeroFlag: LDA #$00 leaves the status $02. */
  lemma LdaZeroFlagTest(m: seq<byte>, r: S.Registers)
    requires |m| == S.Size && ZeroAfter(m, 3, 9)
    ensures Booted(m, r, [0xa9, 0x00, 0x00], S.Steps) == Some(r.(pc := Start + 11, a := 0, x := 0, y := 0, status := 0x02))
  {
    ImmediateProgram(m, r, 0xa9, 0x00, 9);
  }

  /** LdaSetsNegativeFlag: LDA #$C0 leaves A = $C0 and the status $40. */
  lemma LdaNegativeFlagTest(m: seq<byte>, r: S.Registers)
    requires |m| == S.Size && ZeroAfter(m, 3, 9)
    ensures Booted(m, r, [0xa9, 0xc0, 0x00], S.Steps) == Some(r.(pc := Start + 11, a := 0xc0, x := 0, y := 0, status := 0x40))
  {
    ImmediateProgram(m, r, 0xa9, 0xc0, 9);
  }

  /** TaxSetsXRegister: LDA #$80; TAX leaves X = $80 and the status $40. */
  lemma TaxTest(m: seq<byte>, r: S.Registers)
    requires |m| == S.Size && ZeroAfter(m, 4, 8)
    ensures Booted(m, r, [0xa9, 0x80, 0xaa, 0x00], S.Steps) == Some(r.(pc := Start + 11, a := 0x80, x := 0x80, y := 0, status := 0x40))
  {
    TaxProgram(m, r, 8);
  }

  /** InxIncreasesTheXRegister: LDX #$80; INX leaves X = $81 and the status $40. */
  lemma InxTest(m: seq<byte>, r: S.Registers)
    requires |m| == S.Size && ZeroAfter(m, 5, 8)
    ensures Booted(m, r, [0xa2, 0x80, 0xe8, 0x00, 0x00], S.Steps) == Some(r.(pc := Start + 11, a := 0, x := 0x81, y := 0, status := 0x40))
  {
    InxProgram(m, r, 8);
  }

  /** LdxSetsRegisterX: LDX #$40 leaves X = $40. */
  lemma LdxImmediateTest(m: seq<byte>, r: S.Registers)
    requires |m| == S.Size && ZeroAfter(m, 3, 9)
    ensures Booted(m, r, [0xa2, 0x40, 0x00], S.Steps) == Some(r.(pc := Start + 11, a := 0, x := 0x40, y := 0, status := 0))
  {
    ImmediateProgram(m, r, 0xa2, 0x40, 9);
  }

  /** LdxZeroPageYSetsRegisterX: with 9 stored at $85, LDY #$80; LDX $05,Y leaves X = 9. */
  lemma LdxZeroPageYTest(m: seq<byte>, r: S.Registers)
    requires |m| == S.Size && ZeroAfter(m, 6, 8) && m[0x85] == 9
    ensures Booted(m, r, [0xa0, 0x80, 0xb6, 0x05, 0x00, 0x00], S.Steps) == Some(r.(pc := Start + 12, a := 0, x := 9, y := 0x80, status := 0))
  {
    LdxZeroPageYProgram(m, r, 8);
  }

  /** LdySetsRegisterY: LDY #$40 leaves Y = $40. */
  lemma LdyImmediateTest(m: seq<byte>, r: S.Registers)
    requires |m| == S.Size && ZeroAfter(m, 3, 9)
    ensures Booted(m, r, [0xa0, 0x40, 0x00], S.Steps) == Some(r.(pc := Start + 11, a := 0, x := 0, y := 0x40, status := 0))
  {
    ImmediateProgram(m, r, 0xa0, 0x40, 9);
  }

  /** The system: a flat memory and a CPU wired to it. */
  class System {
    const memory: FlatMemory.Memory
    const cpu: CpuEngine.Cpu

    /** `System() : cpu(this)`: a fresh memory and a fresh CPU whose constructor ran `resetState`. */
    constructor ()
      ensures fresh(memory) && fresh(memory.cells) && fresh(cpu)
      ensures memory.Valid() && cpu.memory == memory
      ensures cpu.a == 0 && cpu.x == 0 && cpu.y == 0 && cpu.status == 0
    {
      var mem := new FlatMemory.Memory();
      memory := mem;
      cpu := new CpuEngine.Cpu(mem);
    }

    /** Load the program, set the reset vector, reset and run, as `Booted` describes. */
    method InsertDisk(data: seq<byte>)
      requires memory.Valid() && cpu.memory == memory && Start + |data| <= S.Size
      requires Booted(memory.cells[..], cpu.Regs(), data, S.Steps).Some?
      modifies memory.cells, cpu
      ensures memory.cells[..] == Loaded(old(memory.cells[..]), data)
      ensures cpu.Regs() == Booted(old(memory.cells[..]), old(cpu.Regs()), data, S.Steps).value
    {
      memory.Write(Start, data);
      memory.Write16(S.ResetVector, Start);
      assert memory.cells[..] == Loaded(old(memory.cells[..]), data);
      cpu.ResetInterrupt();
      cpu.Run();
    }
  }
}
