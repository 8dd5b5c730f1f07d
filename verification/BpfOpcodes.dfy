/** What each opcode does, from its number: for every program, packet and machine, the step
    the reference semantics takes, written out. */
module BpfOpcodes {
  import opened BitOps
  import opened Bits
  import opened BpfInsn
  import opened BpfSemantics

  /** The machine is about to execute an instruction with this opcode. */
  predicate At(prog: seq<Insn>, m: Machine, code: U16) {
    m.pc < |prog| && m.pc + 1 < 0x1_0000_0000 && prog[m.pc].code == code
  }

  /** The opcodes that have a meaning. */
  predicate Known(code: U16) {
    code in {0x06, 0x16, 0x20, 0x28, 0x30, 0x80, 0x81, 0x40, 0x48, 0x50, 0xb1, 0x00, 0x01, 0x60, 0x61, 0x62, 0x63,
             0x05, 0x25, 0x35, 0x15, 0x45, 0x2d, 0x3d, 0x1d, 0x4d,
             0x0c, 0x1c, 0x2c, 0x3c, 0x9c, 0x5c, 0x4c, 0xac, 0x6c, 0x7c,
             0x04, 0x14, 0x24, 0x34, 0x94, 0x54, 0x44, 0xa4, 0x64, 0x74, 0x84, 0x07, 0x87}
  }

  /** Any other opcode is stuck, wherever it stands. */
  lemma UnknownIsStuck(prog: seq<Insn>, packet: Packet, m: Machine)
    requires m.pc < |prog| && !Known(prog[m.pc].code)
    ensures Step(prog, packet, m) == Stuck
  {
  }

  /** The step only changes the accumulator. */
  predicate Changes(m: Machine, o: Outcome) {
    o.Running? && o.m == m.(a := o.m.a, pc := m.pc + 1)
  }

  /** The step only replaces the accumulator, by `v`. */
  predicate Sets(m: Machine, o: Outcome, v: int) {
    Changes(m, o) && o.m.a == v
  }

  /** Two bytes at `at`, and four, the first the most significant. */
  function Halfword(packet: Packet, at: nat): int
    requires at + 1 < |packet|
  {
    0x100 * (packet[at] as int) + packet[at + 1]
  }

  function Word(packet: Packet, at: nat): int
    requires at + 3 < |packet|
  {
    0x1_0000 * Halfword(packet, at) + Halfword(packet, at + 2)
  }

  // Returns.

  lemma ReturnConstant(prog: seq<Insn>, packet: Packet, m: Machine)
    requires At(prog, m, 0x06)
    ensures Step(prog, packet, m) == Halted(prog[m.pc].k, Returned)
  {
  }

  lemma ReturnAccumulator(prog: seq<Insn>, packet: Packet, m: Machine)
    requires At(prog, m, 0x16)
    ensures Step(prog, packet, m) == Halted(m.a, Returned)
  {
  }

  // Loads from the packet.

  lemma LoadWordAt(prog: seq<Insn>, packet: Packet, m: Machine)
    requires At(prog, m, 0x20)
    ensures var at := prog[m.pc].k;
            if at + 4 <= |packet| then Sets(m, Step(prog, packet, m), Word(packet, at))
            else Step(prog, packet, m) == Halted(0, OutOfRange)
  {
    var at := prog[m.pc].k;
    if at + 4 <= |packet| {
      WordBytes(packet, at);
    }
  }

  lemma LoadHalfwordAt(prog: seq<Insn>, packet: Packet, m: Machine)
    requires At(prog, m, 0x28)
    ensures var at := prog[m.pc].k;
            if at + 2 <= |packet| then Sets(m, Step(prog, packet, m), Halfword(packet, at))
            else Step(prog, packet, m) == Halted(0, OutOfRange)
  {
    var at := prog[m.pc].k;
    if at + 2 <= |packet| {
      HalfwordBytes(packet, at);
    }
  }

  lemma LoadByteAt(prog: seq<Insn>, packet: Packet, m: Machine)
    requires At(prog, m, 0x30)
    ensures var at := prog[m.pc].k;
            if at + 1 <= |packet| then Sets(m, Step(prog, packet, m), packet[at])
            else Step(prog, packet, m) == Halted(0, OutOfRange)
  {
    var at := prog[m.pc].k;
    if at + 1 <= |packet| {
      ByteBytes(packet, at);
    }
  }

  lemma LoadWordFrom(prog: seq<Insn>, packet: Packet, m: Machine)
    requires At(prog, m, 0x40)
    ensures var at := (m.x + prog[m.pc].k) % 0x1_0000_0000;
            if at + 4 <= |packet| then Sets(m, Step(prog, packet, m), Word(packet, at))
            else Step(prog, packet, m) == Halted(0, OutOfRange)
  {
    var at := (m.x + prog[m.pc].k) % 0x1_0000_0000;
    if at + 4 <= |packet| {
      WordBytes(packet, at);
    }
  }

  lemma LoadHalfwordFrom(prog: seq<Insn>, packet: Packet, m: Machine)
    requires At(prog, m, 0x48)
    ensures var at := (m.x + prog[m.pc].k) % 0x1_0000_0000;
            if at + 2 <= |packet| then Sets(m, Step(prog, packet, m), Halfword(packet, at))
            else Step(prog, packet, m) == Halted(0, OutOfRange)
  {
    var at := (m.x + prog[m.pc].k) % 0x1_0000_0000;
    if at + 2 <= |packet| {
      HalfwordBytes(packet, at);
    }
  }

  lemma LoadByteFrom(prog: seq<Insn>, packet: Packet, m: Machine)
    requires At(prog, m, 0x50)
    ensures var at := (m.x + prog[m.pc].k) % 0x1_0000_0000;
            if at + 1 <= |packet| then Sets(m, Step(prog, packet, m), packet[at])
            else Step(prog, packet, m) == Halted(0, OutOfRange)
  {
    var at := (m.x + prog[m.pc].k) % 0x1_0000_0000;
    if at + 1 <= |packet| {
      ByteBytes(packet, at);
    }
  }

  lemma LoadHeaderLength(prog: seq<Insn>, packet: Packet, m: Machine)
    requires At(prog, m, 0xb1)
    ensures Step(prog, packet, m) == if prog[m.pc].k < |packet|
              then Running(m.(x := 4 * (packet[prog[m.pc].k] % 16), pc := m.pc + 1))
              else Halted(0, OutOfRange)
  {
    if prog[m.pc].k < |packet| {
      ByteBytes(packet, prog[m.pc].k);
    }
  }

  lemma LoadLength(prog: seq<Insn>, packet: Packet, m: Machine)
    requires At(prog, m, 0x80)
    ensures Step(prog, packet, m) == Running(m.(a := |packet| % 0x1_0000_0000, pc := m.pc + 1))
  {
  }

  lemma LoadLengthIndex(prog: seq<Insn>, packet: Packet, m: Machine)
    requires At(prog, m, 0x81)
    ensures Step(prog, packet, m) == Running(m.(x := |packet| % 0x1_0000_0000, pc := m.pc + 1))
  {
  }

  // Constants and scratch memory.

  lemma LoadConstant(prog: seq<Insn>, packet: Packet, m: Machine)
    requires At(prog, m, 0x00)
    ensures Step(prog, packet, m) == Running(m.(a := prog[m.pc].k, pc := m.pc + 1))
  {
  }

  lemma LoadConstantIndex(prog: seq<Insn>, packet: Packet, m: Machine)
    requires At(prog, m, 0x01)
    ensures Step(prog, packet, m) == Running(m.(x := prog[m.pc].k, pc := m.pc + 1))
  {
  }

  lemma LoadScratch(prog: seq<Insn>, packet: Packet, m: Machine)
    requires At(prog, m, 0x60)
    ensures Step(prog, packet, m) == if prog[m.pc].k < |m.mem|
              then Running(m.(a := m.mem[prog[m.pc].k], pc := m.pc + 1))
              else Stuck
  {
  }

  lemma LoadScratchIndex(prog: seq<Insn>, packet: Packet, m: Machine)
    requires At(prog, m, 0x61)
    ensures Step(prog, packet, m) == if prog[m.pc].k < |m.mem|
              then Running(m.(x := m.mem[prog[m.pc].k], pc := m.pc + 1))
              else Stuck
  {
  }

  lemma StoreScratch(prog: seq<Insn>, packet: Packet, m: Machine)
    requires At(prog, m, 0x62)
    ensures Step(prog, packet, m) == if prog[m.pc].k < |m.mem|
              then Running(m.(mem := m.mem[prog[m.pc].k := m.a], pc := m.pc + 1))
              else Stuck
  {
  }

  lemma StoreScratchIndex(prog: seq<Insn>, packet: Packet, m: Machine)
    requires At(prog, m, 0x63)
    ensures Step(prog, packet, m) == if prog[m.pc].k < |m.mem|
              then Running(m.(mem := m.mem[prog[m.pc].k := m.x], pc := m.pc + 1))
              else Stuck
  {
  }

  // Jumps.

  lemma JumpAlwaysGoes(prog: seq<Insn>, packet: Packet, m: Machine)
    requires At(prog, m, 0x05)
    ensures Step(prog, packet, m) == Running(m.(pc := (m.pc + 1 + prog[m.pc].k) % 0x1_0000_0000))
  {
  }

  /** A conditional jump: past `jt` instructions if the test succeeds, past `jf` if not. */
  function Goes(prog: seq<Insn>, m: Machine, test: bool): Outcome
    requires m.pc < |prog|
  {
    var target := if test then m.pc + 1 + prog[m.pc].jt else m.pc + 1 + prog[m.pc].jf;
    if target < 0x1_0000_0000 then Running(m.(pc := target)) else Stuck
  }

  lemma JumpIfGreater(prog: seq<Insn>, packet: Packet, m: Machine)
    requires At(prog, m, 0x25)
    ensures Step(prog, packet, m) == Goes(prog, m, m.a > prog[m.pc].k)
  {
  }

  lemma JumpIfGreaterIndex(prog: seq<Insn>, packet: Packet, m: Machine)
    requires At(prog, m, 0x2d)
    ensures Step(prog, packet, m) == Goes(prog, m, m.a > m.x)
  {
  }

  lemma JumpIfAtLeast(prog: seq<Insn>, packet: Packet, m: Machine)
    requires At(prog, m, 0x35)
    ensures Step(prog, packet, m) == Goes(prog, m, m.a >= prog[m.pc].k)
  {
  }

  lemma JumpIfAtLeastIndex(prog: seq<Insn>, packet: Packet, m: Machine)
    requires At(prog, m, 0x3d)
    ensures Step(prog, packet, m) == Goes(prog, m, m.a >= m.x)
  {
  }

  lemma JumpIfEqual(prog: seq<Insn>, packet: Packet, m: Machine)
    requires At(prog, m, 0x15)
    ensures Step(prog, packet, m) == Goes(prog, m, m.a == prog[m.pc].k)
  {
  }

  lemma JumpIfEqualIndex(prog: seq<Insn>, packet: Packet, m: Machine)
    requires At(prog, m, 0x1d)
    ensures Step(prog, packet, m) == Goes(prog, m, m.a == m.x)
  {
  }

  lemma JumpIfCommonBit(prog: seq<Insn>, packet: Packet, m: Machine)
    requires At(prog, m, 0x45)
    ensures Step(prog, packet, m) == Goes(prog, m, CommonBit(m.a, prog[m.pc].k))
  {
    AndIsNonzero(m.a, prog[m.pc].k);
  }

  lemma JumpIfCommonBitIndex(prog: seq<Insn>, packet: Packet, m: Machine)
    requires At(prog, m, 0x4d)
    ensures Step(prog, packet, m) == Goes(prog, m, CommonBit(m.a, m.x))
  {
    AndIsNonzero(m.a, m.x);
  }

  // Arithmetic.

  lemma AddConstant(prog: seq<Insn>, packet: Packet, m: Machine)
    requires At(prog, m, 0x04)
    ensures Sets(m, Step(prog, packet, m), (m.a + prog[m.pc].k) % 0x1_0000_0000)
  {
  }

  lemma AddIndex(prog: seq<Insn>, packet: Packet, m: Machine)
    requires At(prog, m, 0x0c)
    ensures Sets(m, Step(prog, packet, m), (m.a + m.x) % 0x1_0000_0000)
  {
  }

  lemma SubtractConstant(prog: seq<Insn>, packet: Packet, m: Machine)
    requires At(prog, m, 0x14)
    ensures Sets(m, Step(prog, packet, m), (m.a - prog[m.pc].k) % 0x1_0000_0000)
  {
  }

  lemma SubtractIndex(prog: seq<Insn>, packet: Packet, m: Machine)
    requires At(prog, m, 0x1c)
    ensures Sets(m, Step(prog, packet, m), (m.a - m.x) % 0x1_0000_0000)
  {
  }

  lemma MultiplyConstant(prog: seq<Insn>, packet: Packet, m: Machine)
    requires At(prog, m, 0x24)
    ensures Sets(m, Step(prog, packet, m), (m.a * prog[m.pc].k) % 0x1_0000_0000)
  {
  }

  lemma MultiplyIndex(prog: seq<Insn>, packet: Packet, m: Machine)
    requires At(prog, m, 0x2c)
    ensures Sets(m, Step(prog, packet, m), (m.a * m.x) % 0x1_0000_0000)
  {
  }

  lemma DivideConstant(prog: seq<Insn>, packet: Packet, m: Machine)
    requires At(prog, m, 0x34)
    ensures if prog[m.pc].k == 0 then Step(prog, packet, m) == Halted(0, DividedByZero)
            else Sets(m, Step(prog, packet, m), m.a / prog[m.pc].k)
  {
  }

  lemma DivideIndex(prog: seq<Insn>, packet: Packet, m: Machine)
    requires At(prog, m, 0x3c)
    ensures if m.x == 0 then Step(prog, packet, m) == Halted(0, DividedByZero)
            else Sets(m, Step(prog, packet, m), m.a / m.x)
  {
  }

  lemma RemainConstant(prog: seq<Insn>, packet: Packet, m: Machine)
    requires At(prog, m, 0x94)
    ensures if prog[m.pc].k == 0 then Step(prog, packet, m) == Halted(0, DividedByZero)
            else Sets(m, Step(prog, packet, m), m.a % prog[m.pc].k)
  {
  }

  lemma RemainIndex(prog: seq<Insn>, packet: Packet, m: Machine)
    requires At(prog, m, 0x9c)
    ensures if m.x == 0 then Step(prog, packet, m) == Halted(0, DividedByZero)
            else Sets(m, Step(prog, packet, m), m.a % m.x)
  {
  }

  lemma AndConstant(prog: seq<Insn>, packet: Packet, m: Machine)
    requires At(prog, m, 0x54)
    ensures var o := Step(prog, packet, m);
            Changes(m, o) && forall i: nat :: Bit(o.m.a, i) <==> Bit(m.a, i) && Bit(prog[m.pc].k, i)
  {
    forall i: nat
      ensures Bit(Step(prog, packet, m).m.a, i) <==> Bit(m.a, i) && Bit(prog[m.pc].k, i)
    {
      BitOfAnd(m.a, prog[m.pc].k, i);
    }
  }

  lemma AndIndex(prog: seq<Insn>, packet: Packet, m: Machine)
    requires At(prog, m, 0x5c)
    ensures var o := Step(prog, packet, m);
            Changes(m, o) && forall i: nat :: Bit(o.m.a, i) <==> Bit(m.a, i) && Bit(m.x, i)
  {
    forall i: nat
      ensures Bit(Step(prog, packet, m).m.a, i) <==> Bit(m.a, i) && Bit(m.x, i)
    {
      BitOfAnd(m.a, m.x, i);
    }
  }

  lemma OrConstant(prog: seq<Insn>, packet: Packet, m: Machine)
    requires At(prog, m, 0x44)
    ensures var o := Step(prog, packet, m);
            Changes(m, o) && forall i: nat :: Bit(o.m.a, i) <==> Bit(m.a, i) || Bit(prog[m.pc].k, i)
  {
    forall i: nat
      ensures Bit(Step(prog, packet, m).m.a, i) <==> Bit(m.a, i) || Bit(prog[m.pc].k, i)
    {
      BitOfOr(m.a, prog[m.pc].k, i);
    }
  }

  lemma OrIndex(prog: seq<Insn>, packet: Packet, m: Machine)
    requires At(prog, m, 0x4c)
    ensures var o := Step(prog, packet, m);
            Changes(m, o) && forall i: nat :: Bit(o.m.a, i) <==> Bit(m.a, i) || Bit(m.x, i)
  {
    forall i: nat
      ensures Bit(Step(prog, packet, m).m.a, i) <==> Bit(m.a, i) || Bit(m.x, i)
    {
      BitOfOr(m.a, m.x, i);
    }
  }

  lemma XorConstant(prog: seq<Insn>, packet: Packet, m: Machine)
    requires At(prog, m, 0xa4)
    ensures var o := Step(prog, packet, m);
            Changes(m, o) && forall i: nat :: Bit(o.m.a, i) <==> Bit(m.a, i) != Bit(prog[m.pc].k, i)
  {
    forall i: nat
      ensures Bit(Step(prog, packet, m).m.a, i) <==> Bit(m.a, i) != Bit(prog[m.pc].k, i)
    {
      BitOfXor(m.a, prog[m.pc].k, i);
    }
  }

  lemma XorIndex(prog: seq<Insn>, packet: Packet, m: Machine)
    requires At(prog, m, 0xac)
    ensures var o := Step(prog, packet, m);
            Changes(m, o) && forall i: nat :: Bit(o.m.a, i) <==> Bit(m.a, i) != Bit(m.x, i)
  {
    forall i: nat
      ensures Bit(Step(prog, packet, m).m.a, i) <==> Bit(m.a, i) != Bit(m.x, i)
    {
      BitOfXor(m.a, m.x, i);
    }
  }

  lemma ShiftLeftConstant(prog: seq<Insn>, packet: Packet, m: Machine)
    requires At(prog, m, 0x64)
    ensures var o := Step(prog, packet, m);
            Changes(m, o) && forall i: nat :: Bit(o.m.a, i) <==> prog[m.pc].k <= i < 32 && Bit(m.a, i - prog[m.pc].k)
  {
    forall i: nat
      ensures Bit(Step(prog, packet, m).m.a, i) <==> prog[m.pc].k <= i < 32 && Bit(m.a, i - prog[m.pc].k)
    {
      BitOfShiftLeft(m.a, prog[m.pc].k, i);
    }
  }

  lemma ShiftLeftIndex(prog: seq<Insn>, packet: Packet, m: Machine)
    requires At(prog, m, 0x6c)
    ensures var o := Step(prog, packet, m);
            Changes(m, o) && forall i: nat :: Bit(o.m.a, i) <==> m.x <= i < 32 && Bit(m.a, i - m.x)
  {
    forall i: nat
      ensures Bit(Step(prog, packet, m).m.a, i) <==> m.x <= i < 32 && Bit(m.a, i - m.x)
    {
      BitOfShiftLeft(m.a, m.x, i);
    }
  }

  lemma ShiftRightConstant(prog: seq<Insn>, packet: Packet, m: Machine)
    requires At(prog, m, 0x74)
    ensures var o := Step(prog, packet, m);
            Changes(m, o) && forall i: nat :: Bit(o.m.a, i) <==> Bit(m.a, i + prog[m.pc].k)
  {
    forall i: nat
      ensures Bit(Step(prog, packet, m).m.a, i) <==> Bit(m.a, i + prog[m.pc].k)
    {
      BitOfQuotient(m.a, prog[m.pc].k, i);
    }
  }

  lemma ShiftRightIndex(prog: seq<Insn>, packet: Packet, m: Machine)
    requires At(prog, m, 0x7c)
    ensures var o := Step(prog, packet, m);
            Changes(m, o) && forall i: nat :: Bit(o.m.a, i) <==> Bit(m.a, i + m.x)
  {
    forall i: nat
      ensures Bit(Step(prog, packet, m).m.a, i) <==> Bit(m.a, i + m.x)
    {
      BitOfQuotient(m.a, m.x, i);
    }
  }

  lemma NegateAccumulator(prog: seq<Insn>, packet: Packet, m: Machine)
    requires At(prog, m, 0x84)
    ensures Sets(m, Step(prog, packet, m), if m.a == 0 then 0 else 0x1_0000_0000 - m.a)
  {
  }

  // Between the registers.

  lemma CopyToIndex(prog: seq<Insn>, packet: Packet, m: Machine)
    requires At(prog, m, 0x07)
    ensures Step(prog, packet, m) == Running(m.(x := m.a, pc := m.pc + 1))
  {
  }

  lemma CopyToAccumulator(prog: seq<Insn>, packet: Packet, m: Machine)
    requires At(prog, m, 0x87)
    ensures Step(prog, packet, m) == Running(m.(a := m.x, pc := m.pc + 1))
  {
  }

  // Whole programs.

  /** A run begins with both registers and all scratch memory zero. */
  lemma BeginsFromZero(packet: Packet, k: U32)
    requires k < 16
    ensures Run([Insn(0x16, 0, 0, 0)], packet, START, 1) == Halted(0, Returned)
    ensures Run([Insn(0x87, 0, 0, 0), Insn(0x16, 0, 0, 0)], packet, START, 2) == Halted(0, Returned)
    ensures Run([Insn(0x60, 0, 0, k), Insn(0x16, 0, 0, 0)], packet, START, 2) == Halted(0, Returned)
  {
    ReturnAccumulator([Insn(0x16, 0, 0, 0)], packet, START);
    var index := [Insn(0x87, 0, 0, 0), Insn(0x16, 0, 0, 0)];
    CopyToAccumulator(index, packet, START);
    ReturnAccumulator(index, packet, START.(pc := 1));
    var scratch := [Insn(0x60, 0, 0, k), Insn(0x16, 0, 0, 0)];
    LoadScratch(scratch, packet, START);
    ReturnAccumulator(scratch, packet, START.(pc := 1));
  }

  /** One instruction after the other: two constants are added. */
  lemma AddsConstants(packet: Packet, k: U32, k': U32)
    ensures Run([Insn(0x00, 0, 0, k), Insn(0x01, 0, 0, k'), Insn(0x0c, 0, 0, 0), Insn(0x16, 0, 0, 0)],
                packet, START, 4) == Halted((k + k') % 0x1_0000_0000, Returned)
  {
    var prog := [Insn(0x00, 0, 0, k), Insn(0x01, 0, 0, k'), Insn(0x0c, 0, 0, 0), Insn(0x16, 0, 0, 0)];
    var m1 := START.(a := k, pc := 1);
    var m2 := m1.(x := k', pc := 2);
    var m3 := m2.(a := (k + k') % 0x1_0000_0000, pc := 3);
    assert Run(prog, packet, m3, 1) == Halted(m3.a, Returned);
    assert Run(prog, packet, m2, 2) == Run(prog, packet, m3, 1);
    assert Run(prog, packet, m1, 3) == Run(prog, packet, m2, 2);
  }
}
