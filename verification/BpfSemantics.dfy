/** A fully checked reference semantics for BPF: every access is tested, every
    failed test is `Stuck`, arithmetic is mathematics modulo 2^32, and loads are
    big-endian place values. Theorems about validated programs are proved here. */
module BpfSemantics {
  import opened Options
  import opened BitOps
  import opened BpfInsn
  import opened BpfValidate

  type Packet = seq<U8>

  /** Why a run that is not stuck stops. */
  datatype Cause = Returned | OutOfRange | DividedByZero

  datatype Machine = Machine(a: U32, x: U32, pc: nat, mem: seq<U32>)

  datatype Outcome = Running(m: Machine) | Halted(value: U32, cause: Cause) | Stuck

  const START: Machine := Machine(0, 0, 0, seq(MEMWORDS, _ => 0))

  function BigEndian(bytes: Packet): (v: nat) {
    if bytes == [] then 0 else 256 * BigEndian(bytes[..|bytes| - 1]) + bytes[|bytes| - 1]
  }

  lemma {:induction false} BigEndianBound(bytes: Packet)
    requires |bytes| <= 4
    ensures BigEndian(bytes) < Pow2(8 * |bytes|) <= TWO32
  {
    Pow2Of32();
    if bytes != [] {
      BigEndianBound(bytes[..|bytes| - 1]);
      Pow2Add(8 * (|bytes| - 1), 8);
      assert Pow2(8) == 256;
      Pow2Mono(8 * |bytes|, 32);
    }
  }

  lemma {:induction false} Pow2Mono(m: nat, n: nat)
    requires m <= n
    ensures Pow2(m) <= Pow2(n)
  {
    Pow2Add(m, n - m);
    TimesPositive(Pow2(n - m), Pow2(m));
  }

  lemma BigEndianAppend(bytes: Packet, b: U8)
    ensures BigEndian(bytes + [b]) == 256 * BigEndian(bytes) + b
  {
    assert (bytes + [b])[..|bytes|] == bytes;
  }

  lemma ByteBytes(packet: Packet, addr: nat)
    requires addr < |packet|
    ensures BigEndian(packet[addr..addr + 1]) == packet[addr]
  {
    BigEndianAppend([], packet[addr]);
    assert packet[addr..addr + 1] == [] + [packet[addr]];
  }

  lemma HalfwordBytes(packet: Packet, addr: nat)
    requires addr + 1 < |packet|
    ensures BigEndian(packet[addr..addr + 2]) == (packet[addr] as int) * 256 + packet[addr + 1]
  {
    BigEndianAppend([], packet[addr]);
    BigEndianAppend([packet[addr]], packet[addr + 1]);
    assert packet[addr..addr + 2] == ([] + [packet[addr]]) + [packet[addr + 1]];
  }

  lemma WordBytes(packet: Packet, addr: nat)
    requires addr + 3 < |packet|
    ensures BigEndian(packet[addr..addr + 4])
            == (((packet[addr] as int) * 256 + packet[addr + 1]) * 256 + packet[addr + 2]) * 256 + packet[addr + 3]
  {
    HalfwordBytes(packet, addr);
    BigEndianAppend(packet[addr..addr + 2], packet[addr + 2]);
    assert packet[addr..addr + 3] == packet[addr..addr + 2] + [packet[addr + 2]];
    BigEndianAppend(packet[addr..addr + 3], packet[addr + 3]);
    assert packet[addr..addr + 4] == packet[addr..addr + 3] + [packet[addr + 3]];
  }

  /** The `width` bytes at `addr`, or None when they are not all in the packet. */
  function Load(packet: Packet, addr: nat, width: nat): Option<U32>
    requires 1 <= width <= 4
  {
    if addr + width <= |packet| then
      var bytes := packet[addr..addr + width];
      BigEndianBound(bytes);
      Some(BigEndian(bytes))
    else None
  }

  function LoadInto(m: Machine, loaded: Option<U32>): Outcome {
    match loaded
    case None => Halted(0, OutOfRange)
    case Some(v) => Running(m.(a := v))
  }

  /** `None` is division by zero. */
  function AluValue(op: AluOp, a: U32, v: U32): Option<U32> {
    match op
    case Add => Some((a + v) % TWO32)
    case Sub => Some((a - v) % TWO32)
    case Mul => Some((a * v) % TWO32)
    case Div => if v == 0 then None else ShrShrinks(a, v); Some(a / v)
    case Mod => if v == 0 then None else Some(a % v)
    case And => Some(And32(a, v))
    case Or => Some(Or32(a, v))
    case Xor => Some(Xor32(a, v))
    case Lsh => Some((a * Pow2(v)) % TWO32)
    case Rsh => ShrShrinks(a, Pow2(v)); Some(a / Pow2(v))
  }

  predicate Taken(cond: Cond, a: U32, v: U32) {
    match cond
    case Gt => a > v
    case Ge => a >= v
    case Eq => a == v
    case Set => And32(a, v) != 0
  }

  function Operand(src: Source, m: Machine, insn: Insn): U32 {
    match src
    case Konst => insn.k
    case Index => m.x
  }

  /** Execute one operation; `m.pc` already points past the instruction. */
  function Exec(op: Op, insn: Insn, packet: Packet, m: Machine): Outcome {
    match op
    case ReturnK => Halted(insn.k, Returned)
    case ReturnA => Halted(m.a, Returned)
    case LoadAbs(width) => if width in {1, 2, 4} then LoadInto(m, Load(packet, insn.k, width)) else Stuck
    case LoadInd(width) =>
      if width in {1, 2, 4} then LoadInto(m, Load(packet, (m.x + insn.k) % TWO32, width)) else Stuck
    case LoadMsh =>
      (match Load(packet, insn.k, 1)
       case None => Halted(0, OutOfRange)
       case Some(v) => Running(m.(x := 4 * (v % 16))))
    case LoadLen => Running(m.(a := |packet| % TWO32))
    case LoadLenX => Running(m.(x := |packet| % TWO32))
    case LoadImm => Running(m.(a := insn.k))
    case LoadImmX => Running(m.(x := insn.k))
    case LoadMem => if insn.k < |m.mem| then Running(m.(a := m.mem[insn.k])) else Stuck
    case LoadMemX => if insn.k < |m.mem| then Running(m.(x := m.mem[insn.k])) else Stuck
    case StoreA => if insn.k < |m.mem| then Running(m.(mem := m.mem[insn.k := m.a])) else Stuck
    case StoreX => if insn.k < |m.mem| then Running(m.(mem := m.mem[insn.k := m.x])) else Stuck
    case JumpAlways => Running(m.(pc := JumpTarget(m.pc, insn.k)))
    case Jump(cond, src) =>
      var target := m.pc + if Taken(cond, m.a, Operand(src, m, insn)) then insn.jt else insn.jf;
      if target < TWO32 then Running(m.(pc := target)) else Stuck
    case Alu(aluOp, src) =>
      (match AluValue(aluOp, m.a, Operand(src, m, insn))
       case None => Halted(0, DividedByZero)
       case Some(v) => Running(m.(a := v)))
    case Negate => Running(m.(a := (0 - m.a) % TWO32))
    case CopyAX => Running(m.(x := m.a))
    case CopyXA => Running(m.(a := m.x))
  }

  function Step(prog: seq<Insn>, packet: Packet, m: Machine): Outcome {
    if m.pc >= |prog| || m.pc + 1 >= TWO32 then Stuck
    else
      match Dispatch(prog[m.pc].code)
      case None => Stuck
      case Some(op) => Exec(op, prog[m.pc], packet, m.(pc := m.pc + 1))
  }

  /** At most `limit` iterations from `m`. */
  function Run(prog: seq<Insn>, packet: Packet, m: Machine, limit: nat): Outcome
    decreases limit
  {
    if limit == 0 then Running(m)
    else
      match Step(prog, packet, m)
      case Running(m') => Run(prog, packet, m', limit - 1)
      case stopped => stopped
  }

  /** What every step of a validated program keeps. */
  predicate Good(prog: seq<Insn>, m: Machine) {
    m.pc < |prog| && |m.mem| == MEMWORDS
  }

  predicate Safe(prog: seq<Insn>, o: Outcome) {
    o != Stuck && (o.Running? ==> Good(prog, o.m))
  }

  /** Progress and preservation for one step. */
  lemma StepIsSafe(prog: seq<Insn>, flags: Flags, packet: Packet, m: Machine)
    requires Accepts(prog, flags) && Good(prog, m)
    ensures Safe(prog, Step(prog, packet, m))
  {
    assert InsnError(prog[m.pc], m.pc, |prog|, flags) == None;
    LoadWidths(prog[m.pc].code);
    if m.pc == |prog| - 1 {
      assert Dispatch(prog[m.pc].code) in {Some(ReturnK), Some(ReturnA)};
    }
  }

  lemma LoadWidths(code: U16)
    ensures match Dispatch(code)
            case Some(LoadAbs(w)) => w in {1, 2, 4}
            case Some(LoadInd(w)) => w in {1, 2, 4}
            case _ => true
  {
  }

  /** Without backward jumps every step moves forward. */
  lemma StepMovesForward(prog: seq<Insn>, flags: Flags, packet: Packet, m: Machine)
    requires Accepts(prog, flags) && !BackwardAllowed(flags) && Good(prog, m)
    ensures Step(prog, packet, m).Running? ==> Step(prog, packet, m).m.pc > m.pc
  {
    assert InsnError(prog[m.pc], m.pc, |prog|, flags) == None;
  }

  /** The first step of a run, and what is left of it. */
  lemma FirstStep(prog: seq<Insn>, flags: Flags, packet: Packet, m: Machine, limit: nat) returns (next: Outcome)
    requires Accepts(prog, flags) && Good(prog, m) && limit > 0
    ensures next == Step(prog, packet, m) && Safe(prog, next)
    ensures next.Running? && !BackwardAllowed(flags) ==> next.m.pc > m.pc
    ensures Run(prog, packet, m, limit) == if next.Running? then Run(prog, packet, next.m, limit - 1) else next
  {
    StepIsSafe(prog, flags, packet, m);
    if !BackwardAllowed(flags) {
      StepMovesForward(prog, flags, packet, m);
    }
    next := Step(prog, packet, m);
  }

  /** No stuck states, over runs of every length, with or without backward jumps. */
  lemma {:induction false} NeverStuck(prog: seq<Insn>, flags: Flags, packet: Packet, m: Machine, limit: nat)
    requires Accepts(prog, flags) && Good(prog, m)
    ensures Safe(prog, Run(prog, packet, m, limit))
    decreases limit
  {
    if limit > 0 {
      var next := FirstStep(prog, flags, packet, m, limit);
      if next.Running? {
        NeverStuck(prog, flags, packet, next.m, limit - 1);
      }
    }
  }

  /** So a program accepted with flags 0 halts within `|prog|` iterations. */
  lemma {:induction false} ForwardProgramsHalt(
    prog: seq<Insn>, flags: Flags, packet: Packet, m: Machine, limit: nat)
    requires Accepts(prog, flags) && !BackwardAllowed(flags) && Good(prog, m)
    requires limit >= |prog| - m.pc
    ensures Run(prog, packet, m, limit).Halted?
    decreases limit
  {
    var next := FirstStep(prog, flags, packet, m, limit);
    if next.Running? {
      ForwardProgramsHalt(prog, flags, packet, next.m, limit - 1);
    }
  }

  /** The interpreter's two tests for a zero constant divisor never succeed. */
  lemma ConstantDivisorIsNonzero(prog: seq<Insn>, flags: Flags, i: nat)
    requires Accepts(prog, flags) && i < |prog|
    requires Dispatch(prog[i].code) in {Some(Alu(Div, Konst)), Some(Alu(Mod, Konst))}
    ensures prog[i].k != 0
  {
    assert InsnError(prog[i], i, |prog|, flags) == None;
  }

  predicate UsesLength(prog: seq<Insn>) {
    exists i :: 0 <= i < |prog| && Dispatch(prog[i].code) in {Some(LoadLen), Some(LoadLenX)}
  }

  /** A step that loads in range does the same whatever follows the packet. */
  lemma StepExtends(prog: seq<Insn>, p: Packet, q: Packet, m: Machine)
    requires !UsesLength(prog)
    requires Step(prog, p, m) != Halted(0, OutOfRange)
    ensures Step(prog, p + q, m) == Step(prog, p, m)
  {
    if m.pc < |prog| && Dispatch(prog[m.pc].code).Some? {
      LoadWidths(prog[m.pc].code);
      assert !(Dispatch(prog[m.pc].code) in {Some(LoadLen), Some(LoadLenX)});
      forall addr: nat, w: nat | 1 <= w <= 4 && addr + w <= |p|
        ensures Load(p + q, addr, w) == Load(p, addr, w)
      {
        assert (p + q)[addr..addr + w] == p[addr..addr + w];
      }
    }
  }

  /** Appending bytes to a packet cannot change a run that stayed in range. */
  lemma {:induction false} RunExtends(prog: seq<Insn>, p: Packet, q: Packet, m: Machine, limit: nat)
    requires !UsesLength(prog)
    requires Run(prog, p, m, limit) != Halted(0, OutOfRange)
    ensures Run(prog, p + q, m, limit) == Run(prog, p, m, limit)
    decreases limit
  {
    if limit > 0 {
      StepExtends(prog, p, q, m);
      var next := Step(prog, p, m);
      if next.Running? {
        RunExtends(prog, p, q, next.m, limit - 1);
      }
    }
  }

  /** Both hypotheses of `RunExtends` are needed. */
  lemma ExtensionNeedsBoth()
    ensures
      var len := [Insn(LD | W | LEN, 0, 0, 0), Insn(RET | A, 0, 0, 0)];
      Accepts(len, 0) && Run(len, [], START, 2) != Run(len, [7], START, 2)
    ensures
      var byte := [Insn(LD | B | ABS, 0, 0, 0), Insn(RET | A, 0, 0, 0)];
      Accepts(byte, 0) && !UsesLength(byte) && Run(byte, [], START, 2) != Run(byte, [7], START, 2)
  {
    var len := [Insn(LD | W | LEN, 0, 0, 0), Insn(RET | A, 0, 0, 0)];
    assert Step(len, [], START) == Running(START.(pc := 1));
    assert Run(len, [], START, 2) == Halted(0, Returned);
    assert Step(len, [7], START) == Running(START.(a := 1, pc := 1));
    assert Run(len, [7], START, 2) == Halted(1, Returned);
    var byte := [Insn(LD | B | ABS, 0, 0, 0), Insn(RET | A, 0, 0, 0)];
    assert Step(byte, [], START) == Halted(0, OutOfRange);
    assert BigEndian([7]) == 7;
    assert [7][0..0 + 1] == [7];
    assert Step(byte, [7], START) == Running(START.(a := 7, pc := 1));
    assert Run(byte, [7], START, 2) == Halted(7, Returned);
  }
}
