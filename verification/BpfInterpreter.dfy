/** The interpreter as written: unchecked accesses, unchecked additions, shifts and
    ors, 32-bit wrap-around. Each unchecked access is a proof obligation here. */
module BpfInterpreter {
  import opened Options
  import opened BitOps
  import opened BpfInsn
  import opened BpfValidate
  import opened BpfSemantics

  function LoadByte(packet: Packet, addr: nat): U32
    requires addr < |packet|
  {
    packet[addr]
  }

  function LoadHalfword(packet: Packet, addr: nat): U32
    requires addr + 1 < |packet|
  {
    Or32(Shl32(packet[addr], 8), packet[addr + 1])
  }

  function LoadWord(packet: Packet, addr: nat): U32
    requires addr + 3 < |packet|
  {
    Or32(Or32(Or32(Shl32(packet[addr], 24), Shl32(packet[addr + 1], 16)), Shl32(packet[addr + 2], 8)),
         packet[addr + 3])
  }

  lemma ByteIsLoad(packet: Packet, addr: nat)
    requires addr < |packet|
    ensures Load(packet, addr, 1) == Some(LoadByte(packet, addr))
  {
    ByteBytes(packet, addr);
  }

  lemma HalfwordIsLoad(packet: Packet, addr: nat)
    requires addr + 1 < |packet|
    ensures Load(packet, addr, 2) == Some(LoadHalfword(packet, addr))
  {
    HalfwordBytes(packet, addr);
    HalfwordIsPlaceValue(packet[addr], packet[addr + 1]);
  }

  lemma WordIsLoad(packet: Packet, addr: nat)
    requires addr + 3 < |packet|
    ensures Load(packet, addr, 4) == Some(LoadWord(packet, addr))
  {
    WordBytes(packet, addr);
    WordIsPlaceValue(packet[addr], packet[addr + 1], packet[addr + 2], packet[addr + 3]);
  }

  lemma ByteShifts(b: U8)
    ensures Shl32(b, 24) == (b as int) * 0x100_0000
    ensures Shl32(b, 16) == (b as int) * 0x1_0000
    ensures Shl32(b, 8) == (b as int) * 256
  {
    assert Pow2(8) == 256 && Pow2(16) == 0x1_0000 && Pow2(24) == 0x100_0000;
  }

  lemma OrInto(h: nat, l: U32, n: nat, p: nat, or: U32)
    requires p == Pow2(n) && l < p && h * p < TWO32
    requires or == h * p
    ensures Or32(or, l) == h * p + l
  {
    OrDisjoint(h, l, n);
  }

  lemma HalfwordIsPlaceValue(b0: U8, b1: U8)
    ensures Or32(Shl32(b0, 8), b1) == (b0 as int) * 256 + b1
  {
    assert Pow2(8) == 256;
    ByteShifts(b0);
    OrInto(b0, b1, 8, 256, Shl32(b0, 8));
  }

  lemma WordIsPlaceValue(b0: U8, b1: U8, b2: U8, b3: U8)
    ensures Or32(Or32(Or32(Shl32(b0, 24), Shl32(b1, 16)), Shl32(b2, 8)), b3)
            == (((b0 as int) * 256 + b1) * 256 + b2) * 256 + b3
  {
    assert Pow2(8) == 256 && Pow2(16) == 0x1_0000 && Pow2(24) == 0x100_0000;
    ByteShifts(b0);
    ByteShifts(b1);
    ByteShifts(b2);
    var s1, s2 := Shl32(b1, 16), Shl32(b2, 8);
    OrInto(b0, s1, 24, 0x100_0000, Shl32(b0, 24));
    var high: int := (b0 as int) * 256 + b1;
    var o1: U32 := Or32(Shl32(b0, 24), s1);
    assert o1 == high * 0x1_0000;
    OrInto(high, s2, 16, 0x1_0000, o1);
    var o2: U32 := Or32(o1, s2);
    assert o2 == (high * 256 + b2) * 256;
    OrInto(high * 256 + b2, b3, 8, 256, o2);
  }

  function WrappingAdd(a: U32, b: U32): U32 { if a + b < TWO32 then a + b else a + b - TWO32 }
  function WrappingSub(a: U32, b: U32): U32 { if a >= b then a - b else a - b + TWO32 }
  function WrappingMul(a: U32, b: U32): U32 { (a * b) % TWO32 }
  function WrappingNeg(a: U32): U32 { if a == 0 then 0 else TWO32 - a }

  /** `None` is the early exit with result 0. */
  function AluCode(op: AluOp, a: U32, v: U32): Option<U32> {
    match op
    case Add => Some(WrappingAdd(a, v))
    case Sub => Some(WrappingSub(a, v))
    case Mul => Some(WrappingMul(a, v))
    case Div => if v == 0 then None else ShrShrinks(a, v); Some(a / v)
    case Mod => if v == 0 then None else Some(a % v)
    case And => Some(And32(a, v))
    case Or => Some(Or32(a, v))
    case Xor => Some(Xor32(a, v))
    case Lsh => Some(if v < 32 then Shl32(a, v) else 0)
    case Rsh => Some(if v < 32 then Shr32(a, v) else 0)
  }

  /** Wrap-around code is arithmetic modulo 2^32, and the guarded shifts are
      plain shifts by any amount. */
  lemma AluCodeIsArithmetic(op: AluOp, a: U32, v: U32)
    ensures AluCode(op, a, v) == AluValue(op, a, v)
  {
    if v >= 32 {
      ShiftedOut(a, v);
    }
  }

  function DoJmp(pc: U32, taken: bool, insn: Insn): U32
    requires pc + (if taken then insn.jt else insn.jf) < TWO32
  {
    pc + if taken then insn.jt else insn.jf
  }

  lemma NibbleTimesFour(v: U8)
    ensures Shl32(And32(v, 0xf), 2) == 4 * (v % 16)
  {
    assert Pow2(4) == 16 && Pow2(2) == 4;
    AndMask(v, 4);
  }

  /** The bounds tests written before each packet load. */
  method LoadChecked(packet: Packet, k: U32, width: nat) returns (r: Option<U32>)
    requires width in {1, 2, 4}
    ensures r == Load(packet, k, width)
  {
    if width == 4 {
      if k > |packet| || |packet| - k < 4 { return None; }
      WordIsLoad(packet, k);
      r := Some(LoadWord(packet, k));
    } else if width == 2 {
      if k > |packet| || |packet| - k < 2 { return None; }
      HalfwordIsLoad(packet, k);
      r := Some(LoadHalfword(packet, k));
    } else {
      if k >= |packet| { return None; }
      ByteIsLoad(packet, k);
      r := Some(LoadByte(packet, k));
    }
  }

  /** One arm of the dispatch, with `pc` already past the instruction. `exit` is the
      value the loop breaks with. */
  method Arm(op: Op, insn: Insn, packet: Packet, a: U32, x: U32, pc: U32, mem: array<U32>)
    returns (exit: Option<U32>, a': U32, x': U32, pc': U32)
    requires Exec(op, insn, packet, Machine(a, x, pc, mem[..])) != Stuck
    modifies mem
    ensures match Exec(op, insn, packet, Machine(a, x, pc, old(mem[..])))
            case Running(m) => exit == None && m == Machine(a', x', pc', mem[..])
            case Halted(v, _) => exit == Some(v)
            case Stuck => false
  {
    exit, a', x', pc' := None, a, x, pc;
    match op {
      case ReturnK => exit := Some(insn.k);
      case ReturnA => exit := Some(a);
      case LoadAbs(width) =>
        var loaded := LoadChecked(packet, insn.k, width);
        if loaded == None { exit := Some(0); } else { a' := loaded.value; }
      case LoadInd(width) =>
        var loaded := LoadChecked(packet, WrappingAdd(x, insn.k), width);
        if loaded == None { exit := Some(0); } else { a' := loaded.value; }
      case LoadMsh =>
        if insn.k >= |packet| {
          exit := Some(0);
        } else {
          ByteIsLoad(packet, insn.k);
          NibbleTimesFour(LoadByte(packet, insn.k));
          x' := Shl32(And32(LoadByte(packet, insn.k), 0xf), 2);
        }
      case LoadLen => a' := |packet| % TWO32;
      case LoadLenX => x' := |packet| % TWO32;
      case LoadImm => a' := insn.k;
      case LoadImmX => x' := insn.k;
      case LoadMem => a' := mem[insn.k];
      case LoadMemX => x' := mem[insn.k];
      case StoreA => mem[insn.k] := a;
      case StoreX => mem[insn.k] := x;
      case JumpAlways => pc' := WrappingAdd(pc, insn.k);
      case Jump(cond, src) =>
        pc' := DoJmp(pc, Taken(cond, a, if src == Konst then insn.k else x), insn);
      case Alu(aluOp, src) =>
        var v := if src == Konst then insn.k else x;
        AluCodeIsArithmetic(aluOp, a, v);
        var result := AluCode(aluOp, a, v);
        if result == None { exit := Some(0); } else { a' := result.value; }
      case Negate => a' := WrappingNeg(a);
      case CopyAX => x' := a;
      case CopyXA => a' := x;
    }
  }

  /** One turn of the loop, seen from the reference run. */
  lemma Iteration(prog: seq<Insn>, flags: Flags, packet: Packet, m: Machine, limit: nat)
    returns (op: Op, next: Outcome)
    requires Accepts(prog, flags) && Good(prog, m) && limit > 0
    ensures Dispatch(prog[m.pc].code) == Some(op)
    ensures next == Exec(op, prog[m.pc], packet, m.(pc := m.pc + 1)) && Safe(prog, next)
    ensures Run(prog, packet, m, limit) == if next.Running? then Run(prog, packet, next.m, limit - 1) else next
  {
    next := FirstStep(prog, flags, packet, m, limit);
    op := StepIsExec(prog, packet, m, next);
  }

  lemma StepIsExec(prog: seq<Insn>, packet: Packet, m: Machine, next: Outcome) returns (op: Op)
    requires m.pc < |prog| && next == Step(prog, packet, m) && next != Stuck
    ensures Dispatch(prog[m.pc].code) == Some(op)
    ensures next == Exec(op, prog[m.pc], packet, m.(pc := m.pc + 1))
  {
    op := Dispatch(prog[m.pc].code).value;
  }

  /** The dispatch itself; the arm declared unreachable is. */
  method Decode(code: U16, ghost expected: Op) returns (op: Op)
    requires Dispatch(code) == Some(expected)
    ensures op == expected
  {
    match Dispatch(code)
    case None => assert false;
    case Some(found) => op := found;
  }

  /** Fetch an instruction, step past it, and run its arm. `limit` counts the
      iterations the reference run has left. */
  method Turn(prog: seq<Insn>, ghost flags: Flags, packet: Packet, ghost limit: nat,
              a: U32, x: U32, pc: U32, mem: array<U32>)
    returns (exit: Option<U32>, a': U32, x': U32, pc': U32)
    requires Accepts(prog, flags) && limit > 0 && Good(prog, Machine(a, x, pc, mem[..]))
    modifies mem
    ensures match exit
            case None =>
              && Good(prog, Machine(a', x', pc', mem[..]))
              && Run(prog, packet, Machine(a, x, pc, old(mem[..])), limit)
                 == Run(prog, packet, Machine(a', x', pc', mem[..]), limit - 1)
            case Some(v) =>
              var stopped := Run(prog, packet, Machine(a, x, pc, old(mem[..])), limit);
              stopped.Halted? && stopped.value == v
  {
    ghost var m := Machine(a, x, pc, mem[..]);
    ghost var op', e := Iteration(prog, flags, packet, m, limit);
    var insn := prog[pc];
    var next: U32 := pc + 1;
    var op := Decode(insn.code, op');
    exit, a', x', pc' := Arm(op, insn, packet, a, x, next, mem);
    assert if e.Running? then exit == None && e.m == Machine(a', x', pc', mem[..]) else exit == Some(e.value);
  }

  /** The main loop, cut off after `limit` iterations since a program with backward
      jumps may never stop; `None` means it was still running. */
  method FilterSlice(prog: seq<Insn>, ghost flags: Flags, packet: Packet, limit: nat) returns (r: Option<U32>)
    requires Accepts(prog, flags)
    ensures match Run(prog, packet, START, limit)
            case Running(_) => r == None
            case Halted(v, _) => r == Some(v)
            case Stuck => false
  {
    var a: U32, x: U32, pc: U32 := 0, 0, 0;
    var mem := new U32[MEMWORDS](_ => 0);
    assert mem[..] == START.mem;
    var steps, exit := 0, None;
    while steps < limit && exit == None
      invariant steps <= limit && mem.Length == MEMWORDS && fresh(mem)
      invariant exit == None ==> Good(prog, Machine(a, x, pc, mem[..]))
      invariant exit == None ==>
                  Run(prog, packet, START, limit) == Run(prog, packet, Machine(a, x, pc, mem[..]), limit - steps)
      invariant exit.Some? ==>
                  Run(prog, packet, START, limit).Halted? && Run(prog, packet, START, limit).value == exit.value
      decreases limit - steps
    {
      exit, a, x, pc := Turn(prog, flags, packet, limit - steps, a, x, pc, mem);
      steps := steps + 1;
    }
    r := exit;
  }

  /** Without backward jumps the loop needs no cut-off: it always returns. */
  method Filter(prog: seq<Insn>, packet: Packet) returns (r: U32)
    requires Accepts(prog, 0)
    ensures Run(prog, packet, START, |prog|).Halted? && r == Run(prog, packet, START, |prog|).value
  {
    ForwardProgramsHalt(prog, 0, packet, START, |prog|);
    var result := FilterSlice(prog, 0, packet, |prog|);
    r := result.value;
  }
}
