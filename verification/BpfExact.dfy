/** What the validator rejects, in terms of what a step can do: the converse of `StepIsSafe`.
    Everything is stated from `Step`, over every packet and every machine. */
module BpfExact {
  import opened Options
  import opened BitOps
  import opened Bits
  import opened BpfInsn
  import opened BpfValidate
  import opened BpfSemantics

  /** A step from `i` that is defined, and stops or stays inside a program of `n`
      instructions, forward unless the flag allows otherwise. */
  predicate Stays(o: Outcome, i: nat, n: nat, flags: Flags) {
    match o
    case Running(m) => m.pc < n && (flags % 2 == 0 ==> m.pc > i)
    case Halted(_, _) => true
    case Stuck => false
  }

  predicate StandsAt(m: Machine, i: nat) {
    m.pc == i && |m.mem| == 16
  }

  /** From no machine can the instruction at `i` go wrong. */
  ghost predicate Harmless(prog: seq<Insn>, i: nat, flags: Flags) {
    forall packet: Packet, m: Machine :: StandsAt(m, i) ==> Stays(Step(prog, packet, m), i, |prog|, flags)
  }

  ghost predicate DividesByZero(prog: seq<Insn>, i: nat) {
    forall packet: Packet, m: Machine :: StandsAt(m, i) ==> Step(prog, packet, m) == Halted(0, DividedByZero)
  }

  ghost predicate Returns(prog: seq<Insn>, i: nat) {
    forall packet: Packet, m: Machine ::
      StandsAt(m, i) ==> Step(prog, packet, m).Halted? && Step(prog, packet, m).cause == Returned
  }

  /** Standing alone, the instruction is stuck whatever the machine, its memory included. */
  ghost predicate Meaningless(insn: Insn) {
    forall packet: Packet, m: Machine :: m.pc == 0 ==> Step([insn], packet, m) == Stuck
  }

  /** The instruction is stuck with 16 words of memory, and is not with some other number. */
  ghost predicate Overreaches(insn: Insn) {
    && (forall packet: Packet, m: Machine :: StandsAt(m, 0) ==> Step([insn], packet, m) == Stuck)
    && !Meaningless(insn)
  }

  /** A number can pass the conditional jump's test, and fail it: none is above 2^32 - 1,
      none is below 0, and none has a bit in common with 0. */
  predicate CanTake(insn: Insn) {
    !(insn.code == 0x25 && insn.k == 0xffff_ffff) && !(insn.code == 0x45 && insn.k == 0)
  }

  predicate CanRefuse(insn: Insn) {
    !(insn.code == 0x35 && insn.k == 0)
  }

  /** The jump leaves the program on a side that no number takes. */
  predicate DeadSideLeaves(insn: Insn, i: nat, n: nat) {
    (!CanTake(insn) && i + 1 + insn.jt >= n) || (!CanRefuse(insn) && i + 1 + insn.jf >= n)
  }

  predicate Jumps(code: U16) {
    code in {0x05, 0x15, 0x1d, 0x25, 0x2d, 0x35, 0x3d, 0x45, 0x4d}
  }

  function Zeros(n: nat): (mem: seq<U32>)
    ensures |mem| == n
  {
    seq(n, _ => 0)
  }

  // Which error.

  lemma InvalidIsMeaningless(insn: Insn, i: nat, n: nat, flags: Flags)
    ensures InsnError(insn, i, n, flags) == Some(InvalidInstruction) <==> Meaningless(insn)
  {
    if Dispatch(insn.code).Some? {
      LoadWidths(insn.code);
      assert Step([insn], [], Machine(0, 0, 0, Zeros(insn.k + 1))) != Stuck;
    } else {
      assert forall packet: Packet, m: Machine :: m.pc == 0 ==> Step([insn], packet, m) == Stuck;
    }
  }

  lemma BadAccessOverreaches(insn: Insn, i: nat, n: nat, flags: Flags)
    ensures InsnError(insn, i, n, flags) == Some(BadMemoryAccess) <==> Overreaches(insn)
  {
    InvalidIsMeaningless(insn, i, n, flags);
    LoadWidths(insn.code);
    if InsnError(insn, i, n, flags) != Some(BadMemoryAccess) && !Meaningless(insn) {
      assert StandsAt(Machine(0, 0, 0, Zeros(16)), 0) && Step([insn], [], Machine(0, 0, 0, Zeros(16))) != Stuck;
    }
  }

  lemma ZeroDivisorDivides(prog: seq<Insn>, i: nat, flags: Flags)
    requires i < |prog| < 0x1_0000_0000
    ensures InsnError(prog[i], i, |prog|, flags) == Some(DivideByZero) <==> DividesByZero(prog, i)
  {
    if DividesByZero(prog, i) {
      assert StandsAt(Machine(0, 1, i, Zeros(16)), i);
      assert Step(prog, [], Machine(0, 1, i, Zeros(16))) == Halted(0, DividedByZero);
    }
  }

  // Machines that take and refuse a conditional jump.

  /** A machine whose test succeeds, unless no machine's does. */
  lemma Taker(insn: Insn, i: nat, cond: Cond, src: Source) returns (m: Machine)
    requires Dispatch(insn.code) == Some(Jump(cond, src)) && CanTake(insn)
    ensures StandsAt(m, i) && Taken(cond, m.a, Operand(src, m, insn))
  {
    match cond
    case Gt => m := Machine(0xffff_ffff, 0, i, Zeros(16));
    case Ge => m := Machine(insn.k, 0, i, Zeros(16));
    case Eq => m := Machine(if src == Konst then insn.k else 0, 0, i, Zeros(16));
    case Set =>
      m := Machine(if src == Konst then insn.k else 1, 1, i, Zeros(16));
      var j := NonzeroHasABit(m.a);
      AndIsNonzero(m.a, m.a);
  }

  lemma Refuser(insn: Insn, i: nat, cond: Cond, src: Source) returns (m: Machine)
    requires Dispatch(insn.code) == Some(Jump(cond, src)) && CanRefuse(insn)
    ensures StandsAt(m, i) && !Taken(cond, m.a, Operand(src, m, insn))
  {
    m := Machine(if cond == Eq && src == Konst && insn.k == 0 then 1 else 0, 1, i, Zeros(16));
  }

  /** A jump the validator rejects can be seen to leave the program, or to go backward
      without leave to; or it leaves on a side that is never taken. */
  lemma BadJumpLeaves(prog: seq<Insn>, i: nat, flags: Flags)
    requires i < |prog| < 0x1_0000_0000 && InsnError(prog[i], i, |prog|, flags) == Some(BadJumpTarget)
    ensures Jumps(prog[i].code) && (!Harmless(prog, i, flags) || DeadSideLeaves(prog[i], i, |prog|))
  {
    var insn := prog[i];
    match Dispatch(insn.code).value
    case JumpAlways =>
      var m := Machine(0, 0, i, Zeros(16));
      FlagIsLowBit(flags);
      assert !Stays(Step(prog, [], m), i, |prog|, flags);
    case Jump(cond, src) =>
      if !DeadSideLeaves(insn, i, |prog|) {
        LiveSideLeaves(prog, i, flags, cond, src);
      }
    case _ =>
  }

  lemma FlagIsLowBit(flags: Flags)
    ensures BackwardAllowed(flags) <==> flags % 2 != 0
  {
  }

  // What the validator lets pass.

  lemma FineIsHarmless(prog: seq<Insn>, i: nat, flags: Flags)
    requires i < |prog| < 0x1_0000_0000 && InsnError(prog[i], i, |prog|, flags) == None
    requires i + 1 < |prog| || Jumps(prog[i].code) || Dispatch(prog[i].code) in {Some(ReturnK), Some(ReturnA)}
    ensures Harmless(prog, i, flags)
  {
    LoadWidths(prog[i].code);
    FlagIsLowBit(flags);
  }

  /** A jump is rejected if and only if it can go wrong, or would if its test could come out
      the other way. */
  lemma BadJumpExactly(prog: seq<Insn>, i: nat, flags: Flags)
    requires i < |prog| < 0x1_0000_0000
    ensures InsnError(prog[i], i, |prog|, flags) == Some(BadJumpTarget) <==>
            Jumps(prog[i].code) && (!Harmless(prog, i, flags) || DeadSideLeaves(prog[i], i, |prog|))
  {
    if InsnError(prog[i], i, |prog|, flags) == Some(BadJumpTarget) {
      BadJumpLeaves(prog, i, flags);
    } else if Jumps(prog[i].code) {
      FineIsHarmless(prog, i, flags);
    }
  }

  lemma TestIsPossible(insn: Insn, cond: Cond, src: Source, m: Machine)
    requires Dispatch(insn.code) == Some(Jump(cond, src))
    ensures if Taken(cond, m.a, Operand(src, m, insn)) then CanTake(insn) else CanRefuse(insn)
  {
    if insn.code == 0x45 && insn.k == 0 {
      assert BitAnd(m.a, 0) == 0;
    }
  }

  lemma LiveSidesStay(prog: seq<Insn>, i: nat, flags: Flags, cond: Cond, src: Source)
    requires i < |prog| < 0x1_0000_0000 && Dispatch(prog[i].code) == Some(Jump(cond, src))
    requires CanTake(prog[i]) ==> i + 1 + prog[i].jt < |prog|
    requires CanRefuse(prog[i]) ==> i + 1 + prog[i].jf < |prog|
    ensures Harmless(prog, i, flags)
  {
    forall packet: Packet, m: Machine | StandsAt(m, i)
      ensures Stays(Step(prog, packet, m), i, |prog|, flags)
    {
      TestIsPossible(prog[i], cond, src, m);
    }
  }

  lemma LiveSideLeaves(prog: seq<Insn>, i: nat, flags: Flags, cond: Cond, src: Source)
    requires i < |prog| < 0x1_0000_0000 && Dispatch(prog[i].code) == Some(Jump(cond, src))
    requires (CanTake(prog[i]) && i + 1 + prog[i].jt >= |prog|) || (CanRefuse(prog[i]) && i + 1 + prog[i].jf >= |prog|)
    ensures !Harmless(prog, i, flags)
  {
    var m: Machine;
    if CanTake(prog[i]) && i + 1 + prog[i].jt >= |prog| {
      m := Taker(prog[i], i, cond, src);
    } else {
      m := Refuser(prog[i], i, cond, src);
    }
    assert !Stays(Step(prog, [], m), i, |prog|, flags);
  }

  /** The side conditions are exact: a conditional jump can go wrong if and only if a side
      that its test can take leaves the program. */
  lemma ConditionalGoesWrong(prog: seq<Insn>, i: nat, flags: Flags)
    requires i < |prog| < 0x1_0000_0000 && Jumps(prog[i].code) && prog[i].code != 0x05
    ensures !Harmless(prog, i, flags) <==>
            || (CanTake(prog[i]) && i + 1 + prog[i].jt >= |prog|)
            || (CanRefuse(prog[i]) && i + 1 + prog[i].jf >= |prog|)
  {
    var op := Dispatch(prog[i].code).value;
    if (CanTake(prog[i]) && i + 1 + prog[i].jt >= |prog|) || (CanRefuse(prog[i]) && i + 1 + prog[i].jf >= |prog|) {
      LiveSideLeaves(prog, i, flags, op.cond, op.src);
    } else {
      LiveSidesStay(prog, i, flags, op.cond, op.src);
    }
  }

  // Whole programs.

  /** Instruction `i` neither goes wrong nor always divides by zero, and no side of a jump
      leaves the program. */
  ghost predicate Sound(prog: seq<Insn>, i: nat, flags: Flags)
    requires i < |prog|
  {
    Harmless(prog, i, flags) && !DividesByZero(prog, i) && !DeadSideLeaves(prog[i], i, |prog|)
  }

  lemma SoundExactly(prog: seq<Insn>, i: nat, flags: Flags)
    requires i < |prog| < 0x1_0000_0000
    requires i + 1 < |prog| || Dispatch(prog[i].code) in {Some(ReturnK), Some(ReturnA)}
    ensures InsnError(prog[i], i, |prog|, flags) == None <==> Sound(prog, i, flags)
  {
    ZeroDivisorDivides(prog, i, flags);
    BadJumpExactly(prog, i, flags);
    if InsnError(prog[i], i, |prog|, flags) == None {
      FineIsHarmless(prog, i, flags);
    } else {
      assert StandsAt(Machine(0, 0, i, Zeros(16)), i);
      assert Step(prog, [], Machine(0, 0, i, Zeros(16))) == Stuck
             || InsnError(prog[i], i, |prog|, flags).value in {BadJumpTarget, DivideByZero};
    }
  }

  lemma ReturnsExactly(prog: seq<Insn>, i: nat)
    requires i < |prog| < 0x1_0000_0000
    ensures Returns(prog, i) <==> Dispatch(prog[i].code) in {Some(ReturnK), Some(ReturnA)}
  {
    if Returns(prog, i) {
      LoadWidths(prog[i].code);
      var m := Machine(0, 1, i, Zeros(16));
      assert StandsAt(m, i) && Step(prog, [], m).Halted?;
    }
  }

  /** Acceptance, from what steps can do: the program is not too large nor empty, every
      instruction is sound, and the last one returns. */
  lemma AcceptsExactly(prog: seq<Insn>, flags: Flags)
    ensures Accepts(prog, flags) <==>
            && 0 < |prog| < 0x1_0000_0000 && (forall i :: 0 <= i < |prog| ==> Sound(prog, i, flags))
            && Returns(prog, |prog| - 1)
  {
    if 0 < |prog| < 0x1_0000_0000 {
      ReturnsExactly(prog, |prog| - 1);
      if Returns(prog, |prog| - 1) {
        forall i | 0 <= i < |prog|
          ensures InsnError(prog[i], i, |prog|, flags) == None <==> Sound(prog, i, flags)
        {
          SoundExactly(prog, i, flags);
        }
      }
    }
  }

  /** With a packet long enough, whatever neither returns nor jumps goes on to the next
      place, or is stuck, or divides by zero. */
  lemma OthersGoOn(op: Op, insn: Insn, packet: Packet, m: Machine)
    requires !op.ReturnK? && !op.ReturnA? && !op.JumpAlways? && !op.Jump?
    requires m.x == 1 && |packet| == insn.k + 8
    ensures match Exec(op, insn, packet, m)
            case Running(m') => m'.pc == m.pc
            case Halted(_, _) => op in {Alu(Div, Konst), Alu(Mod, Konst)} && insn.k == 0
            case Stuck => true
  {
  }

  lemma LastIsNoJump(prog: seq<Insn>, flags: Flags)
    requires 0 < |prog| < 0x1_0000_0000 && flags % 2 == 0 && Sound(prog, |prog| - 1, flags)
    ensures !Jumps(prog[|prog| - 1].code)
  {
    BadJumpExactly(prog, |prog| - 1, flags);
    FlagIsLowBit(flags);
  }

  /** Without backward jumps the last condition follows: an instruction in the last place
      that cannot go wrong returns. */
  lemma LastMustReturn(prog: seq<Insn>, flags: Flags)
    requires 0 < |prog| < 0x1_0000_0000 && flags % 2 == 0 && Sound(prog, |prog| - 1, flags)
    ensures Returns(prog, |prog| - 1)
  {
    var i := |prog| - 1;
    var m, packet := Machine(0, 1, i, Zeros(16)), seq(prog[i].k + 8, _ => 0 as U8);
    ReturnsExactly(prog, i);
    LastIsNoJump(prog, flags);
    ZeroDivisorDivides(prog, i, flags);
    assert StandsAt(m, i) && Stays(Step(prog, packet, m), i, |prog|, flags);
    var op := Dispatch(prog[i].code).value;
    if op != ReturnK && op != ReturnA {
      OthersGoOn(op, prog[i], packet, m.(pc := i + 1));
    }
  }

  /** A jump past the end that is never taken, from a test against the largest number, is
      rejected although no instruction of the program can go wrong. */
  lemma DeadSideIsRejected()
    ensures
      var prog := [Insn(0x25, 1, 0, 0xffff_ffff), Insn(0x06, 0, 0, 0)];
      && Harmless(prog, 0, 0) && Harmless(prog, 1, 0) && Returns(prog, 1)
      && InsnError(prog[0], 0, 2, 0) == Some(BadJumpTarget) && !Accepts(prog, 0)
  {
    var prog := [Insn(0x25, 1, 0, 0xffff_ffff), Insn(0x06, 0, 0, 0)];
    ConditionalGoesWrong(prog, 0, 0);
    FineIsHarmless(prog, 1, 0);
    ReturnsExactly(prog, 1);
    BadJumpExactly(prog, 0, 0);
  }
}
