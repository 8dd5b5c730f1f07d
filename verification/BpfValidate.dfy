/** The validator. `InsnError` says what is wrong with one instruction in terms
    of the dispatch table; `CheckInsn` and `DoValidate` are the code, which looks
    at opcode fields instead. */
module BpfValidate {
  import opened Options
  import opened BitOps
  import opened BpfInsn

  datatype BpfError =
    ProgramTooLarge | MissingReturn | InvalidInstruction | BadJumpTarget | BadMemoryAccess | DivideByZero

  type Flags = bv64
  const VALIDATE_ALLOW_BACKWARD_JUMPS: Flags := 1

  predicate BackwardAllowed(flags: Flags) { flags & VALIDATE_ALLOW_BACKWARD_JUMPS != 0 }

  /** The target of an unconditional jump: 32-bit addition that may wrap. */
  function JumpTarget(from: nat, k: U32): nat { (from + k) % TWO32 }

  /** What is wrong with the instruction at `i` of `n`, if anything. */
  function InsnError(insn: Insn, i: nat, n: nat, flags: Flags): Option<BpfError>
  {
    match Dispatch(insn.code)
    case None => Some(InvalidInstruction)
    case Some(op) =>
      match op
      case LoadMem | LoadMemX | StoreA | StoreX =>
        if insn.k >= MEMWORDS then Some(BadMemoryAccess) else None
      case Alu(aluOp, Konst) =>
        if (aluOp == Div || aluOp == Mod) && insn.k == 0 then Some(DivideByZero) else None
      case JumpAlways =>
        if if BackwardAllowed(flags) then JumpTarget(i + 1, insn.k) < n else i + 1 + insn.k < n
        then None else Some(BadJumpTarget)
      case Jump(_, _) =>
        if i + 1 + insn.jt < n && i + 1 + insn.jf < n then None else Some(BadJumpTarget)
      case _ => None
  }

  predicate InsnsOk(prog: seq<Insn>, flags: Flags) {
    forall i {:trigger InsnError(prog[i], i, |prog|, flags)} ::
      0 <= i < |prog| ==> InsnError(prog[i], i, |prog|, flags) == None
  }

  predicate EndsInReturn(prog: seq<Insn>) {
    prog != [] && Dispatch(prog[|prog| - 1].code) in {Some(ReturnK), Some(ReturnA)}
  }

  /** The programs the validator is meant to accept. */
  predicate Accepts(prog: seq<Insn>, flags: Flags) {
    |prog| < TWO32 && InsnsOk(prog, flags) && EndsInReturn(prog)
  }

  /** Opcodes use the low byte only. */
  predicate LowByte(code: U16) { code & 0xff00 == 0 }

  // The code's per-instruction check, one method per arm of its outer match.
  // Each arm inspects opcode fields, and is proved to agree with the table.

  method CheckLoad(insn: Insn, i: U32, n: U32, flags: Flags) returns (error: Option<BpfError>)
    requires i < n && LowByte(insn.code) && CodeClass(insn.code) == LD
    ensures error == InsnError(insn, i, n, flags)
  {
    var mode, size := CodeMode(insn.code), CodeSize(insn.code);
    if mode == IMM || mode == LEN {
      if size != W { return Some(InvalidInstruction); }
    } else if mode == ABS || mode == IND {
      if !ValidCodeSize(size) { return Some(InvalidInstruction); }
    } else if mode == MEM {
      if size != W { return Some(InvalidInstruction); }
      if insn.k >= MEMWORDS { return Some(BadMemoryAccess); }
    } else {
      return Some(InvalidInstruction);
    }
    error := None;
  }

  method CheckLoadX(insn: Insn, i: U32, n: U32, flags: Flags) returns (error: Option<BpfError>)
    requires i < n && LowByte(insn.code) && CodeClass(insn.code) == LDX
    ensures error == InsnError(insn, i, n, flags)
  {
    var mode, size := CodeMode(insn.code), CodeSize(insn.code);
    if mode == IMM || mode == LEN {
      if size != W { return Some(InvalidInstruction); }
    } else if mode == MSH {
      if size != B { return Some(InvalidInstruction); }
    } else if mode == MEM {
      if size != W { return Some(InvalidInstruction); }
      if insn.k >= MEMWORDS { return Some(BadMemoryAccess); }
    } else {
      return Some(InvalidInstruction);
    }
    error := None;
  }

  method CheckStore(insn: Insn, i: U32, n: U32, flags: Flags) returns (error: Option<BpfError>)
    requires i < n && LowByte(insn.code) && CodeClass(insn.code) in {ST, STX}
    ensures error == InsnError(insn, i, n, flags)
  {
    if CodeMode(insn.code) != MEM || CodeSize(insn.code) != W { return Some(InvalidInstruction); }
    if insn.k >= MEMWORDS { return Some(BadMemoryAccess); }
    error := None;
  }

  method CheckAlu(insn: Insn, i: U32, n: U32, flags: Flags) returns (error: Option<BpfError>)
    requires i < n && LowByte(insn.code) && CodeClass(insn.code) == ALU
    ensures error == InsnError(insn, i, n, flags)
  {
    var op := CodeOp(insn.code);
    if op in {ADD, SUB, MUL, OR, AND, XOR, LSH, RSH} {
    } else if op == NEG {
      if CodeSrc(insn.code) != 0 { return Some(InvalidInstruction); }
    } else if op == DIV || op == MOD {
      if CodeSrc(insn.code) == K && insn.k == 0 { return Some(DivideByZero); }
    } else {
      return Some(InvalidInstruction);
    }
    error := None;
  }

  method CheckJump(insn: Insn, i: U32, n: U32, flags: Flags) returns (error: Option<BpfError>)
    requires i < n && LowByte(insn.code) && CodeClass(insn.code) == JMP
    ensures error == InsnError(insn, i, n, flags)
  {
    var from: U32 := i + 1;
    var room: U32 := n - from;
    var op := CodeOp(insn.code);
    if op == JA {
      if CodeSrc(insn.code) != 0 { return Some(InvalidInstruction); }
      if BackwardAllowed(flags) {
        if JumpTarget(from, insn.k) >= n { return Some(BadJumpTarget); }
      } else {
        if insn.k >= room { return Some(BadJumpTarget); }
      }
    } else if op == JEQ || op == JGT || op == JGE || op == JSET {
      if insn.jt >= room || insn.jf >= room { return Some(BadJumpTarget); }
    } else {
      return Some(InvalidInstruction);
    }
    error := None;
  }

  method CheckReturn(insn: Insn, i: U32, n: U32, flags: Flags) returns (error: Option<BpfError>)
    requires i < n && LowByte(insn.code) && CodeClass(insn.code) == RET
    ensures error == InsnError(insn, i, n, flags)
  {
    var rval := CodeRval(insn.code);
    if rval != A && rval != K { return Some(InvalidInstruction); }
    if insn.code & 0xe0 != 0 { return Some(InvalidInstruction); }
    error := None;
  }

  method CheckMisc(insn: Insn, i: U32, n: U32, flags: Flags) returns (error: Option<BpfError>)
    requires i < n && LowByte(insn.code) && CodeClass(insn.code) == MISC
    ensures error == InsnError(insn, i, n, flags)
  {
    var op := CodeMiscOp(insn.code);
    if op != TAX && op != TXA { return Some(InvalidInstruction); }
    error := None;
  }

  lemma HighByteIsInvalid(insn: Insn, i: nat, n: nat, flags: Flags)
    requires !LowByte(insn.code)
    ensures InsnError(insn, i, n, flags) == Some(InvalidInstruction)
  {
  }

  lemma ClassIsOneOfEight(code: U16)
    ensures CodeClass(code) in {LD, LDX, ST, STX, ALU, JMP, RET, MISC}
  {
  }

  /** A class of RET in the last place is a return, once the program is known good. */
  lemma ReturnClass(code: U16)
    requires Dispatch(code).Some?
    ensures CodeClass(code) == RET <==> Dispatch(code).value in {ReturnK, ReturnA}
  {
  }

  method CheckInsn(insn: Insn, i: U32, n: U32, flags: Flags) returns (error: Option<BpfError>)
    requires i < n
    ensures error == InsnError(insn, i, n, flags)
  {
    if insn.code & 0xff00 != 0 {
      HighByteIsInvalid(insn, i, n, flags);
      return Some(InvalidInstruction);
    }
    ClassIsOneOfEight(insn.code);
    var class_ := CodeClass(insn.code);
    if class_ == LD {
      error := CheckLoad(insn, i, n, flags);
    } else if class_ == LDX {
      error := CheckLoadX(insn, i, n, flags);
    } else if class_ == ST || class_ == STX {
      error := CheckStore(insn, i, n, flags);
    } else if class_ == ALU {
      error := CheckAlu(insn, i, n, flags);
    } else if class_ == JMP {
      error := CheckJump(insn, i, n, flags);
    } else if class_ == RET {
      error := CheckReturn(insn, i, n, flags);
    } else {
      error := CheckMisc(insn, i, n, flags);
    }
  }

  /** The error a rejected program must be given: the size check first, then the
      lowest-index bad instruction, and a missing return only when none is bad. */
  ghost predicate RightError(prog: seq<Insn>, flags: Flags, error: BpfError) {
    if |prog| >= TWO32 then error == ProgramTooLarge
    else if InsnsOk(prog, flags) then error == MissingReturn
    else exists i :: 0 <= i < |prog| && InsnError(prog[i], i, |prog|, flags) == Some(error)
                     && forall j :: 0 <= j < i ==> InsnError(prog[j], j, |prog|, flags) == None
  }

  method DoValidate(prog: seq<Insn>, flags: Flags) returns (error: Option<BpfError>)
    ensures error == None <==> Accepts(prog, flags)
    ensures error.Some? ==> RightError(prog, flags, error.value)
  {
    if |prog| >= TWO32 { return Some(ProgramTooLarge); }
    for i := 0 to |prog|
      invariant forall j :: 0 <= j < i ==> InsnError(prog[j], j, |prog|, flags) == None
    {
      error := CheckInsn(prog[i], i, |prog|, flags);
      if error.Some? { return; }
    }
    if |prog| == 0 { return Some(MissingReturn); }
    var last := prog[|prog| - 1];
    assert InsnError(last, |prog| - 1, |prog|, flags) == None;
    ReturnClass(last.code);
    if CodeClass(last.code) != RET { return Some(MissingReturn); }
    error := None;
  }

  /** Whatever is accepted without backward jumps is accepted with them. */
  lemma ForwardIsAcceptedBackward(prog: seq<Insn>, flags: Flags, flags': Flags)
    requires Accepts(prog, flags) && !BackwardAllowed(flags) && BackwardAllowed(flags')
    ensures Accepts(prog, flags')
  {
    forall i | 0 <= i < |prog|
      ensures InsnError(prog[i], i, |prog|, flags') == None
    {
      assert InsnError(prog[i], i, |prog|, flags) == None;
    }
  }

  /** The converse fails: a program that jumps to its own start. */
  lemma BackwardOnly()
    ensures
      var loop := [Insn(JMP | JA, 0, 0, TWO32 - 1), Insn(RET | K, 0, 0, 0)];
      Accepts(loop, VALIDATE_ALLOW_BACKWARD_JUMPS) && !Accepts(loop, 0)
  {
    var loop := [Insn(JMP | JA, 0, 0, TWO32 - 1), Insn(RET | K, 0, 0, 0)];
    assert InsnError(loop[0], 0, 2, 0) == Some(BadJumpTarget);
  }
}
