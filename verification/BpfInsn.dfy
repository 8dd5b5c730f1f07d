/** BPF instructions: the opcode fields, and the table of opcodes the
    interpreter dispatches on. */
module BpfInsn {
  import opened Options
  import opened BitOps

  type U16 = bv16

  datatype Insn = Insn(code: U16, jt: U8, jf: U8, k: U32)

  // Instruction classes.
  function CodeClass(code: U16): U16 { code & 0x07 }
  const LD: U16 := 0x00
  const LDX: U16 := 0x01
  const ST: U16 := 0x02
  const STX: U16 := 0x03
  const ALU: U16 := 0x04
  const JMP: U16 := 0x05
  const RET: U16 := 0x06
  const MISC: U16 := 0x07

  // Load widths.
  function CodeSize(code: U16): U16 { code & 0x18 }
  const W: U16 := 0x00
  const H: U16 := 0x08
  const B: U16 := 0x10
  predicate ValidCodeSize(size: U16) { size != 0x18 }

  // Addressing modes.
  function CodeMode(code: U16): U16 { code & 0xe0 }
  const IMM: U16 := 0x00
  const ABS: U16 := 0x20
  const IND: U16 := 0x40
  const MEM: U16 := 0x60
  const LEN: U16 := 0x80
  const MSH: U16 := 0xa0

  // ALU and jump operations.
  function CodeOp(code: U16): U16 { code & 0xf0 }
  const ADD: U16 := 0x00
  const SUB: U16 := 0x10
  const MUL: U16 := 0x20
  const DIV: U16 := 0x30
  const OR: U16 := 0x40
  const AND: U16 := 0x50
  const LSH: U16 := 0x60
  const RSH: U16 := 0x70
  const NEG: U16 := 0x80
  const MOD: U16 := 0x90
  const XOR: U16 := 0xa0

  const JA: U16 := 0x00
  const JEQ: U16 := 0x10
  const JGT: U16 := 0x20
  const JGE: U16 := 0x30
  const JSET: U16 := 0x40

  // Operand sources.
  function CodeSrc(code: U16): U16 { code & 0x08 }
  const K: U16 := 0x00
  const X: U16 := 0x08
  function CodeRval(code: U16): U16 { code & 0x18 }
  const A: U16 := 0x10

  function CodeMiscOp(code: U16): U16 { code & 0xf8 }
  const TAX: U16 := 0x00
  const TXA: U16 := 0x80

  /** Number of words addressable through MEM. */
  const MEMWORDS: nat := 16

  datatype Source = Konst | Index
  datatype AluOp = Add | Sub | Mul | Div | Mod | And | Or | Xor | Lsh | Rsh
  datatype Cond = Gt | Ge | Eq | Set

  /** What one arm of the interpreter's dispatch does. `width` is in bytes. */
  datatype Op =
    | ReturnK | ReturnA
    | LoadAbs(width: nat) | LoadInd(width: nat) | LoadMsh
    | LoadLen | LoadLenX | LoadImm | LoadImmX | LoadMem | LoadMemX
    | StoreA | StoreX
    | JumpAlways | Jump(cond: Cond, src: Source)
    | Alu(op: AluOp, src: Source) | Negate
    | CopyAX | CopyXA

  /** The dispatch table, arm by arm; `None` is the arm declared unreachable. */
  function Dispatch(code: U16): Option<Op> {
    if code == RET | K then Some(ReturnK)
    else if code == RET | A then Some(ReturnA)
    else if code == LD | W | ABS then Some(LoadAbs(4))
    else if code == LD | H | ABS then Some(LoadAbs(2))
    else if code == LD | B | ABS then Some(LoadAbs(1))
    else if code == LD | W | LEN then Some(LoadLen)
    else if code == LDX | W | LEN then Some(LoadLenX)
    else if code == LD | W | IND then Some(LoadInd(4))
    else if code == LD | H | IND then Some(LoadInd(2))
    else if code == LD | B | IND then Some(LoadInd(1))
    else if code == LDX | B | MSH then Some(LoadMsh)
    else if code == LD | IMM then Some(LoadImm)
    else if code == LDX | IMM then Some(LoadImmX)
    else if code == LD | MEM then Some(LoadMem)
    else if code == LDX | MEM then Some(LoadMemX)
    else if code == ST | MEM then Some(StoreA)
    else if code == STX | MEM then Some(StoreX)
    else if code == JMP | JA then Some(JumpAlways)
    else if code == JMP | JGT | K then Some(Jump(Gt, Konst))
    else if code == JMP | JGE | K then Some(Jump(Ge, Konst))
    else if code == JMP | JEQ | K then Some(Jump(Eq, Konst))
    else if code == JMP | JSET | K then Some(Jump(Set, Konst))
    else if code == JMP | JGT | X then Some(Jump(Gt, Index))
    else if code == JMP | JGE | X then Some(Jump(Ge, Index))
    else if code == JMP | JEQ | X then Some(Jump(Eq, Index))
    else if code == JMP | JSET | X then Some(Jump(Set, Index))
    else if code == ALU | ADD | X then Some(Alu(Add, Index))
    else if code == ALU | SUB | X then Some(Alu(Sub, Index))
    else if code == ALU | MUL | X then Some(Alu(Mul, Index))
    else if code == ALU | DIV | X then Some(Alu(Div, Index))
    else if code == ALU | MOD | X then Some(Alu(Mod, Index))
    else if code == ALU | AND | X then Some(Alu(And, Index))
    else if code == ALU | OR | X then Some(Alu(Or, Index))
    else if code == ALU | XOR | X then Some(Alu(Xor, Index))
    else if code == ALU | LSH | X then Some(Alu(Lsh, Index))
    else if code == ALU | RSH | X then Some(Alu(Rsh, Index))
    else if code == ALU | ADD | K then Some(Alu(Add, Konst))
    else if code == ALU | SUB | K then Some(Alu(Sub, Konst))
    else if code == ALU | MUL | K then Some(Alu(Mul, Konst))
    else if code == ALU | DIV | K then Some(Alu(Div, Konst))
    else if code == ALU | MOD | K then Some(Alu(Mod, Konst))
    else if code == ALU | AND | K then Some(Alu(And, Konst))
    else if code == ALU | OR | K then Some(Alu(Or, Konst))
    else if code == ALU | XOR | K then Some(Alu(Xor, Konst))
    else if code == ALU | LSH | K then Some(Alu(Lsh, Konst))
    else if code == ALU | RSH | K then Some(Alu(Rsh, Konst))
    else if code == ALU | NEG then Some(Negate)
    else if code == MISC | TAX then Some(CopyAX)
    else if code == MISC | TXA then Some(CopyXA)
    else None
  }
}
