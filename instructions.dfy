/**
 * The instructions the generator emits for the abstract RISC-V-like machine.
 * Each constructor takes its operands in the order of the corresponding Java
 * instruction class's constructor, so `Addi(src1, imm, dest)`,
 * `Lw(dest, base, offset)`, `Sw(src1, base, offset)`, `Mv(src1, dest)` and
 * `ImovF(src1, dest)` read exactly like `new Addi("sp", "-4", "sp")` etc.
 * Operands are strings: a virtual register (`t3`, `f1`), a machine register
 * (`fp`, `sp`, `ra`, `x0`), an immediate or an address.
 */
module Instructions {
  import opened Wrappers
  import opened Numerals

  datatype Instr =
    | Li(dest: string, imm: string)
    | FImm(dest: string, imm: string)
    | La(dest: string, addr: string)
    | Addi(src1: string, imm: string, dest: string)
    | Add(src1: string, src2: string, dest: string)
    | Sub(src1: string, src2: string, dest: string)
    | Mul(src1: string, src2: string, dest: string)
    | Div(src1: string, src2: string, dest: string)
    | FAdd(src1: string, src2: string, dest: string)
    | FSub(src1: string, src2: string, dest: string)
    | FMul(src1: string, src2: string, dest: string)
    | FDiv(src1: string, src2: string, dest: string)
    | Neg(src1: string, dest: string)
    | FNeg(src1: string, dest: string)
    | Lw(dest: string, base: string, offset: string)
    | Flw(dest: string, base: string, offset: string)
    | Sw(src1: string, base: string, offset: string)
    | Fsw(src1: string, base: string, offset: string)
    | Mv(src1: string, dest: string)
    | ImovF(src1: string, dest: string)
    | FmovI(src1: string, dest: string)
    | Beq(src1: string, src2: string, target: string)
    | Bne(src1: string, src2: string, target: string)
    | Blt(src1: string, src2: string, target: string)
    | Ble(src1: string, src2: string, target: string)
    | Bgt(src1: string, src2: string, target: string)
    | Bge(src1: string, src2: string, target: string)
    | Flt(src1: string, src2: string, dest: string)
    | Fle(src1: string, src2: string, dest: string)
    | Feq(src1: string, src2: string, dest: string)
    | J(target: string)
    | Jr(target: string)
    | Label(name: string)
    | Ret
    | Halt
    | Blank
    | GetI(dest: string)
    | GetF(dest: string)
    | PutI(src1: string)
    | PutF(src1: string)
    | PutS(src1: string)
    | Malloc(src1: string, dest: string)
    | Free(src1: string)

  /** The opcode tag every instruction object carries in its `oc` field. */
  datatype OpCode =
    | LI | FIMMS | LA | ADDI | ADD | SUB | MUL | DIV | FADDS | FSUBS | FMULS | FDIVS
    | NEG | FNEGS | LW | FLW | SW | FSW | MV | IMOVF | FMOVI
    | BEQ | BNE | BLT | BLE | BGT | BGE | FLT | FLE | FEQ
    | J_ | JR | LABEL | RET | HALT | BLANK | GETI | GETF | PUTI | PUTF | PUTS | MALLOC | FREE

  function Oc(i: Instr): OpCode
  {
    match i
    case Li(_, _) => LI
    case FImm(_, _) => FIMMS
    case La(_, _) => LA
    case Addi(_, _, _) => ADDI
    case Add(_, _, _) => ADD
    case Sub(_, _, _) => SUB
    case Mul(_, _, _) => MUL
    case Div(_, _, _) => DIV
    case FAdd(_, _, _) => FADDS
    case FSub(_, _, _) => FSUBS
    case FMul(_, _, _) => FMULS
    case FDiv(_, _, _) => FDIVS
    case Neg(_, _) => NEG
    case FNeg(_, _) => FNEGS
    case Lw(_, _, _) => LW
    case Flw(_, _, _) => FLW
    case Sw(_, _, _) => SW
    case Fsw(_, _, _) => FSW
    case Mv(_, _) => MV
    case ImovF(_, _) => IMOVF
    case FmovI(_, _) => FMOVI
    case Beq(_, _, _) => BEQ
    case Bne(_, _, _) => BNE
    case Blt(_, _, _) => BLT
    case Ble(_, _, _) => BLE
    case Bgt(_, _, _) => BGT
    case Bge(_, _, _) => BGE
    case Flt(_, _, _) => FLT
    case Fle(_, _, _) => FLE
    case Feq(_, _, _) => FEQ
    case J(_) => J_
    case Jr(_) => JR
    case Label(_) => LABEL
    case Ret => RET
    case Halt => HALT
    case Blank => BLANK
    case GetI(_) => GETI
    case GetF(_) => GETF
    case PutI(_) => PUTI
    case PutF(_) => PUTF
    case PutS(_) => PUTS
    case Malloc(_, _) => MALLOC
    case Free(_) => FREE
  }

  /** The printed mnemonic of the two conversion opcodes. */
  function ConversionMnemonic(oc: OpCode): string
    requires oc == IMOVF || oc == FMOVI
  {
    if oc == IMOVF then "IMOVF.S" else "FMOVI.S"
  }

  /**
   * `ImovF.toString()` and `FmovI.toString()`: the opcode, a space, the
   * destination, a comma and a space, then the source.
   */
  function ConversionToString(i: Instr): (r: string)
    requires i.ImovF? || i.FmovI?
    ensures |r| == 10 + |i.dest| + |i.src1|
    ensures r[..8] == (if i.ImovF? then "IMOVF.S " else "FMOVI.S ")
    ensures r[8..8 + |i.dest|] == i.dest && r[8 + |i.dest|..10 + |i.dest|] == ", "
    ensures r[10 + |i.dest|..] == i.src1
  {
    ConversionMnemonic(Oc(i)) + " " + i.dest + ", " + i.src1
  }

  /** `getDest()`: the register an instruction writes, `None` (null) for the others. */
  function Dest(i: Instr): Option<string>
  {
    match i
    case Li(d, _) => Some(d)
    case FImm(d, _) => Some(d)
    case La(d, _) => Some(d)
    case Addi(_, _, d) => Some(d)
    case Add(_, _, d) => Some(d)
    case Sub(_, _, d) => Some(d)
    case Mul(_, _, d) => Some(d)
    case Div(_, _, d) => Some(d)
    case FAdd(_, _, d) => Some(d)
    case FSub(_, _, d) => Some(d)
    case FMul(_, _, d) => Some(d)
    case FDiv(_, _, d) => Some(d)
    case Neg(_, d) => Some(d)
    case FNeg(_, d) => Some(d)
    case Lw(d, _, _) => Some(d)
    case Flw(d, _, _) => Some(d)
    case Mv(_, d) => Some(d)
    case ImovF(_, d) => Some(d)
    case FmovI(_, d) => Some(d)
    case Flt(_, _, d) => Some(d)
    case Fle(_, _, d) => Some(d)
    case Feq(_, _, d) => Some(d)
    case GetI(d) => Some(d)
    case GetF(d) => Some(d)
    case Malloc(_, d) => Some(d)
    case _ => None
  }

  /** The conditional branches, the only instructions whose target label is back-patched. */
  predicate IsBranch(i: Instr)
  {
    i.Beq? || i.Bne? || i.Blt? || i.Ble? || i.Bgt? || i.Bge?
  }

  /**
   * Setting the public `label` field of an already-built instruction
   * (`condop.label = ...`). A branch gets the new target; any other
   * instruction carries no target operand and is returned unchanged.
   */
  function Relabel(i: Instr, l: string): (r: Instr)
    ensures IsBranch(i) ==> IsBranch(r) && r.target == l && r.src1 == i.src1 && r.src2 == i.src2 && Oc(r) == Oc(i)
    ensures !IsBranch(i) ==> r == i
  {
    match i
    case Beq(a, b, _) => Beq(a, b, l)
    case Bne(a, b, _) => Bne(a, b, l)
    case Blt(a, b, _) => Blt(a, b, l)
    case Ble(a, b, _) => Ble(a, b, l)
    case Bgt(a, b, _) => Bgt(a, b, l)
    case Bge(a, b, _) => Bge(a, b, l)
    case _ => i
  }

  /** The Java rendering of a possibly-null register name inside an instruction. */
  function Operand(o: Option<string>): string
  {
    match o
    case Some(s) => s
    case None => "null"
  }

  /** The number of instructions with opcode `oc` in `code`. */
  function CountOc(code: seq<Instr>, oc: OpCode): nat
  {
    if code == [] then 0 else CountOc(code[..|code| - 1], oc) + (if Oc(code[|code| - 1]) == oc then 1 else 0)
  }

  /**
   * The `addi sp` adjustment an instruction makes: the immediate of an
   * `addi sp, <imm>, sp`, zero for every other instruction. Other writes to
   * `sp`, such as the epilogue's `mv fp, sp`, are not adjustments and are
   * not counted.
   */
  function SpDelta(i: Instr): int
  {
    if i.Addi? && i.src1 == "sp" && i.dest == "sp" && ParseInt(i.imm).Some? then ParseInt(i.imm).value else 0
  }

  /** The net stack-pointer adjustment of a straight-line sequence. */
  function SpNet(code: seq<Instr>): int
  {
    if code == [] then 0 else SpNet(code[..|code| - 1]) + SpDelta(code[|code| - 1])
  }
}
