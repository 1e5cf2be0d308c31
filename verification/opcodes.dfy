/** The AT instruction set: opcode bytes, and the length of each instruction
    as the disassembler counts it (which is also how far a successful
    non-control instruction moves `pc`). */
module Opcodes {
  import opened Base

  /** CLR_DAT, INC_DAT, DEC_DAT, NOT_DAT: one data slot rewritten in place. */
  datatype UnaryOp = ClrDat | IncDat | DecDat | NotDat

  /** The two-address forms `@a1 op= $a2` (SET_DAT is the plain copy). */
  datatype BinaryOp =
    SetDat | AddDat | SubDat | MulDat | DivDat | BorDat | AndDat | XorDat | ModDat | ShlDat | ShrDat

  /** The branches on a signed comparison of two slots. */
  datatype CompareOp = BgtDat | BltDat | BgeDat | BleDat | BeqDat | BneDat

  datatype Op =
    | Nop
    | SetVal | Unary(u: UnaryOp) | Binary(b: BinaryOp)
    | SetInd | SetIdx | PshDat | PopDat | JmpSub | RetSub | IndDat | IdxDat
    | JmpAdr | BzrDat | BnzDat | Compare(c: CompareOp)
    | SlpDat | FizDat | StzDat | FinImd | StpImd | SlpImd | ErrAdr | SetPcs
    | ExtFun | ExtFunDat | ExtFunDat2 | ExtFunRet | ExtFunRetDat | ExtFunRetDat2
    | Unknown

  const NOP_BYTE: byte := 0x7f

  /** The instruction an opcode byte denotes; bytes of no instruction (0x00,
      0x19, 0x1c, everything from 0x80 up since the source reads the byte as
      `int8_t`, ...) are `Unknown`. */
  function OpOf(b: byte): Op {
    match b
    case 0x7f => Nop
    case 0x01 => SetVal
    case 0x02 => Binary(SetDat)
    case 0x03 => Unary(ClrDat)
    case 0x04 => Unary(IncDat)
    case 0x05 => Unary(DecDat)
    case 0x06 => Binary(AddDat)
    case 0x07 => Binary(SubDat)
    case 0x08 => Binary(MulDat)
    case 0x09 => Binary(DivDat)
    case 0x0a => Binary(BorDat)
    case 0x0b => Binary(AndDat)
    case 0x0c => Binary(XorDat)
    case 0x0d => Unary(NotDat)
    case 0x0e => SetInd
    case 0x0f => SetIdx
    case 0x10 => PshDat
    case 0x11 => PopDat
    case 0x12 => JmpSub
    case 0x13 => RetSub
    case 0x14 => IndDat
    case 0x15 => IdxDat
    case 0x16 => Binary(ModDat)
    case 0x17 => Binary(ShlDat)
    case 0x18 => Binary(ShrDat)
    case 0x1a => JmpAdr
    case 0x1b => BzrDat
    case 0x1e => BnzDat
    case 0x1f => Compare(BgtDat)
    case 0x20 => Compare(BltDat)
    case 0x21 => Compare(BgeDat)
    case 0x22 => Compare(BleDat)
    case 0x23 => Compare(BeqDat)
    case 0x24 => Compare(BneDat)
    case 0x25 => SlpDat
    case 0x26 => FizDat
    case 0x27 => StzDat
    case 0x28 => FinImd
    case 0x29 => StpImd
    case 0x2a => SlpImd
    case 0x2b => ErrAdr
    case 0x30 => SetPcs
    case 0x32 => ExtFun
    case 0x33 => ExtFunDat
    case 0x34 => ExtFunDat2
    case 0x35 => ExtFunRet
    case 0x36 => ExtFunRetDat
    case 0x37 => ExtFunRetDat2
    case _ => Unknown
  }

  /** The opcode byte of an instruction (the `op_code` enumeration). */
  function ByteOf(op: Op): byte
    requires op != Unknown
  {
    match op
    case Nop => 0x7f
    case SetVal => 0x01
    case Unary(u) => UnaryByte(u)
    case Binary(b) => BinaryByte(b)
    case SetInd => 0x0e
    case SetIdx => 0x0f
    case PshDat => 0x10
    case PopDat => 0x11
    case JmpSub => 0x12
    case RetSub => 0x13
    case IndDat => 0x14
    case IdxDat => 0x15
    case JmpAdr => 0x1a
    case BzrDat => 0x1b
    case BnzDat => 0x1e
    case Compare(c) => CompareByte(c)
    case SlpDat => 0x25
    case FizDat => 0x26
    case StzDat => 0x27
    case FinImd => 0x28
    case StpImd => 0x29
    case SlpImd => 0x2a
    case ErrAdr => 0x2b
    case SetPcs => 0x30
    case ExtFun => 0x32
    case ExtFunDat => 0x33
    case ExtFunDat2 => 0x34
    case ExtFunRet => 0x35
    case ExtFunRetDat => 0x36
    case ExtFunRetDat2 => 0x37
  }

  function UnaryByte(u: UnaryOp): byte {
    match u
    case ClrDat => 0x03
    case IncDat => 0x04
    case DecDat => 0x05
    case NotDat => 0x0d
  }

  function BinaryByte(b: BinaryOp): byte {
    match b
    case SetDat => 0x02
    case AddDat => 0x06
    case SubDat => 0x07
    case MulDat => 0x08
    case DivDat => 0x09
    case BorDat => 0x0a
    case AndDat => 0x0b
    case XorDat => 0x0c
    case ModDat => 0x16
    case ShlDat => 0x17
    case ShrDat => 0x18
  }

  function CompareByte(c: CompareOp): byte {
    match c
    case BgtDat => 0x1f
    case BltDat => 0x20
    case BgeDat => 0x21
    case BleDat => 0x22
    case BeqDat => 0x23
    case BneDat => 0x24
  }

  /** Decoding an instruction's own opcode byte gives the instruction back. */
  lemma OpOfByteOf(op: Op)
    requires op != Unknown
    ensures OpOf(ByteOf(op)) == op
  {
    match op
    case Nop => assert OpOf(ByteOf(Nop)) == Nop;
    case SetVal => assert OpOf(ByteOf(SetVal)) == SetVal;
    case Unary(u) =>
      match u {
      case ClrDat => assert OpOf(ByteOf(Unary(ClrDat))) == Unary(ClrDat);
      case IncDat => assert OpOf(ByteOf(Unary(IncDat))) == Unary(IncDat);
      case DecDat => assert OpOf(ByteOf(Unary(DecDat))) == Unary(DecDat);
      case NotDat => assert OpOf(ByteOf(Unary(NotDat))) == Unary(NotDat);
      }
    case Binary(b) =>
      match b {
      case SetDat => assert OpOf(ByteOf(Binary(SetDat))) == Binary(SetDat);
      case AddDat => assert OpOf(ByteOf(Binary(AddDat))) == Binary(AddDat);
      case SubDat => assert OpOf(ByteOf(Binary(SubDat))) == Binary(SubDat);
      case MulDat => assert OpOf(ByteOf(Binary(MulDat))) == Binary(MulDat);
      case DivDat => assert OpOf(ByteOf(Binary(DivDat))) == Binary(DivDat);
      case BorDat => assert OpOf(ByteOf(Binary(BorDat))) == Binary(BorDat);
      case AndDat => assert OpOf(ByteOf(Binary(AndDat))) == Binary(AndDat);
      case XorDat => assert OpOf(ByteOf(Binary(XorDat))) == Binary(XorDat);
      case ModDat => assert OpOf(ByteOf(Binary(ModDat))) == Binary(ModDat);
      case ShlDat => assert OpOf(ByteOf(Binary(ShlDat))) == Binary(ShlDat);
      case ShrDat => assert OpOf(ByteOf(Binary(ShrDat))) == Binary(ShrDat);
      }
    case SetInd => assert OpOf(ByteOf(SetInd)) == SetInd;
    case SetIdx => assert OpOf(ByteOf(SetIdx)) == SetIdx;
    case PshDat => assert OpOf(ByteOf(PshDat)) == PshDat;
    case PopDat => assert OpOf(ByteOf(PopDat)) == PopDat;
    case JmpSub => assert OpOf(ByteOf(JmpSub)) == JmpSub;
    case RetSub => assert OpOf(ByteOf(RetSub)) == RetSub;
    case IndDat => assert OpOf(ByteOf(IndDat)) == IndDat;
    case IdxDat => assert OpOf(ByteOf(IdxDat)) == IdxDat;
    case JmpAdr => assert OpOf(ByteOf(JmpAdr)) == JmpAdr;
    case BzrDat => assert OpOf(ByteOf(BzrDat)) == BzrDat;
    case BnzDat => assert OpOf(ByteOf(BnzDat)) == BnzDat;
    case Compare(c) =>
      match c {
      case BgtDat => assert OpOf(ByteOf(Compare(BgtDat))) == Compare(BgtDat);
      case BltDat => assert OpOf(ByteOf(Compare(BltDat))) == Compare(BltDat);
      case BgeDat => assert OpOf(ByteOf(Compare(BgeDat))) == Compare(BgeDat);
      case BleDat => assert OpOf(ByteOf(Compare(BleDat))) == Compare(BleDat);
      case BeqDat => assert OpOf(ByteOf(Compare(BeqDat))) == Compare(BeqDat);
      case BneDat => assert OpOf(ByteOf(Compare(BneDat))) == Compare(BneDat);
      }
    case SlpDat => assert OpOf(ByteOf(SlpDat)) == SlpDat;
    case FizDat => assert OpOf(ByteOf(FizDat)) == FizDat;
    case StzDat => assert OpOf(ByteOf(StzDat)) == StzDat;
    case FinImd => assert OpOf(ByteOf(FinImd)) == FinImd;
    case StpImd => assert OpOf(ByteOf(StpImd)) == StpImd;
    case SlpImd => assert OpOf(ByteOf(SlpImd)) == SlpImd;
    case ErrAdr => assert OpOf(ByteOf(ErrAdr)) == ErrAdr;
    case SetPcs => assert OpOf(ByteOf(SetPcs)) == SetPcs;
    case ExtFun => assert OpOf(ByteOf(ExtFun)) == ExtFun;
    case ExtFunDat => assert OpOf(ByteOf(ExtFunDat)) == ExtFunDat;
    case ExtFunDat2 => assert OpOf(ByteOf(ExtFunDat2)) == ExtFunDat2;
    case ExtFunRet => assert OpOf(ByteOf(ExtFunRet)) == ExtFunRet;
    case ExtFunRetDat => assert OpOf(ByteOf(ExtFunRetDat)) == ExtFunRetDat;
    case ExtFunRetDat2 => assert OpOf(ByteOf(ExtFunRetDat2)) == ExtFunRetDat2;
  }

  /** Every byte that denotes an instruction is that instruction's opcode. */
  lemma ByteOfOpOf(b: byte)
    requires OpOf(b) != Unknown
    ensures ByteOf(OpOf(b)) == b
  {
  }

  /** Bytes an instruction of this kind occupies: the opcode plus its operand
      fields (2-byte function numbers, 4-byte addresses, 1-byte displacements,
      an 8-byte immediate). A NOP's length is the length of its run and is
      given by `NopRun`; `Unknown` has none. */
  function Length(op: Op): nat {
    if op.SetVal? || op.SetIdx? || op.IdxDat? then 13
    else if op.Binary? || op.SetInd? || op.IndDat? then 9
    else if op.Unary? || op.PshDat? || op.PopDat? || op.JmpSub? || op.JmpAdr? || op.SlpDat? || op.FizDat?
      || op.StzDat? || op.ErrAdr? then 5
    else if op.BzrDat? || op.BnzDat? then 6
    else if op.Compare? then 10
    else if op.RetSub? || op.FinImd? || op.StpImd? || op.SlpImd? || op.SetPcs? then 1
    else if op.ExtFun? then 3
    else if op.ExtFunDat? || op.ExtFunRet? then 7
    else if op.ExtFunDat2? || op.ExtFunRetDat? then 11
    else if op.ExtFunRetDat2? then 15
    else 0
  }

  /** The number of consecutive NOP bytes starting at `pc`. */
  function NopRun(code: seq<byte>, pc: int): (n: nat)
    requires 0 <= pc < |code| && code[pc] == NOP_BYTE
    ensures 1 <= n <= |code| - pc
    ensures forall i :: pc <= i < pc + n ==> code[i] == NOP_BYTE
    ensures pc + n == |code| || code[pc + n] != NOP_BYTE
    decreases |code| - pc
  {
    if pc + 1 >= |code| || code[pc + 1] != NOP_BYTE then 1 else 1 + NopRun(code, pc + 1)
  }

  /** What `process_op` returns in disassembly mode: the instruction's length
      regardless of whether its operands would validate, the NOP run for a
      NOP, and 0 for an unknown opcode or a position outside the code. */
  function InsnLength(code: seq<byte>, pc: int): (n: nat)
    requires 0 <= pc
    ensures pc >= |code| ==> n == 0
    ensures pc < |code| && OpOf(code[pc]) != Nop ==> n == Length(OpOf(code[pc]))
    ensures pc < |code| && OpOf(code[pc]) == Nop ==> n == NopRun(code, pc)
  {
    if pc >= |code| then 0
    else if OpOf(code[pc]) == Nop then NopRun(code, pc)
    else Length(OpOf(code[pc]))
  }

  /** A position holds an instruction the scanner steps over, exactly when it
      is inside the code and its opcode is known. */
  lemma InsnLengthPositive(code: seq<byte>, pc: int)
    requires 0 <= pc
    ensures InsnLength(code, pc) > 0 <==> pc < |code| && OpOf(code[pc]) != Unknown
  {
  }
}
