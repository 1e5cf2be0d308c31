/** One step of the interpreter (`process_op` in execution mode). `Execute`
    carries out the instruction at `pc` and yields its result code: the
    instruction's length or 0 on success, -1 for an overflow (operand out of
    bounds, stack full or empty, computed address invalid), -2 for an invalid
    instruction or jump target (also a zero divisor), -3 for an error-handler
    address outside the jump table. `Step` then applies the error handler and
    the step counter.

    Each instruction family has a function guaranteeing `Sound` and an
    `...Effect` lemma giving the exact machine it leaves once its operands
    have decoded. */
module Exec {
  import opened Base
  import opened Layout
  import opened Decode
  import opened Host
  import opened Opcodes
  import opened Machine
  import opened Outcome

  function Moved(vm: Vm, n: int): Vm {
    vm.(st := vm.st.(pc := vm.st.pc + n))
  }

  function JumpedTo(vm: Vm, target: int): Vm {
    vm.(st := vm.st.(pc := target))
  }

  /** `vm` moved past an `n`-byte instruction with memory `mem`. */
  function Wrote(vm: Vm, n: int, mem: seq<i64>): Vm {
    Vm(vm.st.(pc := vm.st.pc + n), mem, vm.host)
  }

  /** `op` is an ordinary instruction of `n` bytes: it continues just past
      itself. */
  predicate Advances(op: Op, n: nat) {
    Length(op) == n && !Transfers(op) && op != Nop && op != Unknown
  }

  /** C++ leaves `/` and `%` undefined for a zero divisor and for
      INT64_MIN by -1, and a shift undefined for a count outside 0..63. */
  predicate BinaryDefined(b: BinaryOp, x: int, y: int) {
    && (b.DivDat? || b.ModDat? ==> y != 0 && !(x == I64_MIN && y == -1))
    && (b.ShlDat? || b.ShrDat? ==> 0 <= y < 64)
  }

  /** A step is modelled only when the instruction at `pc` avoids the
      undefined operations: DIV_DAT of INT64_MIN by -1 (a zero divisor is
      the defined -2), MOD_DAT, SHL_DAT and SHR_DAT outside
      `BinaryDefined`, and function 3 of `func2` on those same division
      operands. */
  predicate Defined(cfg: Config, code: seq<byte>, vm: Vm, op: Op)
    requires Ready(cfg, code, vm)
  {
    var pc, ds, m := vm.st.pc, cfg.DataSize(), vm.mem;
    match op
    case Binary(b) =>
      (match GetAddrs(code, ds, pc)
       case None => true
       case Some((a1, a2)) =>
         ValidDataAddrIsDataSlot(cfg, a1); ValidDataAddrIsDataSlot(cfg, a2);
         var x, y := m[a1], m[a2];
         (b == DivDat && y == 0) || BinaryDefined(b, x, y))
    case ExtFunDat2 =>
      (match GetFunAddrs(code, ds, pc)
       case None => true
       case Some((fun, a1, a2)) =>
         ValidDataAddrIsDataSlot(cfg, a1); ValidDataAddrIsDataSlot(cfg, a2);
         Func2Defined(fun, m[a1], m[a2]))
    case ExtFunRetDat2 =>
      (match (GetFunAddrs(code, ds, pc), ThirdAddr(code, ds, pc, 10))
       case (Some((fun, _, a2)), Some(a3)) =>
         ValidDataAddrIsDataSlot(cfg, a2); ValidDataAddrIsDataSlot(cfg, a3);
         Func2Defined(fun, m[a2], m[a3])
       case _ => true)
    case _ => true
  }

  /** A fault: the result code `rc` and the machine as it was. */
  function Fault(cfg: Config, code: seq<byte>, vm: Vm, op: Op, rc: int): (r: Out)
    requires Ready(cfg, code, vm) && IsError(rc)
    ensures r == Out(rc, vm) && Sound(cfg, code, vm, op, r)
  {
    Out(rc, vm)
  }

  /** A completed `n`-byte instruction that continues just past itself with
      the given user-stack depth, restart address and memory. */
  function Next(cfg: Config, code: seq<byte>, vm: Vm, op: Op, n: nat, us: int, pcs: int, mem: seq<i64>): (r: Out)
    requires Ready(cfg, code, vm) && Advances(op, n)
    requires vm.st.pc + n <= |code| && 0 <= us <= cfg.UserSlots() && 0 <= pcs && |mem| == |vm.mem|
    ensures Sound(cfg, code, vm, op, r)
    ensures r == Out(n, Vm(vm.st.(pc := vm.st.pc + n, us := us, pcs := pcs), mem, vm.host))
  {
    Out(n, Vm(vm.st.(pc := vm.st.pc + n, us := us, pcs := pcs), mem, vm.host))
  }

  // ------------------------------------------------------------ data ops

  lemma SetValFacts()
    ensures Advances(SetVal, 13)
  {
  }

  /** SET_VAL: store the 64-bit immediate into a data slot. */
  function ExecSetVal(cfg: Config, code: seq<byte>, vm: Vm): (r: Out)
    requires Ready(cfg, code, vm)
    ensures Sound(cfg, code, vm, SetVal, r)
    ensures r.rc in {13, OVERFLOW}
    ensures r.rc == OVERFLOW <==> GetAddrVal(code, cfg.DataSize(), vm.st.pc).None?
    ensures r.rc == OVERFLOW ==> r.vm == vm
  {
    match GetAddrVal(code, cfg.DataSize(), vm.st.pc)
    case None => Fault(cfg, code, vm, SetVal, OVERFLOW)
    case Some((a, v)) =>
      ValidDataAddrIsDataSlot(cfg, a); SetValFacts();
      Next(cfg, code, vm, SetVal, 13, vm.st.us, vm.st.pcs, vm.mem[a := v])
  }

  /** With slot `a` and immediate `v` decoded, SET_VAL writes `v` into `a`. */
  lemma SetValEffect(cfg: Config, code: seq<byte>, vm: Vm, a: int, v: i64)
    requires Ready(cfg, code, vm) && GetAddrVal(code, cfg.DataSize(), vm.st.pc) == Some((a, v))
    ensures 0 <= a < cfg.DataSlots()
    ensures ExecSetVal(cfg, code, vm) == Out(13, Wrote(vm, 13, vm.mem[a := v]))
  {
    ValidDataAddrIsDataSlot(cfg, a);
  }

  lemma UnaryFacts(u: UnaryOp)
    ensures Advances(Unary(u), 5)
  {
  }

  /** The value CLR_DAT, INC_DAT, DEC_DAT and NOT_DAT leave in their slot:
      increment and decrement wrap around like the int64 arithmetic, NOT is
      the bitwise complement `-x - 1`. */
  function UnaryValue(u: UnaryOp, x: i64): i64 {
    match u
    case ClrDat => 0
    case IncDat => Wrap64(x as int + 1)
    case DecDat => Wrap64(x as int - 1)
    case NotDat => -(x as int) - 1
  }

  /** CLR_DAT, INC_DAT, DEC_DAT, NOT_DAT: rewrite one data slot in place. */
  function ExecUnary(cfg: Config, code: seq<byte>, vm: Vm, u: UnaryOp): (r: Out)
    requires Ready(cfg, code, vm)
    ensures Sound(cfg, code, vm, Unary(u), r)
    ensures r.rc in {5, OVERFLOW}
    ensures r.rc == OVERFLOW <==> GetAddr(code, cfg.DataSize(), vm.st.pc, false).None?
    ensures r.rc == OVERFLOW ==> r.vm == vm
  {
    match GetAddr(code, cfg.DataSize(), vm.st.pc, false)
    case None => Fault(cfg, code, vm, Unary(u), OVERFLOW)
    case Some(a) =>
      ValidDataAddrIsDataSlot(cfg, a); UnaryFacts(u);
      Next(cfg, code, vm, Unary(u), 5, vm.st.us, vm.st.pcs, vm.mem[a := UnaryValue(u, vm.mem[a])])
  }

  /** With slot `a` decoded, a unary instruction rewrites exactly that slot. */
  lemma UnaryEffect(cfg: Config, code: seq<byte>, vm: Vm, u: UnaryOp, a: int)
    requires Ready(cfg, code, vm) && GetAddr(code, cfg.DataSize(), vm.st.pc, false) == Some(a)
    ensures 0 <= a < cfg.DataSlots()
    ensures ExecUnary(cfg, code, vm, u) == Out(5, Wrote(vm, 5, vm.mem[a := UnaryValue(u, vm.mem[a])]))
  {
    ValidDataAddrIsDataSlot(cfg, a);
  }

  lemma BinaryFacts(b: BinaryOp)
    ensures Advances(Binary(b), 9)
  {
  }

  /** The value `@a1 op= $a2` leaves in the first slot (SET_DAT copies).
      `+`, `-` and `*` wrap around; `/` and `%` truncate toward zero like
      C++; shifts are by the second operand. */
  function BinaryValue(b: BinaryOp, x: i64, y: i64): i64
    requires BinaryDefined(b, x, y) && (b == DivDat ==> y != 0)
  {
    match b
    case SetDat => y
    case AddDat => Wrap64(x as int + y)
    case SubDat => Wrap64(x as int - y)
    case MulDat => Wrap64(x as int * y)
    case DivDat => TruncDivInRange(x, y); TruncDiv(x, y)
    case BorDat => Bitwise64(Or, x, y)
    case AndDat => Bitwise64(And, x, y)
    case XorDat => Bitwise64(Xor, x, y)
    case ModDat => TruncModInRange(x, y); TruncMod(x, y)
    case ShlDat => Shl64(x, y)
    case ShrDat => Shr64(x, y)
  }

  /** The two-address forms `@a1 op= $a2`. A zero divisor for DIV_DAT is -2
      (MOD_DAT by zero is left undefined, as in C++). */
  function ExecBinary(cfg: Config, code: seq<byte>, vm: Vm, b: BinaryOp): (r: Out)
    requires Ready(cfg, code, vm) && Defined(cfg, code, vm, Binary(b))
    ensures Sound(cfg, code, vm, Binary(b), r)
    ensures r.rc in {9, OVERFLOW, INVALID_OP}
    ensures r.rc == OVERFLOW <==> GetAddrs(code, cfg.DataSize(), vm.st.pc).None?
    ensures r.rc < 0 ==> r.vm == vm
  {
    var m := vm.mem;
    match GetAddrs(code, cfg.DataSize(), vm.st.pc)
    case None => Fault(cfg, code, vm, Binary(b), OVERFLOW)
    case Some((a1, a2)) =>
      ValidDataAddrIsDataSlot(cfg, a1); ValidDataAddrIsDataSlot(cfg, a2); BinaryFacts(b);
      if b == DivDat && m[a2] == 0 then Fault(cfg, code, vm, Binary(b), INVALID_OP)
      else Next(cfg, code, vm, Binary(b), 9, vm.st.us, vm.st.pcs, m[a1 := BinaryValue(b, m[a1], m[a2])])
  }

  /** With both addresses decoded, a binary instruction either rejects a zero
      divisor (DIV_DAT only) or writes `@a1 op $a2` into slot `a1`. */
  lemma BinaryEffect(cfg: Config, code: seq<byte>, vm: Vm, b: BinaryOp, a1: int, a2: int)
    requires Ready(cfg, code, vm) && Defined(cfg, code, vm, Binary(b))
    requires GetAddrs(code, cfg.DataSize(), vm.st.pc) == Some((a1, a2))
    ensures 0 <= a1 < cfg.DataSlots() && 0 <= a2 < cfg.DataSlots()
    ensures var r := ExecBinary(cfg, code, vm, b);
      if b == DivDat && vm.mem[a2] == 0 then r == Out(INVALID_OP, vm)
      else (BinaryDefined(b, vm.mem[a1], vm.mem[a2]) &&
        r == Out(9, Wrote(vm, 9, vm.mem[a1 := BinaryValue(b, vm.mem[a1], vm.mem[a2])])))
  {
    ValidDataAddrIsDataSlot(cfg, a1); ValidDataAddrIsDataSlot(cfg, a2);
  }

  // ------------------------------------------------------- indirect ops

  lemma IndFacts(op: Op)
    requires op.SetInd? || op.IndDat?
    ensures Advances(op, 9)
  {
  }

  /** The slot an indirect instruction reads its address from: `$a2` for
      SET_IND, `$a1` for IND_DAT. */
  function IndPointer(op: Op, m: seq<i64>, a1: int, a2: int): i64
    requires 0 <= a1 < |m| && 0 <= a2 < |m|
  {
    if op == SetInd then m[a2] else m[a1]
  }

  /** `@a1 = $($a2)` (SET_IND) and `@($a1) = $a2` (IND_DAT): the slot read
      from memory must be a valid data address (-1 otherwise). */
  function ExecInd(cfg: Config, code: seq<byte>, vm: Vm, op: Op): (r: Out)
    requires Ready(cfg, code, vm) && (op.SetInd? || op.IndDat?)
    ensures Sound(cfg, code, vm, op, r)
    ensures r.rc in {9, OVERFLOW}
    ensures r.rc == OVERFLOW ==> r.vm == vm
    ensures GetAddrs(code, cfg.DataSize(), vm.st.pc).None? ==> r.rc == OVERFLOW
  {
    var ds, m := cfg.DataSize(), vm.mem;
    match GetAddrs(code, ds, vm.st.pc)
    case None => Fault(cfg, code, vm, op, OVERFLOW)
    case Some((a1, a2)) =>
      ValidDataAddrIsDataSlot(cfg, a1); ValidDataAddrIsDataSlot(cfg, a2);
      var p := IndPointer(op, m, a1, a2);
      if !ValidDataAddr(p, ds) then Fault(cfg, code, vm, op, OVERFLOW)
      else
        ValidDataAddrIsDataSlot(cfg, p); IndFacts(op);
        Next(cfg, code, vm, op, 9, vm.st.us, vm.st.pcs, if op == SetInd then m[a1 := m[p]] else m[p := m[a2]])
  }

  /** With both addresses decoded, an indirect instruction overflows exactly
      when the pointer is not a valid data address, and otherwise copies
      slot `$a2` into `a1` (SET_IND) or slot `a2` into `$a1` (IND_DAT). */
  lemma IndEffect(cfg: Config, code: seq<byte>, vm: Vm, op: Op, a1: int, a2: int)
    requires Ready(cfg, code, vm) && (op.SetInd? || op.IndDat?)
    requires GetAddrs(code, cfg.DataSize(), vm.st.pc) == Some((a1, a2))
    ensures 0 <= a1 < cfg.DataSlots() && 0 <= a2 < cfg.DataSlots()
    ensures var p, r := IndPointer(op, vm.mem, a1, a2), ExecInd(cfg, code, vm, op);
      && (!ValidDataAddr(p, cfg.DataSize()) ==> r == Out(OVERFLOW, vm))
      && (ValidDataAddr(p, cfg.DataSize()) ==> 0 <= p < cfg.DataSlots())
      && (ValidDataAddr(p, cfg.DataSize()) && op == SetInd ==> r == Out(9, Wrote(vm, 9, vm.mem[a1 := vm.mem[p]])))
      && (ValidDataAddr(p, cfg.DataSize()) && op == IndDat ==> r == Out(9, Wrote(vm, 9, vm.mem[p := vm.mem[a2]])))
  {
    ValidDataAddrIsDataSlot(cfg, a1); ValidDataAddrIsDataSlot(cfg, a2);
    var p := IndPointer(op, vm.mem, a1, a2);
    if ValidDataAddr(p, cfg.DataSize()) {
      ValidDataAddrIsDataSlot(cfg, p);
    }
  }

  lemma IdxFacts(op: Op)
    requires op.SetIdx? || op.IdxDat?
    ensures Advances(op, 13)
  {
  }

  /** The computed address of SET_IDX (`$a2 + $a3`) and IDX_DAT
      (`$a1 + $a2`), wrapping like the int64 sum. */
  function IdxPointer(op: Op, m: seq<i64>, a1: int, a2: int, a3: int): i64
    requires 0 <= a1 < |m| && 0 <= a2 < |m| && 0 <= a3 < |m|
  {
    if op == SetIdx then Wrap64(m[a2] as int + m[a3]) else Wrap64(m[a1] as int + m[a2])
  }

  /** `@a1 = $($a2 + $a3)` (SET_IDX) and `@($a1 + $a2) = $a3` (IDX_DAT):
      the computed address must be a valid data address (-1 otherwise). */
  function ExecIdx(cfg: Config, code: seq<byte>, vm: Vm, op: Op): (r: Out)
    requires Ready(cfg, code, vm) && (op.SetIdx? || op.IdxDat?)
    ensures Sound(cfg, code, vm, op, r)
    ensures r.rc in {13, OVERFLOW}
    ensures r.rc == OVERFLOW ==> r.vm == vm
    ensures GetAddrs(code, cfg.DataSize(), vm.st.pc).None? ==> r.rc == OVERFLOW
  {
    var pc, ds, m := vm.st.pc, cfg.DataSize(), vm.mem;
    match GetAddrs(code, ds, pc)
    case None => Fault(cfg, code, vm, op, OVERFLOW)
    case Some((a1, a2)) =>
      match ThirdAddr(code, ds, pc, 8)
      case None => Fault(cfg, code, vm, op, OVERFLOW)
      case Some(a3) =>
        ValidDataAddrIsDataSlot(cfg, a1); ValidDataAddrIsDataSlot(cfg, a2); ValidDataAddrIsDataSlot(cfg, a3);
        var p := IdxPointer(op, m, a1, a2, a3);
        if !ValidDataAddr(p, ds) then Fault(cfg, code, vm, op, OVERFLOW)
        else
          ValidDataAddrIsDataSlot(cfg, p); IdxFacts(op);
          Next(cfg, code, vm, op, 13, vm.st.us, vm.st.pcs, if op == SetIdx then m[a1 := m[p]] else m[p := m[a3]])
  }

  /** With all three addresses decoded, an indexed instruction overflows
      exactly when the computed address is not a valid data address, and
      otherwise copies through it. A third field that does not decode is an
      overflow. */
  lemma IdxEffect(cfg: Config, code: seq<byte>, vm: Vm, op: Op, a1: int, a2: int)
    requires Ready(cfg, code, vm) && (op.SetIdx? || op.IdxDat?)
    requires GetAddrs(code, cfg.DataSize(), vm.st.pc) == Some((a1, a2))
    ensures ThirdAddr(code, cfg.DataSize(), vm.st.pc, 8).None? ==> ExecIdx(cfg, code, vm, op) == Out(OVERFLOW, vm)
    ensures ThirdAddr(code, cfg.DataSize(), vm.st.pc, 8).Some? ==>
      var a3 := ThirdAddr(code, cfg.DataSize(), vm.st.pc, 8).value;
      && 0 <= a1 < cfg.DataSlots() && 0 <= a2 < cfg.DataSlots() && 0 <= a3 < cfg.DataSlots()
      && var p, r := IdxPointer(op, vm.mem, a1, a2, a3), ExecIdx(cfg, code, vm, op);
      && (!ValidDataAddr(p, cfg.DataSize()) ==> r == Out(OVERFLOW, vm))
      && (ValidDataAddr(p, cfg.DataSize()) ==> 0 <= p < cfg.DataSlots())
      && (ValidDataAddr(p, cfg.DataSize()) && op == SetIdx ==> r == Out(13, Wrote(vm, 13, vm.mem[a1 := vm.mem[p]])))
      && (ValidDataAddr(p, cfg.DataSize()) && op == IdxDat ==> r == Out(13, Wrote(vm, 13, vm.mem[p := vm.mem[a3]])))
  {
    ValidDataAddrIsDataSlot(cfg, a1); ValidDataAddrIsDataSlot(cfg, a2);
    match ThirdAddr(code, cfg.DataSize(), vm.st.pc, 8)
    case None =>
    case Some(a3) =>
      ValidDataAddrIsDataSlot(cfg, a3);
      var p := IdxPointer(op, vm.mem, a1, a2, a3);
      if ValidDataAddr(p, cfg.DataSize()) {
        ValidDataAddrIsDataSlot(cfg, p);
      }
  }

  // ------------------------------------------------------------- stacks

  // Entry `k` of a stack (1 = bottom) lives at `UserSlot(k)` or `CallSlot(k)`.

  lemma StackFacts()
    ensures Advances(PshDat, 5) && Advances(PopDat, 5)
  {
  }

  /** PSH_DAT: push a data slot onto the user stack; -1 when it is full. */
  function ExecPush(cfg: Config, code: seq<byte>, vm: Vm): (r: Out)
    requires Ready(cfg, code, vm)
    ensures Sound(cfg, code, vm, PshDat, r)
    ensures r.rc in {5, OVERFLOW}
    ensures r.rc == OVERFLOW ==> r.vm == vm
    ensures r.rc == 5 <==> vm.st.us < cfg.UserSlots() && GetAddr(code, cfg.DataSize(), vm.st.pc, false).Some?
  {
    var st, m := vm.st, vm.mem;
    match GetAddr(code, cfg.DataSize(), st.pc, false)
    case None => Fault(cfg, code, vm, PshDat, OVERFLOW)
    case Some(a) =>
      if st.us == cfg.UserSlots() then Fault(cfg, code, vm, PshDat, OVERFLOW)
      else
        ValidDataAddrIsDataSlot(cfg, a); StackFacts();
        Next(cfg, code, vm, PshDat, 5, st.us + 1, st.pcs, m[UserSlot(cfg, st.us + 1) := m[a]])
  }

  /** A successful push copies slot `a` into the new top entry of the user
      stack and deepens it by one. */
  lemma PushEffect(cfg: Config, code: seq<byte>, vm: Vm, a: int)
    requires Ready(cfg, code, vm) && GetAddr(code, cfg.DataSize(), vm.st.pc, false) == Some(a)
    requires vm.st.us < cfg.UserSlots()
    ensures 0 <= a < cfg.DataSlots()
    ensures cfg.DataSlots() + cfg.CallSlots() <= UserSlot(cfg, vm.st.us + 1) < cfg.MemSlots()
    ensures ExecPush(cfg, code, vm) ==
      Out(5, Vm(vm.st.(pc := vm.st.pc + 5, us := vm.st.us + 1), vm.mem[UserSlot(cfg, vm.st.us + 1) := vm.mem[a]], vm.host))
  {
    ValidDataAddrIsDataSlot(cfg, a);
  }

  /** POP_DAT: pop the user stack into a data slot; -1 when it is empty. */
  function ExecPop(cfg: Config, code: seq<byte>, vm: Vm): (r: Out)
    requires Ready(cfg, code, vm)
    ensures Sound(cfg, code, vm, PopDat, r)
    ensures r.rc in {5, OVERFLOW}
    ensures r.rc == OVERFLOW ==> r.vm == vm
    ensures r.rc == 5 <==> vm.st.us > 0 && GetAddr(code, cfg.DataSize(), vm.st.pc, false).Some?
  {
    var st, m := vm.st, vm.mem;
    match GetAddr(code, cfg.DataSize(), st.pc, false)
    case None => Fault(cfg, code, vm, PopDat, OVERFLOW)
    case Some(a) =>
      if st.us == 0 then Fault(cfg, code, vm, PopDat, OVERFLOW)
      else
        ValidDataAddrIsDataSlot(cfg, a); StackFacts();
        Next(cfg, code, vm, PopDat, 5, st.us - 1, st.pcs, m[a := m[UserSlot(cfg, st.us)]])
  }

  /** A successful pop copies the top entry of the user stack into slot `a`
      and makes the stack one shorter. */
  lemma PopEffect(cfg: Config, code: seq<byte>, vm: Vm, a: int)
    requires Ready(cfg, code, vm) && GetAddr(code, cfg.DataSize(), vm.st.pc, false) == Some(a)
    requires vm.st.us > 0
    ensures 0 <= a < cfg.DataSlots()
    ensures cfg.DataSlots() + cfg.CallSlots() <= UserSlot(cfg, vm.st.us) < cfg.MemSlots()
    ensures ExecPop(cfg, code, vm) ==
      Out(5, Vm(vm.st.(pc := vm.st.pc + 5, us := vm.st.us - 1), vm.mem[a := vm.mem[UserSlot(cfg, vm.st.us)]], vm.host))
  {
    ValidDataAddrIsDataSlot(cfg, a);
  }

  /** JMP_SUB: push the address after the instruction onto the call stack
      and jump; -1 when the call stack is full, -2 when the target is not a
      jump-table entry. */
  function ExecCall(cfg: Config, code: seq<byte>, vm: Vm): (r: Out)
    requires Ready(cfg, code, vm)
    ensures Sound(cfg, code, vm, JmpSub, r)
    ensures r.rc in {5, OVERFLOW, INVALID_OP}
    ensures r.rc < 0 ==> r.vm == vm
    ensures vm.st.cs == cfg.CallSlots() ==> r.rc == OVERFLOW
    ensures var g := GetAddr(code, cfg.DataSize(), vm.st.pc, true);
      r.rc == 5 <==> vm.st.cs < cfg.CallSlots() && g.Some? && g.value in vm.st.jumps
  {
    var st, m := vm.st, vm.mem;
    match GetAddr(code, cfg.DataSize(), st.pc, true)
    case None => Fault(cfg, code, vm, JmpSub, OVERFLOW)
    case Some(a) =>
      if st.cs == cfg.CallSlots() then Fault(cfg, code, vm, JmpSub, OVERFLOW)
      else if a in st.jumps then
        Out(5, Vm(st.(pc := a, cs := st.cs + 1), m[CallSlot(cfg, st.cs + 1) := st.pc + 5], vm.host))
      else Fault(cfg, code, vm, JmpSub, INVALID_OP)
  }

  /** A successful call records the return address `pc + 5` as the new top
      of the call stack and moves to the target. */
  lemma CallEffect(cfg: Config, code: seq<byte>, vm: Vm, a: int)
    requires Ready(cfg, code, vm) && GetAddr(code, cfg.DataSize(), vm.st.pc, true) == Some(a)
    requires vm.st.cs < cfg.CallSlots() && a in vm.st.jumps
    ensures cfg.DataSlots() <= CallSlot(cfg, vm.st.cs + 1) < cfg.DataSlots() + cfg.CallSlots()
    ensures InI64(vm.st.pc + 5)
    ensures ExecCall(cfg, code, vm) ==
      Out(5, Vm(vm.st.(pc := a, cs := vm.st.cs + 1), vm.mem[CallSlot(cfg, vm.st.cs + 1) := vm.st.pc + 5], vm.host))
  {
  }

  /** RET_SUB: pop the return address off the call stack; -1 when it is
      empty, -2 (with the entry already dropped) when the address, read as
      `int32_t`, is not a jump-table entry. */
  function ExecRet(cfg: Config, code: seq<byte>, vm: Vm): (r: Out)
    requires Ready(cfg, code, vm)
    ensures Sound(cfg, code, vm, RetSub, r)
    ensures r.rc in {1, OVERFLOW, INVALID_OP} && r.vm.host == vm.host && r.vm.mem == vm.mem
    ensures r.rc == OVERFLOW <==> vm.st.cs == 0
    ensures r.rc == OVERFLOW ==> r.vm == vm
    ensures r.rc == 1 <==> vm.st.cs > 0 && Wrap32(vm.mem[CallSlot(cfg, vm.st.cs)]) in vm.st.jumps
    ensures r.rc == INVALID_OP ==> r.vm == vm.(st := vm.st.(cs := vm.st.cs - 1))
    ensures r.rc == 1 ==>
      r.vm.st == vm.st.(pc := Wrap32(vm.mem[CallSlot(cfg, vm.st.cs)]), cs := vm.st.cs - 1)
  {
    var st := vm.st;
    if st.cs == 0 then Fault(cfg, code, vm, RetSub, OVERFLOW)
    else
      var addr := Wrap32(vm.mem[CallSlot(cfg, st.cs)]);
      var popped := vm.(st := st.(cs := st.cs - 1));
      if addr in st.jumps then Out(1, JumpedTo(popped, addr)) else Out(INVALID_OP, popped)
  }

  // ----------------------------------------------------------- branches

  /** Whether a compare branch is taken (signed comparison). */
  predicate Taken(c: CompareOp, x: int, y: int) {
    match c
    case BgtDat => x > y
    case BltDat => x < y
    case BgeDat => x >= y
    case BleDat => x <= y
    case BeqDat => x == y
    case BneDat => x != y
  }

  /** A taken branch moves to `pc + off` only when that is a jump-table
      entry (-2 otherwise, nothing changed); an untaken one falls through
      past the `len` bytes of the instruction. */
  function Branch(vm: Vm, taken: bool, off: int, len: nat): (r: Out)
    ensures r.rc == INVALID_OP <==> taken && vm.st.pc + off !in vm.st.jumps
    ensures r.rc == INVALID_OP ==> r.vm == vm
    ensures r.rc != INVALID_OP ==>
      r == Out(len, JumpedTo(vm, if taken then vm.st.pc + off else vm.st.pc + len))
  {
    if !taken then Out(len, Moved(vm, len))
    else if vm.st.pc + off in vm.st.jumps then Out(len, Moved(vm, off))
    else Out(INVALID_OP, vm)
  }

  /** JMP_ADR: jump to a code address that must be a jump-table entry. */
  function ExecJump(cfg: Config, code: seq<byte>, vm: Vm): (r: Out)
    requires Ready(cfg, code, vm)
    ensures Sound(cfg, code, vm, JmpAdr, r)
    ensures r.rc in {5, OVERFLOW, INVALID_OP}
    ensures r.rc < 0 ==> r.vm == vm
    ensures r.rc == OVERFLOW <==> GetAddr(code, cfg.DataSize(), vm.st.pc, true).None?
    ensures r.rc == 5 ==> r.vm == JumpedTo(vm, r.vm.st.pc) && r.vm.st.pc in vm.st.jumps
    ensures r.rc == 5 ==> vm.st.pc + 5 <= |code| && r.vm.st.pc == Field(code, vm.st.pc + 1, 4)
  {
    match GetAddr(code, cfg.DataSize(), vm.st.pc, true)
    case None => Fault(cfg, code, vm, JmpAdr, OVERFLOW)
    case Some(a) => if a in vm.st.jumps then Out(5, JumpedTo(vm, a)) else Fault(cfg, code, vm, JmpAdr, INVALID_OP)
  }

  /** BZR_DAT and BNZ_DAT: branch by a signed 8-bit displacement when the
      slot is, or is not, zero. */
  function ExecZeroBranch(cfg: Config, code: seq<byte>, vm: Vm, op: Op): (r: Out)
    requires Ready(cfg, code, vm) && (op.BzrDat? || op.BnzDat?)
    ensures Sound(cfg, code, vm, op, r)
    ensures r.rc in {6, OVERFLOW, INVALID_OP}
    ensures r.rc < 0 ==> r.vm == vm
    ensures r.rc == OVERFLOW <==> GetAddrOff(code, cfg.DataSize(), vm.st.pc).None?
  {
    match GetAddrOff(code, cfg.DataSize(), vm.st.pc)
    case None => Fault(cfg, code, vm, op, OVERFLOW)
    case Some((a, off)) =>
      ValidDataAddrIsDataSlot(cfg, a);
      Branch(vm, (op == BzrDat) == (vm.mem[a] == 0), off, 6)
  }

  /** With slot `a` and displacement `off` decoded, BZR_DAT branches exactly
      when the slot is zero and BNZ_DAT exactly when it is not. */
  lemma ZeroBranchEffect(cfg: Config, code: seq<byte>, vm: Vm, op: Op, a: int, off: int)
    requires Ready(cfg, code, vm) && (op.BzrDat? || op.BnzDat?)
    requires GetAddrOff(code, cfg.DataSize(), vm.st.pc) == Some((a, off))
    ensures 0 <= a < cfg.DataSlots()
    ensures ExecZeroBranch(cfg, code, vm, op) == Branch(vm, (op == BzrDat) == (vm.mem[a] == 0), off, 6)
  {
    ValidDataAddrIsDataSlot(cfg, a);
  }

  /** The compare branches: branch by a signed 8-bit displacement when the
      signed comparison of two slots holds. */
  function ExecCompare(cfg: Config, code: seq<byte>, vm: Vm, c: CompareOp): (r: Out)
    requires Ready(cfg, code, vm)
    ensures Sound(cfg, code, vm, Compare(c), r)
    ensures r.rc in {10, OVERFLOW, INVALID_OP}
    ensures r.rc < 0 ==> r.vm == vm
    ensures r.rc == OVERFLOW <==> CompareBranchOperands(cfg, code, vm.st.pc).None?
  {
    match CompareBranchOperands(cfg, code, vm.st.pc)
    case None => Fault(cfg, code, vm, Compare(c), OVERFLOW)
    case Some((a1, a2, off)) =>
      ValidDataAddrIsDataSlot(cfg, a1); ValidDataAddrIsDataSlot(cfg, a2);
      Branch(vm, Taken(c, vm.mem[a1], vm.mem[a2]), off, 10)
  }

  /** With both slots and the displacement decoded, a compare branch is
      taken exactly when its signed comparison holds. */
  lemma CompareEffect(cfg: Config, code: seq<byte>, vm: Vm, c: CompareOp, a1: int, a2: int, off: int)
    requires Ready(cfg, code, vm)
    requires CompareBranchOperands(cfg, code, vm.st.pc) == Some((a1, a2, off))
    ensures 0 <= a1 < cfg.DataSlots() && 0 <= a2 < cfg.DataSlots()
    ensures ExecCompare(cfg, code, vm, c) == Branch(vm, Taken(c, vm.mem[a1], vm.mem[a2]), off, 10)
  {
    ValidDataAddrIsDataSlot(cfg, a1); ValidDataAddrIsDataSlot(cfg, a2);
  }

  // ------------------------------------------------------------ control

  function Finished(vm: Vm): Vm {
    vm.(st := vm.st.(pc := vm.st.pcs, finished := true))
  }

  /** Pausing: as written the program counter stays on the stopping
      instruction (the source adds a result code that is still 0); repaired,
      it moves past it. */
  function Paused(cfg: Config, vm: Vm, len: nat): (r: Out)
    ensures r.vm.mem == vm.mem && r.vm.host == vm.host
    ensures r.vm.st == vm.st.(stopped := true, pc := r.vm.st.pc)
    ensures cfg.dialect == AsWritten ==> r.rc == 0 && r.vm.st.pc == vm.st.pc
    ensures cfg.dialect == Repaired ==> r.rc == len && r.vm.st.pc == vm.st.pc + len
  {
    var stopped := vm.(st := vm.st.(stopped := true));
    match cfg.dialect
    case AsWritten => Out(0, stopped)
    case Repaired => Out(len, Moved(stopped, len))
  }

  lemma ImmediateFacts()
    ensures Advances(SlpImd, 1) && Advances(SetPcs, 1)
  {
  }

  /** FIN_IMD (finish: back to `pcs`), STP_IMD (pause), SLP_IMD (sleep one
      block, modelled as a no-op) and SET_PCS (the next instruction becomes
      the restart address). None of them can fail. */
  function ExecImmediate(cfg: Config, code: seq<byte>, vm: Vm, op: Op): (r: Out)
    requires Ready(cfg, code, vm) && (op.FinImd? || op.StpImd? || op.SlpImd? || op.SetPcs?)
    ensures Sound(cfg, code, vm, op, r)
    ensures r.rc >= 0 && r.vm.mem == vm.mem && r.vm.host == vm.host
    ensures op == FinImd ==> r == Out(0, Finished(vm))
    ensures op == StpImd ==> r == Paused(cfg, vm, 1)
    ensures op == SlpImd ==> r == Out(1, Moved(vm, 1))
    ensures op == SetPcs ==> r.rc == 1 && r.vm.st == vm.st.(pc := vm.st.pc + 1, pcs := vm.st.pc + 1)
  {
    var st := vm.st;
    ImmediateFacts();
    if op == FinImd then Out(0, Finished(vm))
    else if op == StpImd then Paused(cfg, vm, 1)
    else if op == SlpImd then Next(cfg, code, vm, SlpImd, 1, st.us, st.pcs, vm.mem)
    else Next(cfg, code, vm, SetPcs, 1, st.us, st.pc + 1, vm.mem)
  }

  lemma CodeAddrFacts()
    ensures Advances(SlpDat, 5)
  {
  }

  /** SLP_DAT (sleep until a code address's block, modelled as a no-op) and
      ERR_ADR (install the error handler, which must be a jump-table entry:
      -3 otherwise). Both validate a code-address operand. */
  function ExecCodeAddr(cfg: Config, code: seq<byte>, vm: Vm, op: Op): (r: Out)
    requires Ready(cfg, code, vm) && (op.SlpDat? || op.ErrAdr?)
    ensures Sound(cfg, code, vm, op, r)
    ensures r.rc in {5, OVERFLOW, INVALID_ERROR_HANDLER}
    ensures r.rc < 0 ==> r.vm == vm
    ensures r.rc == OVERFLOW <==> GetAddr(code, cfg.DataSize(), vm.st.pc, true).None?
    ensures r.rc == INVALID_ERROR_HANDLER ==> op == ErrAdr
  {
    var st := vm.st;
    match GetAddr(code, cfg.DataSize(), st.pc, true)
    case None => Fault(cfg, code, vm, op, OVERFLOW)
    case Some(a) =>
      if op == SlpDat then CodeAddrFacts(); Next(cfg, code, vm, SlpDat, 5, st.us, st.pcs, vm.mem)
      else if a !in st.jumps then Fault(cfg, code, vm, op, INVALID_ERROR_HANDLER)
      else
        var installed := vm.(st := st.(pce := a));
        match cfg.dialect
        case AsWritten => Out(5, installed)
        case Repaired => Out(5, Moved(installed, 5))
  }

  /** With the code address `a` decoded, SLP_DAT just moves on, and ERR_ADR
      installs `a` as the handler when it is a jump-table entry (-3
      otherwise); as written it stays on itself, repaired it moves on. */
  lemma CodeAddrEffect(cfg: Config, code: seq<byte>, vm: Vm, op: Op, a: int)
    requires Ready(cfg, code, vm) && (op.SlpDat? || op.ErrAdr?)
    requires GetAddr(code, cfg.DataSize(), vm.st.pc, true) == Some(a)
    ensures var r := ExecCodeAddr(cfg, code, vm, op);
      && (op == SlpDat ==> r == Out(5, Moved(vm, 5)))
      && (op == ErrAdr && a !in vm.st.jumps ==> r == Out(INVALID_ERROR_HANDLER, vm))
      && (op == ErrAdr && a in vm.st.jumps ==>
           r == Out(5, vm.(st := vm.st.(pce := a, pc := if cfg.dialect == AsWritten then vm.st.pc else vm.st.pc + 5))))
  {
  }

  /** FIZ_DAT and STZ_DAT: when the slot is not zero continue past the
      instruction; when it is, finish (FIZ) or pause (STZ). */
  function ExecZeroStop(cfg: Config, code: seq<byte>, vm: Vm, op: Op): (r: Out)
    requires Ready(cfg, code, vm) && (op.FizDat? || op.StzDat?)
    ensures Sound(cfg, code, vm, op, r)
    ensures r.rc in {0, 5, OVERFLOW}
    ensures r.rc == OVERFLOW <==> GetAddr(code, cfg.DataSize(), vm.st.pc, false).None?
    ensures r.rc == OVERFLOW ==> r.vm == vm
  {
    match GetAddr(code, cfg.DataSize(), vm.st.pc, false)
    case None => Fault(cfg, code, vm, op, OVERFLOW)
    case Some(a) =>
      ValidDataAddrIsDataSlot(cfg, a);
      if vm.mem[a] != 0 then Out(5, Moved(vm, 5))
      else if op == FizDat then Out(0, Finished(vm))
      else Paused(cfg, vm, 5)
  }

  /** With slot `a` decoded: a non-zero slot moves on; a zero slot finishes
      (FIZ_DAT) or pauses (STZ_DAT). */
  lemma ZeroStopEffect(cfg: Config, code: seq<byte>, vm: Vm, op: Op, a: int)
    requires Ready(cfg, code, vm) && (op.FizDat? || op.StzDat?)
    requires GetAddr(code, cfg.DataSize(), vm.st.pc, false) == Some(a)
    ensures 0 <= a < cfg.DataSlots()
    ensures var r := ExecZeroStop(cfg, code, vm, op);
      && (vm.mem[a] != 0 ==> r == Out(5, Moved(vm, 5)))
      && (vm.mem[a] == 0 && op == FizDat ==> r == Out(0, Finished(vm)))
      && (vm.mem[a] == 0 && op == StzDat ==> r == Paused(cfg, vm, 5))
  {
    ValidDataAddrIsDataSlot(cfg, a);
  }

  // ---------------------------------------------------------- host calls

  predicate HostOp(op: Op) {
    op.ExtFun? || op.ExtFunDat? || op.ExtFunDat2? || op.ExtFunRet? || op.ExtFunRetDat? || op.ExtFunRetDat2?
  }

  lemma HostFacts(op: Op)
    requires HostOp(op)
    ensures Advances(op, Length(op))
    ensures op.ExtFunDat? || op.ExtFunRet? ==> Length(op) == 7
  {
  }

  lemma Host0Facts()
    ensures Advances(ExtFun, 3)
  {
  }

  /** The machine after a host call `c` made by the `len`-byte instruction at
      `pc`: the registers and the host are the call's, and for the `RET`
      forms its result is stored into slot `dest`. Taking the call as a
      value keeps the host functions' definitions out of the proof. */
  function Returned(cfg: Config, code: seq<byte>, vm: Vm, op: Op, len: nat, c: Call, dest: Option<int>): (r: Out)
    requires Ready(cfg, code, vm) && Advances(op, len)
    requires vm.st.pc + len <= |code| && WfTable(c.host.fixtures)
    requires dest.Some? ==> 0 <= dest.value < cfg.DataSlots()
    ensures Sound(cfg, code, vm, op, r)
    ensures r == Out(len, Called(vm, len, c, dest))
  {
    Out(len, Called(vm, len, c, dest))
  }

  /** `vm` after the host call `c` of a `len`-byte instruction, its result
      stored into `dest` if there is one. */
  function Called(vm: Vm, len: nat, c: Call, dest: Option<int>): Vm
    requires dest.Some? ==> 0 <= dest.value < |vm.mem|
  {
    Vm(vm.st.(pc := vm.st.pc + len, regs := c.regs), if dest.Some? then vm.mem[dest.value := c.rc] else vm.mem, c.host)
  }

  /** EXT_FUN: call `func` with the registers. */
  function ExecHost0(cfg: Config, code: seq<byte>, vm: Vm): (r: Out)
    requires Ready(cfg, code, vm)
    ensures Sound(cfg, code, vm, ExtFun, r)
    ensures r.rc in {3, OVERFLOW}
    ensures r.rc == OVERFLOW <==> GetFun(code, vm.st.pc).None?
    ensures r.rc == OVERFLOW ==> r.vm == vm
    ensures r.rc == 3 ==> r.vm == Called(vm, 3, Func0(Field(code, vm.st.pc + 1, 2), vm.st.regs, vm.host), None)
  {
    match GetFun(code, vm.st.pc)
    case None => Fault(cfg, code, vm, ExtFun, OVERFLOW)
    case Some(fun) => Host0Facts(); Returned(cfg, code, vm, ExtFun, 3, Func0(fun, vm.st.regs, vm.host), None)
  }

  /** EXT_FUN_DAT (`func1` of a slot) and EXT_FUN_RET (`func` with the
      result stored into the slot). */
  function ExecHost1(cfg: Config, code: seq<byte>, vm: Vm, op: Op): (r: Out)
    requires Ready(cfg, code, vm) && (op.ExtFunDat? || op.ExtFunRet?)
    ensures Sound(cfg, code, vm, op, r)
    ensures r.rc in {7, OVERFLOW}
    ensures r.rc == OVERFLOW <==> GetFunAddr(code, cfg.DataSize(), vm.st.pc).None?
    ensures r.rc == OVERFLOW ==> r.vm == vm
  {
    var st, m, h := vm.st, vm.mem, vm.host;
    match GetFunAddr(code, cfg.DataSize(), st.pc)
    case None => Fault(cfg, code, vm, op, OVERFLOW)
    case Some((fun, a)) =>
      ValidDataAddrIsDataSlot(cfg, a); HostFacts(op);
      if op == ExtFunDat then Returned(cfg, code, vm, op, 7, Func1(fun, st.regs, h, m[a]), None)
      else Returned(cfg, code, vm, op, 7, Func0(fun, st.regs, h), Some(a))
  }

  /** With function `fun` and slot `a` decoded, EXT_FUN_DAT passes the slot to
      `func1` and EXT_FUN_RET stores the result of `func` into it. */
  lemma Host1Effect(cfg: Config, code: seq<byte>, vm: Vm, op: Op, fun: int, a: int)
    requires Ready(cfg, code, vm) && (op.ExtFunDat? || op.ExtFunRet?)
    requires GetFunAddr(code, cfg.DataSize(), vm.st.pc) == Some((fun, a))
    ensures 0 <= a < cfg.DataSlots()
    ensures op == ExtFunDat ==> ExecHost1(cfg, code, vm, op) == Out(7, Called(vm, 7, Func1(fun, vm.st.regs, vm.host, vm.mem[a]), None))
    ensures op == ExtFunRet ==> ExecHost1(cfg, code, vm, op) == Out(7, Called(vm, 7, Func0(fun, vm.st.regs, vm.host), Some(a)))
  {
    ValidDataAddrIsDataSlot(cfg, a);
  }

  /** EXT_FUN_DAT_2: `func2` of two slots. */
  function ExecHostDat2(cfg: Config, code: seq<byte>, vm: Vm): (r: Out)
    requires Ready(cfg, code, vm) && Defined(cfg, code, vm, ExtFunDat2)
    ensures Sound(cfg, code, vm, ExtFunDat2, r)
    ensures r.rc in {11, OVERFLOW}
    ensures r.rc == OVERFLOW <==> GetFunAddrs(code, cfg.DataSize(), vm.st.pc).None?
    ensures r.rc == OVERFLOW ==> r.vm == vm
  {
    var st, m := vm.st, vm.mem;
    match GetFunAddrs(code, cfg.DataSize(), st.pc)
    case None => Fault(cfg, code, vm, ExtFunDat2, OVERFLOW)
    case Some((fun, a1, a2)) =>
      ValidDataAddrIsDataSlot(cfg, a1); ValidDataAddrIsDataSlot(cfg, a2); HostFacts(ExtFunDat2);
      Returned(cfg, code, vm, ExtFunDat2, 11, Func2(fun, st.regs, vm.host, m[a1], m[a2]), None)
  }

  /** EXT_FUN_RET_DAT: `func1` of the second slot, stored into the first. */
  function ExecHostRetDat(cfg: Config, code: seq<byte>, vm: Vm): (r: Out)
    requires Ready(cfg, code, vm)
    ensures Sound(cfg, code, vm, ExtFunRetDat, r)
    ensures r.rc in {11, OVERFLOW}
    ensures r.rc == OVERFLOW <==> GetFunAddrs(code, cfg.DataSize(), vm.st.pc).None?
    ensures r.rc == OVERFLOW ==> r.vm == vm
  {
    var st, m := vm.st, vm.mem;
    match GetFunAddrs(code, cfg.DataSize(), st.pc)
    case None => Fault(cfg, code, vm, ExtFunRetDat, OVERFLOW)
    case Some((fun, a1, a2)) =>
      ValidDataAddrIsDataSlot(cfg, a1); ValidDataAddrIsDataSlot(cfg, a2); HostFacts(ExtFunRetDat);
      Returned(cfg, code, vm, ExtFunRetDat, 11, Func1(fun, st.regs, vm.host, m[a2]), Some(a1))
  }

  /** With function `fun` and slots `a1`, `a2` decoded, EXT_FUN_DAT_2 passes
      both slots to `func2`, and EXT_FUN_RET_DAT stores `func1` of the
      second into the first. */
  lemma Host2Effect(cfg: Config, code: seq<byte>, vm: Vm, fun: int, a1: int, a2: int)
    requires Ready(cfg, code, vm) && GetFunAddrs(code, cfg.DataSize(), vm.st.pc) == Some((fun, a1, a2))
    ensures 0 <= a1 < cfg.DataSlots() && 0 <= a2 < cfg.DataSlots()
    ensures Defined(cfg, code, vm, ExtFunDat2) ==>
      Func2Defined(fun, vm.mem[a1], vm.mem[a2]) &&
      ExecHostDat2(cfg, code, vm) == Out(11, Called(vm, 11, Func2(fun, vm.st.regs, vm.host, vm.mem[a1], vm.mem[a2]), None))
    ensures ExecHostRetDat(cfg, code, vm) == Out(11, Called(vm, 11, Func1(fun, vm.st.regs, vm.host, vm.mem[a2]), Some(a1)))
  {
    ValidDataAddrIsDataSlot(cfg, a1); ValidDataAddrIsDataSlot(cfg, a2);
  }

  /** EXT_FUN_RET_DAT_2: `func2` of the second and third slots, stored into
      the first. */
  function ExecHostRetDat2(cfg: Config, code: seq<byte>, vm: Vm): (r: Out)
    requires Ready(cfg, code, vm) && Defined(cfg, code, vm, ExtFunRetDat2)
    ensures Sound(cfg, code, vm, ExtFunRetDat2, r)
    ensures r.rc in {15, OVERFLOW}
    ensures r.rc == OVERFLOW ==> r.vm == vm
    ensures GetFunAddrs(code, cfg.DataSize(), vm.st.pc).None? ==> r.rc == OVERFLOW
  {
    var st, ds, m := vm.st, cfg.DataSize(), vm.mem;
    match GetFunAddrs(code, ds, st.pc)
    case None => Fault(cfg, code, vm, ExtFunRetDat2, OVERFLOW)
    case Some((fun, a1, a2)) =>
      match ThirdAddr(code, ds, st.pc, 10)
      case None => Fault(cfg, code, vm, ExtFunRetDat2, OVERFLOW)
      case Some(a3) =>
        ValidDataAddrIsDataSlot(cfg, a1); ValidDataAddrIsDataSlot(cfg, a2); ValidDataAddrIsDataSlot(cfg, a3);
        HostFacts(ExtFunRetDat2);
        Returned(cfg, code, vm, ExtFunRetDat2, 15, Func2(fun, st.regs, vm.host, m[a2], m[a3]), Some(a1))
  }

  /** With all fields decoded, EXT_FUN_RET_DAT_2 stores `func2` of the second
      and third slots into the first; a third field that does not decode is
      an overflow. */
  lemma HostRetDat2Effect(cfg: Config, code: seq<byte>, vm: Vm, fun: int, a1: int, a2: int)
    requires Ready(cfg, code, vm) && Defined(cfg, code, vm, ExtFunRetDat2)
    requires GetFunAddrs(code, cfg.DataSize(), vm.st.pc) == Some((fun, a1, a2))
    ensures ThirdAddr(code, cfg.DataSize(), vm.st.pc, 10).None? ==> ExecHostRetDat2(cfg, code, vm) == Out(OVERFLOW, vm)
    ensures ThirdAddr(code, cfg.DataSize(), vm.st.pc, 10).Some? ==>
      var a3 := ThirdAddr(code, cfg.DataSize(), vm.st.pc, 10).value;
      && 0 <= a1 < cfg.DataSlots() && 0 <= a2 < cfg.DataSlots() && 0 <= a3 < cfg.DataSlots()
      && Func2Defined(fun, vm.mem[a2], vm.mem[a3])
      && ExecHostRetDat2(cfg, code, vm) == Out(15, Called(vm, 15, Func2(fun, vm.st.regs, vm.host, vm.mem[a2], vm.mem[a3]), Some(a1)))
  {
    ValidDataAddrIsDataSlot(cfg, a1); ValidDataAddrIsDataSlot(cfg, a2);
    match ThirdAddr(code, cfg.DataSize(), vm.st.pc, 10)
    case None =>
    case Some(a3) => ValidDataAddrIsDataSlot(cfg, a3);
  }

  // ----------------------------------------------------------- dispatch

  /** The instruction at `pc`, before the error handler and the step count. */
  function Execute(cfg: Config, code: seq<byte>, vm: Vm): (r: Out)
    requires Ready(cfg, code, vm) && Defined(cfg, code, vm, OpAt(code, vm))
    ensures Sound(cfg, code, vm, OpAt(code, vm), r)
  {
    var op := OpAt(code, vm);
    match op
    case Nop =>
      var n := NopRun(code, vm.st.pc);
      Out(n, Moved(vm, n))
    case SetVal => ExecSetVal(cfg, code, vm)
    case Unary(u) => ExecUnary(cfg, code, vm, u)
    case Binary(b) => ExecBinary(cfg, code, vm, b)
    case SetInd | IndDat => ExecInd(cfg, code, vm, op)
    case SetIdx | IdxDat => ExecIdx(cfg, code, vm, op)
    case PshDat => ExecPush(cfg, code, vm)
    case PopDat => ExecPop(cfg, code, vm)
    case JmpSub => ExecCall(cfg, code, vm)
    case RetSub => ExecRet(cfg, code, vm)
    case JmpAdr => ExecJump(cfg, code, vm)
    case BzrDat | BnzDat => ExecZeroBranch(cfg, code, vm, op)
    case Compare(c) => ExecCompare(cfg, code, vm, c)
    case FinImd | StpImd | SlpImd | SetPcs => ExecImmediate(cfg, code, vm, op)
    case SlpDat | ErrAdr => ExecCodeAddr(cfg, code, vm, op)
    case FizDat | StzDat => ExecZeroStop(cfg, code, vm, op)
    case ExtFun => ExecHost0(cfg, code, vm)
    case ExtFunDat | ExtFunRet => ExecHost1(cfg, code, vm, op)
    case ExtFunDat2 => ExecHostDat2(cfg, code, vm)
    case ExtFunRetDat => ExecHostRetDat(cfg, code, vm)
    case ExtFunRetDat2 => ExecHostRetDat2(cfg, code, vm)
    case Unknown => Out(INVALID_OP, vm)
  }

  /** A byte of no instruction is -2 and changes nothing. */
  lemma UnknownIsInvalid(cfg: Config, code: seq<byte>, vm: Vm)
    requires Ready(cfg, code, vm) && OpAt(code, vm) == Unknown
    ensures Defined(cfg, code, vm, OpAt(code, vm))
    ensures Execute(cfg, code, vm) == Out(INVALID_OP, vm)
  {
  }

  /** An overflow is absorbed when an error handler is installed: the result
      becomes 0 and execution continues at `pce`. */
  function Handled(o: Out): Out {
    if o.rc == OVERFLOW && o.vm.st.pce != 0 then Out(0, JumpedTo(o.vm, o.vm.st.pce)) else o
  }

  /** `process_op` in execution mode: nothing happens at or past the end of
      the code; otherwise the instruction runs, an overflow goes to the
      handler if there is one, and a non-negative result counts a step. */
  function Step(cfg: Config, code: seq<byte>, vm: Vm): (r: Out)
    requires Wf(cfg, code, vm) && (vm.st.pc < |code| ==> Defined(cfg, code, vm, OpAt(code, vm)))
    ensures Wf(cfg, code, r.vm) && r.vm.st.jumps == vm.st.jumps
    ensures vm.st.pc >= |code| ==> r == Out(0, vm)
    ensures r.vm.st.steps == vm.st.steps + (if r.rc >= 0 && vm.st.pc < |code| then 1 else 0)
    ensures r.rc < 0 ==> IsError(r.rc) && r.vm.st.pc == vm.st.pc
    ensures r.rc == OVERFLOW ==> vm.st.pce == 0
  {
    if |code| < 1 || vm.st.pc >= |code| then Out(0, vm)
    else
      var o := Handled(Execute(cfg, code, vm));
      if o.rc >= 0 then Out(o.rc, o.vm.(st := o.vm.st.(steps := o.vm.st.steps + 1))) else o
  }
}
