/** Properties of one interpreter step that relate several instructions or
    single out particular operands. The per-instruction facts (faults change
    nothing, successes move `pc` by the instruction's length, transfers land
    in the jump table) are `Sound`, which every step guarantees. */
module ExecProps {
  import opened Base
  import opened Layout
  import opened Decode
  import opened Host
  import opened Opcodes
  import opened Machine
  import opened Outcome
  import opened Exec

  // ----------------------------------------------------------- data ops

  /** DIV_DAT fails with -2, changing nothing, exactly when its operands
      decode and the divisor slot holds zero. */
  lemma DivideByZeroIsInvalid(cfg: Config, code: seq<byte>, vm: Vm)
    requires Ready(cfg, code, vm) && OpAt(code, vm) == Binary(DivDat) && Defined(cfg, code, vm, Binary(DivDat))
    ensures var g, r := GetAddrs(code, cfg.DataSize(), vm.st.pc), Execute(cfg, code, vm);
      (r.rc == INVALID_OP <==> g.Some? && 0 <= g.value.1 < |vm.mem| && vm.mem[g.value.1] == 0)
      && (r.rc == INVALID_OP ==> r.vm == vm)
  {
    assert Execute(cfg, code, vm) == ExecBinary(cfg, code, vm, DivDat);
    match GetAddrs(code, cfg.DataSize(), vm.st.pc)
    case None =>
    case Some((a1, a2)) => BinaryEffect(cfg, code, vm, DivDat, a1, a2);
  }

  /** Executing a binary instruction whose operands decode: either the
      zero-divisor fault of DIV_DAT or `@a1 op= $a2` written into slot `a1`,
      and nothing else changed. */
  lemma ExecuteBinary(cfg: Config, code: seq<byte>, vm: Vm, a1: int, a2: int)
    requires Ready(cfg, code, vm) && OpAt(code, vm).Binary? && Defined(cfg, code, vm, OpAt(code, vm))
    requires GetAddrs(code, cfg.DataSize(), vm.st.pc) == Some((a1, a2))
    ensures 0 <= a1 < cfg.DataSlots() && 0 <= a2 < cfg.DataSlots()
    ensures var b, m, r := OpAt(code, vm).b, vm.mem, Execute(cfg, code, vm);
      if b == DivDat && m[a2] == 0 then r == Out(INVALID_OP, vm)
      else BinaryDefined(b, m[a1], m[a2]) && r == Out(9, Wrote(vm, 9, m[a1 := BinaryValue(b, m[a1], m[a2])]))
  {
    var b := OpAt(code, vm).b;
    assert Execute(cfg, code, vm) == ExecBinary(cfg, code, vm, b);
    BinaryEffect(cfg, code, vm, b, a1, a2);
  }

  /** SUB_DAT undoes ADD_DAT and the other way round; XOR_DAT undoes itself. */
  predicate Inverse(b1: BinaryOp, b2: BinaryOp) {
    (b1 == AddDat && b2 == SubDat) || (b1 == SubDat && b2 == AddDat) || (b1 == XorDat && b2 == XorDat)
  }

  /** The inverse operation restores the first operand, although both wrap
      around at 64 bits. */
  lemma InverseRestores(b1: BinaryOp, b2: BinaryOp, x: i64, y: i64)
    requires Inverse(b1, b2)
    ensures BinaryDefined(b1, x, y) && BinaryDefined(b2, BinaryValue(b1, x, y), y)
    ensures BinaryValue(b2, BinaryValue(b1, x, y), y) == x
  {
    if b1 == AddDat {
      WrapAddSub(x, y);
    } else if b1 == SubDat {
      WrapAddSub(x, -(y as int));
    } else {
      XorTwice(x, y);
    }
  }

  /** ADD_DAT `@a1 += $a2` followed by SUB_DAT on the same two distinct
      slots (or SUB then ADD, or XOR twice): the second instruction, as
      `ExecuteBinary` gives it on the memory the first one left, writes
      back exactly the original memory. */
  lemma UndoneByInverse(b1: BinaryOp, b2: BinaryOp, m: seq<i64>, a1: int, a2: int)
    requires Inverse(b1, b2) && 0 <= a1 < |m| && 0 <= a2 < |m| && a1 != a2
    ensures BinaryDefined(b1, m[a1], m[a2])
    ensures var m1 := m[a1 := BinaryValue(b1, m[a1], m[a2])];
      BinaryDefined(b2, m1[a1], m1[a2]) && m1[a1 := BinaryValue(b2, m1[a1], m1[a2])] == m
  {
    InverseRestores(b1, b2, m[a1], m[a2]);
  }

  /** ADD_DAT `@a1 += $a2` followed by SUB_DAT on the same two distinct
      slots (or SUB then ADD, or XOR twice): when both run, the machine is
      back where it was except that `pc` has moved past both. */
  lemma BinaryThenInverse(cfg: Config, code: seq<byte>, vm: Vm, v1: Vm, v2: Vm, a1: int, a2: int)
    requires Ready(cfg, code, vm) && OpAt(code, vm).Binary? && Defined(cfg, code, vm, OpAt(code, vm))
    requires GetAddrs(code, cfg.DataSize(), vm.st.pc) == Some((a1, a2)) && a1 != a2
    requires Execute(cfg, code, vm) == Out(9, v1)
    requires v1.st.pc < |code| && OpAt(code, v1).Binary? && Inverse(OpAt(code, vm).b, OpAt(code, v1).b)
    requires GetAddrs(code, cfg.DataSize(), v1.st.pc) == Some((a1, a2))
    requires Execute(cfg, code, v1) == Out(9, v2)
    ensures v2 == vm.(st := vm.st.(pc := vm.st.pc + 18))
  {
    ExecuteBinary(cfg, code, vm, a1, a2);
    ExecuteBinary(cfg, code, v1, a1, a2);
    UndoneByInverse(OpAt(code, vm).b, OpAt(code, v1).b, vm.mem, a1, a2);
  }

  /** Executing CLR_DAT, INC_DAT, DEC_DAT or NOT_DAT whose operand decodes
      rewrites that one slot and moves on. */
  lemma ExecuteUnary(cfg: Config, code: seq<byte>, vm: Vm, a: int)
    requires Ready(cfg, code, vm) && OpAt(code, vm).Unary?
    requires GetAddr(code, cfg.DataSize(), vm.st.pc, false) == Some(a)
    ensures 0 <= a < cfg.DataSlots()
    ensures Execute(cfg, code, vm) == Out(5, Wrote(vm, 5, vm.mem[a := UnaryValue(OpAt(code, vm).u, vm.mem[a])]))
  {
    var u := OpAt(code, vm).u;
    assert Execute(cfg, code, vm) == ExecUnary(cfg, code, vm, u);
    UnaryEffect(cfg, code, vm, u, a);
  }

  /** DEC_DAT undoes INC_DAT and the other way round, including the
      wrap-around at INT64_MAX and INT64_MIN; NOT_DAT undoes itself. */
  lemma IncrementUndoneByDecrement(x: i64)
    ensures UnaryValue(DecDat, UnaryValue(IncDat, x)) == x
    ensures UnaryValue(IncDat, UnaryValue(DecDat, x)) == x
    ensures UnaryValue(NotDat, UnaryValue(NotDat, x)) == x
  {
    WrapAddSub(x, 1);
    WrapAddSub(x, -1);
  }

  // ------------------------------------------------------ indirect ops

  /** Executing SET_IND or IND_DAT whose operands decode: -1 when the
      pointer slot does not hold a valid data address, otherwise the one
      slot written. */
  lemma ExecuteInd(cfg: Config, code: seq<byte>, vm: Vm, a1: int, a2: int)
    requires Ready(cfg, code, vm) && (OpAt(code, vm).SetInd? || OpAt(code, vm).IndDat?)
    requires GetAddrs(code, cfg.DataSize(), vm.st.pc) == Some((a1, a2))
    ensures 0 <= a1 < cfg.DataSlots() && 0 <= a2 < cfg.DataSlots()
    ensures var op, m := OpAt(code, vm), vm.mem;
      var p, r := IndPointer(op, m, a1, a2), Execute(cfg, code, vm);
      && (!ValidDataAddr(p, cfg.DataSize()) ==> r == Out(OVERFLOW, vm))
      && (ValidDataAddr(p, cfg.DataSize()) ==> 0 <= p < cfg.DataSlots())
      && (ValidDataAddr(p, cfg.DataSize()) && op == SetInd ==> r == Out(9, Wrote(vm, 9, m[a1 := m[p]])))
      && (ValidDataAddr(p, cfg.DataSize()) && op == IndDat ==> r == Out(9, Wrote(vm, 9, m[p := m[a2]])))
  {
    var op := OpAt(code, vm);
    assert Execute(cfg, code, vm) == ExecInd(cfg, code, vm, op);
    IndEffect(cfg, code, vm, op, a1, a2);
  }

  /** IND_DAT `@($p) = $v` followed by SET_IND `@d = $($p)` through the same
      pointer slot `p`: when both succeed, the load reads back the stored
      value, provided the pointer does not point at itself (the store would
      overwrite the pointer). Only `d` and the slot pointed at change. */
  lemma StoreThenLoadThroughPointer(cfg: Config, code: seq<byte>, vm: Vm, v1: Vm, v2: Vm, p: int, v: int, d: int)
    requires Ready(cfg, code, vm) && OpAt(code, vm) == IndDat && GetAddrs(code, cfg.DataSize(), vm.st.pc) == Some((p, v))
    requires Execute(cfg, code, vm) == Out(9, v1)
    requires v1.st.pc < |code| && OpAt(code, v1) == SetInd && GetAddrs(code, cfg.DataSize(), v1.st.pc) == Some((d, p))
    requires Execute(cfg, code, v1) == Out(9, v2)
    requires 0 <= p < |vm.mem| && vm.mem[p] != p
    ensures 0 <= v < |vm.mem| && 0 <= vm.mem[p] < |vm.mem|
    ensures v2.mem[d] == vm.mem[v]
    ensures v2.st == vm.st.(pc := vm.st.pc + 18) && v2.host == vm.host && |v2.mem| == |vm.mem|
    ensures forall i :: 0 <= i < |vm.mem| && i != d && i != vm.mem[p] ==> v2.mem[i] == vm.mem[i]
  {
    ExecuteInd(cfg, code, vm, p, v);
    ExecuteInd(cfg, code, v1, d, p);
  }

  // -------------------------------------------------- control transfers

  /** JMP_ADR and JMP_SUB towards an address outside the jump table are -2
      and change nothing (JMP_SUB only once the call stack has room). */
  lemma JumpOutsideTableIsInvalid(cfg: Config, code: seq<byte>, vm: Vm)
    requires Ready(cfg, code, vm) && OpAt(code, vm) in {JmpAdr, JmpSub}
    requires var g := GetAddr(code, cfg.DataSize(), vm.st.pc, true); g.Some? && g.value !in vm.st.jumps
    requires OpAt(code, vm) == JmpSub ==> vm.st.cs < cfg.CallSlots()
    ensures Execute(cfg, code, vm) == Out(INVALID_OP, vm)
  {
    if OpAt(code, vm) == JmpAdr {
      assert Execute(cfg, code, vm) == ExecJump(cfg, code, vm);
    } else {
      assert Execute(cfg, code, vm) == ExecCall(cfg, code, vm);
    }
  }

  /** BZR_DAT and BNZ_DAT: taken exactly when the slot is (respectively is
      not) zero, landing on `pc + off`; taken towards a position outside the
      jump table they are -2 and change nothing. */
  lemma ZeroBranchTaken(cfg: Config, code: seq<byte>, vm: Vm)
    requires Ready(cfg, code, vm) && OpAt(code, vm) in {BzrDat, BnzDat}
    requires GetAddrOff(code, cfg.DataSize(), vm.st.pc).Some?
    ensures var pc, g := vm.st.pc, GetAddrOff(code, cfg.DataSize(), vm.st.pc).value;
      0 <= g.0 < |vm.mem| &&
      var taken, r := (OpAt(code, vm) == BzrDat) == (vm.mem[g.0] == 0), Execute(cfg, code, vm);
      && (r.rc >= 0 <==> !taken || pc + g.1 in vm.st.jumps)
      && (r.rc >= 0 ==> r.vm.st.pc == (if taken then pc + g.1 else pc + 6))
      && (r.rc < 0 ==> r == Out(INVALID_OP, vm))
  {
    var op, g := OpAt(code, vm), GetAddrOff(code, cfg.DataSize(), vm.st.pc).value;
    assert Execute(cfg, code, vm) == ExecZeroBranch(cfg, code, vm, op);
    ZeroBranchEffect(cfg, code, vm, op, g.0, g.1);
  }

  /** ERR_ADR installs only a jump-table entry as handler; any other address
      is -3 and changes nothing. */
  lemma HandlerIsInTable(cfg: Config, code: seq<byte>, vm: Vm)
    requires Ready(cfg, code, vm) && OpAt(code, vm) == ErrAdr
    ensures var r, g := Execute(cfg, code, vm), GetAddr(code, cfg.DataSize(), vm.st.pc, true);
      && (r.rc >= 0 <==> g.Some? && g.value in vm.st.jumps)
      && (r.rc >= 0 ==> r.vm.st.pce == g.value)
      && (g.Some? && g.value !in vm.st.jumps ==> r == Out(INVALID_ERROR_HANDLER, vm))
  {
    assert Execute(cfg, code, vm) == ExecCodeAddr(cfg, code, vm, ErrAdr);
    match GetAddr(code, cfg.DataSize(), vm.st.pc, true)
    case None =>
    case Some(a) => CodeAddrEffect(cfg, code, vm, ErrAdr, a);
  }

  // ------------------------------------------------------------- stacks

  /** A push into a full stack or a pop from an empty one is -1 and changes
      nothing, and so are a call with a full call stack and a return with
      an empty one. */
  lemma StackLimitsOverflow(cfg: Config, code: seq<byte>, vm: Vm)
    requires Ready(cfg, code, vm)
    ensures OpAt(code, vm) == PshDat && vm.st.us == cfg.UserSlots() ==> Execute(cfg, code, vm) == Out(OVERFLOW, vm)
    ensures OpAt(code, vm) == PopDat && vm.st.us == 0 ==> Execute(cfg, code, vm) == Out(OVERFLOW, vm)
    ensures OpAt(code, vm) == JmpSub && vm.st.cs == cfg.CallSlots() ==> Execute(cfg, code, vm) == Out(OVERFLOW, vm)
    ensures OpAt(code, vm) == RetSub && vm.st.cs == 0 ==> Execute(cfg, code, vm) == Out(OVERFLOW, vm)
  {
    var op := OpAt(code, vm);
    if op == PshDat {
      assert Execute(cfg, code, vm) == ExecPush(cfg, code, vm);
    } else if op == PopDat {
      assert Execute(cfg, code, vm) == ExecPop(cfg, code, vm);
    } else if op == JmpSub {
      assert Execute(cfg, code, vm) == ExecCall(cfg, code, vm);
    } else if op == RetSub {
      assert Execute(cfg, code, vm) == ExecRet(cfg, code, vm);
    }
  }

  /** Executing PSH_DAT whose operand decodes: -1 with a full user stack,
      otherwise the slot's value copied on top of the user stack. */
  lemma ExecutePush(cfg: Config, code: seq<byte>, vm: Vm, a: int)
    requires Ready(cfg, code, vm) && OpAt(code, vm) == PshDat && GetAddr(code, cfg.DataSize(), vm.st.pc, false) == Some(a)
    ensures 0 <= a < cfg.DataSlots()
    ensures vm.st.us == cfg.UserSlots() ==> Execute(cfg, code, vm) == Out(OVERFLOW, vm)
    ensures vm.st.us < cfg.UserSlots() ==>
      && cfg.DataSlots() + cfg.CallSlots() <= UserSlot(cfg, vm.st.us + 1) < cfg.MemSlots()
      && Execute(cfg, code, vm) ==
           Out(5, Vm(vm.st.(pc := vm.st.pc + 5, us := vm.st.us + 1), vm.mem[UserSlot(cfg, vm.st.us + 1) := vm.mem[a]], vm.host))
  {
    assert Execute(cfg, code, vm) == ExecPush(cfg, code, vm);
    if vm.st.us < cfg.UserSlots() { PushEffect(cfg, code, vm, a); }
  }

  /** Executing POP_DAT whose operand decodes: -1 with an empty user stack,
      otherwise the top entry moved into the slot. */
  lemma ExecutePop(cfg: Config, code: seq<byte>, vm: Vm, a: int)
    requires Ready(cfg, code, vm) && OpAt(code, vm) == PopDat && GetAddr(code, cfg.DataSize(), vm.st.pc, false) == Some(a)
    ensures 0 <= a < cfg.DataSlots()
    ensures vm.st.us == 0 ==> Execute(cfg, code, vm) == Out(OVERFLOW, vm)
    ensures vm.st.us > 0 ==>
      && cfg.DataSlots() + cfg.CallSlots() <= UserSlot(cfg, vm.st.us) < cfg.MemSlots()
      && Execute(cfg, code, vm) ==
           Out(5, Vm(vm.st.(pc := vm.st.pc + 5, us := vm.st.us - 1), vm.mem[a := vm.mem[UserSlot(cfg, vm.st.us)]], vm.host))
  {
    assert Execute(cfg, code, vm) == ExecPop(cfg, code, vm);
    if vm.st.us > 0 { PopEffect(cfg, code, vm, a); }
  }

  /** PSH_DAT `$a` followed by POP_DAT `@b`: when both succeed, the pop
      returns the user stack to its old depth and moves the pushed value
      into `b`; apart from `b` and the stack slot just used, memory is as
      before, and so is everything else but `pc`. */
  lemma PushThenPop(cfg: Config, code: seq<byte>, vm: Vm, v1: Vm, v2: Vm, a: int, b: int)
    requires Ready(cfg, code, vm) && OpAt(code, vm) == PshDat && GetAddr(code, cfg.DataSize(), vm.st.pc, false) == Some(a)
    requires Execute(cfg, code, vm) == Out(5, v1)
    requires v1.st.pc < |code| && OpAt(code, v1) == PopDat && GetAddr(code, cfg.DataSize(), v1.st.pc, false) == Some(b)
    requires Execute(cfg, code, v1) == Out(5, v2)
    ensures 0 <= a < |vm.mem| && v2.mem[b] == vm.mem[a]
    ensures v2.st == vm.st.(pc := vm.st.pc + 10) && v2.host == vm.host && |v2.mem| == |vm.mem|
    ensures forall i :: 0 <= i < |vm.mem| && i != b && i != UserSlot(cfg, vm.st.us + 1) ==> v2.mem[i] == vm.mem[i]
  {
    ExecutePush(cfg, code, vm, a);
    ExecutePop(cfg, code, v1, b);
  }

  /** JMP_SUB to a RET_SUB returns to the instruction after the call with
      the call stack as deep as before, provided that address is itself a
      jump-table entry. */
  lemma CallThenReturn(cfg: Config, code: seq<byte>, vm: Vm)
    requires Ready(cfg, code, vm) && OpAt(code, vm) == JmpSub
    requires Execute(cfg, code, vm).rc >= 0
    requires OpOf(code[Execute(cfg, code, vm).vm.st.pc]) == RetSub
    ensures var v1 := Execute(cfg, code, vm).vm;
      && Ready(cfg, code, v1)
      && var r := Execute(cfg, code, v1);
      && (r.rc >= 0 <==> vm.st.pc + 5 in vm.st.jumps)
      && (r.rc >= 0 ==> r.vm.st.pc == vm.st.pc + 5 && r.vm.st.cs == vm.st.cs)
  {
    var a := Field(code, vm.st.pc + 1, 4);
    assert Execute(cfg, code, vm) == ExecCall(cfg, code, vm);
    assert GetAddr(code, cfg.DataSize(), vm.st.pc, true) == Some(a);
    CallEffect(cfg, code, vm, a);
    var v1 := Execute(cfg, code, vm).vm;
    assert Execute(cfg, code, v1) == ExecRet(cfg, code, v1);
    assert v1.st.cs == vm.st.cs + 1 && v1.mem[CallSlot(cfg, v1.st.cs)] == vm.st.pc + 5;
    assert Wrap32(vm.st.pc + 5) == vm.st.pc + 5;
  }

  // -------------------------------------------------- handler and steps

  /** Only an overflow reaches the error handler: with `pce` set it becomes
      result 0 and continues at `pce`; -2 and -3 pass through. A step is
      counted exactly when the final result is not negative, and at or past
      the end of the code nothing happens. */
  lemma HandlerAndStepCount(cfg: Config, code: seq<byte>, vm: Vm)
    requires Wf(cfg, code, vm) && (vm.st.pc < |code| ==> Defined(cfg, code, vm, OpAt(code, vm)))
    ensures vm.st.pc >= |code| ==> Step(cfg, code, vm) == Out(0, vm)
    ensures vm.st.pc < |code| ==>
      var e, r := Execute(cfg, code, vm), Step(cfg, code, vm);
      && (e.rc == OVERFLOW && vm.st.pce != 0 ==> r.rc == 0 && r.vm.st.pc == vm.st.pce)
      && (e.rc == OVERFLOW && vm.st.pce == 0 ==> r == e)
      && (e.rc in {INVALID_OP, INVALID_ERROR_HANDLER} ==> r == e)
      && (e.rc >= 0 ==> r.rc == e.rc && r.vm == e.vm.(st := e.vm.st.(steps := e.vm.st.steps + 1)))
      && r.vm.st.steps == vm.st.steps + (if r.rc >= 0 then 1 else 0)
  {
  }

  // -------------------------------------------- as written versus repaired

  /** With the source's `get_addrs_off`, every compare branch overflows. */
  lemma CompareBranchesOverflowAsWritten(cfg: Config, code: seq<byte>, vm: Vm)
    requires Ready(cfg, code, vm) && OpAt(code, vm).Compare? && cfg.dialect == AsWritten
    ensures Execute(cfg, code, vm) == Out(OVERFLOW, vm)
  {
    assert Execute(cfg, code, vm) == ExecCompare(cfg, code, vm, OpAt(code, vm).c);
  }

  /** With the repaired decoder a compare branch with valid operands is taken
      exactly when its signed comparison holds. */
  lemma CompareBranchesRepaired(cfg: Config, code: seq<byte>, vm: Vm)
    requires Ready(cfg, code, vm) && OpAt(code, vm).Compare? && cfg.dialect == Repaired
    requires GetAddrsOff(code, cfg.DataSize(), vm.st.pc).Some?
    ensures var pc, g := vm.st.pc, GetAddrsOff(code, cfg.DataSize(), vm.st.pc).value;
      0 <= g.0 < |vm.mem| && 0 <= g.1 < |vm.mem| &&
      var taken, r := Taken(OpAt(code, vm).c, vm.mem[g.0], vm.mem[g.1]), Execute(cfg, code, vm);
      && (r.rc >= 0 <==> !taken || pc + g.2 in vm.st.jumps)
      && (r.rc >= 0 ==> r.vm.st.pc == (if taken then pc + g.2 else pc + 10))
  {
    var op, g := OpAt(code, vm).c, GetAddrsOff(code, cfg.DataSize(), vm.st.pc).value;
    assert Execute(cfg, code, vm) == ExecCompare(cfg, code, vm, op);
    CompareEffect(cfg, code, vm, op, g.0, g.1, g.2);
  }

  /** As written, STP_IMD pauses without moving `pc`, so resuming executes the
      same stop again; repaired, it moves past it. */
  lemma StopsAsWrittenAndRepaired(cfg: Config, code: seq<byte>, vm: Vm)
    requires Ready(cfg, code, vm) && OpAt(code, vm) == StpImd
    ensures var r := Execute(cfg, code, vm);
      r.vm.st.stopped && (cfg.dialect == AsWritten ==> r.vm.st.pc == vm.st.pc)
      && (cfg.dialect == Repaired ==> r.vm.st.pc == vm.st.pc + 1)
    ensures var r := Execute(cfg, code, vm);
      cfg.dialect == AsWritten ==>
        var resumed := r.vm.(st := r.vm.st.(stopped := false));
        Ready(cfg, code, resumed) && Execute(cfg, code, resumed) == r
  {
    assert Execute(cfg, code, vm) == ExecImmediate(cfg, code, vm, StpImd);
    var r := Execute(cfg, code, vm);
    if cfg.dialect == AsWritten {
      var resumed := r.vm.(st := r.vm.st.(stopped := false));
      assert resumed == vm.(st := vm.st.(stopped := false));
      assert Execute(cfg, code, resumed) == ExecImmediate(cfg, code, resumed, StpImd);
    }
  }

  /** As written, a successful ERR_ADR leaves `pc` on itself, so executing it
      again gives the same result on the same machine (the run loop repeats
      it until the balance runs out, see `Driver.ErrAdrDrainsBalance`);
      repaired, it moves on. */
  lemma ErrAdrAsWrittenAndRepaired(cfg: Config, code: seq<byte>, vm: Vm)
    requires Ready(cfg, code, vm) && OpAt(code, vm) == ErrAdr
    requires Execute(cfg, code, vm).rc >= 0
    ensures var r := Execute(cfg, code, vm);
      cfg.dialect == AsWritten ==> r.vm.st.pc == vm.st.pc && Ready(cfg, code, r.vm) && Execute(cfg, code, r.vm) == r
    ensures var r := Execute(cfg, code, vm);
      cfg.dialect == Repaired ==> r.vm.st.pc == vm.st.pc + 5
  {
    var a := Field(code, vm.st.pc + 1, 4);
    assert Execute(cfg, code, vm) == ExecCodeAddr(cfg, code, vm, ErrAdr);
    assert GetAddr(code, cfg.DataSize(), vm.st.pc, true) == Some(a);
    CodeAddrEffect(cfg, code, vm, ErrAdr, a);
    var r := Execute(cfg, code, vm);
    if cfg.dialect == AsWritten {
      assert Execute(cfg, code, r.vm) == ExecCodeAddr(cfg, code, r.vm, ErrAdr);
      CodeAddrEffect(cfg, code, r.vm, ErrAdr, a);
      assert r.vm.(st := r.vm.st.(pce := a, pc := r.vm.st.pc)) == r.vm;
    }
  }
}
