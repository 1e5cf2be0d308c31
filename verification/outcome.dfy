/** What a single instruction may do to the machine, whichever it is. */
module Outcome {
  import opened Base
  import opened Layout
  import opened Decode
  import opened Opcodes
  import opened Machine

  const OVERFLOW: int := -1
  const INVALID_OP: int := -2
  const INVALID_ERROR_HANDLER: int := -3

  datatype Out = Out(rc: int, vm: Vm)

  /** The three error codes `process_op` returns. */
  predicate IsError(rc: int) {
    rc == OVERFLOW || rc == INVALID_OP || rc == INVALID_ERROR_HANDLER
  }

  predicate Ready(cfg: Config, code: seq<byte>, vm: Vm) {
    Wf(cfg, code, vm) && vm.st.pc < |code|
  }

  function OpAt(code: seq<byte>, vm: Vm): Op
    requires 0 <= vm.st.pc < |code|
  {
    OpOf(code[vm.st.pc])
  }

  /** Instructions that may put `pc` anywhere other than just past themselves. */
  predicate Transfers(op: Op) {
    || op.JmpSub? || op.RetSub? || op.JmpAdr? || op.BzrDat? || op.BnzDat? || op.Compare?
    || op.FizDat? || op.StzDat? || op.FinImd? || op.StpImd? || op.ErrAdr?
  }

  /** What every instruction guarantees, whatever it is. The machine stays
      well formed. A fault is -1, -2 or -3 and changes nothing, except that
      RET_SUB has already dropped its call-stack entry when it finds the
      return address outside the jump table. A successful instruction that
      transfers no control returns its length (a NOP the length of its run),
      moves `pc` by exactly that much and lies entirely inside the code. Only
      FIN_IMD and FIZ_DAT set `finished` (and they return to `pcs`), only
      STP_IMD and STZ_DAT set `stopped`, only ERR_ADR changes the handler
      (to a jump-table entry), and nothing touches the step counter or the
      jump table. */
  predicate Sound(cfg: Config, code: seq<byte>, vm: Vm, op: Op, r: Out)
    requires Ready(cfg, code, vm)
  {
    var pc := vm.st.pc;
    && Wf(cfg, code, r.vm)
    && r.vm.st.steps == vm.st.steps && r.vm.st.jumps == vm.st.jumps
    && (r.rc < 0 ==> IsError(r.rc))
    && (r.rc < 0 ==>
         || r.vm == vm
         || (op == RetSub && r.rc == INVALID_OP && r.vm == vm.(st := vm.st.(cs := vm.st.cs - 1))))
    && (r.rc >= 0 && !Transfers(op) ==>
         (if op == Nop then r.rc == InsnLength(code, pc) else r.rc == Length(op)) && 0 < r.rc && r.vm.st.pc == pc + r.rc && pc + r.rc <= |code|)
    && (r.vm.st.finished != vm.st.finished ==>
         r.vm.st.finished && r.vm.st.pc == vm.st.pcs && op in {FinImd, FizDat})
    && (r.vm.st.stopped != vm.st.stopped ==> r.vm.st.stopped && op in {StpImd, StzDat})
    && (r.vm.st.pce != vm.st.pce ==> op == ErrAdr && r.vm.st.pce in vm.st.jumps)
  }
}
