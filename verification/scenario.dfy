/** The "output value" session in the header of the console's source: the
    program `0100000000b8220000000000003301000000000028` stores 8888 in slot 0
    (SET_VAL), echoes it (EXT_FUN_DAT with function 1) and finishes
    (FIN_IMD). */
module Scenario {
  import opened Base
  import opened Layout
  import opened Host
  import opened Decode
  import opened Opcodes
  import opened Machine
  import opened Outcome
  import opened Exec
  import opened Driver

  const ECHO_PROGRAM: seq<byte> :=
    [0x01, 0x00, 0x00, 0x00, 0x00, 0xb8, 0x22, 0x00, 0x00, 0x00, 0x00, 0x00, 0x00,
     0x33, 0x01, 0x00, 0x00, 0x00, 0x00, 0x00,
     0x28]

  /** The code buffer starts with the program. */
  predicate Loaded(code: seq<byte>) {
    |code| >= |ECHO_PROGRAM| && code[..|ECHO_PROGRAM|] == ECHO_PROGRAM
  }

  lemma LoadedBytes(code: seq<byte>)
    requires Loaded(code)
    ensures forall i :: 0 <= i < |ECHO_PROGRAM| ==> code[i] == ECHO_PROGRAM[i]
  {
    forall i | 0 <= i < |ECHO_PROGRAM|
      ensures code[i] == ECHO_PROGRAM[i]
    {
      assert code[..|ECHO_PROGRAM|][i] == code[i];
    }
  }

  /** The operand fields of the three instructions. */
  lemma EchoFields(code: seq<byte>)
    requires Loaded(code)
    ensures Field(code, 1, 4) == 0 && Field(code, 5, 8) == 8888
    ensures Field(code, 14, 2) == 1 && Field(code, 16, 4) == 0
  {
    LoadedBytes(code);
    Pow256Values();
    assert FieldNat(code, 5, 0) == 0;
    assert FieldNat(code, 4, 1) == 0;
    assert FieldNat(code, 3, 2) == 0;
    assert FieldNat(code, 2, 3) == 0;
    assert FieldNat(code, 1, 4) == 0;
    assert FieldNat(code, 13, 0) == 0;
    assert FieldNat(code, 12, 1) == 0;
    assert FieldNat(code, 11, 2) == 0;
    assert FieldNat(code, 10, 3) == 0;
    assert FieldNat(code, 9, 4) == 0;
    assert FieldNat(code, 8, 5) == 0;
    assert FieldNat(code, 7, 6) == 0;
    assert FieldNat(code, 6, 7) == 0x22;
    assert FieldNat(code, 5, 8) == 8888;
    assert FieldNat(code, 16, 0) == 0;
    assert FieldNat(code, 15, 1) == 0;
    assert FieldNat(code, 14, 2) == 1;
    assert FieldNat(code, 20, 0) == 0;
    assert FieldNat(code, 19, 1) == 0;
    assert FieldNat(code, 18, 2) == 0;
    assert FieldNat(code, 17, 3) == 0;
    assert FieldNat(code, 16, 4) == 0;
  }

  /** First step: SET_VAL writes 8888 into slot 0. */
  lemma EchoSetVal(cfg: Config, code: seq<byte>, vm: Vm)
    requires Wf(cfg, code, vm) && Loaded(code) && vm.st.pc == 0
    ensures CanStep(cfg, code, vm)
    ensures Step(cfg, code, vm) ==
      Out(13, vm.(st := vm.st.(pc := 13, steps := vm.st.steps + 1), mem := vm.mem[0 := 8888]))
  {
    LoadedBytes(code);
    EchoFields(code);
    assert OpAt(code, vm) == SetVal;
    assert GetAddrVal(code, cfg.DataSize(), 0) == Some((0, 8888));
    SetValEffect(cfg, code, vm, 0, 8888);
  }

  /** Second step: EXT_FUN_DAT calls `func1` 1 on slot 0, which echoes it. */
  lemma EchoCall(cfg: Config, code: seq<byte>, vm: Vm)
    requires Wf(cfg, code, vm) && Loaded(code) && vm.st.pc == 13
    ensures 0 < |vm.mem| && CanStep(cfg, code, vm)
    ensures Step(cfg, code, vm) ==
      Out(7, vm.(st := vm.st.(pc := 20, steps := vm.st.steps + 1),
                 host := vm.host.(out := vm.host.out + [Echo(vm.mem[0])])))
  {
    LoadedBytes(code);
    EchoFields(code);
    assert OpAt(code, vm) == ExtFunDat;
    assert GetFunAddr(code, cfg.DataSize(), 13) == Some((1, 0));
    Host1Effect(cfg, code, vm, ExtFunDat, 1, 0);
  }

  /** Third step: FIN_IMD finishes and returns to `pcs`. */
  lemma EchoFinish(cfg: Config, code: seq<byte>, vm: Vm)
    requires Wf(cfg, code, vm) && Loaded(code) && vm.st.pc == 20
    ensures CanStep(cfg, code, vm)
    ensures Step(cfg, code, vm) ==
      Out(0, vm.(st := vm.st.(pc := vm.st.pcs, finished := true, steps := vm.st.steps + 1)))
  {
    LoadedBytes(code);
    assert OpAt(code, vm) == FinImd;
  }

  /** The session: from `pc` 0 with a balance of at least 3 and no break
      point at 13 or 20, the run finishes after three steps and three units
      of balance, with 8888 in slot 0 and 8888 echoed. */
  lemma {:induction false} EchoSession(cfg: Config, code: seq<byte>, vm: Vm, breaks: set<int>, budget: nat)
    requires Wf(cfg, code, vm) && Loaded(code) && vm.st.pc == 0
    requires !vm.st.stopped && !vm.st.finished && 3 <= vm.host.balance && 3 <= budget
    requires 13 !in breaks && 20 !in breaks
    ensures var r := Run(cfg, code, vm, breaks, budget);
      && r.halt == Finished && 0 < |r.vm.mem| && r.vm.mem[0] == 8888
      && r.vm.host.out == vm.host.out + [Echo(8888)] && r.vm.host.balance == vm.host.balance - 3
      && r.vm.st.steps == vm.st.steps + 3 && r.vm.st.pc == vm.st.pcs
  {
    var step, ok := StepFn(cfg, code), CanStepFn(cfg, code);
    EchoSetVal(cfg, code, vm);
    var w1 := Charge(Step(cfg, code, vm).vm);
    assert Loop(step, ok, vm, breaks, budget) == Loop(step, ok, w1, breaks, budget - 1);
    EchoCall(cfg, code, w1);
    var w2 := Charge(Step(cfg, code, w1).vm);
    assert Loop(step, ok, w1, breaks, budget - 1) == Loop(step, ok, w2, breaks, budget - 2);
    EchoFinish(cfg, code, w2);
    var w3 := Charge(Step(cfg, code, w2).vm);
    assert Loop(step, ok, w2, breaks, budget - 2) == Stop(Finished, w3);
  }

  /** As typed at the console: after `reset_machine` with the start address
      0, `run` prints 8888. */
  lemma EchoAfterReset(cfg: Config, code: seq<byte>, vm: Vm, breaks: set<int>, budget: nat)
    requires Wf(cfg, code, vm) && Loaded(code) && vm.st.pcs == 0
    requires 3 <= vm.host.balance && 3 <= budget && 13 !in breaks && 20 !in breaks
    ensures var r := Run(cfg, code, ResetMachine(cfg, code, vm), breaks, budget);
      && r.halt == Finished && 0 < |r.vm.mem| && r.vm.mem[0] == 8888
      && r.vm.host.out == vm.host.out + [Echo(8888)] && r.vm.st.steps == 3
  {
    EchoSession(cfg, code, ResetMachine(cfg, code, vm), breaks, budget);
  }
}
