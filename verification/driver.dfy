/** The console's `reset_machine` and the `run`/`cont` loop: before and after
    every step the balance is checked, every step costs one unit of it, and
    the loop ends on a stop, a finish, a break point or a fault. */
module Driver {
  import opened Base
  import opened Layout
  import opened Host
  import opened Decode
  import opened Opcodes
  import opened Machine
  import opened Outcome
  import opened Exec
  import opened Jumps

  /** Why the loop ended. `Undefined` is an instruction whose C++ behaviour
      is undefined (see `Exec.Defined`); `OutOfBudget` is the model's bound
      on the number of iterations, which the source does not have. */
  datatype Halt = NoBalance | Stopped | Finished | BreakPoint | Fault(rc: int) | Undefined | OutOfBudget

  datatype Stop = Stop(halt: Halt, vm: Vm)

  /** `reset_machine`: the state is reset, the jump table is the scan of the
      code, the data buffer and both stacks are zeroed, the next host call
      is a first call again and every fixture cursor goes back to 0. */
  function ResetMachine(cfg: Config, code: seq<byte>, vm: Vm): (r: Vm)
    requires Wf(cfg, code, vm)
    ensures Wf(cfg, code, r)
    ensures r.st.pc == vm.st.pcs && r.st.pcs == vm.st.pcs && r.st.pce == vm.st.pce
    ensures r.st.cs == 0 && r.st.us == 0 && r.st.steps == 0 && r.st.regs == ZERO_REGS
    ensures !r.st.stopped && !r.st.finished && r.st.jumps == Visited(code, 0)
    ensures |r.mem| == |vm.mem| && forall i :: 0 <= i < |r.mem| ==> r.mem[i] == 0
    ensures r.host == vm.host.(firstCall := true, fixtures := r.host.fixtures)
    ensures |r.host.fixtures| == |vm.host.fixtures|
    ensures forall i :: 0 <= i < |vm.host.fixtures| ==>
      r.host.fixtures[i] == Entry(vm.host.fixtures[i].func, vm.host.fixtures[i].fixture.(offset := 0))
  {
    RewindAllKeepsWf(vm.host.fixtures);
    ScanStartsAtZero(code);
    Vm(ScanJumps(code, Reset(vm.st)), Zeros(|vm.mem|),
      vm.host.(firstCall := true, fixtures := RewindAll(vm.host.fixtures)))
  }

  /** Resetting a machine that was just reset changes nothing. */
  lemma ResetMachineIdempotent(cfg: Config, code: seq<byte>, vm: Vm)
    requires Wf(cfg, code, vm)
    ensures ResetMachine(cfg, code, ResetMachine(cfg, code, vm)) == ResetMachine(cfg, code, vm)
  {
    var r := ResetMachine(cfg, code, vm);
    var rr := ResetMachine(cfg, code, r);
    assert rr.st == r.st;
    assert rr.mem == r.mem;
    assert rr.host.fixtures == r.host.fixtures;
  }

  /** A reset forgets everything the program did: two machines that agree on
      the start address, the handler, the buffer size and the host's globals
      and fixture data reset to the same machine. */
  lemma ResetMachineForgetsRun(cfg: Config, code: seq<byte>, vm: Vm, other: Vm)
    requires Wf(cfg, code, vm) && Wf(cfg, code, other)
    requires other.st.pcs == vm.st.pcs && other.st.pce == vm.st.pce
    requires other.host.(firstCall := true, fixtures := []) == vm.host.(firstCall := true, fixtures := [])
    requires RewindAll(other.host.fixtures) == RewindAll(vm.host.fixtures)
    ensures ResetMachine(cfg, code, other) == ResetMachine(cfg, code, vm)
  {
    var r := ResetMachine(cfg, code, vm);
    var s := ResetMachine(cfg, code, other);
    assert s.st == r.st;
    assert s.mem == r.mem;
  }

  /** `--g_balance`, wrapping as an `int64_t` would. */
  function Charge(vm: Vm): (w: Vm)
    ensures w == vm.(host := w.host) && w.host == vm.host.(balance := w.host.balance)
    ensures vm.host.balance > I64_MIN ==> w.host.balance == vm.host.balance - 1
  {
    vm.(host := vm.host.(balance := Wrap64(vm.host.balance - 1)))
  }

  /** The `run`/`cont` loop for at most `budget` iterations, over any step
      function: `ok` says whether the next step may be taken, `step` takes
      it. The balance is checked before and after the step, the step is
      charged, and the loop ends on a fault, a stop (whose flag it clears),
      a finish or a break point at the new `pc`. */
  function Loop(step: Vm -> Out, ok: Vm -> bool, vm: Vm, breaks: set<int>, budget: nat): Stop
    decreases budget
  {
    if vm.host.balance == 0 then Stop(NoBalance, vm)
    else if budget == 0 then Stop(OutOfBudget, vm)
    else if !ok(vm) then Stop(Undefined, vm)
    else
      var o := step(vm);
      if o.vm.host.balance == 0 then Stop(NoBalance, o.vm)
      else
        var w := Charge(o.vm);
        if o.rc < 0 then Stop(Fault(o.rc), w)
        else if w.st.stopped then Stop(Stopped, w.(st := w.st.(stopped := false)))
        else if w.st.finished then Stop(Finished, w)
        else if w.st.pc in breaks then Stop(BreakPoint, w)
        else Loop(step, ok, w, breaks, budget - 1)
  }

  /** `process_op` may be taken: the machine is well formed and the
      instruction at `pc`, if any, has defined behaviour. */
  predicate CanStep(cfg: Config, code: seq<byte>, vm: Vm) {
    Wf(cfg, code, vm) && (vm.st.pc < |code| ==> Defined(cfg, code, vm, OpAt(code, vm)))
  }

  /** `process_op` as a total function; the loop never takes it where
      `CanStep` fails. */
  function TryStep(cfg: Config, code: seq<byte>, vm: Vm): Out {
    if CanStep(cfg, code, vm) then Step(cfg, code, vm) else Out(INVALID_OP, vm)
  }

  function StepFn(cfg: Config, code: seq<byte>): Vm -> Out {
    v => TryStep(cfg, code, v)
  }

  function CanStepFn(cfg: Config, code: seq<byte>): Vm -> bool {
    v => CanStep(cfg, code, v)
  }

  /** The console's loop over this machine. */
  function Run(cfg: Config, code: seq<byte>, vm: Vm, breaks: set<int>, budget: nat): Stop {
    Loop(StepFn(cfg, code), CanStepFn(cfg, code), vm, breaks, budget)
  }

  /** What one step must guarantee for the loop to keep the machine well
      formed: it stays well formed, keeps the jump table, counts at most one
      step and fails only with one of the three error codes. */
  predicate StepKeeps(cfg: Config, code: seq<byte>, v: Vm, o: Out) {
    && Wf(cfg, code, o.vm) && o.vm.st.jumps == v.st.jumps
    && v.st.steps <= o.vm.st.steps <= v.st.steps + 1
    && (o.rc < 0 ==> IsError(o.rc))
  }

  /** For any step function that keeps the machine well formed, the loop
      does too: the machine it ends with is well formed, has the same jump
      table and has counted at most one step per iteration. */
  lemma {:induction false} LoopKeepsWf(cfg: Config, code: seq<byte>, step: Vm -> Out, ok: Vm -> bool, vm: Vm,
    breaks: set<int>, budget: nat)
    requires Wf(cfg, code, vm)
    requires forall v :: Wf(cfg, code, v) && ok(v) ==> StepKeeps(cfg, code, v, step(v))
    ensures var r := Loop(step, ok, vm, breaks, budget);
      && Wf(cfg, code, r.vm) && r.vm.st.jumps == vm.st.jumps
      && vm.st.steps <= r.vm.st.steps <= vm.st.steps + budget
    decreases budget
  {
    if vm.host.balance != 0 && budget > 0 && ok(vm) {
      var o := step(vm);
      if o.vm.host.balance != 0 && o.rc >= 0 {
        var w := Charge(o.vm);
        if !w.st.stopped && !w.st.finished && w.st.pc !in breaks {
          LoopKeepsWf(cfg, code, step, ok, w, breaks, budget - 1);
        }
      }
    }
  }

  /** Why the loop may end, for a step function as in `LoopKeepsWf` that
      may be refused only inside the code: out of balance for `NoBalance`,
      one of the three error codes for a fault, a stop has cleared its flag,
      a finish or a break point is reported only when no earlier reason
      applies, and an undefined instruction lies inside the code. */
  lemma {:induction false} LoopHalts(cfg: Config, code: seq<byte>, step: Vm -> Out, ok: Vm -> bool, vm: Vm,
    breaks: set<int>, budget: nat)
    requires Wf(cfg, code, vm)
    requires forall v :: Wf(cfg, code, v) && ok(v) ==> StepKeeps(cfg, code, v, step(v))
    requires forall v :: Wf(cfg, code, v) && !ok(v) ==> v.st.pc < |code|
    ensures var r := Loop(step, ok, vm, breaks, budget);
      && (r.halt == NoBalance ==> r.vm.host.balance == 0)
      && (r.halt.Fault? ==> IsError(r.halt.rc))
      && (r.halt == Stopped ==> !r.vm.st.stopped)
      && (r.halt == Finished ==> r.vm.st.finished && !r.vm.st.stopped)
      && (r.halt == BreakPoint ==> r.vm.st.pc in breaks && !r.vm.st.stopped && !r.vm.st.finished)
      && (r.halt == Undefined ==> r.vm.st.pc < |code|)
    decreases budget
  {
    if vm.host.balance != 0 && budget > 0 && ok(vm) {
      var o := step(vm);
      if o.vm.host.balance != 0 && o.rc >= 0 {
        var w := Charge(o.vm);
        if !w.st.stopped && !w.st.finished && w.st.pc !in breaks {
          LoopHalts(cfg, code, step, ok, w, breaks, budget - 1);
        }
      }
    }
  }

  /** `process_op` meets what `LoopKeepsWf` and `LoopHalts` ask of a step. */
  lemma StepsKeep(cfg: Config, code: seq<byte>)
    ensures forall v :: Wf(cfg, code, v) && CanStepFn(cfg, code)(v) ==> StepKeeps(cfg, code, v, StepFn(cfg, code)(v))
    ensures forall v :: Wf(cfg, code, v) && !CanStepFn(cfg, code)(v) ==> v.st.pc < |code|
  {
  }

  /** The run loop keeps the machine well formed and its jump table, and
      counts at most one step per iteration. */
  lemma RunKeepsWf(cfg: Config, code: seq<byte>, vm: Vm, breaks: set<int>, budget: nat)
    requires Wf(cfg, code, vm)
    ensures var r := Run(cfg, code, vm, breaks, budget);
      && Wf(cfg, code, r.vm) && r.vm.st.jumps == vm.st.jumps
      && vm.st.steps <= r.vm.st.steps <= vm.st.steps + budget
  {
    StepsKeep(cfg, code);
    LoopKeepsWf(cfg, code, StepFn(cfg, code), CanStepFn(cfg, code), vm, breaks, budget);
  }

  /** Why the run loop may end; see `LoopHalts`. */
  lemma RunHalts(cfg: Config, code: seq<byte>, vm: Vm, breaks: set<int>, budget: nat)
    requires Wf(cfg, code, vm)
    ensures var r := Run(cfg, code, vm, breaks, budget);
      && (r.halt == NoBalance ==> r.vm.host.balance == 0)
      && (r.halt.Fault? ==> IsError(r.halt.rc))
      && (r.halt == Stopped ==> !r.vm.st.stopped)
      && (r.halt == Finished ==> r.vm.st.finished && !r.vm.st.stopped)
      && (r.halt == BreakPoint ==> r.vm.st.pc in breaks && !r.vm.st.stopped && !r.vm.st.finished)
      && (r.halt == Undefined ==> r.vm.st.pc < |code|)
  {
    StepsKeep(cfg, code);
    LoopHalts(cfg, code, StepFn(cfg, code), CanStepFn(cfg, code), vm, breaks, budget);
  }

  /** The budget only cuts the loop short: a run that ended for a reason of
      its own ends the same way with any larger budget. */
  lemma {:induction false} LoopBudgetMonotone(step: Vm -> Out, ok: Vm -> bool, vm: Vm, breaks: set<int>,
    budget: nat, more: nat)
    requires budget <= more && Loop(step, ok, vm, breaks, budget).halt != OutOfBudget
    ensures Loop(step, ok, vm, breaks, more) == Loop(step, ok, vm, breaks, budget)
    decreases budget
  {
    if vm.host.balance != 0 && budget > 0 && ok(vm) {
      var o := step(vm);
      if o.vm.host.balance != 0 && o.rc >= 0 {
        var w := Charge(o.vm);
        if !w.st.stopped && !w.st.finished && w.st.pc !in breaks {
          LoopBudgetMonotone(step, ok, w, breaks, budget - 1, more - 1);
        }
      }
    }
  }

  /** Past the end of the code every step does nothing but costs a unit, so
      the loop spins until the balance is gone. */
  lemma {:induction false} RunOffTheEnd(cfg: Config, code: seq<byte>, vm: Vm, breaks: set<int>, budget: nat)
    requires Wf(cfg, code, vm) && vm.st.pc >= |code| && vm.st.pc !in breaks
    requires !vm.st.stopped && !vm.st.finished && 0 <= vm.host.balance <= budget
    ensures Run(cfg, code, vm, breaks, budget) == Stop(NoBalance, vm.(host := vm.host.(balance := 0)))
    decreases budget
  {
    if vm.host.balance > 0 {
      var w := Charge(vm);
      assert TryStep(cfg, code, vm) == Out(0, vm);
      RunOffTheEnd(cfg, code, w, breaks, budget - 1);
      assert w.(host := w.host.(balance := 0)) == vm.(host := vm.host.(balance := 0));
    } else {
      assert vm.(host := vm.host.(balance := 0)) == vm;
    }
  }

  /** One iteration of the run loop that neither faults nor stops: the
      step is charged and the loop goes on. */
  lemma RunOneIteration(cfg: Config, code: seq<byte>, vm: Vm, breaks: set<int>, budget: nat, o: Out)
    requires CanStep(cfg, code, vm) && 0 < vm.host.balance && 0 < budget
    requires TryStep(cfg, code, vm) == o && 0 <= o.rc && o.vm.host.balance == vm.host.balance
    requires !o.vm.st.stopped && !o.vm.st.finished && o.vm.st.pc !in breaks
    ensures Run(cfg, code, vm, breaks, budget) == Run(cfg, code, Charge(o.vm), breaks, budget - 1)
  {
  }

  /** One iteration's step on a successful ERR_ADR, as written: the handler
      is installed, a step is counted, and `pc` stays where it is. */
  lemma ErrAdrStep(cfg: Config, code: seq<byte>, vm: Vm, a: int)
    requires Ready(cfg, code, vm) && OpAt(code, vm) == ErrAdr && cfg.dialect == AsWritten
    requires GetAddr(code, cfg.DataSize(), vm.st.pc, true) == Some(a) && a in vm.st.jumps
    ensures TryStep(cfg, code, vm) == Out(5, vm.(st := vm.st.(pce := a, steps := vm.st.steps + 1)))
  {
    assert Execute(cfg, code, vm) == ExecCodeAddr(cfg, code, vm, ErrAdr);
    CodeAddrEffect(cfg, code, vm, ErrAdr, a);
  }

  /** As written, an ERR_ADR whose handler is already installed leaves the
      machine as it is, so the loop re-executes it on every iteration,
      counting a step each time, until the balance runs out. */
  lemma {:induction false} ErrAdrSpins(cfg: Config, code: seq<byte>, vm: Vm, breaks: set<int>, budget: nat)
    requires Ready(cfg, code, vm) && OpAt(code, vm) == ErrAdr && cfg.dialect == AsWritten
    requires GetAddr(code, cfg.DataSize(), vm.st.pc, true) == Some(vm.st.pce) && vm.st.pce in vm.st.jumps
    requires vm.st.pc !in breaks && !vm.st.stopped && !vm.st.finished && 0 <= vm.host.balance <= budget
    ensures Run(cfg, code, vm, breaks, budget) ==
      Stop(NoBalance, vm.(st := vm.st.(steps := vm.st.steps + vm.host.balance), host := vm.host.(balance := 0)))
    decreases budget
  {
    if vm.host.balance > 0 {
      var v1 := vm.(st := vm.st.(steps := vm.st.steps + 1));
      ErrAdrStep(cfg, code, vm, vm.st.pce);
      assert vm.st.(pce := vm.st.pce, steps := vm.st.steps + 1) == v1.st;
      var w := Charge(v1);
      RunOneIteration(cfg, code, vm, breaks, budget, Out(5, v1));
      ErrAdrSpins(cfg, code, w, breaks, budget - 1);
    } else {
      assert vm.(st := vm.st.(steps := vm.st.steps), host := vm.host.(balance := 0)) == vm;
    }
  }

  /** A run that meets a successful ERR_ADR, as written: the first iteration
      installs the handler without moving `pc`, and from then on the same
      instruction is executed on every iteration until the balance is used
      up. Only the balance, the step count and `pce` change. */
  lemma ErrAdrDrainsBalance(cfg: Config, code: seq<byte>, vm: Vm, breaks: set<int>, budget: nat)
    requires Ready(cfg, code, vm) && OpAt(code, vm) == ErrAdr && cfg.dialect == AsWritten
    requires GetAddr(code, cfg.DataSize(), vm.st.pc, true).Some?
    requires GetAddr(code, cfg.DataSize(), vm.st.pc, true).value in vm.st.jumps
    requires vm.st.pc !in breaks && !vm.st.stopped && !vm.st.finished && 0 <= vm.host.balance <= budget
    ensures var a := GetAddr(code, cfg.DataSize(), vm.st.pc, true).value;
      Run(cfg, code, vm, breaks, budget) ==
        if vm.host.balance == 0 then Stop(NoBalance, vm)
        else Stop(NoBalance, vm.(st := vm.st.(pce := a, steps := vm.st.steps + vm.host.balance), host := vm.host.(balance := 0)))
  {
    if vm.host.balance == 0 {
      return;
    }
    var a := GetAddr(code, cfg.DataSize(), vm.st.pc, true).value;
    ErrAdrStep(cfg, code, vm, a);
    var v1 := vm.(st := vm.st.(pce := a, steps := vm.st.steps + 1));
    var w := Charge(v1);
    RunOneIteration(cfg, code, vm, breaks, budget, Out(5, v1));
    ErrAdrSpins(cfg, code, w, breaks, budget - 1);
  }
}
