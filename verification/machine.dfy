/** The machine state of the AT interpreter and its reset. */
module Machine {
  import opened Base
  import opened Layout
  import opened Host

  /** `machine_state`: program counters, stack depths, the step counter, the
      register file, the two status flags and the jump table (the set of
      instruction starts a control transfer may target). */
  datatype State = State(
    pc: int, pce: int, pcs: int, cs: int, us: int, steps: int,
    regs: Regs, stopped: bool, finished: bool, jumps: set<int>)

  /** Everything one step can change: the machine state, data memory (data
      slots, call stack, user stack, in that order) and the host globals. */
  datatype Vm = Vm(st: State, mem: seq<i64>, host: HostState)

  const ZERO_REGS := Regs(ZERO_QUAD, ZERO_QUAD)

  /** The invariant every step preserves: buffers of the configured sizes,
      counters not negative, stack depths within their stacks, jump-table
      entries inside the code, fixtures well formed. */
  predicate Wf(cfg: Config, code: seq<byte>, vm: Vm) {
    && cfg.Valid() && |code| == cfg.CodeSize() && |vm.mem| == cfg.MemSlots()
    && 0 <= vm.st.pc && 0 <= vm.st.pce && 0 <= vm.st.pcs
    && 0 <= vm.st.cs <= cfg.CallSlots() && 0 <= vm.st.us <= cfg.UserSlots()
    && (forall j :: j in vm.st.jumps ==> 0 <= j < |code|)
    && WfTable(vm.host.fixtures)
  }

  /** `machine_state::reset`: back to the start address `pcs` with empty
      stacks, no steps, cleared registers and flags and an empty jump table;
      `pcs` and `pce` survive. */
  function Reset(st: State): (r: State)
    ensures r.pcs == st.pcs && r.pce == st.pce
  {
    State(st.pcs, st.pce, st.pcs, 0, 0, 0, ZERO_REGS, false, false, {})
  }

  /** A reset state depends only on `pcs` and `pce`, so resetting twice is
      resetting once, and it starts at `pcs` with nothing on either stack. */
  lemma ResetIdempotent(st: State)
    ensures Reset(Reset(st)) == Reset(st)
    ensures var r := Reset(st); r.pc == r.pcs && r.cs == 0 && r.us == 0 && r.steps == 0
    ensures var r := Reset(st); r.jumps == {} && !r.stopped && !r.finished && r.regs == ZERO_REGS
    ensures forall t: State :: t.pcs == st.pcs && t.pce == st.pce ==> Reset(t) == Reset(st)
  {
  }

  function Zeros(n: nat): (s: seq<i64>)
    ensures |s| == n && forall i :: 0 <= i < n ==> s[i] == 0
  {
    seq(n, _ => 0)
  }
}
