/** The jump-table scan: `list_code` with `determine_jumps` walks the code
    from position 0 in disassembly mode, recording every position it visits
    before decoding it. Disassembly steps by each instruction's length even
    when its operands would not validate, and the walk ends at the first
    unknown opcode (which is still recorded) or at the end of the code.

    The walk is defined over any length function, so that its properties are
    proved once without unfolding the decoder; `Visited` instantiates it
    with the disassembler's lengths. */
module Jumps {
  import opened Base
  import opened Opcodes
  import opened Machine

  /** The positions a walk records from `pc` when the instruction at each
      position below `end` is `len(p)` bytes long, 0 meaning "stop here". */
  function Walk(len: int -> nat, end: nat, pc: nat): set<int>
    decreases end - pc
  {
    if pc >= end then {}
    else
      var n := len(pc);
      if n == 0 then {pc} else {pc} + Walk(len, end, pc + n)
  }

  /** The disassembler's instruction lengths. */
  function LengthFn(code: seq<byte>): int -> nat {
    p => if 0 <= p then InsnLength(code, p) else 0
  }

  /** The positions the scan records when it reaches `pc`. */
  function Visited(code: seq<byte>, pc: nat): set<int> {
    Walk(LengthFn(code), |code|, pc)
  }

  /** `LengthFn` is the disassembler's length at every position. */
  lemma LengthAt(code: seq<byte>, p: nat)
    ensures LengthFn(code)(p) == InsnLength(code, p)
  {
  }

  /** A walk records where it starts, if that is below the end, and only
      positions from there to the end. */
  lemma {:induction false} WalkInside(len: int -> nat, end: nat, pc: nat)
    ensures forall p :: p in Walk(len, end, pc) ==> pc <= p < end
    ensures pc < end <==> pc in Walk(len, end, pc)
    decreases end - pc
  {
    if pc < end && len(pc) > 0 {
      WalkInside(len, end, pc + len(pc));
    }
  }

  /** One step of a walk inside its bounds. */
  lemma WalkCons(len: int -> nat, end: nat, pc: nat)
    requires pc < end
    ensures Walk(len, end, pc) == if len(pc) == 0 then {pc} else {pc} + Walk(len, end, pc + len(pc))
  {
  }

  /** What a loop that has recorded `done` and stands at `pc` has left to
      record after recording `pc`. */
  lemma WalkRecords(len: int -> nat, end: nat, pc: nat, done: set<int>, all: set<int>)
    requires pc < end && done + Walk(len, end, pc) == all
    ensures len(pc) == 0 ==> done + {pc} == all
    ensures len(pc) > 0 ==> (done + {pc}) + Walk(len, end, pc + len(pc)) == all
  {
    WalkCons(len, end, pc);
  }

  /** The walk is closed under stepping: from a recorded position with a
      non-zero length it goes on to the position just past it, unless that
      is at or past the end. */
  lemma {:induction false} WalkSteps(len: int -> nat, end: nat, pc: nat, p: int)
    requires p in Walk(len, end, pc)
    ensures len(p) > 0 && p + len(p) < end ==> p + len(p) in Walk(len, end, pc)
    decreases end - pc
  {
    if p != pc {
      WalkSteps(len, end, pc + len(pc), p);
    }
  }

  /** `WalkSteps` from position 0 with the length at `p` named, so that a
      caller need not apply `len` itself. */
  lemma WalkStepsBy(len: int -> nat, end: nat, p: nat, n: int)
    requires p in Walk(len, end, 0) && len(p) == n
    ensures n > 0 && p + n < end ==> p + n in Walk(len, end, 0)
  {
    if n > 0 && p + n < end {
      WalkSteps(len, end, 0, p);
    }
  }

  /** Every recorded position is either where the walk started or the end of
      a recorded instruction. */
  lemma {:induction false} WalkReachedByStepping(len: int -> nat, end: nat, pc: nat, p: int)
    requires p in Walk(len, end, pc) && p != pc
    ensures exists q :: q in Walk(len, end, pc) && q < p && q + len(q) == p
    decreases end - pc
  {
    var n := len(pc);
    if p == pc + n {
      assert pc in Walk(len, end, pc) && pc < p;
    } else {
      WalkReachedByStepping(len, end, pc + n, p);
      var q :| q in Walk(len, end, pc + n) && q < p && q + len(q) == p;
      assert q in Walk(len, end, pc);
    }
  }

  /** A position of length 0 is the last one recorded. */
  lemma {:induction false} WalkStopsAtZero(len: int -> nat, end: nat, pc: nat, p: int)
    requires p in Walk(len, end, pc) && len(p) == 0
    ensures forall q :: q in Walk(len, end, pc) ==> q <= p
    decreases end - pc
  {
    if p != pc {
      WalkStopsAtZero(len, end, pc + len(pc), p);
    }
  }

  /** No position strictly inside a recorded instruction is recorded. */
  lemma {:induction false} WalkSkipsInside(len: int -> nat, end: nat, pc: nat, p: int, i: int)
    requires p in Walk(len, end, pc) && p < i < p + len(p)
    ensures i !in Walk(len, end, pc)
    decreases end - pc
  {
    WalkInside(len, end, pc);
    if p != pc {
      WalkSkipsInside(len, end, pc + len(pc), p, i);
    } else {
      WalkInside(len, end, pc + len(pc));
    }
  }

  /** The scan as the source's loop runs it: record, decode the length, stop
      on a length of 0, otherwise step. The table it adds is the one
      `Visited` describes from position 0. */
  method ListCode(code: seq<byte>) returns (jumps: set<int>)
    ensures jumps == Visited(code, 0)
  {
    jumps := WalkLoop(LengthFn(code), |code|);
  }

  /** The loop of `list_code` for any length function: record `pc`, take
      the length, stop on 0, otherwise step past the instruction. */
  method WalkLoop(len: int -> nat, end: nat) returns (jumps: set<int>)
    ensures jumps == Walk(len, end, 0)
  {
    var pc: nat := 0;
    jumps := {};
    while pc < end
      invariant jumps + Walk(len, end, pc) == Walk(len, end, 0)
      decreases end - pc
    {
      var rc := len(pc);
      WalkRecords(len, end, pc, jumps, Walk(len, end, 0));
      jumps := jumps + {pc};
      if rc <= 0 {
        break;
      }
      pc := pc + rc;
    }
    WalkInside(len, end, pc);
  }

  /** `list_code` on a machine state: the visited positions join the jump
      table, and `pc` and the step counter are restored. */
  function ScanJumps(code: seq<byte>, st: State): (r: State)
    ensures r == st.(jumps := r.jumps)
    ensures r.jumps == st.jumps + Visited(code, 0)
  {
    st.(jumps := st.jumps + Visited(code, 0))
  }

  /** The scan starts at 0, and every recorded position lies inside the code. */
  lemma ScanStartsAtZero(code: seq<byte>)
    ensures |code| > 0 <==> 0 in Visited(code, 0)
    ensures forall p :: p in Visited(code, 0) ==> 0 <= p < |code|
  {
    WalkInside(LengthFn(code), |code|, 0);
  }

  /** From a recorded position with a known opcode the scan goes on to the
      position just past the instruction, unless that is past the code. */
  lemma ScanSteps(code: seq<byte>, p: nat)
    requires p in Visited(code, 0)
    ensures var n := InsnLength(code, p); n > 0 && p + n < |code| ==> p + n in Visited(code, 0)
  {
    LengthAt(code, p);
    VisitedSteps(code, p, InsnLength(code, p));
  }

  /** `ScanSteps` with the length at `p` named. */
  lemma VisitedSteps(code: seq<byte>, p: nat, n: int)
    requires p in Visited(code, 0) && LengthFn(code)(p) == n
    ensures n > 0 && p + n < |code| ==> p + n in Visited(code, 0)
  {
    WalkStepsBy(LengthFn(code), |code|, p, n);
  }

  /** Every recorded position other than 0 is the end of a recorded
      instruction: nothing is recorded out of thin air. */
  lemma ScanReachedByStepping(code: seq<byte>, p: nat)
    requires p in Visited(code, 0) && p != 0
    ensures exists q :: q in Visited(code, 0) && 0 <= q < p && q + InsnLength(code, q) == p
  {
    WalkReachedByStepping(LengthFn(code), |code|, 0, p);
    var q :| q in Visited(code, 0) && q < p && q + LengthFn(code)(q) == p;
    assert 0 <= q && q + InsnLength(code, q) == p;
  }

  /** A position with an unknown opcode ends the scan: it is the last
      position recorded. */
  lemma UnknownEndsScan(code: seq<byte>, p: nat)
    requires p in Visited(code, 0) && p < |code| && OpOf(code[p]) == Unknown
    ensures forall q :: q in Visited(code, 0) ==> q <= p
  {
    InsnLengthPositive(code, p);
    WalkStopsAtZero(LengthFn(code), |code|, 0, p);
  }

  /** Recorded positions are instruction starts: no position strictly inside
      a recorded instruction is recorded. In particular a jump into the
      middle of a NOP run or of an operand is never in the table. */
  lemma NoneInsideAnInstruction(code: seq<byte>, p: nat, i: int)
    requires p in Visited(code, 0) && p < i < p + InsnLength(code, p)
    ensures i !in Visited(code, 0)
  {
    WalkSkipsInside(LengthFn(code), |code|, 0, p, i);
  }

  /** A reset machine state gets exactly the scanned table: `reset` empties
      it and `list_code` fills it. */
  lemma ResetThenScan(code: seq<byte>, st: State)
    ensures var r := ScanJumps(code, Reset(st));
      r.jumps == Visited(code, 0) && r.pc == st.pcs && r.steps == 0
  {
  }
}
