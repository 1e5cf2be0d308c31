/** The host-function facade behind the EXT_FUN opcodes: `func` (no argument),
    `func1` (one argument) and `func2` (two arguments), keyed by a function
    number. Built-in numbers act on the A/B register file or on the test
    globals (a counter `val`, the balance); any other number falls back to a
    scripted fixture when one is registered for it, and returns 0 otherwise.
    Console output (echo and payouts) is recorded as a trace of events. */
module Host {
  import opened Base

  datatype Quad = Quad(r1: i64, r2: i64, r3: i64, r4: i64)

  /** The register groups A = a1..a4 and B = b1..b4. */
  datatype Regs = Regs(a: Quad, b: Quad)

  const ZERO_QUAD := Quad(0, 0, 0, 0)

  /** A scripted value sequence with its cursor. */
  datatype Fixture = Fixture(loop: bool, offset: nat, data: seq<i64>)

  /** One fixture per function number; kept in ascending key order like the
      source's `std::map`. */
  datatype Entry = Entry(func: int, fixture: Fixture)

  datatype Event = Echo(value: i64) | Payout(amount: i64, account: i64)

  /** The host globals: `g_val`, `g_val1`, `g_balance`, `g_first_call`,
      `g_increment_func`, `g_function_data`, and the console trace. */
  datatype HostState = HostState(
    val: i64, val1: i64, balance: i64, firstCall: bool, incrementFunc: int,
    fixtures: seq<Entry>, out: seq<Event>)

  /** Result of one host call: its return value, the registers and the host after it. */
  datatype Call = Call(rc: i64, regs: Regs, host: HostState)

  // ------------------------------------------------------------ fixtures

  predicate WfFixture(f: Fixture) { 0 < |f.data| && f.offset < |f.data| }

  predicate SortedKeys(t: seq<Entry>) {
    forall i, j :: 0 <= i < j < |t| ==> t[i].func < t[j].func
  }

  /** Every registered sequence is non-empty and its cursor points into it;
      keys are strictly ascending. */
  predicate WfTable(t: seq<Entry>) {
    SortedKeys(t) && forall i :: 0 <= i < |t| ==> WfFixture(t[i].fixture)
  }

  function Keys(t: seq<Entry>): seq<int> {
    seq(|t|, i requires 0 <= i < |t| => t[i].func)
  }

  /** Position of function number `k` in the table, or -1. */
  function IndexOf(t: seq<Entry>, k: int): (i: int)
    ensures -1 <= i < |t|
    ensures i == -1 <==> forall j :: 0 <= j < |t| ==> t[j].func != k
    ensures 0 <= i ==> t[i].func == k
  {
    IndexFrom(t, k, 0)
  }

  /** Position of `k` at or after `from`, or -1. */
  function IndexFrom(t: seq<Entry>, k: int, from: nat): (i: int)
    requires from <= |t|
    ensures -1 <= i < |t| && (i == -1 || from <= i)
    ensures i == -1 <==> forall j :: from <= j < |t| ==> t[j].func != k
    ensures 0 <= i ==> t[i].func == k
    decreases |t| - from
  {
    if from == |t| then -1
    else if t[from].func == k then from
    else IndexFrom(t, k, from + 1)
  }

  predicate Registered(t: seq<Entry>, k: int) { IndexOf(t, k) >= 0 }

  /** One cursor move: to the next value, or at the end back to the start
      when looping, or staying on the last value otherwise. */
  function Advance(f: Fixture): (g: Fixture)
    ensures g.loop == f.loop && g.data == f.data
    ensures WfFixture(f) ==> WfFixture(g)
    ensures WfFixture(f) && f.loop ==> g.offset == (f.offset + 1) % |f.data|
    ensures WfFixture(f) && !f.loop ==> g.offset == Min(f.offset + 1, |f.data| - 1)
  {
    if f.offset + 1 >= |f.data| then (if f.loop then f.(offset := 0) else f)
    else f.(offset := f.offset + 1)
  }

  function AdvanceAll(t: seq<Entry>): (u: seq<Entry>)
    ensures |u| == |t| && Keys(u) == Keys(t)
    ensures forall i :: 0 <= i < |t| ==> u[i] == Entry(t[i].func, Advance(t[i].fixture))
  {
    seq(|t|, i requires 0 <= i < |t| => Entry(t[i].func, Advance(t[i].fixture)))
  }

  function RewindAll(t: seq<Entry>): (u: seq<Entry>)
    ensures |u| == |t| && Keys(u) == Keys(t)
    ensures forall i :: 0 <= i < |t| ==> u[i] == Entry(t[i].func, t[i].fixture.(offset := 0))
  {
    seq(|t|, i requires 0 <= i < |t| => Entry(t[i].func, t[i].fixture.(offset := 0)))
  }

  lemma AdvanceAllKeepsWf(t: seq<Entry>)
    requires WfTable(t)
    ensures WfTable(AdvanceAll(t))
  {
    var u := AdvanceAll(t);
    forall i, j | 0 <= i < j < |u| ensures u[i].func < u[j].func {
      assert u[i].func == t[i].func && u[j].func == t[j].func;
    }
  }

  lemma RewindAllKeepsWf(t: seq<Entry>)
    requires WfTable(t)
    ensures WfTable(RewindAll(t))
  {
    var u := RewindAll(t);
    forall i, j | 0 <= i < j < |u| ensures u[i].func < u[j].func {
      assert u[i].func == t[i].func && u[j].func == t[j].func;
    }
  }

  datatype Fetch = Fetch(value: i64, host: HostState)

  /** `get_function_data`: when `k` is the increment function, its first call
      only clears `firstCall` and every later call advances every cursor of the
      table; the result is the value under `k`'s cursor afterwards. */
  function GetFunctionData(h: HostState, k: int): (r: Fetch)
    requires WfTable(h.fixtures) && Registered(h.fixtures, k)
    ensures WfTable(r.host.fixtures) && Keys(r.host.fixtures) == Keys(h.fixtures)
    ensures r.host == h.(firstCall := r.host.firstCall, fixtures := r.host.fixtures)
    ensures r.host.firstCall == (h.firstCall && k != h.incrementFunc)
    ensures r.host.fixtures == (if k == h.incrementFunc && !h.firstCall then AdvanceAll(h.fixtures) else h.fixtures)
    ensures var f := r.host.fixtures[IndexOf(h.fixtures, k)].fixture; r.value == f.data[f.offset]
  {
    var h1 :=
      if k != h.incrementFunc then h
      else if h.firstCall then h.(firstCall := false)
      else h.(fixtures := AdvanceAll(h.fixtures));
    AdvanceAllKeepsWf(h.fixtures);
    var i := IndexOf(h.fixtures, k);
    assert h1.fixtures[i].func == k;
    var f := h1.fixtures[i].fixture;
    Fetch(f.data[f.offset], h1)
  }

  /** `n` cursor moves. */
  function AdvanceN(f: Fixture, n: nat): (g: Fixture)
    ensures g.loop == f.loop && g.data == f.data
  {
    if n == 0 then f else Advance(AdvanceN(f, n - 1))
  }

  /** A looping cursor advanced `n` times sits `n` places further, modulo the
      length of its sequence. */
  lemma {:induction false} LoopingCursor(f: Fixture, n: nat)
    requires WfFixture(f) && f.loop
    ensures WfFixture(AdvanceN(f, n))
    ensures AdvanceN(f, n).offset == (f.offset + n) % |f.data|
  {
    if n > 0 {
      LoopingCursor(f, n - 1);
      var L := |f.data|;
      var o := (f.offset + n - 1) % L;
      assert AdvanceN(f, n).offset == (o + 1) % L;
      ModSucc(f.offset + n - 1, L);
    }
  }

  lemma ModSucc(x: nat, L: nat)
    requires L > 0
    ensures (x % L + 1) % L == (x + 1) % L
  {
    var q, r := x / L, x % L;
    if r + 1 == L {
      ModUnique(x + 1, q + 1, 0, L);
      ModUnique(r + 1, 1, 0, L);
    } else {
      ModUnique(x + 1, q, r + 1, L);
      ModUnique(r + 1, 0, r + 1, L);
    }
  }

  /** A non-looping cursor advanced `n` times stops on the last value. */
  lemma {:induction false} ClampingCursor(f: Fixture, n: nat)
    requires WfFixture(f) && !f.loop
    ensures WfFixture(AdvanceN(f, n))
    ensures AdvanceN(f, n).offset == Min(f.offset + n, |f.data| - 1)
  {
    if n > 0 {
      ClampingCursor(f, n - 1);
    }
  }

  // ------------------------------------------------- register-file helpers

  function Or4(x: Quad, y: Quad): Quad {
    Quad(Bitwise64(Or, x.r1, y.r1), Bitwise64(Or, x.r2, y.r2), Bitwise64(Or, x.r3, y.r3), Bitwise64(Or, x.r4, y.r4))
  }

  function And4(x: Quad, y: Quad): Quad {
    Quad(Bitwise64(And, x.r1, y.r1), Bitwise64(And, x.r2, y.r2), Bitwise64(And, x.r3, y.r3), Bitwise64(And, x.r4, y.r4))
  }

  function Xor4(x: Quad, y: Quad): Quad {
    Quad(Bitwise64(Xor, x.r1, y.r1), Bitwise64(Xor, x.r2, y.r2), Bitwise64(Xor, x.r3, y.r3), Bitwise64(Xor, x.r4, y.r4))
  }

  function Flag(b: bool): i64 { if b then 1 else 0 }

  /** Value returned by a number without a built-in meaning. */
  function Fallback(regs: Regs, h: HostState, k: int): (c: Call)
    requires WfTable(h.fixtures)
    ensures WfTable(c.host.fixtures) && Keys(c.host.fixtures) == Keys(h.fixtures)
    ensures c.regs == regs && c.host.out == h.out && c.host.balance == h.balance
    ensures !Registered(h.fixtures, k) ==> c == Call(0, regs, h)
  {
    if Registered(h.fixtures, k) then
      var r := GetFunctionData(h, k);
      Call(r.value, regs, r.host)
    else Call(0, regs, h)
  }

  // --------------------------------------------------------------- func

  /** The numbers `func` handles itself. */
  predicate Builtin0(k: int) {
    k in {1, 2, 3, 4, 25, 32} || 0x100 <= k <= 0x107 || 0x120 <= k <= 0x12e
  }

  /** `func`: the zero-argument host call. */
  function Func0(k: int, regs: Regs, h: HostState): (c: Call)
    requires WfTable(h.fixtures)
    ensures WfTable(c.host.fixtures) && Keys(c.host.fixtures) == Keys(h.fixtures)
    ensures c.host.out == h.out && c.host.balance == h.balance
  {
    var a := regs.a;
    var b := regs.b;
    if k == 1 then Call(h.val, regs, h)
    else if k == 2 then
      var v: i64 := if h.val == 9 then 0 else Wrap64(h.val + 1);
      Call(v, regs, h.(val := v))
    else if k == 3 then Call(10, regs, h)
    else if k == 4 then Call(k, regs, h)
    else if k == 25 || k == 32 then
      if Registered(h.fixtures, k) then
        RewindAllKeepsWf(h.fixtures);
        Call(h.balance, regs, h.(firstCall := true, fixtures := RewindAll(h.fixtures)))
      else Call(h.balance, regs, h)
    else if k == 0x100 then Call(a.r1, regs, h)
    else if k == 0x101 then Call(a.r2, regs, h)
    else if k == 0x102 then Call(a.r3, regs, h)
    else if k == 0x103 then Call(a.r4, regs, h)
    else if k == 0x104 then Call(b.r1, regs, h)
    else if k == 0x105 then Call(b.r2, regs, h)
    else if k == 0x106 then Call(b.r3, regs, h)
    else if k == 0x107 then Call(b.r4, regs, h)
    else if k == 0x120 then Call(0, Regs(ZERO_QUAD, b), h)
    else if k == 0x121 then Call(0, Regs(a, ZERO_QUAD), h)
    else if k == 0x122 then Call(0, Regs(ZERO_QUAD, ZERO_QUAD), h)
    else if k == 0x123 then Call(0, Regs(b, b), h)
    else if k == 0x124 then Call(0, Regs(a, a), h)
    else if k == 0x125 then Call(Flag(a.r1 == 0 && a.r2 == 0 && a.r3 == 0 && a.r4 == 0), regs, h)
    else if k == 0x126 then Call(Flag(b.r1 == 0 && b.r2 == 0 && b.r3 == 0 && b.r4 == 0), regs, h)
    else if k == 0x127 then Call(Flag(a.r1 == b.r1 && a.r2 == b.r2 && a.r3 == b.r3 && a.r4 == b.r4), regs, h)
    else if k == 0x128 then Call(0, Regs(b, a), h)
    else if k == 0x129 then Call(0, Regs(Or4(a, b), b), h)
    else if k == 0x12a then Call(0, Regs(a, Or4(a, b)), h)
    else if k == 0x12b then Call(0, Regs(And4(a, b), b), h)
    else if k == 0x12c then Call(0, Regs(a, And4(a, b)), h)
    else if k == 0x12d then Call(0, Regs(Xor4(a, b), b), h)
    else if k == 0x12e then Call(0, Regs(a, Xor4(a, b)), h)
    else Fallback(regs, h, k)
  }

  // -------------------------------------------------------------- func1

  predicate Builtin1(k: int) {
    k in {1, 2, 3, 26, 33} || 0x110 <= k <= 0x113 || 0x116 <= k <= 0x119
  }

  /** `func1`: the one-argument host call. */
  function Func1(k: int, regs: Regs, h: HostState, v: i64): (c: Call)
    requires WfTable(h.fixtures)
    ensures WfTable(c.host.fixtures) && Keys(c.host.fixtures) == Keys(h.fixtures)
  {
    var a := regs.a;
    var b := regs.b;
    if k == 1 then Call(0, regs, h.(out := h.out + [Echo(v)]))
    else if k == 2 then Call(Wrap64(v * 2), regs, h)
    else if k == 3 then Call(TruncDiv(v, 2), regs, h)
    else if k == 26 || k == 33 then
      Call(0, regs, h.(out := h.out + [Payout(h.balance, v)], balance := 0))
    else if k == 0x110 then Call(0, Regs(a.(r1 := v), b), h)
    else if k == 0x111 then Call(0, Regs(a.(r2 := v), b), h)
    else if k == 0x112 then Call(0, Regs(a.(r3 := v), b), h)
    else if k == 0x113 then Call(0, Regs(a.(r4 := v), b), h)
    else if k == 0x116 then Call(0, Regs(a, b.(r1 := v)), h)
    else if k == 0x117 then Call(0, Regs(a, b.(r2 := v)), h)
    else if k == 0x118 then Call(0, Regs(a, b.(r3 := v)), h)
    else if k == 0x119 then Call(0, Regs(a, b.(r4 := v)), h)
    else Fallback(regs, h, k)
  }

  // -------------------------------------------------------------- func2

  predicate Builtin2(k: int) {
    k in {2, 3, 4, 31, 0x114, 0x115, 0x11a, 0x11b}
  }

  /** C++ leaves `value1 / value2` undefined for a zero divisor and for
      INT64_MIN / -1; function 3 of `func2` must avoid both. */
  predicate Func2Defined(k: int, v1: int, v2: int) {
    k == 3 ==> v2 != 0 && !(v1 == I64_MIN && v2 == -1)
  }

  /** `func2`: the two-argument host call. */
  function Func2(k: int, regs: Regs, h: HostState, v1: i64, v2: i64): (c: Call)
    requires WfTable(h.fixtures) && Func2Defined(k, v1, v2)
    ensures WfTable(c.host.fixtures) && Keys(c.host.fixtures) == Keys(h.fixtures)
  {
    var a := regs.a;
    var b := regs.b;
    if k == 2 then Call(Wrap64(v1 * v2), regs, h)
    else if k == 3 then Call(TruncDiv(v1, v2), regs, h)
    else if k == 4 then Call(Wrap64(v1 + v2), regs, h)
    else if k == 31 then
      var amount := if v1 > h.balance then h.balance else v1;
      Call(0, regs, h.(out := h.out + [Payout(amount, v2)], balance := Wrap64(h.balance - amount)))
    else if k == 0x114 then Call(0, Regs(a.(r1 := v1, r2 := v2), b), h)
    else if k == 0x115 then Call(0, Regs(a.(r3 := v1, r4 := v2), b), h)
    else if k == 0x11a then Call(0, Regs(a, b.(r1 := v1, r2 := v2)), h)
    else if k == 0x11b then Call(0, Regs(a, b.(r3 := v1, r4 := v2)), h)
    else Fallback(regs, h, k)
  }

  // ------------------------------------------------------------ properties

  /** Function 1 of `func` returns `val`; 3 and 4 return 10 and 4; none of
      them changes anything. */
  lemma FixedReturns(regs: Regs, h: HostState)
    requires WfTable(h.fixtures)
    ensures Func0(1, regs, h) == Call(h.val, regs, h)
    ensures Func0(3, regs, h) == Call(10, regs, h)
    ensures Func0(4, regs, h) == Call(4, regs, h)
  {
  }

  /** Function 2 of `func` counts 1, 2, ..., 9, 0, 1, ...: from a value in
      0..9 it returns and stores the next value modulo 10. */
  lemma CounterStep(regs: Regs, h: HostState)
    requires WfTable(h.fixtures) && 0 <= h.val <= 9
    ensures var c := Func0(2, regs, h);
      c.rc == (h.val + 1) % 10 && c.host == h.(val := c.rc) && c.regs == regs
  {
  }

  function CountN(regs: Regs, h: HostState, n: nat): (g: HostState)
    requires WfTable(h.fixtures)
    ensures WfTable(g.fixtures)
  {
    if n == 0 then h else Func0(2, regs, CountN(regs, h, n - 1)).host
  }

  /** After `n` calls of the counter its value is `n` further, modulo 10. */
  lemma {:induction false} CounterCycles(regs: Regs, h: HostState, n: nat)
    requires WfTable(h.fixtures) && 0 <= h.val <= 9
    ensures CountN(regs, h, n) == h.(val := (h.val + n) % 10)
  {
    if n > 0 {
      CounterCycles(regs, h, n - 1);
      CounterStep(regs, CountN(regs, h, n - 1));
      ModSucc(h.val + n - 1, 10);
    }
  }

  /** Ten calls of the counter bring it back to where it started. */
  lemma CounterPeriod(regs: Regs, h: HostState)
    requires WfTable(h.fixtures) && 0 <= h.val <= 9
    ensures CountN(regs, h, 10) == h
  {
    CounterCycles(regs, h, 10);
  }

  /** Halving (function 3 of `func1`) undoes doubling (function 2) for every
      value whose double does not overflow. */
  lemma HalveUndoesDouble(regs: Regs, h: HostState, v: i64)
    requires WfTable(h.fixtures) && InI64(2 * v)
    ensures Func1(3, regs, h, Func1(2, regs, h, v).rc).rc == v
  {
    HalveOfDouble(v);
  }

  /** Multiply (2) and sum (4) of `func2` are the wrapping product and sum:
      symmetric in their arguments, 0 and 1 neutral, nothing else changed. */
  lemma MultiplyAndSum(regs: Regs, h: HostState, x: i64, y: i64)
    requires WfTable(h.fixtures)
    ensures Func2(2, regs, h, x, y).rc == Func2(2, regs, h, y, x).rc
    ensures Func2(4, regs, h, x, y).rc == Func2(4, regs, h, y, x).rc
    ensures Func2(2, regs, h, x, 1).rc == x && Func2(4, regs, h, x, 0).rc == x
    ensures Func2(2, regs, h, x, y).regs == regs && Func2(2, regs, h, x, y).host == h
    ensures Func2(4, regs, h, x, y).regs == regs && Func2(4, regs, h, x, y).host == h
  {
    assert x * y == y * x;
  }

  /** Reading the balance (25 or 32) returns it; when that number also has a
      fixture, every cursor is rewound and `firstCall` is set again. */
  lemma BalanceReadRewinds(k: int, regs: Regs, h: HostState)
    requires WfTable(h.fixtures) && (k == 25 || k == 32)
    ensures var c := Func0(k, regs, h);
      && c.rc == h.balance && c.regs == regs
      && (Registered(h.fixtures, k) ==>
            c.host.firstCall && |c.host.fixtures| == |h.fixtures|
            && forall i :: 0 <= i < |h.fixtures| ==>
                 c.host.fixtures[i] == Entry(h.fixtures[i].func, h.fixtures[i].fixture.(offset := 0)))
      && (!Registered(h.fixtures, k) ==> c.host == h)
  {
  }

  /** The full payout (26 or 33) pays out the whole balance and leaves zero. */
  lemma FullPayout(k: int, regs: Regs, h: HostState, account: i64)
    requires WfTable(h.fixtures) && (k == 26 || k == 33)
    ensures var c := Func1(k, regs, h, account);
      c.host.balance == 0 && c.host.out == h.out + [Payout(h.balance, account)] && c.rc == 0 && c.regs == regs
  {
  }

  /** The partial payout (31) pays the requested amount clamped to the
      balance; a non-negative request on a non-negative balance leaves a
      balance between 0 and the old one. */
  lemma PartialPayoutClamps(regs: Regs, h: HostState, amount: i64, account: i64)
    requires WfTable(h.fixtures)
    ensures var c := Func2(31, regs, h, amount, account);
      var paid := Min(amount, h.balance);
      && c.host.out == h.out + [Payout(paid, account)]
      && c.host.balance == Wrap64(h.balance - paid)
      && (0 <= amount && 0 <= h.balance ==> 0 <= c.host.balance <= h.balance && c.host.balance == h.balance - paid)
  {
  }

  /** Setting a register through `func1` and reading it back through `func`
      returns the value set (A1..A4 via 0x110.., B1..B4 via 0x116..). */
  lemma SetThenGet(i: int, regs: Regs, h: HostState, v: i64)
    requires WfTable(h.fixtures) && 0 <= i < 4
    ensures var s := Func1(0x110 + i, regs, h, v); Func0(0x100 + i, s.regs, s.host).rc == v
    ensures var s := Func1(0x116 + i, regs, h, v); Func0(0x104 + i, s.regs, s.host).rc == v
  {
  }

  /** Swapping A and B twice restores both groups. */
  lemma SwapTwice(regs: Regs, h: HostState)
    requires WfTable(h.fixtures)
    ensures var s := Func0(0x128, regs, h); Func0(0x128, s.regs, s.host) == Call(0, regs, h)
  {
  }

  /** After a copy (0x123 or 0x124) the A-equals-B check (0x127) returns 1;
      after clearing A (0x120) the A-is-zero check (0x125) returns 1. */
  lemma CopyAndClearChecks(regs: Regs, h: HostState)
    requires WfTable(h.fixtures)
    ensures var s := Func0(0x123, regs, h); Func0(0x127, s.regs, s.host).rc == 1
    ensures var s := Func0(0x124, regs, h); Func0(0x127, s.regs, s.host).rc == 1
    ensures var s := Func0(0x120, regs, h); Func0(0x125, s.regs, s.host).rc == 1
    ensures var s := Func0(0x121, regs, h); Func0(0x126, s.regs, s.host).rc == 1
  {
  }

  /** XOR-ing A with B twice (0x12d) restores A; OR-ing twice (0x129) is the
      same as once. */
  lemma XorAndOrCombine(regs: Regs, h: HostState)
    requires WfTable(h.fixtures)
    ensures var s := Func0(0x12d, regs, h); Func0(0x12d, s.regs, s.host).regs == regs
    ensures var s := Func0(0x129, regs, h); Func0(0x129, s.regs, s.host) == s
  {
    var a := regs.a;
    var b := regs.b;
    XorTwice(a.r1, b.r1); XorTwice(a.r2, b.r2); XorTwice(a.r3, b.r3); XorTwice(a.r4, b.r4);
    OrAbsorbs(a.r1, b.r1); OrAbsorbs(a.r2, b.r2); OrAbsorbs(a.r3, b.r3); OrAbsorbs(a.r4, b.r4);
  }

  /** A number with no built-in meaning in any of the three calls is served
      by its fixture when one is registered, and otherwise returns 0 and
      changes nothing. */
  lemma UnknownNumbersFallBack(k: int, regs: Regs, h: HostState, v1: i64, v2: i64)
    requires WfTable(h.fixtures) && !Builtin0(k) && !Builtin1(k) && !Builtin2(k)
    ensures Func0(k, regs, h) == Fallback(regs, h, k)
    ensures Func1(k, regs, h, v1) == Fallback(regs, h, k)
    ensures Func2(k, regs, h, v1, v2) == Fallback(regs, h, k)
    ensures !Registered(h.fixtures, k) ==> Func0(k, regs, h) == Call(0, regs, h)
    ensures Registered(h.fixtures, k) ==> Func0(k, regs, h).rc == GetFunctionData(h, k).value
  {
  }
}
