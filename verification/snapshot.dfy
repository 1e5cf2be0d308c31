/** The console's `save` and `load`: a snapshot is the host globals, the
    machine counters and registers, the code with its page count, the
    stack page counts and the whole data buffer, and the fixture table, each
    field in its native width, little-endian: `int64_t` 8 bytes, `int32_t`
    4, `bool` 1 and `size_t` 8. The transient parts (the `stopped` and
    `finished` flags, the jump table, the console trace, the dialect) are
    not saved; `load` keeps the current machine's flags and rebuilds the
    jump table by scanning the loaded code. */
module Snapshot {
  import opened Base
  import opened Layout
  import opened Host
  import opened Machine
  import opened Opcodes
  import opened Jumps

  const SIZE_LIMIT: int := 0x1_0000_0000_0000_0000

  /** A value read from the front of a byte string, and what follows it. */
  datatype Read<T> = Read(value: T, rest: seq<byte>)

  /** What `load` produces: the configuration, the code and the machine. */
  datatype Loaded = Loaded(cfg: Config, code: seq<byte>, vm: Vm)

  // ------------------------------------------------------- field codecs

  function I64Bytes(x: i64): (bs: seq<byte>)
    ensures |bs| == 8
  {
    FitsI64(x);
    SignedBytes(x, 8)
  }

  function I32Bytes(x: int): (bs: seq<byte>)
    requires InI32(x)
    ensures |bs| == 4
  {
    FitsI32(x);
    SignedBytes(x, 4)
  }

  function BoolBytes(b: bool): (bs: seq<byte>) {
    [if b then 1 else 0]
  }

  function SizeBytes(n: nat): (bs: seq<byte>)
    requires n < SIZE_LIMIT
    ensures |bs| == 8
  {
    Pow256Values();
    LeBytes(n, 8)
  }

  function ReadI64(bs: seq<byte>): (r: Option<Read<i64>>)
    ensures r.Some? <==> |bs| >= 8
    ensures r.Some? ==> r.value.rest == bs[8..]
  {
    if |bs| < 8 then None
    else
      Pow256Values();
      var v := LeSigned(bs[..8]);
      Some(Read(v as i64, bs[8..]))
  }

  function ReadI32(bs: seq<byte>): (r: Option<Read<int>>)
    ensures r.Some? <==> |bs| >= 4
    ensures r.Some? ==> InI32(r.value.value) && r.value.rest == bs[4..]
  {
    if |bs| < 4 then None
    else
      Pow256Values();
      Some(Read(LeSigned(bs[..4]), bs[4..]))
  }

  /** A `bool` is read as true for any non-zero byte. */
  function ReadBool(bs: seq<byte>): (r: Option<Read<bool>>)
    ensures r.Some? <==> |bs| >= 1
  {
    if |bs| < 1 then None else Some(Read(bs[0] != 0, bs[1..]))
  }

  function ReadSize(bs: seq<byte>): (r: Option<Read<nat>>)
    ensures r.Some? <==> |bs| >= 8
    ensures r.Some? ==> r.value.value < SIZE_LIMIT && r.value.rest == bs[8..]
  {
    if |bs| < 8 then None
    else
      Pow256Values();
      Some(Read(LeNat(bs[..8]), bs[8..]))
  }

  function ReadBytes(bs: seq<byte>, n: nat): (r: Option<Read<seq<byte>>>)
    ensures r.Some? <==> |bs| >= n
    ensures r.Some? ==> |r.value.value| == n && r.value.value + r.value.rest == bs
  {
    if |bs| < n then None else Some(Read(bs[..n], bs[n..]))
  }

  lemma ReadsI64(x: i64, rest: seq<byte>)
    ensures ReadI64(I64Bytes(x) + rest) == Some(Read(x, rest))
  {
    assert (I64Bytes(x) + rest)[..8] == I64Bytes(x);
    assert (I64Bytes(x) + rest)[8..] == rest;
  }

  lemma ReadsI32(x: int, rest: seq<byte>)
    requires InI32(x)
    ensures ReadI32(I32Bytes(x) + rest) == Some(Read(x, rest))
  {
    assert (I32Bytes(x) + rest)[..4] == I32Bytes(x);
    assert (I32Bytes(x) + rest)[4..] == rest;
  }

  lemma ReadsBool(b: bool, rest: seq<byte>)
    ensures ReadBool(BoolBytes(b) + rest) == Some(Read(b, rest))
  {
    assert (BoolBytes(b) + rest)[1..] == rest;
  }

  lemma ReadsSize(n: nat, rest: seq<byte>)
    requires n < SIZE_LIMIT
    ensures ReadSize(SizeBytes(n) + rest) == Some(Read(n, rest))
  {
    Pow256Values();
    LeNatOfLeBytes(n, 8);
    assert (SizeBytes(n) + rest)[..8] == SizeBytes(n);
    assert (SizeBytes(n) + rest)[8..] == rest;
  }

  lemma ReadsBytes(bs: seq<byte>, rest: seq<byte>)
    ensures ReadBytes(bs + rest, |bs|) == Some(Read(bs, rest))
  {
    assert (bs + rest)[..|bs|] == bs;
    assert (bs + rest)[|bs|..] == rest;
  }

  // --------------------------------------------------------- sequences

  lemma HeadTail<T>(s: seq<T>)
    requires |s| > 0
    ensures [s[0]] + s[1..] == s
  {
  }

  lemma Assoc<T>(a: seq<T>, b: seq<T>, c: seq<T>)
    ensures (a + b) + c == a + (b + c)
  {
  }

  /** Slots written one after the other, 8 bytes each. */
  function SlotsBytes(m: seq<i64>): (bs: seq<byte>)
    ensures |bs| == 8 * |m|
  {
    if |m| == 0 then [] else I64Bytes(m[0]) + SlotsBytes(m[1..])
  }

  function ReadSlots(bs: seq<byte>, n: nat): (r: Option<Read<seq<i64>>>)
    ensures r.Some? <==> |bs| >= 8 * n
    ensures r.Some? ==> |r.value.value| == n
    decreases n
  {
    if n == 0 then Some(Read([], bs))
    else
      var x :- ReadI64(bs);
      var xs :- ReadSlots(x.rest, n - 1);
      Some(Read([x.value] + xs.value, xs.rest))
  }

  lemma {:induction false} ReadsSlots(m: seq<i64>, rest: seq<byte>)
    ensures ReadSlots(SlotsBytes(m) + rest, |m|) == Some(Read(m, rest))
  {
    if |m| > 0 {
      var tail := SlotsBytes(m[1..]) + rest;
      Assoc(I64Bytes(m[0]), SlotsBytes(m[1..]), rest);
      ReadsI64(m[0], tail);
      ReadsSlots(m[1..], rest);
      assert ReadSlots(tail, |m| - 1) == Some(Read(m[1..], rest));
      HeadTail(m);
    } else {
      assert SlotsBytes(m) + rest == rest;
    }
  }

  // ---------------------------------------------------------- fixtures

  /** A fixture table `save` can write: keys are `int32_t`, cursors and
      lengths fit a `size_t`. */
  predicate SaveableTable(t: seq<Entry>) {
    |t| < SIZE_LIMIT && forall i :: 0 <= i < |t| ==> InI32(t[i].func) && SaveableFixture(t[i].fixture)
  }

  predicate SaveableFixture(f: Fixture) {
    f.offset < SIZE_LIMIT && |f.data| < SIZE_LIMIT
  }

  /** A fixture: `loop`, `offset`, the data length and the data. */
  function FixtureBytes(f: Fixture): (bs: seq<byte>)
    requires SaveableFixture(f)
  {
    BoolBytes(f.loop) + (SizeBytes(f.offset) + (SizeBytes(|f.data|) + SlotsBytes(f.data)))
  }

  function ReadFixture(bs: seq<byte>): Option<Read<Fixture>> {
    var loop :- ReadBool(bs);
    var offset :- ReadSize(loop.rest);
    var n :- ReadSize(offset.rest);
    var data :- ReadSlots(n.rest, n.value);
    Some(Read(Fixture(loop.value, offset.value, data.value), data.rest))
  }

  lemma ReadsFixture(f: Fixture, rest: seq<byte>)
    requires SaveableFixture(f)
    ensures ReadFixture(FixtureBytes(f) + rest) == Some(Read(f, rest))
  {
    var c := SlotsBytes(f.data) + rest;
    var b := SizeBytes(|f.data|) + c;
    var a := SizeBytes(f.offset) + b;
    Assoc(BoolBytes(f.loop), SizeBytes(f.offset) + (SizeBytes(|f.data|) + SlotsBytes(f.data)), rest);
    Assoc(SizeBytes(f.offset), SizeBytes(|f.data|) + SlotsBytes(f.data), rest);
    Assoc(SizeBytes(|f.data|), SlotsBytes(f.data), rest);
    ReadsBool(f.loop, a);
    ReadsSize(f.offset, b);
    ReadsSize(|f.data|, c);
    ReadsSlots(f.data, rest);
  }

  /** One entry: the key, then its fixture. */
  function EntryBytes(e: Entry): (bs: seq<byte>)
    requires InI32(e.func) && SaveableFixture(e.fixture)
  {
    I32Bytes(e.func) + FixtureBytes(e.fixture)
  }

  function ReadEntry(bs: seq<byte>): (r: Option<Read<Entry>>)
    ensures r.Some? ==> InI32(r.value.value.func)
  {
    var k :- ReadI32(bs);
    var f :- ReadFixture(k.rest);
    Some(Read(Entry(k.value, f.value), f.rest))
  }

  lemma ReadsEntry(e: Entry, rest: seq<byte>)
    requires InI32(e.func) && SaveableFixture(e.fixture)
    ensures ReadEntry(EntryBytes(e) + rest) == Some(Read(e, rest))
  {
    Assoc(I32Bytes(e.func), FixtureBytes(e.fixture), rest);
    ReadsI32(e.func, FixtureBytes(e.fixture) + rest);
    ReadsFixture(e.fixture, rest);
  }

  function EntriesBytes(t: seq<Entry>): seq<byte>
    requires SaveableTable(t)
  {
    if |t| == 0 then [] else EntryBytes(t[0]) + EntriesBytes(t[1..])
  }

  function ReadEntries(bs: seq<byte>, n: nat): (r: Option<Read<seq<Entry>>>)
    ensures r.Some? ==> |r.value.value| == n
    decreases n
  {
    if n == 0 then Some(Read([], bs))
    else
      var e :- ReadEntry(bs);
      var es :- ReadEntries(e.rest, n - 1);
      Some(Read([e.value] + es.value, es.rest))
  }

  lemma SaveableTail(t: seq<Entry>)
    requires SaveableTable(t) && |t| > 0
    ensures InI32(t[0].func) && SaveableFixture(t[0].fixture) && SaveableTable(t[1..])
    ensures EntriesBytes(t) == EntryBytes(t[0]) + EntriesBytes(t[1..])
  {
  }

  lemma ReadEntriesCons(bs: seq<byte>, n: nat, e: Entry, mid: seq<byte>, es: seq<Entry>, rest: seq<byte>)
    requires n > 0 && ReadEntry(bs) == Some(Read(e, mid)) && ReadEntries(mid, n - 1) == Some(Read(es, rest))
    ensures ReadEntries(bs, n) == Some(Read([e] + es, rest))
  {
  }

  /** One entry in front of a table that already reads back. */
  lemma ReadsEntriesStep(t: seq<Entry>, rest: seq<byte>)
    requires SaveableTable(t) && |t| > 0
    requires ReadEntries(EntriesBytes(t[1..]) + rest, |t| - 1) == Some(Read(t[1..], rest))
    ensures ReadEntries(EntriesBytes(t) + rest, |t|) == Some(Read(t, rest))
  {
    SaveableTail(t);
    var tail := EntriesBytes(t[1..]) + rest;
    Assoc(EntryBytes(t[0]), EntriesBytes(t[1..]), rest);
    ReadsEntry(t[0], tail);
    ReadEntriesCons(EntriesBytes(t) + rest, |t|, t[0], tail, t[1..], rest);
    HeadTail(t);
  }

  lemma {:induction false} ReadsEntries(t: seq<Entry>, rest: seq<byte>)
    requires SaveableTable(t)
    ensures ReadEntries(EntriesBytes(t) + rest, |t|) == Some(Read(t, rest))
  {
    if |t| > 0 {
      SaveableTail(t);
      ReadsEntries(t[1..], rest);
      ReadsEntriesStep(t, rest);
    } else {
      assert EntriesBytes(t) + rest == rest;
    }
  }

  // ---------------------------------------------------------- sections

  /** `g_val`, `g_val1`, `g_balance`, `g_first_call`, `g_increment_func`. */
  function GlobalsBytes(h: HostState): seq<byte>
    requires InI32(h.incrementFunc)
  {
    I64Bytes(h.val) + (I64Bytes(h.val1) + (I64Bytes(h.balance) + (BoolBytes(h.firstCall) + I32Bytes(h.incrementFunc))))
  }

  /** The globals read back into the current host, whose fixtures and trace
      are replaced later or kept. */
  function ReadGlobals(bs: seq<byte>, h: HostState): (r: Option<Read<HostState>>)
    ensures r.Some? ==> InI32(r.value.value.incrementFunc)
  {
    var val :- ReadI64(bs);
    var val1 :- ReadI64(val.rest);
    var balance :- ReadI64(val1.rest);
    var first :- ReadBool(balance.rest);
    var inc :- ReadI32(first.rest);
    Some(Read(h.(val := val.value, val1 := val1.value, balance := balance.value, firstCall := first.value,
      incrementFunc := inc.value), inc.rest))
  }

  lemma ReadsGlobals(h: HostState, cur: HostState, rest: seq<byte>)
    requires InI32(h.incrementFunc)
    ensures ReadGlobals(GlobalsBytes(h) + rest, cur) ==
      Some(Read(cur.(val := h.val, val1 := h.val1, balance := h.balance, firstCall := h.firstCall,
        incrementFunc := h.incrementFunc), rest))
  {
    var d := I32Bytes(h.incrementFunc) + rest;
    var c := BoolBytes(h.firstCall) + d;
    var b := I64Bytes(h.balance) + c;
    var a := I64Bytes(h.val1) + b;
    Assoc(I64Bytes(h.val), I64Bytes(h.val1) + (I64Bytes(h.balance) + (BoolBytes(h.firstCall) + I32Bytes(h.incrementFunc))), rest);
    Assoc(I64Bytes(h.val1), I64Bytes(h.balance) + (BoolBytes(h.firstCall) + I32Bytes(h.incrementFunc)), rest);
    Assoc(I64Bytes(h.balance), BoolBytes(h.firstCall) + I32Bytes(h.incrementFunc), rest);
    Assoc(BoolBytes(h.firstCall), I32Bytes(h.incrementFunc), rest);
    ReadsI64(h.val, a);
    ReadsI64(h.val1, b);
    ReadsI64(h.balance, c);
    ReadsBool(h.firstCall, d);
    ReadsI32(h.incrementFunc, rest);
  }

  /** The counters `pc`, `cs`, `us`, `pce`, `pcs`, `steps` fit `int32_t`. */
  predicate SaveableState(st: State) {
    InI32(st.pc) && InI32(st.cs) && InI32(st.us) && InI32(st.pce) && InI32(st.pcs) && InI32(st.steps)
  }

  /** The counters in the order `pc`, `cs`, `us`, `pce`, `pcs`, `steps`. */
  function CountersBytes(st: State): seq<byte>
    requires SaveableState(st)
  {
    I32Bytes(st.pc) + (I32Bytes(st.cs) + (I32Bytes(st.us) + (I32Bytes(st.pce) + (I32Bytes(st.pcs) + I32Bytes(st.steps)))))
  }

  datatype Counters = Counters(pc: int, cs: int, us: int, pce: int, pcs: int, steps: int)

  function ReadCounters(bs: seq<byte>): Option<Read<Counters>> {
    var pc :- ReadI32(bs);
    var cs :- ReadI32(pc.rest);
    var us :- ReadI32(cs.rest);
    var pce :- ReadI32(us.rest);
    var pcs :- ReadI32(pce.rest);
    var steps :- ReadI32(pcs.rest);
    Some(Read(Counters(pc.value, cs.value, us.value, pce.value, pcs.value, steps.value), steps.rest))
  }

  lemma ReadsCounters(st: State, rest: seq<byte>)
    requires SaveableState(st)
    ensures ReadCounters(CountersBytes(st) + rest) ==
      Some(Read(Counters(st.pc, st.cs, st.us, st.pce, st.pcs, st.steps), rest))
  {
    var e := I32Bytes(st.steps) + rest;
    var d := I32Bytes(st.pcs) + e;
    var c := I32Bytes(st.pce) + d;
    var b := I32Bytes(st.us) + c;
    var a := I32Bytes(st.cs) + b;
    Assoc(I32Bytes(st.pc), I32Bytes(st.cs) + (I32Bytes(st.us) + (I32Bytes(st.pce) + (I32Bytes(st.pcs) + I32Bytes(st.steps)))), rest);
    Assoc(I32Bytes(st.cs), I32Bytes(st.us) + (I32Bytes(st.pce) + (I32Bytes(st.pcs) + I32Bytes(st.steps))), rest);
    Assoc(I32Bytes(st.us), I32Bytes(st.pce) + (I32Bytes(st.pcs) + I32Bytes(st.steps)), rest);
    Assoc(I32Bytes(st.pce), I32Bytes(st.pcs) + I32Bytes(st.steps), rest);
    Assoc(I32Bytes(st.pcs), I32Bytes(st.steps), rest);
    ReadsI32(st.pc, a);
    ReadsI32(st.cs, b);
    ReadsI32(st.us, c);
    ReadsI32(st.pce, d);
    ReadsI32(st.pcs, e);
    ReadsI32(st.steps, rest);
  }

  /** `a1` … `a4`, then `b1` … `b4`. */
  function RegsBytes(r: Regs): seq<byte> {
    SlotsBytes([r.a.r1, r.a.r2, r.a.r3, r.a.r4, r.b.r1, r.b.r2, r.b.r3, r.b.r4])
  }

  function ReadRegs(bs: seq<byte>): Option<Read<Regs>> {
    var s :- ReadSlots(bs, 8);
    var v := s.value;
    Some(Read(Regs(Quad(v[0], v[1], v[2], v[3]), Quad(v[4], v[5], v[6], v[7])), s.rest))
  }

  lemma ReadsRegs(r: Regs, rest: seq<byte>)
    ensures ReadRegs(RegsBytes(r) + rest) == Some(Read(r, rest))
  {
    ReadsSlots([r.a.r1, r.a.r2, r.a.r3, r.a.r4, r.b.r1, r.b.r2, r.b.r3, r.b.r4], rest);
  }

  /** The code page count and the code, then the data, call-stack and
      user-stack page counts and the whole data buffer. */
  function BuffersBytes(cfg: Config, code: seq<byte>, mem: seq<i64>): seq<byte>
    requires cfg.Valid()
  {
    I32Bytes(cfg.codePages) + (code + (I32Bytes(cfg.dataPages) + (I32Bytes(cfg.callPages) +
      (I32Bytes(cfg.userPages) + SlotsBytes(mem)))))
  }

  /** The buffers, sized by the page counts just read. Page counts that do
      not make a valid configuration are rejected. */
  function ReadBuffers(bs: seq<byte>, dialect: Dialect): (r: Option<Read<Loaded>>)
    ensures r.Some? ==> var l := r.value.value;
      l.cfg.Valid() && l.cfg.dialect == dialect && |l.code| == l.cfg.CodeSize() && |l.vm.mem| == l.cfg.MemSlots()
  {
    var cp :- ReadI32(bs);
    if cp.value < 1 || cp.value * 512 > I32_MAX then None
    else
      var code :- ReadBytes(cp.rest, cp.value * 512);
      var dp :- ReadI32(code.rest);
      var sp :- ReadI32(dp.rest);
      var up :- ReadI32(sp.rest);
      var cfg := Config(cp.value, dp.value, sp.value, up.value, dialect);
      if !cfg.Valid() then None
      else
        var mem :- ReadSlots(up.rest, cfg.MemSlots());
        Some(Read(Loaded(cfg, code.value, Vm(ZeroState, mem.value, ZeroHost)), mem.rest))
  }

  const ZeroState := State(0, 0, 0, 0, 0, 0, ZERO_REGS, false, false, {})
  const ZeroHost := HostState(0, 0, 0, false, 0, [], [])

  lemma ReadsBuffers(cfg: Config, code: seq<byte>, mem: seq<i64>, rest: seq<byte>)
    requires cfg.Valid() && |code| == cfg.CodeSize() && |mem| == cfg.MemSlots()
    ensures ReadBuffers(BuffersBytes(cfg, code, mem) + rest, cfg.dialect) ==
      Some(Read(Loaded(cfg, code, Vm(ZeroState, mem, ZeroHost)), rest))
  {
    var e := SlotsBytes(mem) + rest;
    var d := I32Bytes(cfg.userPages) + e;
    var c := I32Bytes(cfg.callPages) + d;
    var b := I32Bytes(cfg.dataPages) + c;
    var a := code + b;
    Assoc(I32Bytes(cfg.codePages), code + (I32Bytes(cfg.dataPages) + (I32Bytes(cfg.callPages) + (I32Bytes(cfg.userPages) + SlotsBytes(mem)))), rest);
    Assoc(code, I32Bytes(cfg.dataPages) + (I32Bytes(cfg.callPages) + (I32Bytes(cfg.userPages) + SlotsBytes(mem))), rest);
    Assoc(I32Bytes(cfg.dataPages), I32Bytes(cfg.callPages) + (I32Bytes(cfg.userPages) + SlotsBytes(mem)), rest);
    Assoc(I32Bytes(cfg.callPages), I32Bytes(cfg.userPages) + SlotsBytes(mem), rest);
    Assoc(I32Bytes(cfg.userPages), SlotsBytes(mem), rest);
    ReadsI32(cfg.codePages, a);
    ReadsBytes(code, b);
    ReadsI32(cfg.dataPages, c);
    ReadsI32(cfg.callPages, d);
    ReadsI32(cfg.userPages, e);
    ReadsSlots(mem, rest);
  }

  // ------------------------------------------------------ save and load

  /** What `save` can write: a well-formed machine whose counters and
      fixture table fit the saved widths. */
  predicate Saveable(cfg: Config, code: seq<byte>, vm: Vm) {
    Wf(cfg, code, vm) && SaveableState(vm.st) && InI32(vm.host.incrementFunc) && SaveableTable(vm.host.fixtures)
  }

  /** The machine part of a snapshot: globals, counters and registers. */
  function HeadBytes(h: HostState, st: State): seq<byte>
    requires InI32(h.incrementFunc) && SaveableState(st)
  {
    GlobalsBytes(h) + (CountersBytes(st) + RegsBytes(st.regs))
  }

  /** The program part: the buffers and the fixture table. */
  function BodyBytes(cfg: Config, code: seq<byte>, mem: seq<i64>, t: seq<Entry>): seq<byte>
    requires cfg.Valid() && SaveableTable(t)
  {
    BuffersBytes(cfg, code, mem) + (SizeBytes(|t|) + EntriesBytes(t))
  }

  /** `save`: every section in order. */
  function Save(cfg: Config, code: seq<byte>, vm: Vm): (bs: seq<byte>)
    requires Saveable(cfg, code, vm)
  {
    HeadBytes(vm.host, vm.st) + BodyBytes(cfg, code, vm.mem, vm.host.fixtures)
  }

  /** The fixture count and the entries; a table whose keys are not
      strictly ascending (which `save` never writes) is rejected. */
  function ReadTable(bs: seq<byte>): (r: Option<Read<seq<Entry>>>)
    ensures r.Some? ==> SortedKeys(r.value.value)
  {
    var n :- ReadSize(bs);
    var t :- ReadEntries(n.rest, n.value);
    if SortedKeys(t.value) then Some(t) else None
  }

  lemma ReadsTable(t: seq<Entry>, rest: seq<byte>)
    requires SaveableTable(t) && SortedKeys(t)
    ensures ReadTable(SizeBytes(|t|) + EntriesBytes(t) + rest) == Some(Read(t, rest))
  {
    Assoc(SizeBytes(|t|), EntriesBytes(t), rest);
    ReadsSize(|t|, EntriesBytes(t) + rest);
    ReadsEntries(t, rest);
  }

  /** The machine part as read: the host with its globals replaced, the
      counters and the registers. */
  datatype Head = Head(host: HostState, counters: Counters, regs: Regs)

  /** The program part as read: configuration, code and data buffer, and
      the fixture table. */
  datatype Body = Body(loaded: Loaded, table: seq<Entry>)

  function ReadHead(bs: seq<byte>, h: HostState): Option<Read<Head>> {
    var g :- ReadGlobals(bs, h);
    var c :- ReadCounters(g.rest);
    var regs :- ReadRegs(c.rest);
    Some(Read(Head(g.value, c.value, regs.value), regs.rest))
  }

  function ReadBody(bs: seq<byte>, dialect: Dialect): Option<Read<Body>> {
    var b :- ReadBuffers(bs, dialect);
    var t :- ReadTable(b.rest);
    Some(Read(Body(b.value, t.value), t.rest))
  }

  lemma ReadsHead(h: HostState, st: State, cur: HostState, rest: seq<byte>)
    requires InI32(h.incrementFunc) && SaveableState(st)
    ensures ReadHead(HeadBytes(h, st) + rest, cur) == Some(Read(Head(
      cur.(val := h.val, val1 := h.val1, balance := h.balance, firstCall := h.firstCall, incrementFunc := h.incrementFunc),
      Counters(st.pc, st.cs, st.us, st.pce, st.pcs, st.steps), st.regs), rest))
  {
    Assoc(GlobalsBytes(h), CountersBytes(st) + RegsBytes(st.regs), rest);
    Assoc(CountersBytes(st), RegsBytes(st.regs), rest);
    ReadsGlobals(h, cur, CountersBytes(st) + (RegsBytes(st.regs) + rest));
    ReadsCounters(st, RegsBytes(st.regs) + rest);
    ReadsRegs(st.regs, rest);
  }

  lemma ReadsBody(cfg: Config, code: seq<byte>, mem: seq<i64>, t: seq<Entry>, rest: seq<byte>)
    requires cfg.Valid() && |code| == cfg.CodeSize() && |mem| == cfg.MemSlots()
    requires SaveableTable(t) && SortedKeys(t)
    ensures ReadBody(BodyBytes(cfg, code, mem, t) + rest, cfg.dialect) ==
      Some(Read(Body(Loaded(cfg, code, Vm(ZeroState, mem, ZeroHost)), t), rest))
  {
    Assoc(BuffersBytes(cfg, code, mem), SizeBytes(|t|) + EntriesBytes(t), rest);
    ReadsBuffers(cfg, code, mem, SizeBytes(|t|) + EntriesBytes(t) + rest);
    ReadsTable(t, rest);
  }

  /** The loaded machine: the counters, registers, buffers, globals and
      table read, `cur`'s flags, and the jump table of a scan of the loaded
      code added to nothing (`clearFirst`) or, as the source does it, to
      `cur`'s table. One that is not well formed is rejected. */
  function Assemble(hd: Head, bd: Body, cur: Vm, clearFirst: bool): (r: Option<Loaded>)
    ensures r.Some? ==> Wf(r.value.cfg, r.value.code, r.value.vm)
  {
    var l := bd.loaded;
    var n := hd.counters;
    var kept := if clearFirst then {} else cur.st.jumps;
    var st := State(n.pc, n.pce, n.pcs, n.cs, n.us, n.steps, hd.regs, cur.st.stopped, cur.st.finished, kept);
    var vm := Vm(ScanJumps(l.code, st), l.vm.mem, hd.host.(fixtures := bd.table));
    if Wf(l.cfg, l.code, vm) then Some(Loaded(l.cfg, l.code, vm)) else None
  }

  /** `load` into the current machine `cur`: everything saved is replaced,
      the flags, the console trace and the dialect are kept, and the jump
      table is rebuilt by a scan. A snapshot that does not describe a
      well-formed machine is rejected. */
  function LoadWith(bs: seq<byte>, dialect: Dialect, cur: Vm, clearFirst: bool): (r: Option<Loaded>)
    ensures r.Some? ==> Wf(r.value.cfg, r.value.code, r.value.vm)
  {
    var hd :- ReadHead(bs, cur.host);
    var bd :- ReadBody(hd.rest, dialect);
    Assemble(hd.value, bd.value, cur, clearFirst)
  }

  function Load(bs: seq<byte>, dialect: Dialect, cur: Vm): Option<Loaded> {
    LoadWith(bs, dialect, cur, true)
  }

  function LoadAsWritten(bs: seq<byte>, dialect: Dialect, cur: Vm): Option<Loaded> {
    LoadWith(bs, dialect, cur, false)
  }

  /** The machine a snapshot of `vm` loads into `cur`: `vm` with `cur`'s
      flags and console trace and the jump table of a fresh scan. */
  function Restored(code: seq<byte>, vm: Vm, cur: Vm): Vm {
    Vm(vm.st.(stopped := cur.st.stopped, finished := cur.st.finished, jumps := Visited(code, 0)),
      vm.mem, vm.host.(out := cur.host.out))
  }

  /** Putting back what was read from a snapshot of `vm` gives `vm` restored. */
  lemma AssembleRestores(cfg: Config, code: seq<byte>, vm: Vm, cur: Vm)
    requires Wf(cfg, code, vm)
    ensures var h := vm.host; var st := vm.st;
      Assemble(Head(cur.host.(val := h.val, val1 := h.val1, balance := h.balance, firstCall := h.firstCall,
          incrementFunc := h.incrementFunc), Counters(st.pc, st.cs, st.us, st.pce, st.pcs, st.steps), st.regs),
        Body(Loaded(cfg, code, Vm(ZeroState, vm.mem, ZeroHost)), h.fixtures), cur, true)
      == Some(Loaded(cfg, code, Restored(code, vm, cur)))
  {
    ScanStartsAtZero(code);
    var h := vm.host;
    var st := vm.st;
    var hd := Head(cur.host.(val := h.val, val1 := h.val1, balance := h.balance, firstCall := h.firstCall,
          incrementFunc := h.incrementFunc), Counters(st.pc, st.cs, st.us, st.pce, st.pcs, st.steps), st.regs);
    var bd := Body(Loaded(cfg, code, Vm(ZeroState, vm.mem, ZeroHost)), h.fixtures);
    var n := hd.counters;
    var s := State(n.pc, n.pce, n.pcs, n.cs, n.us, n.steps, hd.regs, cur.st.stopped, cur.st.finished, {});
    assert ScanJumps(code, s) == Restored(code, vm, cur).st;
    assert hd.host.(fixtures := bd.table) == Restored(code, vm, cur).host;
    assert Wf(cfg, code, Restored(code, vm, cur));
  }

  /** Loading what `save` wrote, followed by anything, gives back the saved
      configuration (with the current dialect), code and machine. */
  lemma LoadSave(cfg: Config, code: seq<byte>, vm: Vm, cur: Vm, rest: seq<byte>)
    requires Saveable(cfg, code, vm)
    ensures Load(Save(cfg, code, vm) + rest, cfg.dialect, cur) == Some(Loaded(cfg, code, Restored(code, vm, cur)))
  {
    var body := BodyBytes(cfg, code, vm.mem, vm.host.fixtures);
    Assoc(HeadBytes(vm.host, vm.st), body, rest);
    ReadsHead(vm.host, vm.st, cur.host, body + rest);
    ReadsBody(cfg, code, vm.mem, vm.host.fixtures, rest);
    AssembleRestores(cfg, code, vm, cur);
  }

  /** As written, `load` keeps every entry of the table it replaces: a
      position that was a jump target of the previous program stays one,
      even when the loaded code has no instruction there. */
  lemma LoadKeepsStaleJumps(bs: seq<byte>, dialect: Dialect, cur: Vm, p: int)
    requires LoadAsWritten(bs, dialect, cur).Some? && p in cur.st.jumps
    ensures p in LoadAsWritten(bs, dialect, cur).value.vm.st.jumps
  {
  }

  /** Position 1 of code that starts with a SET_VAL is inside that
      instruction, so the scan never records it. */
  lemma ScanSkipsOperand(code: seq<byte>)
    requires |code| > 0 && code[0] == 0x01
    ensures 1 !in Visited(code, 0)
  {
    assert InsnLength(code, 0) == 13;
    ScanStartsAtZero(code);
    NoneInsideAnInstruction(code, 0, 1);
  }

  /** A concrete case: the current table holds position 1, the snapshot's
      code starts with a 13-byte SET_VAL, and after the source's `load`
      position 1 (inside that instruction) is still a valid jump target,
      while the corrected `Load` does not have it. */
  lemma StaleJumpExample(cfg: Config, code: seq<byte>, vm: Vm, cur: Vm)
    requires Saveable(cfg, code, vm) && code[0] == 0x01 && 1 in cur.st.jumps
    ensures var r := Load(Save(cfg, code, vm), cfg.dialect, cur); r.Some? && 1 !in r.value.vm.st.jumps
    ensures var r := LoadAsWritten(Save(cfg, code, vm), cfg.dialect, cur); r.Some? ==> 1 in r.value.vm.st.jumps
  {
    var bs := Save(cfg, code, vm);
    LoadSave(cfg, code, vm, cur, []);
    assert bs + [] == bs;
    ScanSkipsOperand(code);
    if LoadAsWritten(bs, cfg.dialect, cur).Some? {
      LoadKeepsStaleJumps(bs, cfg.dialect, cur, 1);
    }
  }
}
