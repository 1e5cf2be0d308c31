/** Operand decoders: each reads little-endian fields directly after the
    opcode byte at `pc` and validates them. A decoder fails (the source's -1,
    "overflow") when the instruction's last operand byte would lie at or past
    the end of the code, or when a decoded address breaks the slot rules of
    `Layout`. Decoding never changes the machine. */
module Decode {
  import opened Base
  import opened Layout

  /** The unsigned value of the `w` bytes starting at byte `at`, least
      significant byte first. */
  function FieldNat(code: seq<byte>, at: int, w: nat): (n: nat)
    requires 0 <= at && at + w <= |code|
    ensures n < Pow256(w)
    decreases w
  {
    if w == 0 then 0 else code[at] + 256 * FieldNat(code, at + 1, w - 1)
  }

  /** The signed little-endian field of `w` bytes starting at byte `at`. */
  function Field(code: seq<byte>, at: int, w: nat): (v: int)
    requires 0 <= at && at + w <= |code|
    ensures FitsSigned(v, w)
  {
    var n := FieldNat(code, at, w);
    if 2 * n >= Pow256(w) then n - Pow256(w) else n
  }

  /** A field is the two's-complement reading of its bytes. */
  lemma {:induction false} FieldNatIsLeNat(code: seq<byte>, at: int, w: nat)
    requires 0 <= at && at + w <= |code|
    ensures FieldNat(code, at, w) == LeNat(code[at..at + w])
    decreases w
  {
    if w > 0 {
      FieldNatIsLeNat(code, at + 1, w - 1);
      assert code[at..at + w][1..] == code[at + 1..at + w];
    }
  }

  lemma FieldIsLeSigned(code: seq<byte>, at: int, w: nat)
    requires 0 <= at && at + w <= |code|
    ensures Field(code, at, w) == LeSigned(code[at..at + w])
  {
    FieldNatIsLeNat(code, at, w);
  }

  /** The source's rejection test for a data address, operator for operator. */
  predicate DataAddrRejected(addr: int, dsize: int) {
    addr < 0 || addr > MAX_TO_MULTIPLY || addr * 8 < 0 || addr * 8 + 8 > dsize
  }

  /** The rejection test for a code address (`is_code`). */
  predicate CodeAddrRejected(addr: int, csize: int) {
    addr < 0 || addr > MAX_TO_MULTIPLY || addr >= csize
  }

  /** The 4-byte address field starting at byte `at`; its last byte `at + 3`
      must lie inside the code. */
  function AddrField(code: seq<byte>, dsize: int, at: int, isCode: bool): (r: Option<int>)
    requires 0 <= at
    ensures r.Some? <==> (at + 3 < |code| &&
      (if isCode then ValidCodeAddr(Field(code, at, 4), |code|) else ValidDataAddr(Field(code, at, 4), dsize)))
    ensures r.Some? ==> r.value == Field(code, at, 4)
  {
    if at + 3 >= |code| then None
    else
      var addr := Field(code, at, 4);
      if isCode && CodeAddrRejected(addr, |code|) then None
      else if !isCode && DataAddrRejected(addr, dsize) then None
      else Some(addr)
  }

  /** `get_fun`: a 16-bit function number (3-byte instruction). */
  function GetFun(code: seq<byte>, pc: int): (r: Option<int>)
    requires 0 <= pc
    ensures r.Some? <==> pc + 2 < |code|
    ensures r.Some? ==> r.value == Field(code, pc + 1, 2)
  {
    if pc + 2 >= |code| then None else Some(Field(code, pc + 1, 2))
  }

  /** `get_addr`: one address (5-byte instruction); a code address when
      `isCode`, a data-slot address otherwise. */
  function GetAddr(code: seq<byte>, dsize: int, pc: int, isCode: bool): (r: Option<int>)
    requires 0 <= pc
    ensures r.Some? <==> (pc + 4 < |code| &&
      (if isCode then ValidCodeAddr(Field(code, pc + 1, 4), |code|)
       else ValidDataAddr(Field(code, pc + 1, 4), dsize)))
    ensures r.Some? ==> r.value == Field(code, pc + 1, 4)
  {
    AddrField(code, dsize, pc + 1, isCode)
  }

  /** `get_addrs`: two data addresses (9-byte instruction). */
  function GetAddrs(code: seq<byte>, dsize: int, pc: int): (r: Option<(int, int)>)
    requires 0 <= pc
    ensures r.Some? <==> (pc + 8 < |code| &&
      ValidDataAddr(Field(code, pc + 1, 4), dsize) && ValidDataAddr(Field(code, pc + 5, 4), dsize))
    ensures r.Some? ==> r.value == (Field(code, pc + 1, 4), Field(code, pc + 5, 4))
  {
    if pc + 8 >= |code| then None
    else
      var addr1 := Field(code, pc + 1, 4);
      var addr2 := Field(code, pc + 5, 4);
      if DataAddrRejected(addr1, dsize) || DataAddrRejected(addr2, dsize) then None
      else Some((addr1, addr2))
  }

  /** `get_addr_off`: a data address and a signed 8-bit branch displacement
      (6-byte instruction); the displaced target must lie below the code end. */
  function GetAddrOff(code: seq<byte>, dsize: int, pc: int): (r: Option<(int, int)>)
    requires 0 <= pc
    ensures r.Some? <==> (pc + 5 < |code| &&
      ValidDataAddr(Field(code, pc + 1, 4), dsize) && pc + Field(code, pc + 5, 1) < |code|)
    ensures r.Some? ==> r.value == (Field(code, pc + 1, 4), Field(code, pc + 5, 1))
    ensures r.Some? ==> -128 <= r.value.1 < 128
  {
    if pc + 5 >= |code| then None
    else
      var addr := Field(code, pc + 1, 4);
      var off := Field(code, pc + 5, 1);
      if DataAddrRejected(addr, dsize) || pc + off >= |code| then None
      else Some((addr, off))
  }

  /** `get_addrs_off` as written: the upper-bound tests read `addr < c_max_to_multiply`
      where every other decoder has `addr > c_max_to_multiply`. With a data
      region below 2^32 bytes no address survives. */
  function GetAddrsOffAsWritten(code: seq<byte>, dsize: int, pc: int): (r: Option<(int, int, int)>)
    requires 0 <= pc
    ensures dsize <= I32_MAX ==> r.None?
  {
    if pc + 9 >= |code| then None
    else
      var addr1 := Field(code, pc + 1, 4);
      var addr2 := Field(code, pc + 5, 4);
      var off := Field(code, pc + 9, 1);
      if addr1 < 0 || addr1 < MAX_TO_MULTIPLY || addr2 < 0 || addr2 < MAX_TO_MULTIPLY
        || addr1 * 8 < 0 || addr2 * 8 < 0
        || addr1 * 8 + 8 > dsize || addr2 * 8 + 8 > dsize || pc + off >= |code|
      then None
      else Some((addr1, addr2, off))
  }

  /** `get_addrs_off` with the symmetric bound of the other decoders: two data
      addresses and a displacement (10-byte instruction). */
  function GetAddrsOff(code: seq<byte>, dsize: int, pc: int): (r: Option<(int, int, int)>)
    requires 0 <= pc
    ensures r.Some? <==> (pc + 9 < |code| &&
      ValidDataAddr(Field(code, pc + 1, 4), dsize) && ValidDataAddr(Field(code, pc + 5, 4), dsize) &&
      pc + Field(code, pc + 9, 1) < |code|)
    ensures r.Some? ==> r.value == (Field(code, pc + 1, 4), Field(code, pc + 5, 4), Field(code, pc + 9, 1))
    ensures r.Some? ==> -128 <= r.value.2 < 128
  {
    if pc + 9 >= |code| then None
    else
      var addr1 := Field(code, pc + 1, 4);
      var addr2 := Field(code, pc + 5, 4);
      var off := Field(code, pc + 9, 1);
      if DataAddrRejected(addr1, dsize) || DataAddrRejected(addr2, dsize) || pc + off >= |code| then None
      else Some((addr1, addr2, off))
  }

  /** The compare-branch decoder the dialect selects. Under the source's
      decoder nothing decodes; under the repaired one the fields are those of
      `GetAddrsOff`. */
  function CompareBranchOperands(cfg: Config, code: seq<byte>, pc: int): (r: Option<(int, int, int)>)
    requires 0 <= pc && cfg.Valid()
    ensures cfg.dialect == AsWritten ==> r.None?
    ensures cfg.dialect == Repaired ==> r == GetAddrsOff(code, cfg.DataSize(), pc)
    ensures r.Some? ==> ValidDataAddr(r.value.0, cfg.DataSize()) && ValidDataAddr(r.value.1, cfg.DataSize())
    ensures r.Some? ==> pc + 9 < |code| && pc + r.value.2 < |code| && -128 <= r.value.2 < 128
  {
    match cfg.dialect
    case AsWritten => GetAddrsOffAsWritten(code, cfg.DataSize(), pc)
    case Repaired => GetAddrsOff(code, cfg.DataSize(), pc)
  }

  /** `get_fun_addr`: a function number and a data address (7-byte instruction). */
  function GetFunAddr(code: seq<byte>, dsize: int, pc: int): (r: Option<(int, int)>)
    requires 0 <= pc
    ensures r.Some? <==> pc + 6 < |code| && ValidDataAddr(Field(code, pc + 3, 4), dsize)
    ensures r.Some? ==> r.value == (Field(code, pc + 1, 2), Field(code, pc + 3, 4))
  {
    if pc + 6 >= |code| then None
    else
      var fun := Field(code, pc + 1, 2);
      var addr := Field(code, pc + 3, 4);
      if DataAddrRejected(addr, dsize) then None else Some((fun, addr))
  }

  /** `get_fun_addrs`: a function number and two data addresses (11-byte instruction). */
  function GetFunAddrs(code: seq<byte>, dsize: int, pc: int): (r: Option<(int, int, int)>)
    requires 0 <= pc
    ensures r.Some? <==> (pc + 10 < |code| &&
      ValidDataAddr(Field(code, pc + 3, 4), dsize) && ValidDataAddr(Field(code, pc + 7, 4), dsize))
    ensures r.Some? ==> r.value == (Field(code, pc + 1, 2), Field(code, pc + 3, 4), Field(code, pc + 7, 4))
  {
    if pc + 10 >= |code| then None
    else
      var fun := Field(code, pc + 1, 2);
      var addr1 := Field(code, pc + 3, 4);
      var addr2 := Field(code, pc + 7, 4);
      if DataAddrRejected(addr1, dsize) || DataAddrRejected(addr2, dsize) then None
      else Some((fun, addr1, addr2))
  }

  /** `get_addr_val`: a data address and a 64-bit immediate (13-byte instruction). */
  function GetAddrVal(code: seq<byte>, dsize: int, pc: int): (r: Option<(int, i64)>)
    requires 0 <= pc
    ensures r.Some? <==> pc + 12 < |code| && ValidDataAddr(Field(code, pc + 1, 4), dsize)
    ensures r.Some? ==> r.value.0 == Field(code, pc + 1, 4) && r.value.1 == Field(code, pc + 5, 8)
  {
    if pc + 12 >= |code| then None
    else
      var addr := Field(code, pc + 1, 4);
      var val := Field(code, pc + 5, 8);
      Pow256Values();
      if DataAddrRejected(addr, dsize) then None else Some((addr, val))
  }

  // ------------------------------------------------- the third address field

  /** The third data address of SET_IDX/IDX_DAT (`shift` 8) and
      EXT_FUN_RET_DAT_2 (`shift` 10), read at `pc + shift + 1`. Unlike the
      source, the bound is taken on the field actually read. */
  function ThirdAddr(code: seq<byte>, dsize: int, pc: int, shift: int): (r: Option<int>)
    requires 0 <= pc && 0 <= shift
    ensures r.Some? <==> pc + shift + 4 < |code| && ValidDataAddr(Field(code, pc + shift + 1, 4), dsize)
    ensures r.Some? ==> r.value == Field(code, pc + shift + 1, 4)
  {
    AddrField(code, dsize, pc + shift + 1, false)
  }

  /** The source's bound for the third field: `get_addr` is handed
      `p_code + size` but still tests `pc + 4 < csize`. */
  predicate ThirdAddrGuardAsWritten(csize: int, pc: int) {
    pc + 4 < csize
  }

  /** The outcomes of the source's third-address read: the guard fails, the
      field lies partly or wholly past the code (a read out of bounds), or
      the address is decoded and validated. */
  datatype ThirdRead = Guarded | PastCode | Decoded(addr: Option<int>)

  /** The third address as the source reads it, with its unshifted guard. */
  function ThirdAddrAsWritten(code: seq<byte>, dsize: int, pc: int, shift: int): ThirdRead
    requires 0 <= pc && 0 <= shift
  {
    if !ThirdAddrGuardAsWritten(|code|, pc) then Guarded
    else if pc + shift + 4 >= |code| then PastCode
    else
      var addr := Field(code, pc + shift + 1, 4);
      Decoded(if DataAddrRejected(addr, dsize) then None else Some(addr))
  }

  /** Whenever the fields before the third address of SET_IDX or IDX_DAT
      (`shift` 8) or EXT_FUN_RET_DAT_2 (`shift` 10) lie in the code but the
      third field ends at or past the end of the code, the source's guard
      lets the read through and it goes past the code; `ThirdAddr` rejects
      it instead. (One page of code with SET_IDX at 500 is such a case.) */
  lemma ThirdAddrGuardAdmitsOverread(code: seq<byte>, dsize: int, pc: int, shift: int)
    requires shift == 8 || shift == 10
    requires 0 <= pc && pc + shift < |code| <= pc + shift + 4
    ensures ThirdAddrAsWritten(code, dsize, pc, shift) == PastCode
    ensures ThirdAddr(code, dsize, pc, shift).None?
  {
  }

  /** When the third field lies inside the code, the source's read and
      `ThirdAddr` decode the same address. */
  lemma ThirdAddrAgreesInside(code: seq<byte>, dsize: int, pc: int, shift: int)
    requires 0 <= pc && 0 <= shift && pc + shift + 4 < |code|
    ensures ThirdAddrAsWritten(code, dsize, pc, shift) == Decoded(ThirdAddr(code, dsize, pc, shift))
  {
  }

  // ------------------------------------------- 32-bit address arithmetic

  /** The source's data-address test with `addr * 8` and `+ 8` evaluated in
      `int32_t` (wrapping), which is what the C++ expression computes. */
  predicate DataAddrCheckInt32(addr: int, dsize: int) {
    !(addr < 0 || addr > MAX_TO_MULTIPLY || Wrap32(addr * 8) < 0 || Wrap32(Wrap32(addr * 8) + 8) > dsize)
  }

  /** The 32-bit test lets exactly one address too many through: 0x0FFFFFFF,
      whose `addr * 8 + 8` wraps to a negative number, passes for every data
      size although its slot starts 2 GiB into memory. */
  lemma Int32CheckAdmitsOverrun(dsize: int)
    requires 0 <= dsize <= I32_MAX
    ensures DataAddrCheckInt32(0x0fff_ffff, dsize)
    ensures !ValidDataAddr(0x0fff_ffff, dsize)
  {
    assert Wrap32(0x0fff_ffff * 8) == 0x7fff_fff8;
    assert Wrap32(0x7fff_fff8 + 8) == I32_MIN;
  }

  /** For every other address the 32-bit test and `ValidDataAddr` agree. */
  lemma Int32CheckAgreesElsewhere(addr: int, dsize: int)
    requires 0 <= dsize <= I32_MAX && addr != 0x0fff_ffff
    ensures DataAddrCheckInt32(addr, dsize) <==> ValidDataAddr(addr, dsize)
  {
    if 0 <= addr < 0x0fff_ffff {
      assert Wrap32(addr * 8) == addr * 8;
      assert Wrap32(addr * 8 + 8) == addr * 8 + 8;
    } else if 0x1000_0000 <= addr <= MAX_TO_MULTIPLY {
      assert Wrap32(addr * 8) == addr * 8 - TWO_32;
    }
  }

  /** The bound tests of `get_addrs_off` as written (`addr < c_max_to_multiply`)
      with `addr * 8` and `+ 8` evaluated in `int32_t`, wrapping. */
  predicate AddrsOffCheckInt32(addr: int, dsize: int) {
    !(addr < 0 || addr < MAX_TO_MULTIPLY || Wrap32(addr * 8) < 0 || Wrap32(Wrap32(addr * 8) + 8) > dsize)
  }

  /** Under the 32-bit reading the reversed bound does let addresses through:
      `0x20000000 + j` wraps `addr * 8` to `8 * j`, so it passes whenever
      slot `j` lies in the data region, and the instruction then works on
      slot `j`. With exact arithmetic the same address is rejected. */
  lemma AddrsOffInt32AdmitsWrapped(j: int, dsize: int)
    requires 0 <= j && 8 * j + 8 <= dsize <= I32_MAX
    ensures AddrsOffCheckInt32(0x2000_0000 + j, dsize)
    ensures Wrap32((0x2000_0000 + j) * 8) == 8 * j
    ensures (0x2000_0000 + j) * 8 + 8 > dsize
  {
    assert (0x2000_0000 + j) * 8 == 8 * j + TWO_32;
    assert Wrap32(8 * j + TWO_32) == 8 * j;
    assert Wrap32(8 * j + 8) == 8 * j + 8;
  }
}
