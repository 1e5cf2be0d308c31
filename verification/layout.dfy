/** Segment sizes and the slot-address rules of the AT machine. Code is a
    byte buffer of `codePages * 512` bytes; data memory is one buffer holding,
    in address order, the data slots (`dataPages * 512` bytes), the call stack
    (`callPages * 256` bytes) and the user stack (`userPages * 256` bytes).
    Every access to data memory is an aligned 8-byte slot, so memory is
    modelled as a sequence of slots. */
module Layout {
  import opened Base

  /** Largest slot index whose byte offset `addr * 8` still fits in 32 bits. */
  const MAX_TO_MULTIPLY: int := 0x1fff_ffff

  /** Which behaviour the interpreter follows where the source is evidently
      defective: `AsWritten` reproduces the source, `Repaired` applies the
      evidently intended behaviour (see the README's findings). */
  datatype Dialect = AsWritten | Repaired

  datatype Config = Config(codePages: int, dataPages: int, callPages: int, userPages: int, dialect: Dialect)
  {
    /** Byte sizes: code and data pages are 512 bytes, stack pages 256. The
        page sizes are written as literals so that every size stays linear
        in the page counts. */
    function CodeSize(): int { codePages * 512 }
    function DataSize(): int { dataPages * 512 }
    function CallStackSize(): int { callPages * 256 }
    function UserStackSize(): int { userPages * 256 }
    function MemSize(): int { DataSize() + CallStackSize() + UserStackSize() }

    /** Slots in each region: `dsize / 8`, `cssize / 8` and `ussize / 8`. */
    function DataSlots(): int { dataPages * 64 }
    function CallSlots(): int { callPages * 32 }
    function UserSlots(): int { userPages * 32 }
    function MemSlots(): int { DataSlots() + CallSlots() + UserSlots() }

    /** Page counts are positive (the console rejects anything else) and the
        byte sizes, computed in `int32_t`, do not overflow. */
    predicate Valid() {
      && codePages >= 1 && dataPages >= 1 && callPages >= 1 && userPages >= 1
      && CodeSize() <= I32_MAX && MemSize() <= I32_MAX
    }
  }

  lemma SlotsAreBytesOverEight(cfg: Config)
    ensures cfg.DataSlots() * 8 == cfg.DataSize()
    ensures cfg.CallSlots() * 8 == cfg.CallStackSize()
    ensures cfg.UserSlots() * 8 == cfg.UserStackSize()
    ensures cfg.MemSlots() * 8 == cfg.MemSize()
  {
  }

  /** A data-slot address the decoders and the indirect forms accept: not
      negative, not beyond MAX_TO_MULTIPLY and its 8 bytes inside the data
      region of `dsize` bytes. */
  predicate ValidDataAddr(addr: int, dsize: int) {
    0 <= addr <= MAX_TO_MULTIPLY && addr * 8 + 8 <= dsize
  }

  /** A code address (`is_code` operands): in range and below `csize`. */
  predicate ValidCodeAddr(addr: int, csize: int) {
    0 <= addr <= MAX_TO_MULTIPLY && addr < csize
  }

  /** A valid data address names a slot of the data region, never a stack slot. */
  lemma ValidDataAddrIsDataSlot(cfg: Config, addr: int)
    requires ValidDataAddr(addr, cfg.DataSize())
    ensures 0 <= addr < cfg.DataSlots()
  {
  }

  /** Slot holding call-stack entry `cs` (1 = oldest); the source addresses it
      at byte `dsize + cssize - cs * 8`. */
  function CallSlot(cfg: Config, cs: int): (s: int)
    ensures s * 8 == cfg.DataSize() + cfg.CallStackSize() - cs * 8
    ensures 1 <= cs <= cfg.CallSlots() ==> cfg.DataSlots() <= s < cfg.DataSlots() + cfg.CallSlots()
  {
    cfg.DataSlots() + cfg.CallSlots() - cs
  }

  /** Slot holding user-stack entry `us` (1 = oldest); the source addresses it
      at byte `dsize + cssize + ussize - us * 8`. */
  function UserSlot(cfg: Config, us: int): (s: int)
    ensures s * 8 == cfg.MemSize() - us * 8
    ensures 1 <= us <= cfg.UserSlots() ==> cfg.DataSlots() + cfg.CallSlots() <= s < cfg.MemSlots()
  {
    cfg.MemSlots() - us
  }
}
