# AT interpreter core, modelled in Dafny

This project models the core of `at`, a console interpreter for AT bytecode.
The interpreter holds one program in a code buffer of 512-byte pages. It keeps
a data buffer of 8-byte slots, followed by a call stack and a user stack. A
`machine_state` tracks `pc`, the two stack counters `cs`/`us`, the error
handler `pce`, the restart point `pcs`, a step counter, the A and B register
quads, the `stopped` and `finished` flags, and the jump table.

- **Execution.** `process_op` decodes and executes one instruction. Each
  operand decoder reads little-endian fields from the code and range-checks
  them.
- **Host calls.** The `func`, `func1` and `func2` families answer the
  EXT_FUN* instructions. They use built-in numbers, a set of console
  globals (`g_val`, `g_balance`, ...) and per-function fixture sequences.
- **Console.** The console resets the machine, builds the jump table by
  disassembling the code (`list_code`), runs the step loop against a balance,
  and saves and loads binary snapshots.

What each part becomes:

- **Data.** `Layout.Config` holds the page counts. `Machine.State` and
  `Machine.Vm` hold the state, the memory as a `seq` of int64 slots, and the
  host globals (`Host.HostState`). Code is a `seq<byte>`.
- **Steps.** Each instruction is a pure function
  `Exec.Execute(cfg, code, vm): Out(rc, vm')`. `Exec.Step` adds the error
  handler and the step counter. Every instruction satisfies one shared
  contract, `Outcome.Sound`: the machine stays well formed (`Machine.Wf`), a
  fault is -1/-2/-3 and changes nothing, and a plain instruction returns its
  length and moves `pc` by exactly that.
- **Jump table.** `list_code` is `Jumps.Visited`: the set of positions the
  disassembly walk reaches. `Jumps.ListCode` computes it with a loop.
- **Console loop.** `Driver.Run` is the console loop, with an explicit
  iteration budget.
- **Snapshots.** `Snapshot.Save` and `Snapshot.Load` are the snapshot
  writer and reader, over byte sequences.
- **Session.** `Scenario` follows the "output value" session in the
  source's header comment through `Driver.Run`.
- **Dialects.** `Layout.Dialect` selects between the code as written
  (`AsWritten`) and a repaired variant (`Repaired`) for the defects listed
  under Findings.

Console output, the step-by-step debugger commands and file I/O are not
modelled. Output that the host calls print is kept as a list of events
(`Host.Event`).

## Model

| member | source | states |
|---|---|---|
| Base.Wrap64 | atSourceCode/at.cpp:1128-1176 | the int64 result of a wrapping add/sub/mul: equal to the exact value when it fits, congruent to it modulo 2^64 always |
| Base.WrapAddSub | atSourceCode/at.cpp:1128-1152 | subtracting what was added gives the original int64 value back, wrap-around included |
| Base.TruncDivInRange | atSourceCode/at.cpp:1153-1176 | C++ truncating division of int64 values stays in range except INT64_MIN / -1 |
| Base.TruncModShape | atSourceCode/at.cpp:1448-1473 | C++ `%` takes the sign of the dividend and has magnitude `|a| mod |b|`, smaller than `|b|` |
| Base.TruncModInRange | atSourceCode/at.cpp:1448-1473 | the remainder of two int64 values is an int64 |
| Base.Shr64 | atSourceCode/at.cpp:1500-1525 | an arithmetic right shift by `n` is floor division by 2^n; so it keeps the sign and never moves away from zero |
| Base.XorTwice | atSourceCode/at.cpp:1177-1215 | XOR_DAT applied twice with the same operand restores the value |
| Base.OrAbsorbs | atSourceCode/at.cpp:1177-1215 | BOR_DAT is idempotent: OR-ing the same operand again changes nothing |
| Base.LeNatOfLeBytes | atSourceCode/at.cpp:2340-2387 | reading back the little-endian bytes written for a value gives the value |
| Base.LeBytesOfLeNat | atSourceCode/at.cpp:2255-2329 | writing the value read from little-endian bytes gives the same bytes |
| Base.SignedBytesOfLeSigned | atSourceCode/at.cpp:830-978 | a two's-complement field decoded and re-encoded gives back its bytes |
| Layout.SlotsAreBytesOverEight | atSourceCode/at.cpp:60-84 | each region's slot count is its byte size (512-byte code/data pages, 256-byte stack pages) over eight |
| Layout.ValidDataAddr | atSourceCode/at.cpp:850-857 | a data address is non-negative, at most `c_max_to_multiply`, and its 8 bytes lie inside the data region; `ValidDataAddrIsDataSlot` and `Decode.Int32CheckAgreesElsewhere` state its properties |
| Layout.ValidDataAddrIsDataSlot | atSourceCode/at.cpp:842-858 | an address the data check accepts is an index into the data slots |
| Layout.CallSlot | atSourceCode/at.cpp:1324-1375 | entry `cs` of the call stack lives at byte `dsize + cssize - cs*8`, inside the call-stack region |
| Layout.UserSlot | atSourceCode/at.cpp:1288-1323 | entry `us` of the user stack lives at byte `dsize + cssize + ussize - us*8`, inside the user-stack region |
| Decode.FieldIsLeSigned | atSourceCode/at.cpp:830-978 | an operand field is the little-endian two's-complement value of its bytes |
| Decode.AddrField | atSourceCode/at.cpp:842-858 | an address field is accepted exactly when it lies in the code and passes the code or data check, and then it is the field's value |
| Decode.GetFun | atSourceCode/at.cpp:830-840 | the 16-bit function number is read exactly when `pc + 2` is inside the code |
| Decode.GetAddr | atSourceCode/at.cpp:842-858 | one address is accepted iff its field lies in the code and it is a code address below `csize`, or a data address whose slot lies in `dsize` |
| Decode.GetAddrs | atSourceCode/at.cpp:860-879 | two data addresses are accepted iff both fields are in the code and both slots lie in `dsize` |
| Decode.GetAddrOff | atSourceCode/at.cpp:881-897 | address and signed 8-bit offset are accepted iff they are in the code, the slot is valid and `pc + off` is below `csize` |
| Decode.GetAddrsOffAsWritten | atSourceCode/at.cpp:899-919 | as written and with `addr * 8` computed exactly, the decoder rejects every operand pair in any configuration whose data size fits an int32 |
| Decode.AddrsOffInt32AdmitsWrapped | atSourceCode/at.cpp:910-914 | with `addr * 8` wrapping in int32, the reversed bound admits `0x20000000 + j` for every slot `j` inside the data region (the product wraps to `8 * j`), an address the exact reading rejects |
| Decode.GetAddrsOff | atSourceCode/at.cpp:899-919 | repaired: two data addresses and an offset are accepted iff all are in the code, both slots are valid and `pc + off` is below `csize` |
| Decode.CompareBranchOperands | atSourceCode/at.cpp:1586-1641 | compare branches get no operands as written and the repaired decoder's operands otherwise |
| Decode.GetFunAddr | atSourceCode/at.cpp:921-937 | function number and data address are accepted iff both are in the code and the slot is valid |
| Decode.GetFunAddrs | atSourceCode/at.cpp:939-960 | function number and two data addresses are accepted iff all are in the code and both slots are valid |
| Decode.GetAddrVal | atSourceCode/at.cpp:962-978 | a data address and an 8-byte immediate are accepted iff both are in the code and the slot is valid |
| Decode.ThirdAddr | atSourceCode/at.cpp:1246-1287 | the third address of SET_IDX/IDX_DAT/EXT_FUN_RET_DAT_2 is accepted iff its shifted field lies in the code and its slot is valid |
| Decode.ThirdAddrGuardAdmitsOverread | atSourceCode/at.cpp:842-858 | for SET_IDX and IDX_DAT (shift 8) and EXT_FUN_RET_DAT_2 (shift 10), whenever the fields before the third lie in the code but the shifted third field runs past it, the source's unshifted guard passes and the read overruns the code buffer, while the model rejects it |
| Decode.ThirdAddrAsWritten | atSourceCode/at.cpp:842-848 | the source's third-address read with the unshifted guard `pc + 4 < csize`: guarded, past the code, or decoded; its properties are stated by `ThirdAddrGuardAdmitsOverread` and `ThirdAddrAgreesInside` |
| Decode.ThirdAddrAgreesInside | atSourceCode/at.cpp:1246-1287 | wherever the shifted field lies inside the code, the as-written third-address decoder and `ThirdAddr` agree |
| Decode.DataAddrCheckInt32 | atSourceCode/at.cpp:850-857 | the data-address test of `get_addr` with `addr * 8` and `+ 8` evaluated in int32; `Int32CheckAdmitsOverrun` and `Int32CheckAgreesElsewhere` relate it to `Layout.ValidDataAddr` |
| Decode.Int32CheckAdmitsOverrun | atSourceCode/at.cpp:850-857 | the int32 computation `addr*8 + 8 > dsize` wraps for address 0x0fffffff and admits a slot far outside the data buffer |
| Decode.Int32CheckAgreesElsewhere | atSourceCode/at.cpp:850-857 | for every other address the int32 check and the exact check agree |
| Opcodes.OpOf | atSourceCode/at.cpp:86-136 | the opcode byte values of the instruction set, every other byte unknown; `OpOfByteOf` and `ByteOfOpOf` show it is the inverse of `ByteOf` |
| Opcodes.Length | atSourceCode/at.cpp:980-1948 | the byte length of each instruction as `process_op` returns it; `InsnLengthPositive` and `Jumps.ScanSteps` state what the scan takes from it, and `Outcome.Sound` makes each instruction move `pc` by it |
| Opcodes.OpOfByteOf | atSourceCode/at.cpp:86-136 | every opcode's byte decodes back to that opcode |
| Opcodes.ByteOfOpOf | atSourceCode/at.cpp:86-136 | every byte that decodes to an opcode is that opcode's byte |
| Opcodes.NopRun | atSourceCode/at.cpp:1005-1025 | a NOP consumes the whole maximal run of NOP bytes from `pc`, stopping at the first other byte or at the end of the code |
| Opcodes.InsnLengthPositive | atSourceCode/at.cpp:2015-2036 | the disassembly length at `pc` is positive exactly when `pc` is inside the code and holds a known opcode |
| Machine.Reset | atSourceCode/at.cpp:146-170 | `machine_state::reset` keeps only the handler and the restart point |
| Machine.ResetIdempotent | atSourceCode/at.cpp:146-170 | resetting twice is resetting once; a reset state starts at `pcs` with empty stacks, no steps, no flags, zero registers and an empty jump table; it depends only on `pcs` and `pce` |
| Exec.ExecSetVal | atSourceCode/at.cpp:1026-1048 | SET_VAL is 13 or -1, -1 exactly when its operands do not decode, and -1 changes nothing |
| Exec.SetValEffect | atSourceCode/at.cpp:1026-1048 | SET_VAL stores the immediate in the addressed slot and moves `pc` by 13 |
| Exec.ExecUnary | atSourceCode/at.cpp:1071-1127 | CLR/INC/DEC/NOT_DAT are 5 or -1, -1 exactly when the address does not decode |
| Exec.UnaryEffect | atSourceCode/at.cpp:1071-1127 | a unary instruction rewrites only its slot, with the wrapped value, and moves `pc` by 5 |
| Exec.ExecBinary | atSourceCode/at.cpp:1128-1525 | the two-address arithmetic instructions are 9, -1 (operands do not decode, exactly) or -2, and a fault changes nothing |
| Exec.BinaryEffect | atSourceCode/at.cpp:1128-1525 | DIV_DAT by zero is -2; otherwise the first slot gets the operation's value and `pc` moves by 9 |
| Exec.ExecInd | atSourceCode/at.cpp:1216-1405 | SET_IND/IND_DAT are 9 or -1, and undecodable operands give -1 |
| Exec.IndEffect | atSourceCode/at.cpp:1216-1405 | an out-of-range pointer is -1; otherwise SET_IND loads through the pointer and IND_DAT stores through it |
| Exec.ExecIdx | atSourceCode/at.cpp:1246-1447 | SET_IDX/IDX_DAT are 13 or -1, and undecodable operands give -1 |
| Exec.IdxEffect | atSourceCode/at.cpp:1246-1447 | a base+index outside the data slots is -1; otherwise SET_IDX loads from it and IDX_DAT stores into it |
| Exec.ExecPush | atSourceCode/at.cpp:1288-1323 | PSH_DAT succeeds exactly when the user stack is not full and the address decodes |
| Exec.PushEffect | atSourceCode/at.cpp:1288-1323 | PSH_DAT copies the slot to the new top of the user stack and increments `us` |
| Exec.ExecPop | atSourceCode/at.cpp:1288-1323 | POP_DAT succeeds exactly when the user stack is not empty and the address decodes |
| Exec.PopEffect | atSourceCode/at.cpp:1288-1323 | POP_DAT copies the top of the user stack to the slot and decrements `us` |
| Exec.ExecCall | atSourceCode/at.cpp:1324-1351 | JMP_SUB succeeds exactly when the call stack has room and the target decodes and is in the jump table; a full stack is -1 |
| Exec.CallEffect | atSourceCode/at.cpp:1324-1351 | JMP_SUB pushes `pc + 5` on the call stack and jumps to the target |
| Exec.ExecRet | atSourceCode/at.cpp:1352-1375 | RET_SUB is -1 exactly when the call stack is empty, succeeds exactly when the popped address is a jump-table entry, and a bad address is -2 with the entry already dropped |
| Exec.ExecJump | atSourceCode/at.cpp:1526-1545 | JMP_ADR is -1 exactly when the target does not decode and otherwise lands only on a jump-table entry |
| Exec.ExecZeroBranch | atSourceCode/at.cpp:1546-1585 | BZR/BNZ_DAT are -1 exactly when their operands do not decode |
| Exec.ZeroBranchEffect | atSourceCode/at.cpp:1546-1585 | BZR/BNZ_DAT branch to `pc + off` when the slot is (not) zero, else fall through by 6 |
| Exec.ExecCompare | atSourceCode/at.cpp:1586-1641 | the compare branches are -1 exactly when their operands do not decode |
| Exec.CompareEffect | atSourceCode/at.cpp:1586-1641 | a compare branch is taken exactly when its signed comparison of the two slots holds, else it falls through by 10 |
| Exec.Branch | atSourceCode/at.cpp:1546-1641 | a taken branch to a position outside the jump table is -2 and changes nothing |
| Exec.Paused | atSourceCode/at.cpp:1689-1726 | a stop sets `stopped` and nothing else; as written it returns 0 and leaves `pc` in place |
| Exec.ExecImmediate | atSourceCode/at.cpp:1708-1786 | FIN_IMD returns to `pcs` finished; STP_IMD pauses; SLP_IMD moves on by one; SET_PCS sets `pcs` to the next instruction |
| Exec.ExecCodeAddr | atSourceCode/at.cpp:1642-1771 | SLP_DAT and ERR_ADR are -1 exactly when the code address does not decode, and only ERR_ADR can be -3 |
| Exec.CodeAddrEffect | atSourceCode/at.cpp:1752-1771 | ERR_ADR installs a jump-table entry as handler (not moving `pc`, as written) and rejects anything else with -3; SLP_DAT moves on by 5 |
| Exec.ExecZeroStop | atSourceCode/at.cpp:1664-1707 | FIZ/STZ_DAT are 0, 5 or -1, -1 exactly when the address does not decode |
| Exec.ZeroStopEffect | atSourceCode/at.cpp:1664-1707 | a non-zero slot moves on by 5; a zero slot finishes (FIZ) or pauses (STZ) |
| Exec.ExecHost0 | atSourceCode/at.cpp:1787-1812 | EXT_FUN is -1 exactly when the function number is not in the code, and otherwise returns whatever `func` leaves |
| Exec.ExecHost1 | atSourceCode/at.cpp:1813-1902 | EXT_FUN_DAT and EXT_FUN_RET are -1 exactly when their operands do not decode |
| Exec.Host1Effect | atSourceCode/at.cpp:1813-1842 | EXT_FUN_DAT passes the slot to `func1`; EXT_FUN_RET stores `func`'s result in the slot |
| Exec.ExecHostDat2 | atSourceCode/at.cpp:1843-1874 | EXT_FUN_DAT_2 is -1 exactly when its operands do not decode |
| Exec.ExecHostRetDat | atSourceCode/at.cpp:1903-1950 | EXT_FUN_RET_DAT is -1 exactly when its operands do not decode |
| Exec.Host2Effect | atSourceCode/at.cpp:1843-1950 | EXT_FUN_DAT_2 passes both slots to `func2`; EXT_FUN_RET_DAT stores `func1` of the second slot into the first |
| Exec.ExecHostRetDat2 | atSourceCode/at.cpp:1903-1950 | EXT_FUN_RET_DAT_2 is 15 or -1, and undecodable operands give -1 |
| Exec.HostRetDat2Effect | atSourceCode/at.cpp:1903-1950 | EXT_FUN_RET_DAT_2 stores `func2` of the second and third slots into the first |
| Exec.Execute | atSourceCode/at.cpp:980-1955 | every instruction keeps the machine well formed; a fault is -1/-2/-3 and changes nothing (RET_SUB excepted); a plain instruction returns its length (a NOP its run, the disassembly length) and moves `pc` by it; only FIN/FIZ finish, only STP/STZ stop, only ERR_ADR sets the handler |
| Exec.UnknownIsInvalid | atSourceCode/at.cpp:1951-1955 | an unassigned opcode is -2 and changes nothing |
| Exec.Handled | atSourceCode/at.cpp:1957-1961 | an overflow with a handler installed becomes 0 at `pce`, any other result passes unchanged; `ExecProps.HandlerAndStepCount` states it for every step |
| Exec.Step | atSourceCode/at.cpp:980-1973 | at or past the end of the code nothing happens; a step is counted exactly on a non-negative result; an unhandled -1 means no handler; the jump table never changes |
| ExecProps.DivideByZeroIsInvalid | atSourceCode/at.cpp:1153-1176 | DIV_DAT by a zero slot is -2 and changes nothing |
| ExecProps.ExecuteBinary | atSourceCode/at.cpp:1128-1215 | the machine after any two-address arithmetic instruction, exactly |
| ExecProps.InverseRestores | atSourceCode/at.cpp:1128-1215 | ADD then SUB, SUB then ADD and XOR then XOR with the same operand restore the value |
| ExecProps.BinaryThenInverse | atSourceCode/at.cpp:1128-1215 | executing an arithmetic instruction and then its inverse on the same two slots leaves the machine as it was, with `pc` 18 further on |
| ExecProps.ExecuteUnary | atSourceCode/at.cpp:1071-1127 | the machine after any unary instruction, exactly |
| ExecProps.IncrementUndoneByDecrement | atSourceCode/at.cpp:1092-1127 | DEC undoes INC, INC undoes DEC and NOT is an involution, wrap-around included |
| ExecProps.ExecuteInd | atSourceCode/at.cpp:1216-1245 | the machine after SET_IND/IND_DAT, exactly |
| ExecProps.StoreThenLoadThroughPointer | atSourceCode/at.cpp:1216-1245 | IND_DAT through a pointer and then SET_IND through the same pointer loads back the stored value and changes only the two touched slots |
| ExecProps.JumpOutsideTableIsInvalid | atSourceCode/at.cpp:1324-1351 | JMP_ADR/JMP_SUB to a position outside the jump table is -2 and changes nothing |
| ExecProps.ZeroBranchTaken | atSourceCode/at.cpp:1546-1585 | BZR/BNZ succeed iff they fall through or the target is a jump-table entry, and land where the test says |
| ExecProps.HandlerIsInTable | atSourceCode/at.cpp:1752-1771 | ERR_ADR succeeds exactly on a jump-table entry, which becomes the handler |
| ExecProps.StackLimitsOverflow | atSourceCode/at.cpp:1288-1375 | pushing on a full or popping from an empty user or call stack is -1 |
| ExecProps.ExecutePush | atSourceCode/at.cpp:1288-1323 | the machine after PSH_DAT, exactly |
| ExecProps.ExecutePop | atSourceCode/at.cpp:1288-1323 | the machine after POP_DAT, exactly |
| ExecProps.PushThenPop | atSourceCode/at.cpp:1288-1323 | PSH_DAT then POP_DAT moves the value between slots, restores `us` and touches nothing else but the stack entry |
| ExecProps.CallThenReturn | atSourceCode/at.cpp:1324-1375 | a RET_SUB right at a JMP_SUB's target returns just past the call, with `cs` restored, iff that return address is a jump-table entry |
| ExecProps.HandlerAndStepCount | atSourceCode/at.cpp:1957-1970 | only -1 reaches the handler, which turns it into 0 at `pce`; -2 and -3 pass; steps count exactly the non-negative results |
| ExecProps.CompareBranchesOverflowAsWritten | atSourceCode/at.cpp:899-919 | as written and with `addr * 8` computed exactly, every compare branch is -1 |
| ExecProps.CompareBranchesRepaired | atSourceCode/at.cpp:1586-1641 | repaired, a compare branch succeeds iff it falls through or its target is a jump-table entry, landing where the comparison says |
| ExecProps.StopsAsWrittenAndRepaired | atSourceCode/at.cpp:1708-1732 | as written STP_IMD leaves `pc` on itself, so resuming stops again in the same state; repaired, it moves on by one |
| ExecProps.ErrAdrAsWrittenAndRepaired | atSourceCode/at.cpp:1752-1771 | as written a successful ERR_ADR leaves `pc` on itself and a second execution gives the same result on the same machine, so the loop re-executes it on every iteration; repaired, it moves on by five |
| Jumps.WalkLoop | atSourceCode/at.cpp:2015-2036 | the disassembly loop collects exactly the positions of the walk that starts at 0 |
| Jumps.ListCode | atSourceCode/at.cpp:2015-2036 | `list_code` with jump detection yields exactly `Visited(code, 0)` |
| Jumps.ScanStartsAtZero | atSourceCode/at.cpp:2015-2036 | position 0 is a jump-table entry iff the code is non-empty, and every entry lies in the code |
| Jumps.ScanSteps | atSourceCode/at.cpp:2015-2036 | the jump table is closed under stepping by an instruction's disassembly length while inside the code |
| Jumps.ScanReachedByStepping | atSourceCode/at.cpp:2015-2036 | every entry but 0 is reached from an earlier entry by exactly one instruction length |
| Jumps.UnknownEndsScan | atSourceCode/at.cpp:1951-1955 | an unassigned opcode ends the walk: no entry lies beyond it |
| Jumps.NoneInsideAnInstruction | atSourceCode/at.cpp:2015-2036 | no jump-table entry lies strictly inside an instruction the walk decoded |
| Jumps.ResetThenScan | atSourceCode/at.cpp:2049-2061 | a reset followed by the scan has exactly the walk as jump table, `pc` at `pcs` and no steps |
| Host.IndexOf | atSourceCode/at.cpp:535-559 | the lookup finds the entry for a function number exactly when one is registered |
| Host.Advance | atSourceCode/at.cpp:543-553 | a cursor moves to the next value, wrapping when looping and staying on the last value otherwise |
| Host.AdvanceAll | atSourceCode/at.cpp:543-553 | the increment function advances every fixture's cursor and keeps the keys |
| Host.RewindAll | atSourceCode/at.cpp:581-587 | a balance read rewinds every fixture's cursor to 0 and keeps the keys |
| Host.AdvanceAllKeepsWf | atSourceCode/at.cpp:543-553 | advancing keeps every cursor inside its sequence |
| Host.RewindAllKeepsWf | atSourceCode/at.cpp:581-587 | rewinding keeps every cursor inside its sequence |
| Host.GetFunctionData | atSourceCode/at.cpp:535-559 | the increment function clears the first-call flag on its first call and advances all cursors on later calls; the value returned is at the requested fixture's cursor |
| Host.LoopingCursor | atSourceCode/at.cpp:543-553 | after n advances a looping cursor is at `(offset + n) mod length` |
| Host.ClampingCursor | atSourceCode/at.cpp:543-553 | after n advances a non-looping cursor is at `min(offset + n, length - 1)` |
| Host.Fallback | atSourceCode/at.cpp:714-715 | a number with no built-in meaning returns fixture data if registered and 0 otherwise, changing nothing else |
| Host.Func0 | atSourceCode/at.cpp:561-727 | `func` never changes the output or the balance and keeps the fixture table well formed |
| Host.Func1 | atSourceCode/at.cpp:729-774 | `func1` keeps the fixture table well formed with the same keys |
| Host.Func2 | atSourceCode/at.cpp:776-828 | `func2` keeps the fixture table well formed with the same keys |
| Host.FixedReturns | atSourceCode/at.cpp:565-577 | functions 1, 3 and 4 return `g_val`, 10 and 4 and change nothing |
| Host.CounterStep | atSourceCode/at.cpp:567-573 | function 2 counts `g_val` up modulo 10 and returns the new value |
| Host.CounterCycles | atSourceCode/at.cpp:567-573 | n calls of function 2 leave `g_val` at `(g_val + n) mod 10` |
| Host.CounterPeriod | atSourceCode/at.cpp:567-573 | ten calls of function 2 restore the host exactly |
| Host.HalveUndoesDouble | atSourceCode/at.cpp:735-738 | `func1` 3 undoes `func1` 2 when the doubling fits an int64 |
| Host.MultiplyAndSum | atSourceCode/at.cpp:780-785 | `func2` 2 and 4 are commutative with units 1 and 0 and change nothing |
| Host.BalanceReadRewinds | atSourceCode/at.cpp:578-588 | functions 25/32 return the balance and, when registered, set the first-call flag and rewind every cursor |
| Host.FullPayout | atSourceCode/at.cpp:739-743 | functions 26/33 pay out the whole balance and leave it 0 |
| Host.PartialPayoutClamps | atSourceCode/at.cpp:786-793 | function 31 pays at most the balance and deducts what it paid |
| Host.SetThenGet | atSourceCode/at.cpp:589-604 | setting an A or B register and then getting it returns the value set |
| Host.SwapTwice | atSourceCode/at.cpp:655-671 | swapping A and B twice restores the registers |
| Host.CopyAndClearChecks | atSourceCode/at.cpp:605-654 | after a copy A and B are equal; after a clear the cleared quad is zero |
| Host.XorAndOrCombine | atSourceCode/at.cpp:672-713 | XOR of A with B twice restores A, and OR is idempotent |
| Host.UnknownNumbersFallBack | atSourceCode/at.cpp:714-715 | all three families answer an unknown number from fixture data, or 0 if unregistered |
| Driver.ResetMachine | atSourceCode/at.cpp:2049-2061 | `reset_machine` resets the state, rebuilds the jump table from the code, zeroes every slot, sets the first-call flag, rewinds every cursor, and keeps the machine well formed |
| Driver.ResetMachineIdempotent | atSourceCode/at.cpp:2049-2061 | resetting a just-reset machine changes nothing |
| Driver.ResetMachineForgetsRun | atSourceCode/at.cpp:2049-2061 | machines that differ only in what a run changes reset to the same machine |
| Driver.Charge | atSourceCode/at.cpp:2193 | each iteration decrements the balance by one, changing nothing else |
| Driver.Loop | atSourceCode/at.cpp:2179-2230 | the `run`/`cont` loop over any step function; `LoopKeepsWf`, `LoopHalts` and `LoopBudgetMonotone` carry its contract |
| Driver.Run | atSourceCode/at.cpp:2172-2230 | the loop over the interpreter's own step; `RunKeepsWf`, `RunHalts` and `RunOffTheEnd` carry its contract |
| Driver.LoopKeepsWf | atSourceCode/at.cpp:2179-2230 | the loop keeps the machine well formed and the jump table fixed, and counts at most one step per iteration |
| Driver.LoopHalts | atSourceCode/at.cpp:2179-2230 | each way the loop ends has its reason: zero balance, a cleared stop flag, a finish, a break point at `pc`, or an error code |
| Driver.StepsKeep | atSourceCode/at.cpp:980-1973 | the interpreter's step satisfies what the loop needs from a step |
| Driver.RunKeepsWf | atSourceCode/at.cpp:2179-2230 | running keeps the machine well formed and the jump table fixed |
| Driver.RunHalts | atSourceCode/at.cpp:2179-2230 | every end of a run of the interpreter carries its reason |
| Driver.LoopBudgetMonotone | atSourceCode/at.cpp:2179-2230 | once the loop ends for a reason of the program's own, a larger budget gives the same end |
| Driver.ErrAdrStep | atSourceCode/at.cpp:1752-1771 | as written, the interpreter's step on a successful ERR_ADR installs the handler and counts a step, leaving `pc` on the instruction |
| Driver.ErrAdrSpins | atSourceCode/at.cpp:2179-2230 | as written, an ERR_ADR whose handler is already installed is re-executed on every loop iteration, a step counted each time, until the run ends with no balance and nothing but the balance and the step count changed |
| Driver.ErrAdrDrainsBalance | atSourceCode/at.cpp:1752-1771 | a run that meets a successful ERR_ADR, as written, installs the handler once and then spins on it until the balance is used up, ending with `pc` still on the ERR_ADR and `balance` steps counted |
| Driver.RunOffTheEnd | atSourceCode/at.cpp:988-989 | past the end of the code every iteration is a no-op costing one unit, so the run drains the balance |
| Snapshot.ReadsI64 | atSourceCode/at.cpp:2255-2257 | an int64 written to a snapshot reads back |
| Snapshot.ReadsI32 | atSourceCode/at.cpp:2259-2266 | an int32 written to a snapshot reads back |
| Snapshot.ReadsBool | atSourceCode/at.cpp:2258 | a bool written to a snapshot reads back |
| Snapshot.ReadsSize | atSourceCode/at.cpp:2295-2296 | a `size_t` written to a snapshot reads back |
| Snapshot.ReadsBytes | atSourceCode/at.cpp:2281 | the code buffer written to a snapshot reads back |
| Snapshot.ReadsSlots | atSourceCode/at.cpp:2290-2291 | the data buffer written as 8-byte slots reads back |
| Snapshot.ReadsFixture | atSourceCode/at.cpp:2303-2320 | a fixture (loop flag, cursor, values) reads back |
| Snapshot.ReadsEntry | atSourceCode/at.cpp:2299-2320 | a function number with its fixture reads back |
| Snapshot.ReadsEntries | atSourceCode/at.cpp:2299-2321 | the fixture table written in key order reads back entry by entry |
| Snapshot.ReadsGlobals | atSourceCode/at.cpp:2255-2259 | the console globals read back, replacing only those globals |
| Snapshot.ReadsCounters | atSourceCode/at.cpp:2261-2266 | `pc`, `cs`, `us`, `pce`, `pcs` and `steps` read back |
| Snapshot.ReadsRegs | atSourceCode/at.cpp:2268-2276 | the A and B registers read back |
| Snapshot.ReadBuffers | atSourceCode/at.cpp:2278-2291 | buffers are accepted only with a valid configuration, and then the code and data buffers have the sizes the page counts give |
| Snapshot.ReadsBuffers | atSourceCode/at.cpp:2278-2291 | page counts, code and data buffer written to a snapshot read back |
| Snapshot.ReadTable | atSourceCode/at.cpp:2293-2321 | a fixture table read is strictly ordered by key |
| Snapshot.ReadsTable | atSourceCode/at.cpp:2293-2321 | the count and the entries of an ordered table read back |
| Snapshot.ReadsHead | atSourceCode/at.cpp:2255-2276 | the globals, counters and registers read back in order |
| Snapshot.ReadsBody | atSourceCode/at.cpp:2278-2321 | the buffers and fixture table read back in order |
| Snapshot.Assemble | atSourceCode/at.cpp:2326-2329 | the assembled machine, with the jump table rebuilt by the scan, is well formed |
| Snapshot.LoadWith | atSourceCode/at.cpp:2255-2329 | anything `load` accepts is a well-formed machine |
| Snapshot.AssembleRestores | atSourceCode/at.cpp:2255-2329 | putting back what was read from a machine gives that machine, with the current flags and output and a fresh jump table |
| Snapshot.Save | atSourceCode/at.cpp:2332-2387 | `save` writes the globals, counters, registers, buffers and fixture table in order; `LoadSave` is its round trip |
| Snapshot.Load | atSourceCode/at.cpp:2247-2331 | `load` reads the same sections back and rebuilds the jump table from a cleared table; `LoadWith` and `LoadSave` carry its contract |
| Snapshot.LoadAsWritten | atSourceCode/at.cpp:2247-2331 | `load` as written, adding the scan to the table it had; `LoadKeepsStaleJumps` and `StaleJumpExample` carry its contract |
| Snapshot.LoadSave | atSourceCode/at.cpp:2340-2387 | loading what `save` wrote restores the machine, its buffers, globals and fixture table, whatever follows the snapshot |
| Snapshot.LoadKeepsStaleJumps | atSourceCode/at.cpp:2326-2329 | as written, every jump-table entry of the machine loaded into survives the load |
| Snapshot.ScanSkipsOperand | atSourceCode/at.cpp:1026-1048 | a SET_VAL at 0 makes position 1 an operand byte, never a jump-table entry |
| Snapshot.StaleJumpExample | atSourceCode/at.cpp:2326-2329 | a stale entry inside an operand is dropped by the corrected load and kept by the load as written |
| Scenario.EchoSetVal | atSourceCode/at.cpp:1026-1048 | the session's first step stores 8888 in slot 0 and moves to 13 |
| Scenario.EchoCall | atSourceCode/at.cpp:1813-1842 | the second step echoes slot 0 through `func1` 1 and moves to 20 |
| Scenario.EchoFinish | atSourceCode/at.cpp:1708-1732 | the third step finishes and returns to `pcs` |
| Scenario.EchoSession | atSourceCode/at.cpp:31-35 | the "output value" session finishes after three steps and three units of balance, with 8888 in slot 0 and exactly one echo of 8888 |
| Scenario.EchoAfterReset | atSourceCode/at.cpp:31-35 | after `reset_machine` with start address 0, `run` finishes having echoed 8888 |

## Left out

- Decode.ThirdAddr: the source's guard for the third address of SET_IDX,
  IDX_DAT (at.cpp:1256, 1416) and EXT_FUN_RET_DAT_2 (at.cpp:1913) checks
  `pc + 4 < csize` on the unshifted `pc` (at.cpp:845) and then reads 8 or 10
  bytes further on. An instruction whose third field runs past the code, for
  example SET_IDX at 500 in 512 bytes of code, over-reads the code buffer in
  the program. It is -1 in both dialects here. The as-written reading is
  `Decode.ThirdAddrAsWritten` (see Findings).
- Exec.Defined: C++ leaves some cases undefined, and the model does not
  execute them: DIV_DAT of INT64_MIN by -1 (at.cpp:1172), MOD_DAT by 0 or of
  INT64_MIN by -1 (at.cpp:1470), SHL_DAT/SHR_DAT by a count outside 0..63
  (at.cpp:1496, 1522), and function 3 of `func2` on the same operands
  (at.cpp:782-783). `Exec.Execute` and `Exec.Step` require their absence.
- Driver.Undefined: where the next instruction is one of the cases above, the
  run ends with this halt. The program has no such halt.
- Driver.OutOfBudget: the console loop (at.cpp:2179-2230) has no iteration
  bound; `Driver.Run` takes one so that the loop is a terminating function.
  `Driver.LoopBudgetMonotone` shows that a run which ends for any other
  reason ends the same way with every larger budget.
- Base.Wrap64: +, -, * (ADD/SUB/MUL_DAT), INC/DEC_DAT, the base+index of
  SET_IDX/IDX_DAT and the balance decrement are modelled as two's-complement
  wrap-around. Signed overflow is undefined in C++, and wrap-around is what
  the usual compilers produce.
- Base.Shl64: SHL_DAT is `wrap(x * 2^n)` (the C++20 definition); earlier
  standards leave a negative left operand undefined.
- Base.Shr64: SHR_DAT is the arithmetic shift `floor(x / 2^n)` (its contract
  `r == x / Pow2(n)`); the shift is implementation-defined for negative
  values before C++20.
- Exec.Step: the source increments the `int32_t steps` (at.cpp:1970) without
  wrap-around. The model counts with an unbounded integer, and `Machine.Wf`
  places no int32 bound on it.
- Snapshot.Load: returns `None` in five cases: the input is too short, the
  code page count is below 1, the page counts do not form a valid `Config`,
  the fixture keys are not strictly ascending, or the result is not a
  well-formed machine. The source's load (at.cpp:2255-2329) has no reject
  path; it reads whatever the file holds, and a duplicate key appends its
  values to the earlier entry. `save` never writes any of these, so the
  round trip `Snapshot.LoadSave` is unaffected.
- Snapshot.Load: rebuilds the jump table from nothing. The source adds the
  scan to the table it already had (at.cpp:2326-2329); that reading is
  `Snapshot.LoadAsWritten` (see Findings). `Snapshot.LoadAsWritten` still
  rejects a snapshot when a kept entry lies at or past the end of the new
  code, because the loaded machine must be well formed; the source keeps
  such an entry, and a later RET_SUB or jump can reach it.
- Decode.GetAddrsOffAsWritten: computes `addr * 8` exactly, as every other
  decoder here does, so the reversed bound at at.cpp:910-911 rejects every
  address. If the int32 product wraps, as `Decode.DataAddrCheckInt32`
  assumes, addresses `0x20000000 + j` pass and work on slot `j`
  (`Decode.AddrsOffInt32AdmitsWrapped`). Signed overflow is undefined in C++,
  and the model does not execute compare branches on wrapped addresses.
- ExecProps.CompareBranchesOverflowAsWritten: "every compare branch is -1"
  holds under the exact reading of `Decode.GetAddrsOffAsWritten`; under
  int32 wrap-around a branch on `0x20000000 + j` would decode.
- Layout.Dialect: `Repaired` is not the program. It applies the corrections
  listed under Findings for the compare-branch decoder, STP/STZ and ERR_ADR.
  `AsWritten` is the source's behaviour.
- Layout.ValidDataAddr: data addresses are checked with exact arithmetic. The
  source's int32 check (at.cpp:850-857) is `Decode.DataAddrCheckInt32` (see
  Findings).
- Console output: disassembly text, the trace lines of `func`/`func1`/`func2`
  and the loop's messages are not modelled. Echo and payout calls are
  recorded as `Host.Event`s.
- Sleep: SLP_DAT and SLP_IMD only move `pc`; the source leaves the sleep
  itself as a note (at.cpp:1658, 1746).
- File I/O and partial reads: snapshots are byte sequences; a short file is
  rejected rather than read partly.
- Scenario: only the "output value" session of the source's header comment
  (at.cpp:31-35) is followed; the two looping sessions (at.cpp:37-57, built
  on BNZ_DAT) are not.
- Debugger commands other than `run`/`cont`, `load`, `save` and
  `reset_machine` (dumps, break point editing, single steps) are not part of
  this model.

## Findings

| source | as written | input that shows it | evidently intended | confidence | as-written member | corrected member |
|---|---|---|---|---|---|---|
| atSourceCode/at.cpp:910-911 | `get_addrs_off` rejects `addr < c_max_to_multiply`, so every address below 0x1fffffff is rejected; with exact arithmetic every address is, and with int32 wrap-around addresses such as `0x20000000 + j`, aliasing slot `j`, get through | any BGT..BNE_DAT with data addresses 0 and 1 | reject `addr > c_max_to_multiply`, as `get_addrs` does | not executed | Decode.GetAddrsOffAsWritten, ExecProps.CompareBranchesOverflowAsWritten, Decode.AddrsOffInt32AdmitsWrapped | Decode.GetAddrsOff, ExecProps.CompareBranchesRepaired |
| atSourceCode/at.cpp:1689-1726 | STP_IMD and STZ_DAT (on zero) set `stopped` with rc 0 and `pc += 0`, so `cont` executes the same stop again | STP_IMD at `pc`, then `cont` | move `pc` past the stop (rc = length) | not executed | Exec.Paused, ExecProps.StopsAsWrittenAndRepaired (AsWritten) | ExecProps.StopsAsWrittenAndRepaired (Repaired) |
| atSourceCode/at.cpp:1766-1767 | a successful ERR_ADR sets `pce` but never moves `pc`, so the loop re-executes it on every iteration until the balance runs out (or a break point on it fires) | ERR_ADR with a jump-table target | advance `pc` by 5 | not executed | ExecProps.ErrAdrAsWrittenAndRepaired (AsWritten), Driver.ErrAdrDrainsBalance | ExecProps.ErrAdrAsWrittenAndRepaired (Repaired) |
| atSourceCode/at.cpp:850-857 | `addr * 8 + 8 > dsize` is computed in int32; for addr 0x0fffffff it wraps to INT32_MIN and passes | SET_VAL to address 0x0fffffff with one data page | compare in a wider type, so that the slot must lie inside `dsize` | not executed | Decode.DataAddrCheckInt32, Decode.Int32CheckAdmitsOverrun | Layout.ValidDataAddr, Decode.Int32CheckAgreesElsewhere |
| atSourceCode/at.cpp:2326-2329 | `load` runs `list_code` without clearing the jump table, so entries from the previous program survive | load a program with SET_VAL at 0 into a machine whose table holds 1 | clear the table before the scan | not executed | Snapshot.LoadAsWritten, Snapshot.LoadKeepsStaleJumps | Snapshot.Load, Snapshot.LoadSave, Snapshot.StaleJumpExample |
| atSourceCode/at.cpp:845 | the third-address guard checks `pc + 4 < csize` but reads at `pc + shift + 1`, past the code buffer | SET_IDX at 500 in 512 bytes of code | check the shifted position | not executed | Decode.ThirdAddrAsWritten, Decode.ThirdAddrGuardAdmitsOverread | Decode.ThirdAddr, Decode.ThirdAddrAgreesInside |
