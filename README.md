# Minikernel hardware emulator — Dafny model

This project models the sequential hardware layer of a small teaching
emulator of a decimal machine. The layer has these parts:

- **The word (`Palabra`).** A 32-bit unsigned number written as eight
  decimal digits. A leading digit 0 marks a non-negative value and 1 a
  negative one (sign and magnitude). On disk a word is stored as its eight
  digits followed by the tag byte `F`.
- **The instruction format.** A word read as a two-digit opcode, a
  one-digit addressing mode and a five-digit operand.
- **The CPU-visible state.** The program status word (PSW), whose setters
  check their ranges. The register file, whose address registers accept
  only words that decode to 0..2000. The external interrupt flags.
- **Main memory.** 2000 words behind a bounds check.
- **The disk.** 11 cylinders × 11 tracks × 101 sectors of nine bytes,
  behind a geometry check.
- **Interrupt handling.** The interrupt causes, one handler per cause, and
  the dispatch that says whether the running program continues.
- **The DMA controller.** It moves one word between a sector and a memory
  cell, then raises the I/O flag.
- **Helpers.** Converting foreign `Result`/`Option` values into the
  emulator's errors, rendering a signed value as word text, and looking a
  program up by name.

The Dafny modules follow the Rust files:

| module | file |
|---|---|
| `Architecture` | `architecture.rs` |
| `Instructions` | `instructions.rs` |
| `Cpu` | `cpu.rs` |
| `Ram` | `ram.rs` |
| `Disk` | `disk.rs` |
| `Interrupts` | `interrupts.rs` |
| `Dma` | `dma.rs` |
| `Utils` | `utils.rs` |

Two supporting modules hold shared definitions:

- `Numerics` holds the integer widths and the decimal text forms Rust
  produces with `format!("{:0w}")` and reads with `parse::<u32>()`.
- `Outcomes` holds the interrupt causes, the error record, `Result` and
  the continue-or-stop verdict. It is its own module because the Rust
  `utils` and `interrupts` modules import each other.

The form of the code follows the form of the source:

- Word, instruction and helper code is pure, so it is modelled as
  functions and lemmas.
- The PSW, the register file, memory, the disk, the flags and the DMA
  controller are updated in place, so each is a class.
  - Each setter is a method with a `modifies` clause.
  - Each setter states its full new state through a `View()` snapshot
    or the array contents.
- The disk's sector copy and the program lookup are loops, so they are
  methods with loop invariants.

Memory position 2000 gets special treatment. Both memory accessors reject
positions outside [0, 2000]. That lets position 2000 through, but the array
has only cells 0..1999, so the Rust code would index past the end. The model
does not add a cell for that position:

- `Ram.GuardAdmitsUnbackedCell` states that 2000 is the one position the
  guard admits without a backing cell.
- The accessors, and every operation that reaches them, take
  `pos != 2000` as a precondition.

## Model

| member | source | states |
|---|---|---|
| Numerics.ParseU32 | src/hardware/architecture.rs:12 | `parse::<u32>` on digit text: succeeds exactly on non-empty all-digit text whose value fits 32 bits, and yields that value |
| Numerics.Format | src/hardware/architecture.rs:31 | `{:0w}`: all digits, length `max(w, number of digits)` |
| Numerics.FormatSigned | src/hardware/cpu.rs:86-89 | `{}`/`{:0w}` of a signed number: the unsigned form when non-negative; otherwise `-` followed by digits whose value is the magnitude, the whole padded to `max(w, digits + 1)` characters |
| Numerics.FormatParses | src/hardware/architecture.rs:30-46 | parsing the zero-padded form of `n` gives back `n` |
| Numerics.FormatWidth | src/hardware/instructions.rs:30-33 | the zero-padded form of `n` has exactly `w` characters iff `n < 10^w` |
| Numerics.ParseAppend | src/hardware/instructions.rs:31 | the value of concatenated digit texts is the first value shifted by the second's length plus the second value |
| Numerics.ParseFixed | src/hardware/architecture.rs:31 | parsing the last `w` digits of `n` gives `n mod 10^w` |
| Numerics.NumDigitsFits | src/hardware/architecture.rs:31 | `n` has at most `w` digits iff `n < 10^w` |
| Outcomes.CodesDistinct | src/hardware/interrupts.rs:13-23 | the nine causes carry the pairwise distinct discriminants 8 (Overflow) down to 0 (CodCallSysInv) |
| Architecture.New | src/hardware/architecture.rs:7-18 | `None` when the length is not 8; otherwise `Some` iff all eight are digits, with the parsed value, below 10^8 |
| Architecture.Zero | src/hardware/architecture.rs:7-18 | `Palabra::new("00000000").unwrap()` is the word 0 |
| Architecture.Convert | src/hardware/architecture.rs:20-28 | leading digit 0: the word itself in [0, 9999999]; leading digit 1: minus the other seven digits, in [-9999999, 0]; leading digit 2 or more: 1 |
| Architecture.ConvertToStringDisk | src/hardware/architecture.rs:30-32 | for an eight-digit word: nine characters, eight digits then `F` |
| Architecture.ConvertToDiskPalabra | src/hardware/architecture.rs:34-46 | `None` unless the length is 9; then `Some` iff the first eight are digits, with their value |
| Architecture.DiskDigitsParse | src/hardware/architecture.rs:30-32 | `Palabra::new` on the first eight disk bytes of a word gives the word back |
| Architecture.DiskRoundTrip | src/hardware/architecture.rs:30-46 | disk encoding then disk decoding gives back every eight-digit word |
| Architecture.DiskTagIgnored | src/hardware/architecture.rs:39-40 | the ninth byte does not affect disk decoding |
| Instructions.Decode | src/hardware/instructions.rs:22-28 | for an eight-digit word the fields fit their widths and recombine as `opcode·10^6 + dir·10^5 + value` |
| Instructions.TextIsWordLong | src/hardware/instructions.rs:30-33 | the formatted text is eight characters iff opcode ≤ 99, dir ≤ 9 and value ≤ 99999, so those widths are the condition for the `unwrap` to succeed |
| Instructions.TextValue | src/hardware/instructions.rs:31 | the formatted text is eight digits whose value is `opcode·10^6 + dir·10^5 + value` |
| Instructions.HeadValue | src/hardware/instructions.rs:31 | the opcode and mode digits read together as `opcode·10 + dir` |
| Instructions.Encode | src/hardware/instructions.rs:30-33 | the encoded word is `opcode·10^6 + dir·10^5 + value` |
| Instructions.DecodeEncode | src/hardware/instructions.rs:22-33 | decoding an encoded instruction gives the instruction back |
| Instructions.EncodeDecode | src/hardware/instructions.rs:22-33 | encoding a decoded eight-digit word gives the word back |
| Cpu.ExternalInterrup.constructor | src/hardware/cpu.rs:4-16 | both flags start cleared |
| Cpu.CheckRange | src/hardware/cpu.rs:36-83 | the PSW setters' range check: success iff `lo ≤ val ≤ hi`, otherwise an InstInv error with the setter's message |
| Cpu.Pws.constructor | src/hardware/cpu.rs:27-34 | condition 0, user mode 0, interrupts enabled 1, pc 0 |
| Cpu.Pws.SetCodition | src/hardware/cpu.rs:36-47 | accepts 0..3 and sets only the condition code; otherwise InstInv and the PSW is unchanged |
| Cpu.Pws.SetMode | src/hardware/cpu.rs:48-59 | accepts 0..1 and sets only the mode; otherwise InstInv and the PSW is unchanged |
| Cpu.Pws.SetInte | src/hardware/cpu.rs:60-71 | accepts 0..1 and sets only the interrupt enable; otherwise InstInv and the PSW is unchanged |
| Cpu.Pws.SetPc | src/hardware/cpu.rs:72-83 | accepts 0..99999 and sets only pc; otherwise InstInv and the PSW is unchanged |
| Cpu.Pws.ConvertToPalabra | src/hardware/cpu.rs:85-90 | with every field in range: eight digits, the three one-digit fields, then pc padded to five |
| Cpu.ThreeDigitsValue | src/hardware/cpu.rs:86-89 | the three one-digit PSW fields, written side by side, read as `cod·100 + mode·10 + inte` |
| Cpu.PswWordValue | src/hardware/cpu.rs:85-90 | with every field in range the text parses as a word of value `cod·10^7 + mode·10^6 + inte·10^5 + pc` |
| Cpu.AddressCheck | src/hardware/cpu.rs:121-142 | success iff the decoded value is in [0, 2000]; above it an Overflow error, below it an Underflow error, each with its own message |
| Cpu.LeadingDigitFallbackPasses | src/hardware/architecture.rs:26 | every word with leading digit 2 or more passes the address check, however large |
| Cpu.Registros.constructor | src/hardware/cpu.rs:107-119 | every register holds the zero word; the PSW is a new one in its initial state |
| Cpu.Registros.SetMar | src/hardware/cpu.rs:121-142 | outcome is the address check; on success only MAR changes, on failure nothing does |
| Cpu.Registros.SetMdr | src/hardware/cpu.rs:143-145 | sets MDR unconditionally and nothing else |
| Cpu.Registros.SetIr | src/hardware/cpu.rs:146-148 | sets IR unconditionally and nothing else |
| Cpu.Registros.SetRb | src/hardware/cpu.rs:150-171 | outcome is the address check; on success only RB changes, on failure nothing does |
| Cpu.Registros.SetRl | src/hardware/cpu.rs:172-192 | outcome is the address check; on success only RL changes, on failure nothing does |
| Cpu.Registros.SetRx | src/hardware/cpu.rs:193-213 | outcome is the address check; on success only RX changes, on failure nothing does |
| Cpu.Registros.SetSp | src/hardware/cpu.rs:214-235 | outcome is the address check; on success only SP changes, on failure nothing does |
| Ram.GuardAdmitsUnbackedCell | src/hardware/ram.rs:7-29 | the guard admits exactly one position with no cell behind it: 2000 |
| Ram.Access | src/hardware/ram.rs:18-23 | success iff the position is in [0, 2000], otherwise DirInv with "Dirección a leer invalida" |
| Ram.Ram.constructor | src/hardware/ram.rs:11-15 | 2000 cells, each holding the zero word |
| Ram.Ram.ReadMemory | src/hardware/ram.rs:17-26 | a DirInv error outside [0, 2000]; otherwise the word in that cell |
| Ram.Ram.WriteMemory | src/hardware/ram.rs:28-38 | a DirInv error and unchanged memory outside [0, 2000]; otherwise exactly that cell changes, and reading it back gives the written word |
| Disk.WriteOutcome | src/hardware/disk.rs:28-40 | success iff the geometry is valid and the data is nine characters long; otherwise EndIO with "Error al escribir del disco" |
| Disk.Disk.constructor | src/hardware/disk.rs:9-13 | every sector is nine ASCII `0` bytes, so every read gives "00000000" |
| Disk.Disk.Read | src/hardware/disk.rs:15-25 | success iff the geometry is valid, with the first eight bytes of the sector; otherwise EndIO with "Error al leer del disco" |
| Disk.Disk.Write | src/hardware/disk.rs:27-51 | outcome as `WriteOutcome`; on success the sector holds the data and reads back as its first eight bytes, and no other sector changes; on failure nothing changes |
| Interrupts.Disposition | src/hardware/interrupts.rs:80-97 | Continue exactly for the causes with discriminants 2..4 (CallSys, Clock, EndIO) |
| Interrupts.OverflowHandler | src/hardware/interrupts.rs:25-28 | condition code becomes 3, nothing else in the PSW changes; Break |
| Interrupts.UnderflowHandler | src/hardware/interrupts.rs:30-33 | condition code becomes 3, nothing else in the PSW changes; Break |
| Interrupts.DirInvHandler | src/hardware/interrupts.rs:35-38 | Break, with no state touched |
| Interrupts.InstInvHandler | src/hardware/interrupts.rs:40-43 | Break, with no state touched |
| Interrupts.EndIOHandler | src/hardware/interrupts.rs:45-49 | sets the I/O flag, keeps the clock flag; Continue |
| Interrupts.ClockHandler | src/hardware/interrupts.rs:51-54 | sets the clock flag, keeps the I/O flag; Continue |
| Interrupts.CallSysHandler | src/hardware/interrupts.rs:56-70 | with SP decoding to a memory cell, the read succeeds, nothing changes, and the result is Continue |
| Interrupts.CodIntInvHandler | src/hardware/interrupts.rs:72-74 | Break, with no state touched |
| Interrupts.CodCallSysInvHandler | src/hardware/interrupts.rs:76-78 | Break, with no state touched |
| Interrupts.HandleInterrupt | src/hardware/interrupts.rs:80-97 | verdict is `Disposition`; only Overflow and Underflow change the PSW (condition 3), only EndIO and Clock change a flag (their own) |
| Dma.NewConfig | src/hardware/dma.rs:34-45 | sector (0, 0, 0), position 0, read mode, state Succes |
| Dma.ReadTransfer | src/hardware/dma.rs:90-135 | the read path: the disk error, or the parse error (InstInv, "Error al transformar la palabra del disco"), or the memory error, in that order; success with the parsed word iff all three stages pass |
| Dma.WriteTransfer | src/hardware/dma.rs:179-206 | the write path: the memory error, or the disk's EndIO error "Error al escribir del disco"; success with the word's disk form iff the word has eight digits and the geometry is valid |
| Dma.TransferRoundTrip | src/hardware/dma.rs:83-224 | a word written to a valid sector and read back into any valid cell arrives unchanged |
| Dma.Dma.constructor | src/hardware/dma.rs:56-65 | sector (0, 0, 0), position 0, read mode, state Succes |
| Dma.Dma.ReadDisk | src/hardware/dma.rs:83-154 | outcome as `ReadTransfer`; on success memory changes only at `pos_men` and the I/O flag is set; on failure memory and the flag are unchanged and the state becomes Error; success leaves the state alone |
| Dma.Dma.WriteDisk | src/hardware/dma.rs:156-224 | outcome as `WriteTransfer`; on success the sector holds the disk form of `mem[pos_men]`, no other sector changes and the I/O flag is set; on failure the disk and the flag are unchanged and the state becomes Error |
| Dma.Dma.Execute | src/hardware/dma.rs:67-81 | mode 0 behaves as `ReadDisk` and leaves the disk alone, mode 1 as `WriteDisk` and leaves memory alone, any other mode succeeds with nothing changed |
| Dma.WriteThenRead | src/hardware/dma.rs:67-224 | a write transfer from cell `a` and then a read transfer of the same sector into cell `b` both succeed and leave `mem[b]` equal to the old `mem[a]` |
| Utils.ConvertResult | src/utils.rs:28-39 | success is kept with its value; any failure becomes exactly the given message and cause |
| Utils.ConvertOptionResult | src/utils.rs:41-50 | `Some` gives success with its value; `None` gives exactly the given message and cause |
| Utils.ConvertToStringFormatPal | src/utils.rs:52-58 | negative: "1" then the magnitude padded to seven; otherwise the value padded to eight; always digits |
| Utils.FormatPalLength | src/utils.rs:52-58 | exactly eight characters for values in [-9999999, 99999999] |
| Utils.NegativeTextValue | src/utils.rs:54 | the text of a negative value parses as 10^7 plus its magnitude |
| Utils.FormatPalRoundTrip | src/utils.rs:52-58 | rendering any value in [-9999999, 9999999], parsing it as a word and decoding gives the value back |
| Utils.ConvertFormatRoundTrip | src/utils.rs:52-58 | decoding a word with leading digit 0 or 1 (other than negative zero, 10000000) and rendering it gives back its eight digits |
| Utils.EqualLengthDigitsInjective | src/utils.rs:52-58 | two digit texts of equal length and equal value are equal |
| Utils.LinearSearchProgram | src/utils.rs:151-168 | the first entry with the given name; an InstInv "not found" error iff no entry has it |

## Left out

- `main.rs` wires threads, channels and a demo program, and `mod.rs` only declares modules. Neither is part of this model.
- `load_program_in_ram` (`utils.rs:60-149`) reads files. It depends on `Ram::is_empty` and on `Programs`, which are not part of this model.
- Utils.LinearSearchProgram: `Programs` is not part of this model. The table is a sequence of entries of any type, and the caller supplies how to read an entry's name.
- The fetch/decode/execute `Cpu`, word arithmetic operators and the `registers` module are referenced by the code but are not part of this model. `External_interrupt`, named in `dma.rs`, is modelled as the flag record `ExternalInterrup` of `cpu.rs`.
- The commented-out opcode handlers of `instructions.rs` are not live code.
- Locks, threads and the one-second DMA latency are left out. Memory and the flags are plain objects passed to each DMA transfer. The branches for a poisoned lock cannot arise without concurrency, so they are left out too.
- `println!` output is left out.
- Architecture.New: text is parsed as exactly eight ASCII decimal digits. The source trims whitespace and `parse::<u32>` accepts a leading `+`, so the source also accepts eight-character text such as `" 1234567"` or `"+1234567"`, which the model rejects. The same holds for Architecture.ConvertToDiskPalabra.
- Disk.Disk.Read: bytes are modelled as ASCII characters. `String::from_utf8_lossy` and non-ASCII bytes are not modelled.
- Disk.Disk.Write: the length check counts characters, where the source's `data.len()` counts UTF-8 bytes; the two agree on the ASCII digit text the DMA controller writes, but a nine-character text with a non-ASCII character passes here and fails in the source. The same holds for Disk.WriteOutcome.
- Ram.Ram.ReadMemory: position 2000 is a precondition instead of the panic the source would raise. The same holds for Ram.Ram.WriteMemory and the DMA transfers that reach them.
- Utils.ConvertToStringFormatPal: excludes the least 32-bit value, whose `abs` overflows in the source.
- Instructions.Encode: requires the field widths under which the source's `unwrap` succeeds.
- Interrupts.CallSysHandler: requires SP to decode to a memory cell, which the source's `unwrap` assumes.
- Where the system's design description and the code disagree, the model follows the code:
  - The design speaks of 2001 memory slots; the code allocates 2000 cells.
  - The design has the dispatch clear a cause's flag; the I/O and clock handlers set their flag instead.
  - The design has the system call handler stop the program or raise an invalid-system-call flag; the code only reads its operands and continues.
