# Kianxali core in Dafny

A Dafny model of the core of kianxali, an interactive disassembler for x86 executables. It covers
these parts:

- **x86 operand resolution** (`X86CPU`). Works out an operand's address size and operand size
  from the execution mode (REAL, PROTECTED, LONG, SMM) and the instruction's prefix record. Turns
  a raw register index into a register through per-family lookup tables: general-purpose 8/16/32/64-bit,
  segment, control, debug, test, FPU, MMX and XMM.
- **the decoding context** (`X86Context`). Holds the processor model and execution mode, the
  instruction pointer, and the prefix record that the prefix bytes of an instruction build up.
  It also gates which opcode entries can occur for the model and mode.
- **the byte cursor** (`ByteSequences`). Reads little-endian signed and unsigned words and
  NUL-terminated or fixed-length strings from an image. Its position is moved by seek and skip.
- **PE images** (`PEFile`). Translates between RVAs, file offsets and memory addresses through
  the section table.
- **the format-independent image** (`ImageFile`). Finds the section that holds a memory address, and positions
  the cursor at the file offset of a memory address.
- **Mach-O headers** (`MachHeader`). Checks the magic number and the CPU type, then walks the
  load commands. It collects segment sections and the LC_MAIN entry point, and skips other
  commands by their size.

Operations that change state in place are methods on classes with `modifies` clauses:
`X86Context.X86Context` (prefix record, instruction pointer) and `ByteSequences.ByteSequence`
(position). Each is proved against a specification function, and the lemmas are stated about
that function. The pure address arithmetic and lookup code is written as functions. Java
exceptions become `Err` values of a `Result` type. The narrowing `(int)` cast of a seek or skip
target is written out as `ByteSequences.ToInt32`.

In two places a comment in the code and the code itself disagree. The model follows the code:

- The REX prefix bytes 0x40..0x4F are listed in `applyPrefix` without 0x47, so 0x47 is refused
  as an unknown prefix (`X86Context.Rex47Refused`).
- `QWORD_WORD` is commented as "qword by default, word with the operand-size prefix". The size
  code returns 64 bits with the prefix and 16 without (`X86CPUProperties.QwordWordFollowsOpSize`).

Register codes are those of Intel SDM Vol. 2A, section 3.1.1.1. `X86Types.RegisterCode` writes
them out independently of the lookup tables, and the tables are proved to invert them.

Files: `outcomes.dfy` (Result/Option), `x86_types.dfy`, `x86_cpu.dfy`, `x86_cpu_properties.dfy`,
`x86_context.dfy`, `byte_sequence.dfy`, `pe_file.dfy`, `image_file.dfy`, `mach_header.dfy`.

## Model

| member | source | states |
|---|---|---|
| X86CPU.AddressSizeOf | src/kianxali/cpu/x86/X86CPU.java:84-105 | LONG mode and SMM use 64-bit addresses, 32-bit under the address-size prefix; PROTECTED mode 32-bit, 16-bit under the prefix; REAL mode always 16-bit |
| X86CPU.DefaultOperandSize | src/kianxali/cpu/x86/X86CPU.java:107-130 | 64 bits exactly in LONG mode or SMM under REX.W; otherwise, in those modes and in PROTECTED mode, 16 bits under the operand-size prefix and 32 without; REAL mode always 16 bits |
| X86CPU.OperandSizeOf | src/kianxali/cpu/x86/X86CPU.java:132-198 | a size is found exactly for the listed operand types, others fail as invalid; BYTE 8, the WORD types 16, DWORD/single types 32, QWORD/double types 64, REAL_EXT_FPU 80 and the 128-bit types 128 bits; WORD_DWORD_64 the default size, WORD_DWORD, WORD_DWORD_S64 and FAR_POINTER 16/32 by the operand-size prefix, DWORD_QWORD 64/32 by REX.W, POINTER_REX 80 under REX.W and else 16/32, QWORD_WORD 64 with the prefix and 16 without |
| X86CPU.GenericRegister8 | src/kianxali/cpu/x86/X86CPU.java:200-221 | indices 0..15 and only those resolve; the result is an 8-bit general register whose architectural code is the index; other indices fail naming the index |
| X86CPU.GenericRegister16 | src/kianxali/cpu/x86/X86CPU.java:223-244 | the same for the 16-bit general registers |
| X86CPU.GenericRegister32 | src/kianxali/cpu/x86/X86CPU.java:246-267 | the same for the 32-bit general registers |
| X86CPU.GenericRegister64 | src/kianxali/cpu/x86/X86CPU.java:269-290 | the same for the 64-bit general registers |
| X86CPU.SegmentRegister | src/kianxali/cpu/x86/X86CPU.java:292-303 | only the low three bits of the index count; the lookup succeeds exactly when they are below 6, and the segment register found has them as its code |
| X86CPU.FpuRegister | src/kianxali/cpu/x86/X86CPU.java:305-318 | never fails; the result is the FPU stack register whose number is the index's low three bits |
| X86CPU.MmxRegister | src/kianxali/cpu/x86/X86CPU.java:320-333 | never fails; the result is the MMX register whose number is the index's low three bits |
| X86CPU.XmmRegister | src/kianxali/cpu/x86/X86CPU.java:335-356 | indices 0..15 and only those resolve, to the XMM register of that number |
| X86CPU.ControlRegister | src/kianxali/cpu/x86/X86CPU.java:358-367 | exactly indices 0, 2, 3 and 4 resolve, to CR0, CR2, CR3 and CR4 |
| X86CPU.DebugRegister | src/kianxali/cpu/x86/X86CPU.java:369-382 | indices 0..7 and only those resolve, to the debug register of that number |
| X86CPU.TestRegister | src/kianxali/cpu/x86/X86CPU.java:384-397 | indices 0..7 and only those resolve, to the test register of that number |
| X86CPU.GenericAddressRegister | src/kianxali/cpu/x86/X86CPU.java:399-410 | an index above 7 outside LONG mode fails first; otherwise indices 0..15 resolve to a general register with that code, as wide as the address size |
| X86CPU.OperandRegisterGeneral | src/kianxali/cpu/x86/X86CPU.java:412-424 | the mode check comes before the size; an unsized operand type, or an 80- or 128-bit size, fails; otherwise the register has the index as its code and is as wide as the operand |
| X86CPU.OperandRegister | src/kianxali/cpu/x86/X86CPU.java:426-466 | a resolved register lies in a family the address type (and direct group) selects, with the designated index field as its code; general operands resolve as OperandRegisterGeneral (operand-sized) and MOD_RM_R_FORCE_GEN as GenericAddressRegister (address-sized); FPU, MMX and SEGMENT2 always resolve, segment, SEGMENT33, XMM, debug, test and control operands exactly for the indices their tables accept; a missing or other direct group and address types without registers fail |
| X86CPUProperties.SmmSizesAsLong | src/kianxali/cpu/x86/X86CPU.java:84-130 | SMM gets exactly the address and default operand sizes of LONG mode |
| X86CPUProperties.AddressSizeReadsOnlyAdrPrefix | src/kianxali/cpu/x86/X86CPU.java:84-105 | two prefix records that agree on the address-size prefix give the same address size |
| X86CPUProperties.AdrPrefixHalvesAddress | src/kianxali/cpu/x86/X86CPU.java:84-105 | outside REAL mode the address-size prefix halves the address width; in REAL mode it changes nothing |
| X86CPUProperties.RexWDominatesOpSize | src/kianxali/cpu/x86/X86CPU.java:107-118 | in LONG mode and SMM, REX.W forces 64 bits; without it, the operand-size prefix picks 16 over 32 |
| X86CPUProperties.LegacyModesIgnoreRexW | src/kianxali/cpu/x86/X86CPU.java:119-126 | PROTECTED mode reads only the operand-size prefix; REAL mode is 16-bit whatever the prefixes |
| X86CPUProperties.FixedWidthIgnoresContext | src/kianxali/cpu/x86/X86CPU.java:132-198 | every operand type outside the seven context-sensitive ones has the same size, or failure, in every mode and prefix record |
| X86CPUProperties.OpSizeOnlyTypes | src/kianxali/cpu/x86/X86CPU.java:132-198 | WORD_DWORD, WORD_DWORD_S64 and FAR_POINTER are 16 bits with the operand-size prefix and 32 without, in every mode |
| X86CPUProperties.DwordQwordReadsOnlyRexW | src/kianxali/cpu/x86/X86CPU.java:132-198 | DWORD_QWORD is 64 bits under REX.W and 32 otherwise, independent of mode and other prefixes |
| X86CPUProperties.PointerRexWidens | src/kianxali/cpu/x86/X86CPU.java:132-198 | POINTER_REX is 80 bits under REX.W and the same as FAR_POINTER otherwise |
| X86CPUProperties.WordDword64IsDefault | src/kianxali/cpu/x86/X86CPU.java:132-198 | WORD_DWORD_64 takes the mode's default operand size |
| X86CPUProperties.QwordWordFollowsOpSize | src/kianxali/cpu/x86/X86CPU.java:179-184 | QWORD_WORD is 64 bits exactly with the operand-size prefix and 16 bits exactly without |
| X86CPUProperties.GeneralTablesInvertCode | src/kianxali/cpu/x86/X86CPU.java:200-290 | looking up a general register's architectural code in its family's table gives that register back |
| X86CPUProperties.Gen8TableInvertsCode | src/kianxali/cpu/x86/X86CPU.java:200-221 | the 8-bit table inverts the 8-bit register codes |
| X86CPUProperties.Gen16TableInvertsCode | src/kianxali/cpu/x86/X86CPU.java:223-244 | the 16-bit table inverts the 16-bit register codes |
| X86CPUProperties.Gen32TableInvertsCode | src/kianxali/cpu/x86/X86CPU.java:246-267 | the 32-bit table inverts the 32-bit register codes |
| X86CPUProperties.Gen64TableInvertsCode | src/kianxali/cpu/x86/X86CPU.java:269-290 | the 64-bit table inverts the 64-bit register codes |
| X86CPUProperties.OtherTablesInvertCode | src/kianxali/cpu/x86/X86CPU.java:292-397 | every segment, control, debug, test, FPU, MMX and XMM register has a code, and its family's table maps that code back to it |
| X86CPUProperties.XmmTableInvertsCode | src/kianxali/cpu/x86/X86CPU.java:335-356 | the XMM table inverts the XMM register numbers |
| X86CPUProperties.TablesInjective | src/kianxali/cpu/x86/X86CPU.java:200-397 | no table maps two accepted indices to the same register (up to the three-bit mask for segment, FPU and MMX) |
| X86CPUProperties.NoUniformByteRegisters | src/kianxali/cpu/x86/X86CPU.java:200-221 | the 8-bit table never yields SPL, BPL, SIL or DIL; indices 4..7 are AH, CH, DH, BH |
| X86CPUProperties.ExtendedIndexNeedsLong | src/kianxali/cpu/x86/X86CPU.java:399-424 | a general-register operand with an index above 7 outside LONG mode fails with the mode error, whatever its type |
| X86CPUProperties.ForceGenUsesAddressSize | src/kianxali/cpu/x86/X86CPU.java:449-450 | MOD_RM_R_FORCE_GEN resolves as an address register, as wide as the address size |
| X86CPUProperties.NonGeneralIgnoresContext | src/kianxali/cpu/x86/X86CPU.java:426-466 | segment, XMM, control, debug, test, FPU and MMX operands resolve the same in every mode and prefix record |
| X86CPUProperties.GroupNeedsGenericOrFpu | src/kianxali/cpu/x86/X86CPU.java:457-462 | a GROUP operand resolves only through the GENERIC and X87FPU groups; a missing group fails |
| X86CPUProperties.ExampleLongRexW | src/kianxali/cpu/x86/X86CPU.java:412-431 | in LONG mode with REX.W, a DWORD_QWORD operand with index 9 is R9 |
| X86CPUProperties.ExampleProtectedOpSize | src/kianxali/cpu/x86/X86CPU.java:412-431 | in PROTECTED mode with the operand-size prefix, a WORD_DWORD operand with index 0 is AX |
| X86CPUProperties.ExampleProtectedExtended | src/kianxali/cpu/x86/X86CPU.java:412-415 | index 12 in PROTECTED mode fails with the mode error |
| X86CPUProperties.ExampleSegments | src/kianxali/cpu/x86/X86CPU.java:292-303 | segment index 11 is DS, and a SEGMENT2 index 0x18 is DS through bits 3-4 |
| X86CPUProperties.ExampleWidths | src/kianxali/cpu/x86/X86CPU.java:399-424 | a forced general BYTE operand in LONG mode is RAX; an 80-bit operand has no general register |
| X86Context.PrefixKindOf | src/org/solhost/folko/dasm/cpu/x86/X86Context.java:73-108 | REX exactly for 0x40..0x4F without 0x47, its bits from the low nibble; a segment override exactly for the six segment bytes; a known prefix exactly for the listed bytes |
| X86Context.X86Context.constructor | src/org/solhost/folko/dasm/cpu/x86/X86Context.java:20-24 | the model and mode are as given and the prefix record is fresh |
| X86Context.X86Context.SetInstructionPointer | src/org/solhost/folko/dasm/cpu/x86/X86Context.java:26-29 | the instruction pointer becomes the given value and nothing else changes |
| X86Context.X86Context.GetInstructionPointer | src/org/solhost/folko/dasm/cpu/x86/X86Context.java:31-34 | returns the instruction pointer |
| X86Context.X86Context.GetPrefix | src/org/solhost/folko/dasm/cpu/x86/X86Context.java:36-38 | returns the current prefix record |
| X86Context.X86Context.GetModel | src/org/solhost/folko/dasm/cpu/x86/X86Context.java:111-113 | returns the processor model |
| X86Context.X86Context.GetExecMode | src/org/solhost/folko/dasm/cpu/x86/X86Context.java:115-117 | returns the execution mode |
| X86Context.X86Context.AcceptsOpcode | src/org/solhost/folko/dasm/cpu/x86/X86Context.java:40-65 | accepted exactly when the model is ANY or supports the entry, and the entry's mode admits the context's mode |
| X86Context.X86Context.Reset | src/org/solhost/folko/dasm/cpu/x86/X86Context.java:119-121 | the prefix record is fresh again |
| X86Context.X86Context.ApplyPrefix | src/org/solhost/folko/dasm/cpu/x86/X86Context.java:67-109 | the outcome is the specification PrefixEffect of the old record; the record changes only when the entry is accepted |
| X86Context.PrefixAccepted | src/org/solhost/folko/dasm/cpu/x86/X86Context.java:67-109 | an entry is accepted exactly when it is in the prefix group and its byte is known; otherwise it fails as not a prefix or as an unknown prefix |
| X86Context.Rex47Refused | src/org/solhost/folko/dasm/cpu/x86/X86Context.java:80-99 | the byte 0x47 is refused as an unknown prefix |
| X86Context.FlagBytesSetOnlyTheirFlag | src/org/solhost/folko/dasm/cpu/x86/X86Context.java:74-105 | F0, F2, F3, 66, 67 and 9B each set exactly their own flag |
| X86Context.SegmentOverrideBytes | src/org/solhost/folko/dasm/cpu/x86/X86Context.java:77-102 | 2E, 36, 3E, 26, 64 and 65 select CS, SS, DS, ES, FS and GS, changing nothing else |
| X86Context.LastOverrideFromFront | src/org/solhost/folko/dasm/cpu/x86/X86Context.java:77-102 | the last override of a sequence is the rest's last override, else the first entry's |
| X86Context.AcceptedEntryApplies | src/org/solhost/folko/dasm/cpu/x86/X86Context.java:67-109 | an accepted entry's byte is known and the record is updated with its meaning |
| X86Context.ApplyOverride | src/org/solhost/folko/dasm/cpu/x86/X86Context.java:73-105 | only a segment-override byte changes the override segment |
| X86Context.OverrideAfterOne | src/org/solhost/folko/dasm/cpu/x86/X86Context.java:73-105 | one accepted entry sets the override segment when it selects one and keeps it otherwise |
| X86Context.LastOverrideWins | src/org/solhost/folko/dasm/cpu/x86/X86Context.java:77-102 | after a sequence of accepted prefixes the override segment is the last one selected, or the original when none is |
| X86Context.RexOverwritesAllBits | src/org/solhost/folko/dasm/cpu/x86/X86Context.java:95-98 | a REX byte replaces all four REX bits, so earlier REX bits do not matter; W is set exactly for 0x48..0x4F |
| X86Context.PrefixSequenceExamples | src/org/solhost/folko/dasm/cpu/x86/X86Context.java:73-108 | 3E then 26 leaves ES selected; REX 4D then REX 40 leaves every REX bit clear |
| X86Context.ModeGateOrder | src/org/solhost/folko/dasm/cpu/x86/X86Context.java:47-62 | LONG entries need LONG mode, PROTECTED entries any mode but REAL, REAL and SMM entries run anywhere; REAL mode admits least and LONG most |
| X86Context.AnyModelAcceptsMore | src/org/solhost/folko/dasm/cpu/x86/X86Context.java:40-65 | an ANY-model context accepts everything a specific model accepts in the same mode, and is gated by mode alone |
| ByteSequences.ToInt32 | src/org/solhost/folko/dasm/images/ByteSequence.java:49-55 | the narrowed value is a 32-bit int congruent to the input modulo 2^32 |
| ByteSequences.ToInt32Keeps | src/org/solhost/folko/dasm/images/ByteSequence.java:49-55 | a value that fits in an int is unchanged by the narrowing |
| ByteSequences.ToInt32WrapsHighOffsets | src/org/solhost/folko/dasm/images/ByteSequence.java:49-51 | offsets in 2^31..2^32-1 narrow to negative positions |
| ByteSequences.CharOf | src/org/solhost/folko/dasm/images/ByteSequence.java:92-94 | the character is the byte read as a signed two's-complement value, sign-extended and kept to its low 16 bits, as the Java char cast does |
| ByteSequences.Chars | src/org/solhost/folko/dasm/images/ByteSequence.java:89-101 | one character per byte, in order |
| ByteSequences.UnsignedLEBound | src/org/solhost/folko/dasm/images/ByteSequence.java:61-79 | an unsigned n-byte value is below 256^n |
| ByteSequences.UnsignedLEAppend | src/org/solhost/folko/dasm/images/ByteSequence.java:15-19 | a byte appended at the end is the most significant digit (little-endian order) |
| ByteSequences.TopBitIsHalfRange | src/org/solhost/folko/dasm/images/ByteSequence.java:65-87 | the last byte's top bit is set exactly when the unsigned value reaches half the range |
| ByteSequences.SignedLERange | src/org/solhost/folko/dasm/images/ByteSequence.java:61-87 | a signed read lies in the two's-complement range and masking it gives the unsigned read of the same bytes |
| ByteSequences.NonZeroCharsLength | src/org/solhost/folko/dasm/images/ByteSequence.java:103-112 | dropping zero bytes never lengthens the string, and without zero bytes drops nothing |
| ByteSequences.NonZeroCharsAppend | src/org/solhost/folko/dasm/images/ByteSequence.java:103-112 | one more byte adds its character, unless it is zero |
| ByteSequences.ByteSequence.FromBytes | src/org/solhost/folko/dasm/images/ByteSequence.java:30-35 | the cursor holds the given bytes at position 0 |
| ByteSequences.ByteSequence.Seek | src/org/solhost/folko/dasm/images/ByteSequence.java:49-51 | succeeds exactly when the narrowed offset lies in 0..length, moving there; otherwise fails and stays put |
| ByteSequences.ByteSequence.Skip | src/org/solhost/folko/dasm/images/ByteSequence.java:53-55 | succeeds exactly when the narrowed new position lies in 0..length, moving there; otherwise fails and stays put |
| ByteSequences.ByteSequence.SetPosition | src/org/solhost/folko/dasm/images/ByteSequence.java:49-55 | moves to a position in 0..length and refuses any other |
| ByteSequences.ByteSequence.GetPosition | src/org/solhost/folko/dasm/images/ByteSequence.java:57-59 | returns the position |
| ByteSequences.ByteSequence.GetSigned | src/org/solhost/folko/dasm/images/ByteSequence.java:65-87 | succeeds exactly when n bytes remain, with their two's-complement value, and advances by n; an underflow leaves the position |
| ByteSequences.ByteSequence.GetUnsigned | src/org/solhost/folko/dasm/images/ByteSequence.java:61-79 | the masked signed read is the unsigned value of the same bytes, below 256^n |
| ByteSequences.ByteSequence.ReadUByte | src/org/solhost/folko/dasm/images/ByteSequence.java:61-63 | the next byte as 0..255, advancing by one |
| ByteSequences.ByteSequence.ReadSByte | src/org/solhost/folko/dasm/images/ByteSequence.java:65-67 | the next byte as -128..127, congruent to the byte, advancing by one |
| ByteSequences.ByteSequence.ReadUWord | src/org/solhost/folko/dasm/images/ByteSequence.java:69-71 | the next two bytes as an unsigned little-endian value below 2^16 |
| ByteSequences.ByteSequence.ReadSWord | src/org/solhost/folko/dasm/images/ByteSequence.java:73-75 | the next two bytes as a signed little-endian value in -2^15..2^15-1 |
| ByteSequences.ByteSequence.ReadUDword | src/org/solhost/folko/dasm/images/ByteSequence.java:77-79 | the next four bytes as an unsigned little-endian value below 2^32 |
| ByteSequences.ByteSequence.ReadSDword | src/org/solhost/folko/dasm/images/ByteSequence.java:81-83 | the next four bytes as a signed little-endian value in the int range |
| ByteSequences.ByteSequence.ReadSQword | src/org/solhost/folko/dasm/images/ByteSequence.java:85-87 | the next eight bytes as a signed little-endian value in the long range |
| ByteSequences.ByteSequence.ReadString | src/org/solhost/folko/dasm/images/ByteSequence.java:89-101 | succeeds exactly when a zero byte follows; returns the bytes before the first one and stops just past it; otherwise fails at the end |
| ByteSequences.ByteSequence.ReadStringMax | src/org/solhost/folko/dasm/images/ByteSequence.java:103-112 | consumes exactly maxLen bytes (none if negative) and returns the non-zero ones; fails at the end when too few remain |
| PEFile.RvaToFile | src/kianxali/image/pe/PEFile.java:43-52 | fails exactly when no section's RVA range holds the RVA |
| PEFile.FileToRva | src/kianxali/image/pe/PEFile.java:54-63 | fails exactly when no section's file range holds the offset |
| PEFile.RvaToMemory | src/kianxali/image/pe/PEFile.java:38-41 | the memory address lies the image base above the RVA |
| PEFile.MemoryToRva | src/kianxali/image/pe/PEFile.java:70-73 | the RVA is the one whose memory address is the given address |
| PEFile.FileToMemory | src/kianxali/image/pe/PEFile.java:65-68 | fails exactly when no section's file range holds the offset; otherwise the result's RVA is the offset's RVA |
| PEFile.MemoryToFile | src/kianxali/image/pe/PEFile.java:75-78 | fails exactly when no section's RVA range holds the address less the image base; otherwise the offset of that RVA |
| PEFile.ToFileAddress | src/kianxali/image/pe/PEFile.java:121-124 | resolves exactly when some section's RVA range holds the address's RVA, to that RVA's file offset |
| PEFile.ToMemAddress | src/kianxali/image/pe/PEFile.java:126-129 | resolves exactly when some section's file range holds the offset, to the image base above its RVA |
| PEFile.CodeEntryPointMem | src/kianxali/image/pe/PEFile.java:131-134 | the entry point's memory address maps back to the entry-point RVA |
| PEFile.CreateContext | src/kianxali/image/pe/PEFile.java:29-36 | a fresh context for any model, LONG mode for PE32+ and PROTECTED otherwise |
| PEFile.MemoryRvaInverse | src/kianxali/image/pe/PEFile.java:38-41 | adding and subtracting the image base undo each other (with memoryToRVA at lines 70-73) |
| PEFile.RvaToFileFirstMatch | src/kianxali/image/pe/PEFile.java:43-52 | the first section in table order that holds the RVA decides the offset, which lies in its file range |
| PEFile.FileToRvaFirstMatch | src/kianxali/image/pe/PEFile.java:54-63 | the first section that holds the offset decides the RVA, which lies in its RVA range |
| PEFile.RvaToFileHit | src/kianxali/image/pe/PEFile.java:43-52 | a successful lookup names a section holding the RVA and maps into its file range |
| PEFile.FileToRvaHit | src/kianxali/image/pe/PEFile.java:54-63 | a successful lookup names a section holding the offset and maps into its RVA range |
| PEFile.RvaFileRoundTrip | src/kianxali/image/pe/PEFile.java:43-63 | with disjoint file ranges, RVA to offset and back gives the RVA |
| PEFile.FileRvaRoundTrip | src/kianxali/image/pe/PEFile.java:43-63 | with disjoint RVA ranges, offset to RVA and back gives the offset |
| PEFile.MemoryFileRoundTrip | src/kianxali/image/pe/PEFile.java:121-129 | with disjoint file ranges, toMemAddress undoes toFileAddress |
| PEFile.OverlapBreaksRoundTrip | src/kianxali/image/pe/PEFile.java:43-63 | without disjoint file ranges the round trip can miss: RVA 0x1100 comes back as 0x2000 |
| ImageFile.SectionForMemAddress | src/kianxali/image/ImageFile.java:32-39 | no section exactly when none holds the address; a found section is one of them and holds it |
| ImageFile.IsValidAddress | src/kianxali/image/ImageFile.java:41-43 | valid exactly when some section holds the address |
| ImageFile.GetByteSequence | src/kianxali/image/ImageFile.java:24-30 | hands back the same cursor, positioned at the narrowed file offset; fails without moving when the address has no offset or the offset is outside the file |
| ImageFile.FirstHoldingSection | src/kianxali/image/ImageFile.java:32-39 | the first section holding the address is the one found |
| ImageFile.SectionBounds | src/kianxali/image/ImageFile.java:34 | in any table, a non-empty section's first and last address are valid; in a table of that section alone, the addresses just before and just after it are not |
| ImageFile.AppendKeepsLookup | src/kianxali/image/ImageFile.java:32-39 | sections added later change the answer only for addresses no earlier section holds |
| MachHeader.ParseFixed | src/kianxali/image/mach_o/MachHeader.java:24-55 | accepted exactly with a known magic, an x86 or x86-64 CPU type and enough bytes; the magic decides 64-bit, the header is 28 or 32 bytes, the count is the fifth word; a bad magic fails naming it |
| MachHeader.Command | src/kianxali/image/mach_o/MachHeader.java:59-77 | LC_MAIN succeeds exactly when its 24 (64-bit) or 16 (32-bit) bytes are there and sets the entry point to the signed qword or unsigned dword after the header; a segment command succeeds exactly when the segment reader does and stops within the bytes, appends exactly its sections and continues where it stopped; any other command moves to its start plus its size as a 32-bit position; only LC_MAIN changes the entry point and only segments add sections |
| MachHeader.Commands | src/kianxali/image/mach_o/MachHeader.java:58-78 | the walk stays inside the bytes and only appends sections |
| MachHeader.Decode | src/kianxali/image/mach_o/MachHeader.java:21-79 | a decoded header had a valid fixed header whose magic decides 64-bit; a bad fixed header fails with its error |
| MachHeader.ReadFixedHeader | src/kianxali/image/mach_o/MachHeader.java:24-55 | the cursor reads give exactly ParseFixed and stop at the first load command |
| MachHeader.ReadHeaderWords | src/kianxali/image/mach_o/MachHeader.java:38-55 | reads 20 bytes (24 in 64-bit images) and keeps the load-command count |
| MachHeader.ReadCommand | src/kianxali/image/mach_o/MachHeader.java:59-77 | the cursor reads give exactly Command and leave the cursor at the next command |
| MachHeader.Parse | src/kianxali/image/mach_o/MachHeader.java:21-79 | the result and the final position are those of Decode, errors included |
| MachHeader.CommandsStep | src/kianxali/image/mach_o/MachHeader.java:58-78 | one more iteration applies one more load command |
| MachHeader.CommandsErrorSticks | src/kianxali/image/mach_o/MachHeader.java:58-78 | a failing load command fails the whole walk with its error |
| MachHeader.CommandsSectionsGrow | src/kianxali/image/mach_o/MachHeader.java:62-66 | the sections collected after fewer commands are a prefix of those collected later |
| MachHeader.EntryPointNeedsMain | src/kianxali/image/mach_o/MachHeader.java:67-74 | without an LC_MAIN command the entry point keeps its initial value |
| MachHeader.DecodedEntryPointNeedsMain | src/kianxali/image/mach_o/MachHeader.java:18 | a header without an LC_MAIN command has entry point 0 |
| MachHeader.SkipBySize | src/kianxali/image/mach_o/MachHeader.java:75-77 | for a command whose start plus size is below 2^31 (its requires), another command moves the walk to its start plus its size, or fails with that position outside the bytes |
| MachHeader.ZeroSizeRereads | src/kianxali/image/mach_o/MachHeader.java:75-77 | a command of size 0 leaves the walk in place, so it is read again |
| MachHeader.EmptyHeader32 | src/kianxali/image/mach_o/MachHeader.java:21-79 | a 28-byte x86 header with no commands decodes to entry point 0 and no sections |
| MachHeader.MainHeader32Fixed | src/kianxali/image/mach_o/MachHeader.java:24-55 | that header with one command announces one command starting at byte 28 |
| MachHeader.MainHeader32Command | src/kianxali/image/mach_o/MachHeader.java:67-74 | a 32-bit LC_MAIN reads its entry offset 0x1000 as an unsigned word and spans 16 bytes |
| MachHeader.MainCommandHeader32 | src/kianxali/image/mach_o/MachHeader.java:21-79 | the header with that LC_MAIN decodes to entry point 0x1000, ending at byte 44 |

## Left out

- `X86Context.createInstructionDecoder` loads the decoder tables from XML files. This is file
  I/O; the decoder is not part of this model.
- `acceptsOpcode` and `applyPrefix` receive an opcode syntax and an instruction. The model passes
  only the fields they read, as `OpcodeEntry`: the opcode byte, prefix-group membership, the
  supported processors and the mode. `belongsTo(PREFIX)` is the `isPrefix` flag.
- The `default` branch of the mode switch in `acceptsOpcode`, and of the mode switches in the
  size functions, cannot be reached with the closed enumerations here.
- The Prefix class is not part of this model. Its fields are inferred from their uses, and a
  fresh record has every flag clear and no override.
- X86Context.X86Context.GetPrefix: returns the record as a value. The Java method returns the
  live object that later prefixes keep mutating, and that aliasing is not modelled.
- The `Register` enumeration is regrouped by family (one constructor per family over a
  per-family enumeration). Its Java declaration order is not modelled, since nothing in the
  core depends on it.
- The source's plain pointer operand type (the one without REX) is called `FAR_POINTER` here;
  its sizes are those of the source.
- `OperandDesc` fields other than the address type, the operand type and the direct group are
  not read by the core and are left out.
- The `GROUP` case of `getOperandRegister` switches on a null direct group with a Java
  NullPointerException. The model returns `MissingDirectGroup` instead.
- `ByteSequence.fromFile` (memory-mapped file I/O), `lock`/`unlock` (a reentrant lock, i.e.
  concurrency) and `setByteOrder` are left out. The cursor is always little-endian.
- ImageFile.GetByteSequence: does not take the lock when asked to. It takes the format's
  `toFileAddress` as a function parameter.
- The `ImageFile` constructor (it reads the file) and `getFileSize` are left out as I/O.
- `PEFile`'s header and import parsing (`loadHeaders`, `loadImports`) and `getSections` are
  left out. The image is given as its parsed section table, image base, entry-point RVA and
  PE32+ flag.
- Java `long` overflow in the PE address arithmetic is not modelled: addresses are unbounded
  integers.
- `MachSegment` is not part of this model. Reading a segment command's body is a function
  parameter that yields the segment's sections and the next position, or a failure.
- MachHeader.Parse: runs exactly the announced number of load commands. The Java loop counter
  is an `int` compared with a `long` count. For counts of 2^31 or more it wraps negative and
  the loop does not stop on its own; that case is not modelled.
- MachHeader.Parse: the header is a value returned by a parsing method, not an object built by
  a throwing constructor. `isMach64`, `getEntryPoint` and `getSections` are its fields.
- The GUI, the rest of the disassembler, and instruction formatting are outside the modelled
  core.
