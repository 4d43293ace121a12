/** Properties of size and register resolution that relate several calls: what each size rule
    depends on, how the lookup tables invert the register codes, and worked decodings. */
module X86CPUProperties {
  import opened Outcomes
  import opened X86Types
  import opened X86CPU

  // ---------------------------------------------------------------------------------------
  // Address size and default operand size

  /** SMM is handled exactly like LONG mode by both size rules. */
  lemma SmmSizesAsLong(p: Prefix)
    ensures AddressSizeOf(SMM, p) == AddressSizeOf(LONG, p)
    ensures DefaultOperandSize(SMM, p) == DefaultOperandSize(LONG, p)
  {
  }

  /** The address size reads only the address-size prefix of the prefix record. */
  lemma AddressSizeReadsOnlyAdrPrefix(mode: ExecutionMode, p: Prefix, q: Prefix)
    requires p.adrSizePrefix == q.adrSizePrefix
    ensures AddressSizeOf(mode, p) == AddressSizeOf(mode, q)
  {
  }

  /** Outside REAL mode the address-size prefix halves the address width (64 to 32, 32 to 16);
      in REAL mode it has no effect. */
  lemma AdrPrefixHalvesAddress(mode: ExecutionMode, p: Prefix)
    ensures mode != REAL ==>
      2 * AddressBits(AddressSizeOf(mode, p.(adrSizePrefix := true)))
      == AddressBits(AddressSizeOf(mode, p.(adrSizePrefix := false)))
    ensures mode == REAL ==>
      AddressSizeOf(mode, p.(adrSizePrefix := true)) == AddressSizeOf(mode, p.(adrSizePrefix := false)) == A16
  {
  }

  /** In LONG mode and SMM, REX.W forces 64-bit operands whatever the operand-size prefix says;
      without REX.W the operand-size prefix selects 16 bits over 32. */
  lemma RexWDominatesOpSize(mode: ExecutionMode, p: Prefix)
    requires mode in {LONG, SMM}
    ensures DefaultOperandSize(mode, p.(rexWPrefix := true)) == O64
    ensures DefaultOperandSize(mode, p.(rexWPrefix := false)) == if p.opSizePrefix then O16 else O32
  {
  }

  /** PROTECTED mode ignores REX.W; REAL mode ignores every prefix. */
  lemma LegacyModesIgnoreRexW(p: Prefix, q: Prefix)
    ensures p.opSizePrefix == q.opSizePrefix ==> DefaultOperandSize(PROTECTED, p) == DefaultOperandSize(PROTECTED, q)
    ensures DefaultOperandSize(REAL, p) == O16
    ensures AddressSizeOf(REAL, p) == A16
  {
  }

  // ---------------------------------------------------------------------------------------
  // Operand sizes

  /** Every operand type outside the context-sensitive ones has one size, or one failure, in
      every mode and under every prefix record. */
  lemma FixedWidthIgnoresContext(t: OperandType, m1: ExecutionMode, p1: Prefix, m2: ExecutionMode, p2: Prefix)
    requires t !in ContextSensitiveTypes
    ensures OperandSizeOf(m1, p1, t) == OperandSizeOf(m2, p2, t)
  {
  }

  /** WORD_DWORD, WORD_DWORD_S64 and FAR_POINTER read only the operand-size prefix: 16 bits with it,
      32 bits without, in every mode (LONG included: REX.W does not widen them). */
  lemma OpSizeOnlyTypes(t: OperandType, mode: ExecutionMode, p: Prefix)
    requires t in {WORD_DWORD, WORD_DWORD_S64, FAR_POINTER}
    ensures OperandSizeOf(mode, p, t) == Ok(if p.opSizePrefix then O16 else O32)
  {
  }

  /** DWORD_QWORD reads only REX.W, and ignores the execution mode. */
  lemma DwordQwordReadsOnlyRexW(m1: ExecutionMode, p: Prefix, m2: ExecutionMode, q: Prefix)
    requires p.rexWPrefix == q.rexWPrefix
    ensures OperandSizeOf(m1, p, DWORD_QWORD) == OperandSizeOf(m2, q, DWORD_QWORD)
    ensures OperandSizeOf(m1, p, DWORD_QWORD) == Ok(if p.rexWPrefix then O64 else O32)
  {
  }

  /** POINTER_REX is an 80-bit far pointer under REX.W and a FAR_POINTER otherwise. */
  lemma PointerRexWidens(mode: ExecutionMode, p: Prefix)
    ensures OperandSizeOf(mode, p, POINTER_REX) ==
              if p.rexWPrefix then Ok(O80) else OperandSizeOf(mode, p, FAR_POINTER)
  {
  }

  /** WORD_DWORD_64 takes the mode's default operand size. */
  lemma WordDword64IsDefault(mode: ExecutionMode, p: Prefix)
    ensures OperandSizeOf(mode, p, WORD_DWORD_64) == Ok(DefaultOperandSize(mode, p))
  {
  }

  /** QWORD_WORD, as the code has it: 64 bits exactly when the operand-size prefix is present. */
  lemma QwordWordFollowsOpSize(mode: ExecutionMode, p: Prefix)
    ensures OperandSizeOf(mode, p, QWORD_WORD) == Ok(O64) <==> p.opSizePrefix
    ensures OperandSizeOf(mode, p, QWORD_WORD) == Ok(O16) <==> !p.opSizePrefix
  {
  }

  // ---------------------------------------------------------------------------------------
  // Lookup tables against the register codes

  /** The lookup table of one register family, failures included; FPU and MMX never fail. */
  function Table(f: RegisterFamily, id: int): Result<Register, DecodeError>
  {
    match f
    case Gen8Family => GenericRegister8(id)
    case Gen16Family => GenericRegister16(id)
    case Gen32Family => GenericRegister32(id)
    case Gen64Family => GenericRegister64(id)
    case SegmentFamily => SegmentRegister(id)
    case ControlFamily => ControlRegister(id)
    case DebugFamily => DebugRegister(id)
    case TestFamily => TestRegister(id)
    case FpuFamily => Ok(FpuRegister(id))
    case MmxFamily => Ok(MmxRegister(id))
    case XmmFamily => XmmRegister(id)
  }

  /** Looking up a general-purpose register's code in its own family's table gives the
      register back; SPL, BPL, SIL and DIL have no code and so are never produced. */
  lemma {:induction false} GeneralTablesInvertCode(r: Register)
    requires FamilyOf(r) in {Gen8Family, Gen16Family, Gen32Family, Gen64Family}
    ensures RegisterCode(r).Some? ==> Table(FamilyOf(r), RegisterCode(r).value) == Ok(r)
  {
    match r
    case Gen8(b) => Gen8TableInvertsCode(b);
    case Gen16(w) => Gen16TableInvertsCode(w);
    case Gen32(d) => Gen32TableInvertsCode(d);
    case Gen64(q) => Gen64TableInvertsCode(q);
  }

  lemma {:induction false} Gen8TableInvertsCode(b: Reg8)
    ensures Code8(b).Some? ==> GenericRegister8(Code8(b).value) == Ok(Gen8(b))
  {
    match b
    case AL => case CL => case DL => case BL => case AH => case CH => case DH => case BH =>
    case R8B => case R9B => case R10B => case R11B => case R12B => case R13B => case R14B => case R15B =>
    case SPL => case BPL => case SIL => case DIL =>
  }

  lemma {:induction false} Gen16TableInvertsCode(w: Reg16)
    ensures GenericRegister16(Code16(w)) == Ok(Gen16(w))
  {
    match w
    case AX => case CX => case DX => case BX => case SP => case BP => case SI => case DI =>
    case R8W => case R9W => case R10W => case R11W => case R12W => case R13W => case R14W => case R15W =>
  }

  lemma {:induction false} Gen32TableInvertsCode(d: Reg32)
    ensures GenericRegister32(Code32(d)) == Ok(Gen32(d))
  {
    match d
    case EAX => case ECX => case EDX => case EBX => case ESP => case EBP => case ESI => case EDI =>
    case R8D => case R9D => case R10D => case R11D => case R12D => case R13D => case R14D => case R15D =>
  }

  lemma {:induction false} Gen64TableInvertsCode(q: Reg64)
    ensures GenericRegister64(Code64(q)) == Ok(Gen64(q))
  {
    match q
    case RAX => case RCX => case RDX => case RBX => case RSP => case RBP => case RSI => case RDI =>
    case R8 => case R9 => case R10 => case R11 => case R12 => case R13 => case R14 => case R15 =>
  }

  /** The same for the other families: every register of them is produced by its own table
      from its code. */
  lemma {:induction false} OtherTablesInvertCode(r: Register)
    requires FamilyOf(r) !in {Gen8Family, Gen16Family, Gen32Family, Gen64Family}
    ensures RegisterCode(r).Some?
    ensures Table(FamilyOf(r), RegisterCode(r).value) == Ok(r)
  {
    match r
    case SegmentReg(s) =>
      { match s case ES => case CS => case SS => case DS => case FS => case GS => }
    case Control(cr) =>
      { match cr case CR0 => case CR2 => case CR3 => case CR4 => }
    case Debug(dr) =>
      { match dr case DR0 => case DR1 => case DR2 => case DR3 => case DR4 => case DR5 => case DR6 => case DR7 => }
    case Test(tr) =>
      { match tr case TR0 => case TR1 => case TR2 => case TR3 => case TR4 => case TR5 => case TR6 => case TR7 => }
    case Fpu(st) =>
      { match st case ST0 => case ST1 => case ST2 => case ST3 => case ST4 => case ST5 => case ST6 => case ST7 => }
    case Mmx(mm) =>
      { match mm case MM0 => case MM1 => case MM2 => case MM3 => case MM4 => case MM5 => case MM6 => case MM7 => }
    case Xmm(x) => XmmTableInvertsCode(x);
  }

  lemma {:induction false} XmmTableInvertsCode(x: XmmReg)
    ensures XmmRegister(RegisterCode(Xmm(x)).value) == Ok(Xmm(x))
  {
    match x
    case XMM0 => case XMM1 => case XMM2 => case XMM3 => case XMM4 => case XMM5 => case XMM6 => case XMM7 =>
    case XMM8 => case XMM9 => case XMM10 => case XMM11 => case XMM12 => case XMM13 => case XMM14 => case XMM15 =>
  }

  /** Each table is one-to-one: two indices it accepts and maps to the same register are equal
      (up to the three-bit mask of the segment, FPU and MMX tables). */
  lemma TablesInjective(f: RegisterFamily, i: int, j: int)
    requires Table(f, i).Ok? && Table(f, j).Ok? && Table(f, i).value == Table(f, j).value
    ensures f in {SegmentFamily, FpuFamily, MmxFamily} ==> i % 8 == j % 8
    ensures f !in {SegmentFamily, FpuFamily, MmxFamily} ==> i == j
  {
  }

  /** The 8-bit table never yields the REX-only byte registers SPL, BPL, SIL and DIL: index 4..7
      name AH, CH, DH and BH. */
  lemma NoUniformByteRegisters(id: int)
    requires GenericRegister8(id).Ok?
    ensures GenericRegister8(id).value !in {Gen8(SPL), Gen8(BPL), Gen8(SIL), Gen8(DIL)}
    ensures 4 <= id < 8 ==> GenericRegister8(id).value in {Gen8(AH), Gen8(CH), Gen8(DH), Gen8(BH)}
  {
  }

  // ---------------------------------------------------------------------------------------
  // Resolution

  /** A register operand outside LONG mode with an index above 7 fails before its size is looked
      at, whatever its operand type. */
  lemma ExtendedIndexNeedsLong(op: OperandDesc, mode: ExecutionMode, p: Prefix, id: int)
    requires op.adrType in {MOD_RM_R, MOD_RM_M, LEAST_REG, MOD_RM_R_FORCE_GEN}
    requires mode != LONG && id > 7
    ensures OperandRegister(op, mode, p, id) == Err(ExtendedRegisterOutsideLong(id))
  {
  }

  /** MOD_RM_R_FORCE_GEN is a general-purpose register as wide as the address, not the operand. */
  lemma ForceGenUsesAddressSize(op: OperandDesc, mode: ExecutionMode, p: Prefix, id: int)
    requires op.adrType == MOD_RM_R_FORCE_GEN
    ensures OperandRegister(op, mode, p, id) == GenericAddressRegister(mode, p, id)
    ensures OperandRegister(op, mode, p, id).Ok? ==>
              GeneralWidth(FamilyOf(OperandRegister(op, mode, p, id).value)) == AddressBits(AddressSizeOf(mode, p))
  {
  }

  /** Segment, XMM, control, debug, test, FPU and MMX operands do not depend on the mode or the
      prefixes: the same index gives the same register (or failure) in every context. */
  lemma NonGeneralIgnoresContext(op: OperandDesc, m1: ExecutionMode, p1: Prefix, m2: ExecutionMode, p2: Prefix, id: int)
    requires op.adrType !in {MOD_RM_R, MOD_RM_M, LEAST_REG, MOD_RM_R_FORCE_GEN, GROUP}
    ensures OperandRegister(op, m1, p1, id) == OperandRegister(op, m2, p2, id)
  {
  }

  /** A group operand resolves only through the GENERIC and X87FPU groups. */
  lemma GroupNeedsGenericOrFpu(op: OperandDesc, mode: ExecutionMode, p: Prefix, id: int)
    requires op.adrType == GROUP && op.directGroup !in {Some(GENERIC), Some(X87FPU)}
    ensures OperandRegister(op, mode, p, id).Err?
    ensures op.directGroup.None? ==> OperandRegister(op, mode, p, id) == Err(MissingDirectGroup)
  {
  }

  /** In LONG mode with REX.W, a DWORD_QWORD register operand with index 9 is R9. */
  lemma ExampleLongRexW()
    ensures OperandRegister(OperandDesc(MOD_RM_R, DWORD_QWORD, None), LONG, EmptyPrefix.(rexWPrefix := true), 9)
            == Ok(Gen64(R9))
  {
  }

  /** In PROTECTED mode with the operand-size prefix, a WORD_DWORD operand with index 0 is AX. */
  lemma ExampleProtectedOpSize()
    ensures OperandRegister(OperandDesc(LEAST_REG, WORD_DWORD, None), PROTECTED, EmptyPrefix.(opSizePrefix := true), 0)
            == Ok(Gen16(AX))
  {
  }

  /** Index 12 needs REX and so fails in PROTECTED mode. */
  lemma ExampleProtectedExtended()
    ensures OperandRegister(OperandDesc(MOD_RM_R, DWORD, None), PROTECTED, EmptyPrefix, 12)
            == Err(ExtendedRegisterOutsideLong(12))
  {
  }

  /** Segment operands mask the index without any mode check: 11 is DS; SEGMENT2 reads
      bits 3-4, so 0x18 is DS too. */
  lemma ExampleSegments()
    ensures OperandRegister(OperandDesc(MOD_RM_R_SEG, WORD, None), REAL, EmptyPrefix, 11) == Ok(SegmentReg(DS))
    ensures OperandRegister(OperandDesc(SEGMENT2, WORD, None), REAL, EmptyPrefix, 0x18) == Ok(SegmentReg(DS))
  {
  }

  /** A forced general-purpose operand of type BYTE in LONG mode is the 64-bit RAX, and an
      80-bit operand cannot live in a general-purpose register. */
  lemma ExampleWidths()
    ensures OperandRegister(OperandDesc(MOD_RM_R_FORCE_GEN, BYTE, None), LONG, EmptyPrefix, 0) == Ok(Gen64(RAX))
    ensures OperandRegister(OperandDesc(MOD_RM_R, REAL_EXT_FPU, None), LONG, EmptyPrefix, 0) == Err(InvalidOperandSize(O80))
  {
  }
}
