/** The closed vocabularies of the x86 decoder: the enumerations of `X86CPU` and of the
    operand descriptors, the operand descriptor record, and the per-instruction prefix record. */
module X86Types {
  import opened Outcomes

  /** Target processor generation; `ANY` is the wildcard. */
  datatype Model =
    | I8086 | I80186 | I80286 | I80386 | I80486
    | PENTIUM | PENTIUM_MMX | PENTIUM_PRO | PENTIUM_II | PENTIUM_III | PENTIUM_IV
    | CORE_1 | CORE_2 | CORE_I7
    | ITANIUM
    | ANY

  datatype OperandSize = O8 | O16 | O32 | O64 | O80 | O128

  datatype AddressSize = A16 | A32 | A64

  datatype ExecutionMode = REAL | PROTECTED | LONG | SMM

  datatype Segment = CS | DS | SS | ES | FS | GS

  /** The architectural registers, grouped by family (the source lists them in one enumeration,
      in the same groups). Within a family the names are listed in register-code order. */
  datatype Reg8 =
    | AL | CL | DL | BL | AH | CH | DH | BH
    | R8B | R9B | R10B | R11B | R12B | R13B | R14B | R15B
    | SPL | BPL | SIL | DIL
  datatype Reg16 =
    | AX | CX | DX | BX | SP | BP | SI | DI
    | R8W | R9W | R10W | R11W | R12W | R13W | R14W | R15W
  datatype Reg32 =
    | EAX | ECX | EDX | EBX | ESP | EBP | ESI | EDI
    | R8D | R9D | R10D | R11D | R12D | R13D | R14D | R15D
  datatype Reg64 =
    | RAX | RCX | RDX | RBX | RSP | RBP | RSI | RDI
    | R8 | R9 | R10 | R11 | R12 | R13 | R14 | R15
  datatype ControlReg = CR0 | CR2 | CR3 | CR4
  datatype DebugReg = DR0 | DR1 | DR2 | DR3 | DR4 | DR5 | DR6 | DR7
  datatype TestReg = TR0 | TR1 | TR2 | TR3 | TR4 | TR5 | TR6 | TR7
  datatype FpuReg = ST0 | ST1 | ST2 | ST3 | ST4 | ST5 | ST6 | ST7
  /** MMX registers are aliases of the FPU registers in hardware but a family of their own here. */
  datatype MmxReg = MM0 | MM1 | MM2 | MM3 | MM4 | MM5 | MM6 | MM7
  datatype XmmReg =
    | XMM0 | XMM1 | XMM2 | XMM3 | XMM4 | XMM5 | XMM6 | XMM7
    | XMM8 | XMM9 | XMM10 | XMM11 | XMM12 | XMM13 | XMM14 | XMM15

  datatype Register =
    | Gen8(b: Reg8)
    | Gen16(w: Reg16)
    | Gen32(d: Reg32)
    | Gen64(q: Reg64)
    | SegmentReg(s: Segment)
    | Control(cr: ControlReg)
    | Debug(dr: DebugReg)
    | Test(tr: TestReg)
    | Fpu(st: FpuReg)
    | Mmx(mm: MmxReg)
    | Xmm(xmm: XmmReg)

  /** The families of the register enumeration, used to label lookups and their failures. */
  datatype RegisterFamily =
    | Gen8Family | Gen16Family | Gen32Family | Gen64Family
    | SegmentFamily | ControlFamily | DebugFamily | TestFamily
    | FpuFamily | MmxFamily | XmmFamily

  function FamilyOf(r: Register): RegisterFamily
  {
    match r
    case Gen8(_) => Gen8Family
    case Gen16(_) => Gen16Family
    case Gen32(_) => Gen32Family
    case Gen64(_) => Gen64Family
    case SegmentReg(_) => SegmentFamily
    case Control(_) => ControlFamily
    case Debug(_) => DebugFamily
    case Test(_) => TestFamily
    case Fpu(_) => FpuFamily
    case Mmx(_) => MmxFamily
    case Xmm(_) => XmmFamily
  }

  /** The register code of Intel SDM Vol. 2A, section 3.1.1.1: the value of the encoded register
      field, REX extension bit included. It is written out name by name, independently of the
      lookup tables of the resolver. SPL, BPL, SIL and DIL have no code here because the 8-bit
      table gives codes 4..7 to AH, CH, DH and BH. */
  function RegisterCode(r: Register): Option<nat>
  {
    match r
    case Gen8(b) => Code8(b)
    case Gen16(w) => Some(Code16(w))
    case Gen32(d) => Some(Code32(d))
    case Gen64(q) => Some(Code64(q))
    case SegmentReg(s) => Some(SegmentCode(s))
    case Control(cr) =>
      Some(match cr case CR0 => 0 case CR2 => 2 case CR3 => 3 case CR4 => 4)
    case Debug(dr) =>
      Some(match dr
           case DR0 => 0 case DR1 => 1 case DR2 => 2 case DR3 => 3
           case DR4 => 4 case DR5 => 5 case DR6 => 6 case DR7 => 7)
    case Test(tr) =>
      Some(match tr
           case TR0 => 0 case TR1 => 1 case TR2 => 2 case TR3 => 3
           case TR4 => 4 case TR5 => 5 case TR6 => 6 case TR7 => 7)
    case Fpu(st) =>
      Some(match st
           case ST0 => 0 case ST1 => 1 case ST2 => 2 case ST3 => 3
           case ST4 => 4 case ST5 => 5 case ST6 => 6 case ST7 => 7)
    case Mmx(mm) =>
      Some(match mm
           case MM0 => 0 case MM1 => 1 case MM2 => 2 case MM3 => 3
           case MM4 => 4 case MM5 => 5 case MM6 => 6 case MM7 => 7)
    case Xmm(x) =>
      Some(match x
           case XMM0 => 0 case XMM1 => 1 case XMM2 => 2 case XMM3 => 3
           case XMM4 => 4 case XMM5 => 5 case XMM6 => 6 case XMM7 => 7
           case XMM8 => 8 case XMM9 => 9 case XMM10 => 10 case XMM11 => 11
           case XMM12 => 12 case XMM13 => 13 case XMM14 => 14 case XMM15 => 15)
  }

  function Code8(b: Reg8): Option<nat>
  {
    match b
    case AL => Some(0) case CL => Some(1) case DL => Some(2) case BL => Some(3)
    case AH => Some(4) case CH => Some(5) case DH => Some(6) case BH => Some(7)
    case R8B => Some(8) case R9B => Some(9) case R10B => Some(10) case R11B => Some(11)
    case R12B => Some(12) case R13B => Some(13) case R14B => Some(14) case R15B => Some(15)
    case SPL | BPL | SIL | DIL => None
  }

  function Code16(w: Reg16): nat
  {
    match w
    case AX => 0 case CX => 1 case DX => 2 case BX => 3
    case SP => 4 case BP => 5 case SI => 6 case DI => 7
    case R8W => 8 case R9W => 9 case R10W => 10 case R11W => 11
    case R12W => 12 case R13W => 13 case R14W => 14 case R15W => 15
  }

  function Code32(d: Reg32): nat
  {
    match d
    case EAX => 0 case ECX => 1 case EDX => 2 case EBX => 3
    case ESP => 4 case EBP => 5 case ESI => 6 case EDI => 7
    case R8D => 8 case R9D => 9 case R10D => 10 case R11D => 11
    case R12D => 12 case R13D => 13 case R14D => 14 case R15D => 15
  }

  function Code64(q: Reg64): nat
  {
    match q
    case RAX => 0 case RCX => 1 case RDX => 2 case RBX => 3
    case RSP => 4 case RBP => 5 case RSI => 6 case RDI => 7
    case R8 => 8 case R9 => 9 case R10 => 10 case R11 => 11
    case R12 => 12 case R13 => 13 case R14 => 14 case R15 => 15
  }

  /** Segment register codes: ES, CS, SS, DS, FS, GS are 0..5. */
  function SegmentCode(s: Segment): nat
  {
    match s
    case ES => 0 case CS => 1 case SS => 2 case DS => 3 case FS => 4 case GS => 5
  }

  /** How an operand is encoded in an instruction. */
  datatype AddressType =
    | DIRECT | MOD_RM_M | MOD_RM_M_FPU | MOD_RM_M_FPU_REG | MOD_RM_R
    | MOD_RM_R_CTRL | MOD_RM_R_DEBUG | MOD_RM_R_TEST | MOD_RM_R_SEG
    | MOD_RM_M_FORCE_GEN | MOD_RM_MUST_M | MOD_RM_R_FORCE_GEN
    | MOD_RM_XMM | MOD_RM_R_XMM | MOD_RM_M_XMM_REG
    | IMMEDIATE | RELATIVE
    | MOD_RM_MMX | MOD_RM_R_MMX | MOD_RM_M_MMX
    | OFFSET | LEAST_REG | GROUP | STACK
    | SEGMENT2 | SEGMENT30 | SEGMENT33
    | FLAGS | ES_EDI_RDI | DS_ESI_RSI | DS_EAX_RAX | DS_EBX_AL_RBX | DS_EDI_RDI

  /** The register family of an operand that the opcode itself implies. */
  datatype DirectGroup =
    | GENERIC | SEGMENT | X87FPU | MMX | XMM | CONTROL | DEBUG | MSR | SYSTABP | XCR

  /** Width and kind of an operand. */
  datatype OperandType =
    | TWO_INDICES | BYTE | BCD | BYTE_SGN | BYTE_STACK
    | DWORD | DWORD_OPS | DWORD_ADR | DWORD_INT_FPU | DWORD_QWORD | DWORD_QWORD_ADR
    | DQWORD | DOUBLE_FPU | FPU_ENV | REAL_EXT_FPU | REAL_SINGLE_FPU
    | FAR_POINTER | QWORD_MMX | QWORD | QWORD_STACK | QWORD_ADR | QWORD_WORD | QWORD_FPU | QWORD_REX
    | DOUBLE_128 | SINGLE_128 | SINGLE_64 | POINTER_REX | PSEUDO_DESC | FPU_STATE
    | SCALAR_DOUBLE | SCALAR_SINGLE | FPU_SIMD_STATE
    | WORD | WORD_STACK | WORD_ADR | WORD_OPS | WORD_FPU
    | WORD_DWORD | WORD_DWORD_ADR | WORD_DWORD_STACK | WORD_DWORD_64 | WORD_DWORD_S64

  /** The parts of an operand descriptor that register and size resolution read.
      `directGroup` is `None` where the descriptor carries no direct group (a null field). */
  datatype OperandDesc = OperandDesc(adrType: AddressType, operType: OperandType, directGroup: Option<DirectGroup>)

  /** The legacy-prefix and REX flags collected while scanning the prefix bytes of one instruction. */
  datatype Prefix = Prefix(
    lockPrefix: bool,
    repNZPrefix: bool,
    repZPrefix: bool,
    overrideSegment: Option<Segment>,
    rexWPrefix: bool,
    rexRPrefix: bool,
    rexXPrefix: bool,
    rexBPrefix: bool,
    opSizePrefix: bool,
    adrSizePrefix: bool,
    waitPrefix: bool)

  /** A newly allocated prefix record: every flag clear and no segment override. */
  const EmptyPrefix := Prefix(false, false, false, None, false, false, false, false, false, false, false)
}
