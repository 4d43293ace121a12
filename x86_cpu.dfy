/** Size and register resolution of `X86CPU`: pure functions of the execution mode, the prefix
    record of the instruction being decoded and an operand descriptor. The Java methods take the
    whole decoding context; they read only its execution mode and prefix record, which are the
    parameters here. A Java `UnsupportedOperationException` or `RuntimeException` becomes `Err`.

    Register indices are the Java `short` values handed in by the instruction scanner, taken here
    as unbounded integers: the masks `id & 7` and `(id >> 3) & 3` of the source equal `id % 8` and
    `(id / 8) % 4` for every integer, negative ones included, because Dafny's `%` and `/` are
    Euclidean and the divisors are positive. */
module X86CPU {
  import opened Outcomes
  import opened X86Types

  /** The reasons register or size resolution gives up. */
  datatype DecodeError =
    | InvalidOperandType(operType: OperandType)
    | InvalidRegister(family: RegisterFamily, id: int)
    | ExtendedRegisterOutsideLong(id: int)
    | InvalidOperandSize(size: OperandSize)
    | MissingDirectGroup
    | InvalidDirectGroup(group: DirectGroup)
    | InvalidAddressType(adrType: AddressType)

  function AddressBits(a: AddressSize): nat
  {
    match a
    case A16 => 16
    case A32 => 32
    case A64 => 64
  }

  function OperandBits(o: OperandSize): nat
  {
    match o
    case O8 => 8
    case O16 => 16
    case O32 => 32
    case O64 => 64
    case O80 => 80
    case O128 => 128
  }

  /** Width of the registers of a general-purpose family; 0 for every other family. */
  function GeneralWidth(f: RegisterFamily): nat
  {
    match f
    case Gen8Family => 8
    case Gen16Family => 16
    case Gen32Family => 32
    case Gen64Family => 64
    case _ => 0
  }

  /** Mode and prefix-dependent width of a memory address. SMM is treated like LONG mode,
      as the source does (with a note doubting it). */
  function AddressSizeOf(mode: ExecutionMode, p: Prefix): (a: AddressSize)
    ensures a == A64 ==> mode in {LONG, SMM}
    ensures mode in {LONG, SMM} ==> a == (if p.adrSizePrefix then A32 else A64)
    ensures mode == PROTECTED ==> a == (if p.adrSizePrefix then A16 else A32)
    ensures mode == REAL ==> a == A16
  {
    match mode
    case SMM | LONG => if p.adrSizePrefix then A32 else A64
    case PROTECTED => if p.adrSizePrefix then A16 else A32
    case REAL => A16
  }

  /** Operand size in effect when the operand type does not fix one. */
  function DefaultOperandSize(mode: ExecutionMode, p: Prefix): (o: OperandSize)
    ensures o in {O16, O32, O64}
    ensures o == O64 <==> mode in {LONG, SMM} && p.rexWPrefix
    ensures mode in {LONG, SMM} && !p.rexWPrefix ==> o == (if p.opSizePrefix then O16 else O32)
    ensures mode == PROTECTED ==> o == (if p.opSizePrefix then O16 else O32)
    ensures mode == REAL ==> o == O16
  {
    match mode
    case SMM | LONG =>
      if p.rexWPrefix then O64
      else if p.opSizePrefix then O16
      else O32
    case PROTECTED => if p.opSizePrefix then O16 else O32
    case REAL => O16
  }

  /** The operand types the size resolver handles; every other one is rejected. */
  const SizedOperandTypes: set<OperandType> := {
    BYTE, WORD_OPS, WORD_FPU, WORD, WORD_DWORD_64, WORD_DWORD_S64, WORD_DWORD, DWORD_QWORD,
    POINTER_REX, FAR_POINTER, DWORD_INT_FPU, REAL_SINGLE_FPU, DOUBLE_FPU, QWORD_FPU, DWORD, QWORD,
    QWORD_WORD, SCALAR_DOUBLE, SCALAR_SINGLE, DQWORD, DOUBLE_128, SINGLE_128, REAL_EXT_FPU }

  /** The operand types whose size depends on the mode or on a prefix. */
  const ContextSensitiveTypes: set<OperandType> := {
    WORD_DWORD_64, WORD_DWORD_S64, WORD_DWORD, DWORD_QWORD, POINTER_REX, FAR_POINTER, QWORD_WORD }

  /** Size of an operand of type `t`. `QWORD_WORD` gives 64 bits WITH the operand-size prefix and
      16 without, as the code does; the enumeration's comment describes the reverse. */
  function OperandSizeOf(mode: ExecutionMode, p: Prefix, t: OperandType): (r: Result<OperandSize, DecodeError>)
    ensures r.Ok? <==> t in SizedOperandTypes
    ensures r.Err? ==> r.error == InvalidOperandType(t)
    // the widths the operand type fixes on its own
    ensures t == BYTE ==> r == Ok(O8)
    ensures t in {WORD_OPS, WORD_FPU, WORD} ==> r == Ok(O16)
    ensures t in {DWORD_INT_FPU, REAL_SINGLE_FPU, DWORD, SCALAR_SINGLE} ==> r == Ok(O32)
    ensures t in {DOUBLE_FPU, QWORD_FPU, QWORD, SCALAR_DOUBLE} ==> r == Ok(O64)
    ensures t == REAL_EXT_FPU ==> r == Ok(O80)
    ensures t in {DQWORD, DOUBLE_128, SINGLE_128} ==> r == Ok(O128)
    // the widths the mode or a prefix decides
    ensures t == WORD_DWORD_64 ==> r == Ok(DefaultOperandSize(mode, p))
    ensures t in {WORD_DWORD_S64, WORD_DWORD, FAR_POINTER} ==> r == Ok(if p.opSizePrefix then O16 else O32)
    ensures t == DWORD_QWORD ==> r == Ok(if p.rexWPrefix then O64 else O32)
    ensures t == POINTER_REX ==> r == Ok(if p.rexWPrefix then O80 else if p.opSizePrefix then O16 else O32)
    ensures t == QWORD_WORD ==> r == Ok(if p.opSizePrefix then O64 else O16)
  {
    match t
    case BYTE => Ok(O8)
    case WORD_OPS | WORD_FPU | WORD => Ok(O16)
    case WORD_DWORD_64 => Ok(DefaultOperandSize(mode, p))
    case WORD_DWORD_S64 | WORD_DWORD => Ok(if p.opSizePrefix then O16 else O32)
    case DWORD_QWORD => Ok(if p.rexWPrefix then O64 else O32)
    case POINTER_REX =>
      if p.rexWPrefix then Ok(O80)
      else if p.opSizePrefix then Ok(O16)
      else Ok(O32)
    case FAR_POINTER => Ok(if p.opSizePrefix then O16 else O32)
    case DWORD_INT_FPU | REAL_SINGLE_FPU => Ok(O32)
    case DOUBLE_FPU | QWORD_FPU => Ok(O64)
    case DWORD => Ok(O32)
    case QWORD => Ok(O64)
    case QWORD_WORD => Ok(if p.opSizePrefix then O64 else O16)
    case SCALAR_DOUBLE => Ok(O64)
    case SCALAR_SINGLE => Ok(O32)
    case DQWORD | DOUBLE_128 | SINGLE_128 => Ok(O128)
    case REAL_EXT_FPU => Ok(O80)
    case _ => Err(InvalidOperandType(t))
  }

  // ---------------------------------------------------------------------------------------
  // Lookup tables. Each resolves an index to the register whose architectural code
  // (RegisterCode) is that index, within one family.

  function GenericRegister8(id: int): (r: Result<Register, DecodeError>)
    ensures r.Ok? <==> 0 <= id < 16
    ensures r.Ok? ==> FamilyOf(r.value) == Gen8Family && RegisterCode(r.value) == Some(id)
    ensures r.Err? ==> r.error == InvalidRegister(Gen8Family, id)
  {
    match id
    case 0 => Ok(Gen8(AL))
    case 1 => Ok(Gen8(CL))
    case 2 => Ok(Gen8(DL))
    case 3 => Ok(Gen8(BL))
    case 4 => Ok(Gen8(AH))
    case 5 => Ok(Gen8(CH))
    case 6 => Ok(Gen8(DH))
    case 7 => Ok(Gen8(BH))
    case 8 => Ok(Gen8(R8B))
    case 9 => Ok(Gen8(R9B))
    case 10 => Ok(Gen8(R10B))
    case 11 => Ok(Gen8(R11B))
    case 12 => Ok(Gen8(R12B))
    case 13 => Ok(Gen8(R13B))
    case 14 => Ok(Gen8(R14B))
    case 15 => Ok(Gen8(R15B))
    case _ => Err(InvalidRegister(Gen8Family, id))
  }

  function GenericRegister16(id: int): (r: Result<Register, DecodeError>)
    ensures r.Ok? <==> 0 <= id < 16
    ensures r.Ok? ==> FamilyOf(r.value) == Gen16Family && RegisterCode(r.value) == Some(id)
    ensures r.Err? ==> r.error == InvalidRegister(Gen16Family, id)
  {
    match id
    case 0 => Ok(Gen16(AX))
    case 1 => Ok(Gen16(CX))
    case 2 => Ok(Gen16(DX))
    case 3 => Ok(Gen16(BX))
    case 4 => Ok(Gen16(SP))
    case 5 => Ok(Gen16(BP))
    case 6 => Ok(Gen16(SI))
    case 7 => Ok(Gen16(DI))
    case 8 => Ok(Gen16(R8W))
    case 9 => Ok(Gen16(R9W))
    case 10 => Ok(Gen16(R10W))
    case 11 => Ok(Gen16(R11W))
    case 12 => Ok(Gen16(R12W))
    case 13 => Ok(Gen16(R13W))
    case 14 => Ok(Gen16(R14W))
    case 15 => Ok(Gen16(R15W))
    case _ => Err(InvalidRegister(Gen16Family, id))
  }

  function GenericRegister32(id: int): (r: Result<Register, DecodeError>)
    ensures r.Ok? <==> 0 <= id < 16
    ensures r.Ok? ==> FamilyOf(r.value) == Gen32Family && RegisterCode(r.value) == Some(id)
    ensures r.Err? ==> r.error == InvalidRegister(Gen32Family, id)
  {
    match id
    case 0 => Ok(Gen32(EAX))
    case 1 => Ok(Gen32(ECX))
    case 2 => Ok(Gen32(EDX))
    case 3 => Ok(Gen32(EBX))
    case 4 => Ok(Gen32(ESP))
    case 5 => Ok(Gen32(EBP))
    case 6 => Ok(Gen32(ESI))
    case 7 => Ok(Gen32(EDI))
    case 8 => Ok(Gen32(R8D))
    case 9 => Ok(Gen32(R9D))
    case 10 => Ok(Gen32(R10D))
    case 11 => Ok(Gen32(R11D))
    case 12 => Ok(Gen32(R12D))
    case 13 => Ok(Gen32(R13D))
    case 14 => Ok(Gen32(R14D))
    case 15 => Ok(Gen32(R15D))
    case _ => Err(InvalidRegister(Gen32Family, id))
  }

  function GenericRegister64(id: int): (r: Result<Register, DecodeError>)
    ensures r.Ok? <==> 0 <= id < 16
    ensures r.Ok? ==> FamilyOf(r.value) == Gen64Family && RegisterCode(r.value) == Some(id)
    ensures r.Err? ==> r.error == InvalidRegister(Gen64Family, id)
  {
    match id
    case 0 => Ok(Gen64(RAX))
    case 1 => Ok(Gen64(RCX))
    case 2 => Ok(Gen64(RDX))
    case 3 => Ok(Gen64(RBX))
    case 4 => Ok(Gen64(RSP))
    case 5 => Ok(Gen64(RBP))
    case 6 => Ok(Gen64(RSI))
    case 7 => Ok(Gen64(RDI))
    case 8 => Ok(Gen64(R8))
    case 9 => Ok(Gen64(R9))
    case 10 => Ok(Gen64(R10))
    case 11 => Ok(Gen64(R11))
    case 12 => Ok(Gen64(R12))
    case 13 => Ok(Gen64(R13))
    case 14 => Ok(Gen64(R14))
    case 15 => Ok(Gen64(R15))
    case _ => Err(InvalidRegister(Gen64Family, id))
  }

  /** Only the low three bits of the index count; codes 6 and 7 name no segment register. */
  function SegmentRegister(id: int): (r: Result<Register, DecodeError>)
    ensures r.Ok? <==> id % 8 < 6
    ensures r.Ok? ==> FamilyOf(r.value) == SegmentFamily && RegisterCode(r.value) == Some(id % 8)
    ensures r.Err? ==> r.error == InvalidRegister(SegmentFamily, id)
  {
    match id % 8
    case 0 => Ok(SegmentReg(ES))
    case 1 => Ok(SegmentReg(CS))
    case 2 => Ok(SegmentReg(SS))
    case 3 => Ok(SegmentReg(DS))
    case 4 => Ok(SegmentReg(FS))
    case 5 => Ok(SegmentReg(GS))
    case _ => Err(InvalidRegister(SegmentFamily, id))
  }

  /** Masks the index to three bits and so never fails (the source's failure branch is dead). */
  function FpuRegister(id: int): (r: Register)
    ensures FamilyOf(r) == FpuFamily && RegisterCode(r) == Some(id % 8)
  {
    match id % 8
    case 0 => Fpu(ST0)
    case 1 => Fpu(ST1)
    case 2 => Fpu(ST2)
    case 3 => Fpu(ST3)
    case 4 => Fpu(ST4)
    case 5 => Fpu(ST5)
    case 6 => Fpu(ST6)
    case _ => Fpu(ST7)
  }

  /** Masks the index to three bits and so never fails (the source's failure branch is dead). */
  function MmxRegister(id: int): (r: Register)
    ensures FamilyOf(r) == MmxFamily && RegisterCode(r) == Some(id % 8)
  {
    match id % 8
    case 0 => Mmx(MM0)
    case 1 => Mmx(MM1)
    case 2 => Mmx(MM2)
    case 3 => Mmx(MM3)
    case 4 => Mmx(MM4)
    case 5 => Mmx(MM5)
    case 6 => Mmx(MM6)
    case _ => Mmx(MM7)
  }

  function XmmRegister(id: int): (r: Result<Register, DecodeError>)
    ensures r.Ok? <==> 0 <= id < 16
    ensures r.Ok? ==> FamilyOf(r.value) == XmmFamily && RegisterCode(r.value) == Some(id)
    ensures r.Err? ==> r.error == InvalidRegister(XmmFamily, id)
  {
    match id
    case 0 => Ok(Xmm(XMM0))
    case 1 => Ok(Xmm(XMM1))
    case 2 => Ok(Xmm(XMM2))
    case 3 => Ok(Xmm(XMM3))
    case 4 => Ok(Xmm(XMM4))
    case 5 => Ok(Xmm(XMM5))
    case 6 => Ok(Xmm(XMM6))
    case 7 => Ok(Xmm(XMM7))
    case 8 => Ok(Xmm(XMM8))
    case 9 => Ok(Xmm(XMM9))
    case 10 => Ok(Xmm(XMM10))
    case 11 => Ok(Xmm(XMM11))
    case 12 => Ok(Xmm(XMM12))
    case 13 => Ok(Xmm(XMM13))
    case 14 => Ok(Xmm(XMM14))
    case 15 => Ok(Xmm(XMM15))
    case _ => Err(InvalidRegister(XmmFamily, id))
  }

  function ControlRegister(id: int): (r: Result<Register, DecodeError>)
    ensures r.Ok? <==> id in {0, 2, 3, 4}
    ensures r.Ok? ==> FamilyOf(r.value) == ControlFamily && RegisterCode(r.value) == Some(id)
    ensures r.Err? ==> r.error == InvalidRegister(ControlFamily, id)
  {
    match id
    case 0 => Ok(Control(CR0))
    case 2 => Ok(Control(CR2))
    case 3 => Ok(Control(CR3))
    case 4 => Ok(Control(CR4))
    case _ => Err(InvalidRegister(ControlFamily, id))
  }

  function DebugRegister(id: int): (r: Result<Register, DecodeError>)
    ensures r.Ok? <==> 0 <= id < 8
    ensures r.Ok? ==> FamilyOf(r.value) == DebugFamily && RegisterCode(r.value) == Some(id)
    ensures r.Err? ==> r.error == InvalidRegister(DebugFamily, id)
  {
    match id
    case 0 => Ok(Debug(DR0))
    case 1 => Ok(Debug(DR1))
    case 2 => Ok(Debug(DR2))
    case 3 => Ok(Debug(DR3))
    case 4 => Ok(Debug(DR4))
    case 5 => Ok(Debug(DR5))
    case 6 => Ok(Debug(DR6))
    case 7 => Ok(Debug(DR7))
    case _ => Err(InvalidRegister(DebugFamily, id))
  }

  function TestRegister(id: int): (r: Result<Register, DecodeError>)
    ensures r.Ok? <==> 0 <= id < 8
    ensures r.Ok? ==> FamilyOf(r.value) == TestFamily && RegisterCode(r.value) == Some(id)
    ensures r.Err? ==> r.error == InvalidRegister(TestFamily, id)
  {
    match id
    case 0 => Ok(Test(TR0))
    case 1 => Ok(Test(TR1))
    case 2 => Ok(Test(TR2))
    case 3 => Ok(Test(TR3))
    case 4 => Ok(Test(TR4))
    case 5 => Ok(Test(TR5))
    case 6 => Ok(Test(TR6))
    case 7 => Ok(Test(TR7))
    case _ => Err(InvalidRegister(TestFamily, id))
  }

  // ---------------------------------------------------------------------------------------
  // Resolvers

  /** Indices 8..15 need a REX extension bit, which exists only in LONG mode. */
  predicate ExtendedOutsideLong(mode: ExecutionMode, id: int)
  {
    mode != LONG && id > 7
  }

  /** A general-purpose register used to form a memory address, as wide as the address size. */
  function GenericAddressRegister(mode: ExecutionMode, p: Prefix, id: int): (r: Result<Register, DecodeError>)
    ensures ExtendedOutsideLong(mode, id) ==> r == Err(ExtendedRegisterOutsideLong(id))
    ensures r.Ok? <==> 0 <= id < 16 && !ExtendedOutsideLong(mode, id)
    ensures r.Ok? ==> RegisterCode(r.value) == Some(id)
    ensures r.Ok? ==> GeneralWidth(FamilyOf(r.value)) == AddressBits(AddressSizeOf(mode, p))
  {
    if ExtendedOutsideLong(mode, id) then
      Err(ExtendedRegisterOutsideLong(id))
    else
      match AddressSizeOf(mode, p)
      case A16 => GenericRegister16(id)
      case A32 => GenericRegister32(id)
      case A64 => GenericRegister64(id)
  }

  /** A general-purpose operand register, as wide as the operand. The mode check comes first,
      so an extended index outside LONG mode fails even for an operand type without a size. */
  function OperandRegisterGeneral(op: OperandDesc, mode: ExecutionMode, p: Prefix, id: int): (r: Result<Register, DecodeError>)
    ensures ExtendedOutsideLong(mode, id) ==> r == Err(ExtendedRegisterOutsideLong(id))
    ensures !ExtendedOutsideLong(mode, id) && OperandSizeOf(mode, p, op.operType).Err? ==>
              r == Err(InvalidOperandType(op.operType))
    ensures !ExtendedOutsideLong(mode, id) && OperandSizeOf(mode, p, op.operType) in {Ok(O80), Ok(O128)} ==>
              r == Err(InvalidOperandSize(OperandSizeOf(mode, p, op.operType).value))
    ensures r.Ok? <==> 0 <= id < 16 && !ExtendedOutsideLong(mode, id) &&
                       OperandSizeOf(mode, p, op.operType) in {Ok(O8), Ok(O16), Ok(O32), Ok(O64)}
    ensures r.Ok? ==> RegisterCode(r.value) == Some(id)
    ensures r.Ok? ==> GeneralWidth(FamilyOf(r.value)) == OperandBits(OperandSizeOf(mode, p, op.operType).value)
  {
    if ExtendedOutsideLong(mode, id) then
      Err(ExtendedRegisterOutsideLong(id))
    else
      var size :- OperandSizeOf(mode, p, op.operType);
      match size
      case O8 => GenericRegister8(id)
      case O16 => GenericRegister16(id)
      case O32 => GenericRegister32(id)
      case O64 => GenericRegister64(id)
      case O80 | O128 => Err(InvalidOperandSize(size))
  }

  /** The register families an operand may resolve to, by its address type and direct group;
      empty where the resolver rejects the descriptor outright. */
  function FamiliesFor(op: OperandDesc): set<RegisterFamily>
  {
    match op.adrType
    case MOD_RM_R | MOD_RM_M | LEAST_REG | MOD_RM_R_FORCE_GEN => {Gen8Family, Gen16Family, Gen32Family, Gen64Family}
    case MOD_RM_R_SEG | SEGMENT2 | SEGMENT33 => {SegmentFamily}
    case MOD_RM_M_FPU | MOD_RM_M_FPU_REG => {FpuFamily}
    case MOD_RM_MMX | MOD_RM_R_MMX | MOD_RM_M_MMX => {MmxFamily}
    case MOD_RM_M_XMM_REG | MOD_RM_XMM | MOD_RM_R_XMM => {XmmFamily}
    case MOD_RM_R_DEBUG => {DebugFamily}
    case MOD_RM_R_CTRL => {ControlFamily}
    case MOD_RM_R_TEST => {TestFamily}
    case GROUP =>
      if op.directGroup == Some(GENERIC) then {Gen8Family, Gen16Family, Gen32Family, Gen64Family}
      else if op.directGroup == Some(X87FPU) then {FpuFamily}
      else {}
    case _ => {}
  }

  /** The register code an operand's raw index carries: bits 3-4 for SEGMENT2, bits 3-5 for
      SEGMENT33, the low three bits for segment, FPU and MMX operands, the index itself otherwise. */
  function EncodedCode(op: OperandDesc, id: int): int
  {
    match op.adrType
    case SEGMENT2 => (id / 8) % 4
    case SEGMENT33 => (id / 8) % 8
    case MOD_RM_R_SEG | MOD_RM_M_FPU | MOD_RM_M_FPU_REG | MOD_RM_MMX | MOD_RM_R_MMX | MOD_RM_M_MMX => id % 8
    case GROUP => if op.directGroup == Some(X87FPU) then id % 8 else id
    case _ => id
  }

  /** Resolves an operand's raw register index to a register. The result always lies in one of
      the families the descriptor selects, and its register code is the index field the
      address type designates: resolution can be undone by reading the code back. */
  function OperandRegister(op: OperandDesc, mode: ExecutionMode, p: Prefix, id: int): (r: Result<Register, DecodeError>)
    ensures r.Ok? ==> FamilyOf(r.value) in FamiliesFor(op)
    ensures r.Ok? ==> RegisterCode(r.value) == Some(EncodedCode(op, id))
    ensures FamiliesFor(op) == {} && op.adrType != GROUP ==> r == Err(InvalidAddressType(op.adrType))
    // general-purpose operands are as wide as the operand, address registers as the address
    ensures op.adrType in {MOD_RM_R, MOD_RM_M, LEAST_REG} || (op.adrType == GROUP && op.directGroup == Some(GENERIC)) ==>
              r == OperandRegisterGeneral(op, mode, p, id)
    ensures op.adrType == MOD_RM_R_FORCE_GEN ==> r == GenericAddressRegister(mode, p, id)
    // when the other families resolve
    ensures op.adrType in {MOD_RM_M_FPU, MOD_RM_M_FPU_REG, MOD_RM_MMX, MOD_RM_R_MMX, MOD_RM_M_MMX, SEGMENT2} ==> r.Ok?
    ensures op.adrType == GROUP && op.directGroup == Some(X87FPU) ==> r.Ok?
    ensures op.adrType == MOD_RM_R_SEG ==> (r.Ok? <==> id % 8 < 6)
    ensures op.adrType == SEGMENT33 ==> (r.Ok? <==> (id / 8) % 8 < 6)
    ensures op.adrType in {MOD_RM_M_XMM_REG, MOD_RM_XMM, MOD_RM_R_XMM} ==> (r.Ok? <==> 0 <= id < 16)
    ensures op.adrType in {MOD_RM_R_DEBUG, MOD_RM_R_TEST} ==> (r.Ok? <==> 0 <= id < 8)
    ensures op.adrType == MOD_RM_R_CTRL ==> (r.Ok? <==> id in {0, 2, 3, 4})
    ensures op.adrType == GROUP && op.directGroup == None ==> r == Err(MissingDirectGroup)
    ensures op.adrType == GROUP && op.directGroup.Some? && op.directGroup.value !in {GENERIC, X87FPU} ==>
              r == Err(InvalidDirectGroup(op.directGroup.value))
  {
    match op.adrType
    case MOD_RM_R | MOD_RM_M | LEAST_REG => OperandRegisterGeneral(op, mode, p, id)
    case MOD_RM_R_SEG => SegmentRegister(id)
    case MOD_RM_M_FPU | MOD_RM_M_FPU_REG => Ok(FpuRegister(id))
    case MOD_RM_MMX | MOD_RM_R_MMX | MOD_RM_M_MMX => Ok(MmxRegister(id))
    case MOD_RM_M_XMM_REG | MOD_RM_XMM | MOD_RM_R_XMM => XmmRegister(id)
    case SEGMENT2 => SegmentRegister((id / 8) % 4)
    case SEGMENT33 => SegmentRegister((id / 8) % 8)
    case MOD_RM_R_FORCE_GEN => GenericAddressRegister(mode, p, id)
    case MOD_RM_R_DEBUG => DebugRegister(id)
    case MOD_RM_R_CTRL => ControlRegister(id)
    case MOD_RM_R_TEST => TestRegister(id)
    case GROUP =>
      (match op.directGroup
       case None => Err(MissingDirectGroup)
       case Some(GENERIC) => OperandRegisterGeneral(op, mode, p, id)
       case Some(X87FPU) => Ok(FpuRegister(id))
       case Some(g) => Err(InvalidDirectGroup(g)))
    case _ => Err(InvalidAddressType(op.adrType))
  }
}
