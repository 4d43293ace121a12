/** The decoding context of one x86 instruction stream: the target processor model and execution
    mode, fixed at construction, the instruction pointer, and the prefix record that the prefix
    bytes of the current instruction build up one at a time. */
module X86Context {
  import opened Outcomes
  import opened X86Types

  /** The parts of an opcode table entry the context reads: the opcode byte, whether the entry
      belongs to the prefix group, the processors that support it, and the execution mode it
      needs. */
  datatype OpcodeEntry = OpcodeEntry(opcode: int, isPrefix: bool, supportedProcessors: set<Model>, mode: ExecutionMode)

  /** Why a prefix entry is refused. */
  datatype PrefixError = NotAPrefix | UnknownPrefix(opcode: int)

  /** What a prefix byte does to the prefix record. */
  datatype PrefixKind =
    | Lock | RepNZ | RepZ
    | SegmentOverride(segment: Segment)
    | Rex(w: bool, r: bool, x: bool, b: bool)
    | OperandSizeOverride | AddressSizeOverride | Wait

  /** Bit `k` of a non-negative byte value. */
  function Bit(v: int, k: nat): bool
  {
    (v / Pow2(k)) % 2 == 1
  }

  function Pow2(k: nat): (r: nat)
    ensures r >= 1
  {
    if k == 0 then 1 else 2 * Pow2(k - 1)
  }

  /** Every byte the context accepts as a prefix. */
  const PrefixBytes: set<int> := {
    0xF0, 0xF2, 0xF3,
    0x2E, 0x36, 0x3E, 0x26, 0x64, 0x65,
    0x40, 0x41, 0x42, 0x43, 0x44, 0x45, 0x46, 0x48, 0x49, 0x4A, 0x4B, 0x4C, 0x4D, 0x4E, 0x4F,
    0x66, 0x67, 0x9B }

  /** The prefix bytes the context knows, with their meaning. The REX bytes 0x40..0x4F carry
      W, R, X and B in bits 3..0 (Intel SDM Vol. 2A, section 2.2.1); 0x47 is not among the
      known bytes, as in the code. */
  function PrefixKindOf(opcode: int): (k: Option<PrefixKind>)
    ensures k.Some? && k.value.Rex? <==> 0x40 <= opcode <= 0x4F && opcode != 0x47
    ensures k.Some? && k.value.Rex? ==> k.value == Rex(Bit(opcode, 3), Bit(opcode, 2), Bit(opcode, 1), Bit(opcode, 0))
    ensures k.Some? && k.value.SegmentOverride? <==> opcode in {0x26, 0x2E, 0x36, 0x3E, 0x64, 0x65}
    ensures k.Some? <==> opcode in PrefixBytes
  {
    match opcode
    case 0xF0 => Some(Lock)
    case 0xF2 => Some(RepNZ)
    case 0xF3 => Some(RepZ)
    case 0x2E => Some(SegmentOverride(CS))
    case 0x36 => Some(SegmentOverride(SS))
    case 0x3E => Some(SegmentOverride(DS))
    case 0x26 => Some(SegmentOverride(ES))
    case 0x64 => Some(SegmentOverride(FS))
    case 0x65 => Some(SegmentOverride(GS))
    case 0x66 => Some(OperandSizeOverride)
    case 0x67 => Some(AddressSizeOverride)
    case 0x9B => Some(Wait)
    case _ =>
      if 0x40 <= opcode <= 0x4F && opcode != 0x47 then
        Some(Rex(Bit(opcode, 3), Bit(opcode, 2), Bit(opcode, 1), Bit(opcode, 0)))
      else
        None
  }

  /** The prefix record after a known prefix byte. */
  function Apply(p: Prefix, k: PrefixKind): Prefix
  {
    match k
    case Lock => p.(lockPrefix := true)
    case RepNZ => p.(repNZPrefix := true)
    case RepZ => p.(repZPrefix := true)
    case SegmentOverride(s) => p.(overrideSegment := Some(s))
    case Rex(w, r, x, b) => p.(rexWPrefix := w, rexRPrefix := r, rexXPrefix := x, rexBPrefix := b)
    case OperandSizeOverride => p.(opSizePrefix := true)
    case AddressSizeOverride => p.(adrSizePrefix := true)
    case Wait => p.(waitPrefix := true)
  }

  /** The prefix record after one prefix entry, or the reason it is refused. */
  function PrefixEffect(p: Prefix, e: OpcodeEntry): Result<Prefix, PrefixError>
  {
    if !e.isPrefix then Err(NotAPrefix)
    else
      match PrefixKindOf(e.opcode)
      case None => Err(UnknownPrefix(e.opcode))
      case Some(k) => Ok(Apply(p, k))
  }

  /** Whether an entry's required execution mode admits the current one: LONG-only entries need
      LONG mode, PROTECTED entries need any mode but REAL, REAL and SMM entries run anywhere. */
  predicate ModeAdmits(execMode: ExecutionMode, entryMode: ExecutionMode)
  {
    match entryMode
    case LONG => execMode == LONG
    case PROTECTED => execMode != REAL
    case REAL | SMM => true
  }

  class X86Context {
    const model: Model
    const execMode: ExecutionMode
    var instructionPointer: int
    var prefix: Prefix

    /** A context for one processor model and execution mode, with a fresh prefix record. */
    constructor (model: Model, execMode: ExecutionMode)
      ensures this.model == model && this.execMode == execMode
      ensures instructionPointer == 0
      ensures prefix == EmptyPrefix
    {
      this.model := model;
      this.execMode := execMode;
      instructionPointer := 0;
      prefix := EmptyPrefix;
    }

    method SetInstructionPointer(ip: int)
      modifies this`instructionPointer
      ensures instructionPointer == ip
    {
      instructionPointer := ip;
    }

    method GetInstructionPointer() returns (ip: int)
      ensures ip == instructionPointer
    {
      ip := instructionPointer;
    }

    method GetPrefix() returns (p: Prefix)
      ensures p == prefix
    {
      p := prefix;
    }

    method GetModel() returns (m: Model)
      ensures m == model
    {
      m := model;
    }

    method GetExecMode() returns (m: ExecutionMode)
      ensures m == execMode
    {
      m := execMode;
    }

    /** Whether an instruction with this opcode entry can occur here: the processor check is
        skipped for the ANY model, then the entry's mode must admit the execution mode. */
    predicate AcceptsOpcode(e: OpcodeEntry)
      ensures AcceptsOpcode(e) <==>
                (model == ANY || model in e.supportedProcessors) && ModeAdmits(execMode, e.mode)
    {
      if model != ANY && model !in e.supportedProcessors then false
      else
        match e.mode
        case LONG => execMode == LONG
        case PROTECTED => execMode != REAL
        case REAL | SMM => true
    }

    /** Starts a new instruction: the prefix record is fresh again. */
    method Reset()
      modifies this`prefix
      ensures prefix == EmptyPrefix
    {
      prefix := EmptyPrefix;
    }

    /** Records one prefix byte of the current instruction. A refused entry leaves the record
        as it was. */
    method ApplyPrefix(e: OpcodeEntry) returns (outcome: Result<Prefix, PrefixError>)
      modifies this`prefix
      ensures outcome == PrefixEffect(old(prefix), e)
      ensures prefix == if outcome.Ok? then outcome.value else old(prefix)
    {
      if !e.isPrefix {
        return Err(NotAPrefix);
      }
      var op := e.opcode;
      if op == 0xF0 {
        prefix := prefix.(lockPrefix := true);
      } else if op == 0xF2 {
        prefix := prefix.(repNZPrefix := true);
      } else if op == 0xF3 {
        prefix := prefix.(repZPrefix := true);
      } else if op == 0x2E {
        prefix := prefix.(overrideSegment := Some(CS));
      } else if op == 0x36 {
        prefix := prefix.(overrideSegment := Some(SS));
      } else if op == 0x3E {
        prefix := prefix.(overrideSegment := Some(DS));
      } else if 0x40 <= op <= 0x4F && op != 0x47 {
        prefix := prefix.(rexWPrefix := Bit(op, 3));
        prefix := prefix.(rexRPrefix := Bit(op, 2));
        prefix := prefix.(rexXPrefix := Bit(op, 1));
        prefix := prefix.(rexBPrefix := Bit(op, 0));
      } else if op == 0x26 {
        prefix := prefix.(overrideSegment := Some(ES));
      } else if op == 0x64 {
        prefix := prefix.(overrideSegment := Some(FS));
      } else if op == 0x65 {
        prefix := prefix.(overrideSegment := Some(GS));
      } else if op == 0x66 {
        prefix := prefix.(opSizePrefix := true);
      } else if op == 0x67 {
        prefix := prefix.(adrSizePrefix := true);
      } else if op == 0x9B {
        prefix := prefix.(waitPrefix := true);
      } else {
        return Err(UnknownPrefix(op));
      }
      outcome := Ok(prefix);
    }
  }

  // ---------------------------------------------------------------------------------------
  // Properties of the prefix record

  /** The prefix entries of one instruction applied in order, stopping at the first refused one. */
  function ApplyAll(p: Prefix, es: seq<OpcodeEntry>): Result<Prefix, PrefixError>
    decreases |es|
  {
    if es == [] then Ok(p)
    else
      var q :- PrefixEffect(p, es[0]);
      ApplyAll(q, es[1..])
  }

  /** The segment an entry's byte selects, when it is a segment-override byte. */
  function SegmentSelected(e: OpcodeEntry): Option<Segment>
  {
    var k := PrefixKindOf(e.opcode);
    if k.Some? && k.value.SegmentOverride? then Some(k.value.segment) else None
  }

  /** The segment of the last segment-override byte among the entries, found from the end. */
  function LastOverride(es: seq<OpcodeEntry>): Option<Segment>
  {
    if es == [] then None
    else if SegmentSelected(es[|es| - 1]).Some? then SegmentSelected(es[|es| - 1])
    else LastOverride(es[..|es| - 1])
  }

  /** An entry is accepted exactly when it is in the prefix group and its byte is a known prefix. */
  lemma PrefixAccepted(p: Prefix, e: OpcodeEntry)
    ensures PrefixEffect(p, e).Ok? <==> e.isPrefix && e.opcode in PrefixBytes
    ensures !e.isPrefix ==> PrefixEffect(p, e) == Err(NotAPrefix)
    ensures e.isPrefix && e.opcode !in PrefixBytes ==> PrefixEffect(p, e) == Err(UnknownPrefix(e.opcode))
  {
  }

  /** 0x47 (REX with R, X and B) is refused as an unknown prefix: the code lists every other REX
      byte but not this one. */
  lemma Rex47Refused(p: Prefix, e: OpcodeEntry)
    requires e.isPrefix && e.opcode == 0x47
    ensures PrefixEffect(p, e) == Err(UnknownPrefix(0x47))
  {
  }

  /** Each of F0, F2, F3, 66, 67 and 9B sets its own flag and leaves the rest of the record alone;
      the flags, once set, stay set for the instruction. */
  lemma FlagBytesSetOnlyTheirFlag(p: Prefix, e: OpcodeEntry)
    requires e.isPrefix
    ensures e.opcode == 0xF0 ==> PrefixEffect(p, e) == Ok(p.(lockPrefix := true))
    ensures e.opcode == 0xF2 ==> PrefixEffect(p, e) == Ok(p.(repNZPrefix := true))
    ensures e.opcode == 0xF3 ==> PrefixEffect(p, e) == Ok(p.(repZPrefix := true))
    ensures e.opcode == 0x66 ==> PrefixEffect(p, e) == Ok(p.(opSizePrefix := true))
    ensures e.opcode == 0x67 ==> PrefixEffect(p, e) == Ok(p.(adrSizePrefix := true))
    ensures e.opcode == 0x9B ==> PrefixEffect(p, e) == Ok(p.(waitPrefix := true))
  {
  }

  /** The segment-override bytes and the segment each selects; nothing else changes. */
  lemma SegmentOverrideBytes(p: Prefix, e: OpcodeEntry)
    requires e.isPrefix
    ensures e.opcode == 0x2E ==> PrefixEffect(p, e) == Ok(p.(overrideSegment := Some(CS)))
    ensures e.opcode == 0x36 ==> PrefixEffect(p, e) == Ok(p.(overrideSegment := Some(SS)))
    ensures e.opcode == 0x3E ==> PrefixEffect(p, e) == Ok(p.(overrideSegment := Some(DS)))
    ensures e.opcode == 0x26 ==> PrefixEffect(p, e) == Ok(p.(overrideSegment := Some(ES)))
    ensures e.opcode == 0x64 ==> PrefixEffect(p, e) == Ok(p.(overrideSegment := Some(FS)))
    ensures e.opcode == 0x65 ==> PrefixEffect(p, e) == Ok(p.(overrideSegment := Some(GS)))
  {
  }

  /** LastOverride seen from the front: the rest's last override, else the first entry's. */
  lemma {:induction false} LastOverrideFromFront(es: seq<OpcodeEntry>)
    requires es != []
    ensures LastOverride(es) ==
              if LastOverride(es[1..]).Some? then LastOverride(es[1..]) else SegmentSelected(es[0])
  {
    if |es| > 1 {
      assert es[1..][..|es[1..]| - 1] == es[..|es| - 1][1..];
      LastOverrideFromFront(es[..|es| - 1]);
    }
  }

  /** An accepted entry applies the meaning of its byte. */
  lemma AcceptedEntryApplies(p: Prefix, e: OpcodeEntry)
    requires PrefixEffect(p, e).Ok?
    ensures PrefixKindOf(e.opcode).Some?
    ensures PrefixEffect(p, e) == Ok(Apply(p, PrefixKindOf(e.opcode).value))
  {
  }

  /** Only a segment-override byte changes the override segment. */
  lemma ApplyOverride(p: Prefix, k: PrefixKind)
    ensures Apply(p, k).overrideSegment == if k.SegmentOverride? then Some(k.segment) else p.overrideSegment
  {
  }

  /** One accepted entry sets the override segment when it selects one and keeps it otherwise. */
  lemma OverrideAfterOne(p: Prefix, e: OpcodeEntry)
    requires PrefixEffect(p, e).Ok?
    ensures PrefixEffect(p, e).value.overrideSegment ==
              if SegmentSelected(e).Some? then SegmentSelected(e) else p.overrideSegment
  {
    AcceptedEntryApplies(p, e);
    ApplyOverride(p, PrefixKindOf(e.opcode).value);
  }

  /** Of several segment overrides in one instruction, the last one wins; without any, the
      record keeps the segment it had. */
  lemma {:induction false} LastOverrideWins(p: Prefix, es: seq<OpcodeEntry>)
    requires ApplyAll(p, es).Ok?
    decreases |es|
    ensures ApplyAll(p, es).value.overrideSegment ==
              if LastOverride(es).Some? then LastOverride(es) else p.overrideSegment
  {
    if es != [] {
      var q := PrefixEffect(p, es[0]).value;
      assert ApplyAll(p, es) == ApplyAll(q, es[1..]);
      OverrideAfterOne(p, es[0]);
      LastOverrideWins(q, es[1..]);
      LastOverrideFromFront(es);
    }
  }

  /** A REX byte sets all four REX bits from its low nibble, whatever the earlier bits were:
      two records that differ only in their REX bits agree after it. */
  lemma RexOverwritesAllBits(p: Prefix, q: Prefix, e: OpcodeEntry)
    requires e.isPrefix && 0x40 <= e.opcode <= 0x4F && e.opcode != 0x47
    requires q == p.(rexWPrefix := q.rexWPrefix, rexRPrefix := q.rexRPrefix,
                     rexXPrefix := q.rexXPrefix, rexBPrefix := q.rexBPrefix)
    ensures PrefixEffect(p, e) == PrefixEffect(q, e)
    ensures PrefixEffect(p, e).Ok? && (PrefixEffect(p, e).value.rexWPrefix <==> e.opcode >= 0x48)
  {
  }

  /** Worked prefix sequences: 3E then 26 leaves ES; REX 4D then REX 40 leaves every REX bit clear. */
  lemma PrefixSequenceExamples(procs: set<Model>, m: ExecutionMode)
    ensures ApplyAll(EmptyPrefix, [OpcodeEntry(0x3E, true, procs, m), OpcodeEntry(0x26, true, procs, m)])
            == Ok(EmptyPrefix.(overrideSegment := Some(ES)))
    ensures ApplyAll(EmptyPrefix, [OpcodeEntry(0x4D, true, procs, m), OpcodeEntry(0x40, true, procs, m)])
            == Ok(EmptyPrefix)
  {
    var s := [OpcodeEntry(0x3E, true, procs, m), OpcodeEntry(0x26, true, procs, m)];
    var s1 := EmptyPrefix.(overrideSegment := Some(DS));
    assert PrefixEffect(EmptyPrefix, s[0]) == Ok(s1);
    assert ApplyAll(s1, s[1..]) == ApplyAll(s1.(overrideSegment := Some(ES)), s[1..][1..]);
    assert s[1..][1..] == [];
    var r := [OpcodeEntry(0x4D, true, procs, m), OpcodeEntry(0x40, true, procs, m)];
    assert PrefixKindOf(0x4D) == Some(Rex(true, true, false, true));
    assert PrefixKindOf(0x40) == Some(Rex(false, false, false, false));
    var r1 := EmptyPrefix.(rexWPrefix := true, rexRPrefix := true, rexBPrefix := true);
    assert PrefixEffect(EmptyPrefix, r[0]) == Ok(r1);
    assert ApplyAll(r1, r[1..]) == ApplyAll(EmptyPrefix, r[1..][1..]);
    assert r[1..][1..] == [];
  }

  // ---------------------------------------------------------------------------------------
  // Properties of the opcode gate

  /** The mode gate orders the modes: REAL admits least, LONG admits most. */
  lemma ModeGateOrder(x: ExecutionMode, m: ExecutionMode)
    ensures ModeAdmits(x, LONG) <==> x == LONG
    ensures ModeAdmits(x, PROTECTED) <==> x != REAL
    ensures ModeAdmits(x, REAL) && ModeAdmits(x, SMM)
    ensures ModeAdmits(REAL, m) ==> ModeAdmits(x, m)
    ensures ModeAdmits(x, m) ==> ModeAdmits(LONG, m)
  {
  }

  /** A context for the ANY model accepts everything a context for a specific model in the same
      execution mode accepts. */
  lemma AnyModelAcceptsMore(any: X86Context, specific: X86Context, e: OpcodeEntry)
    requires any.model == ANY && any.execMode == specific.execMode
    ensures specific.AcceptsOpcode(e) ==> any.AcceptsOpcode(e)
    ensures any.AcceptsOpcode(e) <==> ModeAdmits(any.execMode, e.mode)
  {
  }
}
