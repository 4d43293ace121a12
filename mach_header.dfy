/** The Mach-O header reader: the fixed header (magic number, CPU type, load-command count) and
    the walk over the load commands, which collects the sections of every segment command and
    the entry point of an LC_MAIN command and skips every other command by its size.
    The segment reader is a parameter: it reads a segment command's body from the bytes at a
    position and gives the segment's sections and the position after the body, or nothing when
    the body cannot be read. */
module MachHeader {
  import opened Outcomes
  import opened ByteSequences

  const MH_MAGIC: int := 0xFEED_FACE
  const MH_MAGIC_64: int := 0xFEED_FACF
  const CPU_TYPE_X86: int := 7
  const CPU_TYPE_X86_64: int := 0x0100_0007
  const LC_SEGMENT: int := 0x1
  const LC_SEGMENT_64: int := 0x19
  const LC_MAIN: int := 0x8000_0028

  /** Why a header could not be read (the source throws). */
  datatype MachError =
    | Cursor(cause: CursorError)  // a read ran past the end, or a skip left the bytes
    | BadMagic(magic: int)
    | BadCpuType(cpuType: int)
    | SegmentFailed               // the segment reader could not read a segment command

  /** The header as read: the word size, the entry point (0 when no LC_MAIN command sets it)
      and the sections of all segments, in command order. */
  datatype MachHeader<S> = MachHeader(mach64: bool, entryPoint: int, sections: seq<S>)

  datatype SegmentParse<S> = SegmentParse(sections: seq<S>, next: int)

  type SegmentReader<S> = (seq<byte>, int, bool) -> Option<SegmentParse<S>>

  /** What the fixed header yields: the word size, the number of load commands and the position
      of the first one. */
  datatype FixedHeader = FixedHeader(mach64: bool, numLoadCommands: nat, commandsStart: int)

  /** The walk's state after some load commands. */
  datatype WalkState<S> = WalkState(entryPoint: int, sections: seq<S>, pos: int)

  /** A whole header and the position just after its last load command. */
  datatype Decoded<S> = Decoded(header: MachHeader<S>, end: int)

  function U32At(bs: seq<byte>, p: int): nat
    requires 0 <= p && p + 4 <= |bs|
  {
    UnsignedLE(bs[p..p + 4])
  }

  function S32At(bs: seq<byte>, p: int): int
    requires 0 <= p && p + 4 <= |bs|
  {
    SignedLE(bs[p..p + 4])
  }

  function FixedHeaderSize(mach64: bool): int
  {
    if mach64 then 32 else 28
  }

  /** The fixed header at p: a 32-bit little-endian magic that decides the word size, a signed
      CPU type that must be x86 or x86-64, four more 32-bit words of which the third is the
      load-command count, and, for 64-bit images, one reserved word. */
  function ParseFixed(bs: seq<byte>, p: int): (r: Result<FixedHeader, MachError>)
    requires 0 <= p <= |bs|
    ensures r.Ok? <==> p + 8 <= |bs| && U32At(bs, p) in {MH_MAGIC, MH_MAGIC_64}
                       && S32At(bs, p + 4) in {CPU_TYPE_X86, CPU_TYPE_X86_64}
                       && p + FixedHeaderSize(U32At(bs, p) == MH_MAGIC_64) <= |bs|
    ensures r.Ok? ==> r.value.mach64 == (U32At(bs, p) == MH_MAGIC_64)
    ensures r.Ok? ==> r.value.commandsStart == p + FixedHeaderSize(r.value.mach64)
    ensures r.Ok? ==> r.value.numLoadCommands == U32At(bs, p + 16)
    ensures p + 4 <= |bs| && U32At(bs, p) !in {MH_MAGIC, MH_MAGIC_64} ==> r == Err(BadMagic(U32At(bs, p)))
  {
    if p + 4 > |bs| then Err(Cursor(Underflow))
    else
      var magic := U32At(bs, p);
      if magic != MH_MAGIC && magic != MH_MAGIC_64 then Err(BadMagic(magic))
      else if p + 8 > |bs| then Err(Cursor(Underflow))
      else
        var cpuType := S32At(bs, p + 4);
        if cpuType != CPU_TYPE_X86 && cpuType != CPU_TYPE_X86_64 then Err(BadCpuType(cpuType))
        else
          var mach64 := magic == MH_MAGIC_64;
          if p + FixedHeaderSize(mach64) > |bs| then Err(Cursor(Underflow))
          else Ok(FixedHeader(mach64, U32At(bs, p + 16), p + FixedHeaderSize(mach64)))
  }

  /** One load command at st.pos: a 32-bit command type and a 32-bit size, then
      - for a segment command, the segment reader's body;
      - for LC_MAIN, the entry offset and the stack size, each a signed 64-bit word in a 64-bit
        image and an unsigned 32-bit word otherwise;
      - for any other command, a skip by the size less the 8 bytes already read, narrowed to a
        32-bit position. */
  function Command<S>(bs: seq<byte>, mach64: bool, segment: SegmentReader<S>, st: WalkState<S>): (r: Result<WalkState<S>, MachError>)
    requires 0 <= st.pos <= |bs|
    ensures r.Ok? ==> st.pos + 8 <= |bs| && 0 <= r.value.pos <= |bs|
    ensures r.Ok? ==> st.sections <= r.value.sections
    ensures r.Ok? && U32At(bs, st.pos) != LC_MAIN ==> r.value.entryPoint == st.entryPoint
    ensures r.Ok? && U32At(bs, st.pos) !in {LC_SEGMENT, LC_SEGMENT_64} ==> r.value.sections == st.sections
    ensures r.Ok? && U32At(bs, st.pos) == LC_MAIN ==> r.value.pos == st.pos + (if mach64 then 24 else 16)
    // LC_MAIN: the entry offset is a signed qword in a 64-bit image and an unsigned dword otherwise
    ensures st.pos + 8 <= |bs| && U32At(bs, st.pos) == LC_MAIN ==>
              (r.Ok? <==> st.pos + (if mach64 then 24 else 16) <= |bs|)
    ensures r.Ok? && U32At(bs, st.pos) == LC_MAIN && mach64 ==>
              st.pos + 16 <= |bs| && r.value.entryPoint == SignedLE(bs[st.pos + 8..st.pos + 16])
    ensures r.Ok? && U32At(bs, st.pos) == LC_MAIN && !mach64 ==> r.value.entryPoint == U32At(bs, st.pos + 8)
    // a segment command: exactly the reader's sections, and the walk goes on where the reader stopped
    ensures st.pos + 8 <= |bs| && U32At(bs, st.pos) in {LC_SEGMENT, LC_SEGMENT_64} ==>
              (r.Ok? <==> segment(bs, st.pos + 8, mach64).Some? && 0 <= segment(bs, st.pos + 8, mach64).value.next <= |bs|)
    ensures r.Ok? && U32At(bs, st.pos) in {LC_SEGMENT, LC_SEGMENT_64} ==>
              segment(bs, st.pos + 8, mach64).Some? &&
              r.value == WalkState(st.entryPoint, st.sections + segment(bs, st.pos + 8, mach64).value.sections,
                                   segment(bs, st.pos + 8, mach64).value.next)
    // any other command: skipped by its size, counted from the command's start, as a 32-bit position
    ensures r.Ok? && U32At(bs, st.pos) !in {LC_SEGMENT, LC_SEGMENT_64, LC_MAIN} ==>
              r.value.pos == ToInt32(st.pos + U32At(bs, st.pos + 4))
  {
    var p := st.pos;
    if p + 8 > |bs| then Err(Cursor(Underflow))
    else
      var cmd, size, body := U32At(bs, p), U32At(bs, p + 4), p + 8;
      if cmd == LC_SEGMENT_64 || cmd == LC_SEGMENT then
        match segment(bs, body, mach64)
        case None => Err(SegmentFailed)
        case Some(parsed) =>
          if 0 <= parsed.next <= |bs| then Ok(WalkState(st.entryPoint, st.sections + parsed.sections, parsed.next))
          else Err(SegmentFailed)
      else if cmd == LC_MAIN then
        if mach64 then
          if body + 16 > |bs| then Err(Cursor(Underflow))
          else Ok(WalkState(SignedLE(bs[body..body + 8]), st.sections, body + 16))
        else
          if body + 8 > |bs| then Err(Cursor(Underflow))
          else Ok(WalkState(U32At(bs, body), st.sections, body + 8))
      else
        var target := ToInt32(body + size - 8);
        if 0 <= target <= |bs| then Ok(WalkState(st.entryPoint, st.sections, target))
        else Err(Cursor(BadPosition(target)))
  }

  /** The state after the first n load commands, or the first error among them. */
  function Commands<S>(bs: seq<byte>, mach64: bool, segment: SegmentReader<S>, start: WalkState<S>, n: nat): (r: Result<WalkState<S>, MachError>)
    requires 0 <= start.pos <= |bs|
    ensures r.Ok? ==> 0 <= r.value.pos <= |bs| && start.sections <= r.value.sections
    decreases n
  {
    if n == 0 then Ok(start)
    else
      var st :- Commands(bs, mach64, segment, start, n - 1);
      Command(bs, mach64, segment, st)
  }

  /** The header at p: the fixed header, then as many load commands as it announces. */
  function Decode<S>(bs: seq<byte>, p: int, segment: SegmentReader<S>): (r: Result<Decoded<S>, MachError>)
    requires 0 <= p <= |bs|
    ensures r.Ok? ==> ParseFixed(bs, p).Ok? && r.value.header.mach64 == (U32At(bs, p) == MH_MAGIC_64)
    ensures ParseFixed(bs, p).Err? ==> r.Err? && r.error == ParseFixed(bs, p).error
    ensures r.Ok? ==> p + FixedHeaderSize(r.value.header.mach64) <= |bs| && 0 <= r.value.end <= |bs|
  {
    var h :- ParseFixed(bs, p);
    var st :- Commands(bs, h.mach64, segment, WalkState(0, [], h.commandsStart), h.numLoadCommands);
    Ok(Decoded(MachHeader(h.mach64, st.entryPoint, st.sections), st.pos))
  }

  // ---------------------------------------------------------------------------------------
  // The reader over a cursor

  /** Reads the fixed header from the cursor. */
  method ReadFixedHeader(cursor: ByteSequence) returns (r: Result<FixedHeader, MachError>)
    requires cursor.Valid()
    modifies cursor`position
    ensures cursor.Valid()
    ensures r == ParseFixed(cursor.bytes, old(cursor.position))
    ensures r.Ok? ==> cursor.position == r.value.commandsStart
  {
    var magic := cursor.ReadUDword();
    if magic.Err? {
      return Err(Cursor(Underflow));
    }
    var mach64: bool;
    if magic.value == MH_MAGIC {
      mach64 := false;
    } else if magic.value == MH_MAGIC_64 {
      mach64 := true;
    } else {
      return Err(BadMagic(magic.value));
    }
    var cpuType := cursor.ReadSDword();
    if cpuType.Err? {
      return Err(Cursor(Underflow));
    }
    if cpuType.value != CPU_TYPE_X86 && cpuType.value != CPU_TYPE_X86_64 {
      return Err(BadCpuType(cpuType.value));
    }
    var numLoadCommands := ReadHeaderWords(cursor, mach64);
    if numLoadCommands.Err? {
      return Err(numLoadCommands.error);
    }
    r := Ok(FixedHeader(mach64, numLoadCommands.value, cursor.position));
  }

  /** Reads the rest of the fixed header after the CPU type: the subtype, the file type, the
      load-command count, the size of the commands, the flags and, in a 64-bit image, a reserved
      word. Only the count is kept. */
  method ReadHeaderWords(cursor: ByteSequence, mach64: bool) returns (r: Result<nat, MachError>)
    requires cursor.Valid()
    modifies cursor`position
    ensures cursor.Valid()
    ensures r.Ok? <==> old(cursor.position) + FixedHeaderSize(mach64) - 8 <= |cursor.bytes|
    ensures r.Ok? ==> r.value == U32At(cursor.bytes, old(cursor.position) + 8)
    ensures r.Ok? ==> cursor.position == old(cursor.position) + FixedHeaderSize(mach64) - 8
    ensures r.Err? ==> r.error == Cursor(Underflow)
  {
    var subtype := cursor.ReadSDword();
    var fileType := cursor.ReadUDword();
    var numLoadCommands := cursor.ReadUDword();
    var sizeOfCommands := cursor.ReadUDword();
    var flags := cursor.ReadUDword();
    if subtype.Err? || fileType.Err? || numLoadCommands.Err? || sizeOfCommands.Err? || flags.Err? {
      return Err(Cursor(Underflow));
    }
    if mach64 {
      var reserved := cursor.ReadUDword();
      if reserved.Err? {
        return Err(Cursor(Underflow));
      }
    }
    r := Ok(numLoadCommands.value);
  }

  /** Reads one load command from the cursor. */
  method ReadCommand<S>(cursor: ByteSequence, mach64: bool, segment: SegmentReader<S>, entryPoint: int, sections: seq<S>)
    returns (r: Result<WalkState<S>, MachError>)
    requires cursor.Valid()
    modifies cursor`position
    ensures cursor.Valid()
    ensures r == Command(cursor.bytes, mach64, segment, WalkState(entryPoint, sections, old(cursor.position)))
    ensures r.Ok? ==> cursor.position == r.value.pos
  {
    var cmd := cursor.ReadUDword();
    var size := cursor.ReadUDword();
    if cmd.Err? || size.Err? {
      return Err(Cursor(Underflow));
    }
    if cmd.value == LC_SEGMENT_64 || cmd.value == LC_SEGMENT {
      var parsed := segment(cursor.bytes, cursor.position, mach64);
      if parsed.None? {
        return Err(SegmentFailed);
      }
      var moved := cursor.SetPosition(parsed.value.next);
      if moved.Err? {
        return Err(SegmentFailed);
      }
      r := Ok(WalkState(entryPoint, sections + parsed.value.sections, cursor.position));
    } else if cmd.value == LC_MAIN {
      var entry: int;
      if mach64 {
        var entryOffset := cursor.ReadSQword();
        var stackSize := cursor.ReadSQword();
        if entryOffset.Err? || stackSize.Err? {
          return Err(Cursor(Underflow));
        }
        entry := entryOffset.value;
      } else {
        var entryOffset := cursor.ReadUDword();
        var stackSize := cursor.ReadUDword();
        if entryOffset.Err? || stackSize.Err? {
          return Err(Cursor(Underflow));
        }
        entry := entryOffset.value;
      }
      r := Ok(WalkState(entry, sections, cursor.position));
    } else {
      var skipped := cursor.Skip(size.value - 8);
      if skipped.Err? {
        return Err(Cursor(skipped.error));
      }
      r := Ok(WalkState(entryPoint, sections, cursor.position));
    }
  }

  /** Reads a Mach-O header from the cursor: the fixed header, then the announced number of
      load commands, one at a time. */
  method Parse<S>(cursor: ByteSequence, segment: SegmentReader<S>) returns (r: Result<MachHeader<S>, MachError>)
    requires cursor.Valid()
    modifies cursor`position
    ensures cursor.Valid()
    ensures r.Ok? <==> Decode(cursor.bytes, old(cursor.position), segment).Ok?
    ensures r.Ok? ==> r.value == Decode(cursor.bytes, old(cursor.position), segment).value.header
    ensures r.Ok? ==> cursor.position == Decode(cursor.bytes, old(cursor.position), segment).value.end
    ensures r.Err? ==> r.error == Decode(cursor.bytes, old(cursor.position), segment).error
  {
    ghost var bs := cursor.bytes;
    var h := ReadFixedHeader(cursor);
    if h.Err? {
      return Err(h.error);
    }
    var mach64, n := h.value.mach64, h.value.numLoadCommands;
    ghost var start := WalkState(0, [], cursor.position);
    var entryPoint := 0;
    var sections: seq<S> := [];
    var i := 0;
    while i < n
      invariant 0 <= i <= n
      invariant cursor.Valid()
      invariant Commands(bs, mach64, segment, start, i) == Ok(WalkState(entryPoint, sections, cursor.position))
    {
      CommandsStep(bs, mach64, segment, start, i);
      var c := ReadCommand(cursor, mach64, segment, entryPoint, sections);
      if c.Err? {
        CommandsErrorSticks(bs, mach64, segment, start, i + 1, n);
        return Err(c.error);
      }
      entryPoint, sections := c.value.entryPoint, c.value.sections;
      i := i + 1;
    }
    r := Ok(MachHeader(mach64, entryPoint, sections));
  }

  // ---------------------------------------------------------------------------------------
  // Properties

  /** One more load command extends a walk that got this far by that command. */
  lemma CommandsStep<S>(bs: seq<byte>, mach64: bool, segment: SegmentReader<S>, start: WalkState<S>, i: nat)
    requires 0 <= start.pos <= |bs|
    requires Commands(bs, mach64, segment, start, i).Ok?
    ensures Commands(bs, mach64, segment, start, i + 1) == Command(bs, mach64, segment, Commands(bs, mach64, segment, start, i).value)
  {
  }

  /** A failed load command ends the walk: every longer walk fails with the same error. */
  lemma {:induction false} CommandsErrorSticks<S>(bs: seq<byte>, mach64: bool, segment: SegmentReader<S>, start: WalkState<S>, i: nat, j: nat)
    requires 0 <= start.pos <= |bs|
    requires i <= j
    requires Commands(bs, mach64, segment, start, i).Err?
    ensures Commands(bs, mach64, segment, start, j) == Commands(bs, mach64, segment, start, i)
    decreases j
  {
    if i < j {
      CommandsErrorSticks(bs, mach64, segment, start, i, j - 1);
    }
  }

  /** A walk that gets through j commands got through every shorter prefix of them, and the
      sections it collected then are a prefix of those it collects by the end. */
  lemma {:induction false} CommandsSectionsGrow<S>(bs: seq<byte>, mach64: bool, segment: SegmentReader<S>, start: WalkState<S>, i: nat, j: nat)
    requires 0 <= start.pos <= |bs|
    requires i <= j
    requires Commands(bs, mach64, segment, start, j).Ok?
    ensures Commands(bs, mach64, segment, start, i).Ok?
    ensures Commands(bs, mach64, segment, start, i).value.sections <= Commands(bs, mach64, segment, start, j).value.sections
    decreases j
  {
    if i < j {
      CommandsSectionsGrow(bs, mach64, segment, start, i, j - 1);
    }
  }

  /** The k-th load command of the walk is an LC_MAIN command. */
  ghost predicate MainAt<S>(bs: seq<byte>, mach64: bool, segment: SegmentReader<S>, start: WalkState<S>, k: nat)
    requires 0 <= start.pos <= |bs|
  {
    var st := Commands(bs, mach64, segment, start, k);
    st.Ok? && st.value.pos + 4 <= |bs| && U32At(bs, st.value.pos) == LC_MAIN
  }

  /** Without an LC_MAIN command among the first n, the entry point is still the initial one. */
  lemma {:induction false} EntryPointNeedsMain<S>(bs: seq<byte>, mach64: bool, segment: SegmentReader<S>, start: WalkState<S>, n: nat)
    requires 0 <= start.pos <= |bs|
    requires Commands(bs, mach64, segment, start, n).Ok?
    requires forall k :: 0 <= k < n ==> !MainAt(bs, mach64, segment, start, k)
    ensures Commands(bs, mach64, segment, start, n).value.entryPoint == start.entryPoint
    decreases n
  {
    if n > 0 {
      CommandsSectionsGrow(bs, mach64, segment, start, n - 1, n);
      assert !MainAt(bs, mach64, segment, start, n - 1);
      EntryPointNeedsMain(bs, mach64, segment, start, n - 1);
    }
  }

  /** A decoded header without an LC_MAIN command has entry point 0. */
  lemma DecodedEntryPointNeedsMain<S>(bs: seq<byte>, p: int, segment: SegmentReader<S>)
    requires 0 <= p <= |bs|
    requires Decode(bs, p, segment).Ok?
    requires forall k :: 0 <= k < ParseFixed(bs, p).value.numLoadCommands ==>
      !MainAt(bs, ParseFixed(bs, p).value.mach64, segment, WalkState(0, [], ParseFixed(bs, p).value.commandsStart), k)
    ensures Decode(bs, p, segment).value.header.entryPoint == 0
  {
    var h := ParseFixed(bs, p).value;
    EntryPointNeedsMain(bs, h.mach64, segment, WalkState(0, [], h.commandsStart), h.numLoadCommands);
  }

  /** An unknown load command is skipped by its size, counted from the command's first byte,
      as long as the result lies within the bytes and within the 32-bit position range. */
  lemma SkipBySize<S>(bs: seq<byte>, mach64: bool, segment: SegmentReader<S>, st: WalkState<S>)
    requires 0 <= st.pos && st.pos + 8 <= |bs|
    requires U32At(bs, st.pos) !in {LC_SEGMENT, LC_SEGMENT_64, LC_MAIN}
    requires st.pos + U32At(bs, st.pos + 4) < 0x8000_0000
    ensures st.pos + U32At(bs, st.pos + 4) <= |bs| ==>
      Command(bs, mach64, segment, st) == Ok(WalkState(st.entryPoint, st.sections, st.pos + U32At(bs, st.pos + 4)))
    ensures st.pos + U32At(bs, st.pos + 4) > |bs| ==>
      Command(bs, mach64, segment, st) == Err(Cursor(BadPosition(st.pos + U32At(bs, st.pos + 4))))
  {
    ToInt32Keeps(st.pos + U32At(bs, st.pos + 4));
  }

  /** An unknown load command whose size is 0 leaves the walk where it was, so the next
      iteration reads the same command again. */
  lemma ZeroSizeRereads<S>(bs: seq<byte>, mach64: bool, segment: SegmentReader<S>, st: WalkState<S>)
    requires 0 <= st.pos && st.pos + 8 <= |bs| && st.pos < 0x8000_0000
    requires U32At(bs, st.pos) !in {LC_SEGMENT, LC_SEGMENT_64, LC_MAIN}
    requires U32At(bs, st.pos + 4) == 0
    ensures Command(bs, mach64, segment, st) == Ok(st)
  {
    SkipBySize(bs, mach64, segment, st);
  }

  /** A 32-bit word written out byte by byte, least significant first. */
  lemma U32AtDigits(bs: seq<byte>, p: int)
    requires 0 <= p && p + 4 <= |bs|
    ensures U32At(bs, p) == bs[p] as int + 256 * (bs[p + 1] as int) + 0x1_0000 * (bs[p + 2] as int) + 0x100_0000 * (bs[p + 3] as int)
    ensures bs[p + 3] < 128 ==> S32At(bs, p) == U32At(bs, p)
  {
    var s := bs[p..p + 4];
    assert s[1..] == bs[p + 1..p + 4] && s[1..][1..] == bs[p + 2..p + 4];
    assert s[1..][1..][1..] == [bs[p + 3]];
    assert UnsignedLE([bs[p + 3]]) == bs[p + 3] by {
      assert [bs[p + 3]][1..] == [];
    }
    assert UnsignedLE(s[1..][1..]) == bs[p + 2] as int + 256 * (bs[p + 3] as int);
    assert UnsignedLE(s[1..]) == bs[p + 1] as int + 256 * UnsignedLE(s[1..][1..]);
  }

  /** A 32-bit header for x86 with no load commands. */
  const EmptyHeader32Bytes: seq<byte> :=
    [0xCE, 0xFA, 0xED, 0xFE, 7, 0, 0, 0, 3, 0, 0, 0, 2, 0, 0, 0, 0, 0, 0, 0, 0, 0, 0, 0, 0, 0, 0, 0]

  /** A 32-bit header for x86 whose one load command is LC_MAIN with entry offset 0x1000. */
  const MainHeader32Bytes: seq<byte> :=
    [0xCE, 0xFA, 0xED, 0xFE, 7, 0, 0, 0, 3, 0, 0, 0, 2, 0, 0, 0, 1, 0, 0, 0, 16, 0, 0, 0, 0, 0, 0, 0,
     0x28, 0, 0, 0x80, 16, 0, 0, 0, 0x00, 0x10, 0, 0, 0, 0, 0, 0]

  /** With no load commands the header ends after its 28 fixed bytes and has entry point 0. */
  lemma EmptyHeader32<S>(segment: SegmentReader<S>)
    ensures Decode(EmptyHeader32Bytes, 0, segment) == Ok(Decoded(MachHeader(false, 0, []), 28))
  {
    var bs := EmptyHeader32Bytes;
    U32AtDigits(bs, 0);
    U32AtDigits(bs, 4);
    U32AtDigits(bs, 16);
    assert ParseFixed(bs, 0) == Ok(FixedHeader(false, 0, 28));
  }

  /** The fixed header of MainHeader32Bytes announces one load command. */
  lemma MainHeader32Fixed()
    ensures ParseFixed(MainHeader32Bytes, 0) == Ok(FixedHeader(false, 1, 28))
  {
    U32AtDigits(MainHeader32Bytes, 0);
    U32AtDigits(MainHeader32Bytes, 4);
    U32AtDigits(MainHeader32Bytes, 16);
  }

  /** The LC_MAIN command of a 32-bit image reads its entry offset as an unsigned 32-bit word
      and spans 16 bytes. */
  lemma MainHeader32Command<S>(segment: SegmentReader<S>)
    ensures Command(MainHeader32Bytes, false, segment, WalkState(0, [], 28)) == Ok(WalkState(0x1000, [], 44))
  {
    U32AtDigits(MainHeader32Bytes, 28);
    U32AtDigits(MainHeader32Bytes, 36);
  }

  /** The whole header: the entry point comes from the LC_MAIN command. */
  lemma MainCommandHeader32<S>(segment: SegmentReader<S>)
    ensures Decode(MainHeader32Bytes, 0, segment) == Ok(Decoded(MachHeader(false, 0x1000, []), 44))
  {
    MainHeader32Fixed();
    MainHeader32Command(segment);
    var start: WalkState<S> := WalkState(0, [], 28);
    assert Commands(MainHeader32Bytes, false, segment, start, 1) == Command(MainHeader32Bytes, false, segment, start);
  }
}
