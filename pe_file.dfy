/** Address translation of a PE image (Microsoft PE/COFF specification, section 4, the section
    table). An image is described by its section table, its image base, its entry-point RVA and
    whether it is PE32+; the header parsing that produces these is not part of this model.
    A relative virtual address (RVA) is an offset from the image base; a section maps its
    rawSize bytes at file position filePosition to the RVAs from virtualAddress on. */
module PEFile {
  import opened Outcomes
  import opened X86Types
  import X86Context

  datatype PESection = PESection(virtualAddress: int, rawSize: int, filePosition: int)

  datatype PEImage = PEImage(sections: seq<PESection>, imageBase: int, entryPointRVA: int, isPE64: bool)

  /** An address that no section maps (the source throws an IllegalArgumentException). */
  datatype AddressError = InvalidRva(rva: int) | InvalidOffset(offset: int)

  predicate InRvaRange(s: PESection, rva: int)
  {
    s.virtualAddress <= rva < s.virtualAddress + s.rawSize
  }

  predicate InFileRange(s: PESection, offset: int)
  {
    s.filePosition <= offset < s.filePosition + s.rawSize
  }

  /** The file offset of an RVA, through the first section in table order whose RVA range holds
      it. It fails exactly when no section holds the RVA. */
  function RvaToFile(ss: seq<PESection>, rva: int): (r: Result<int, AddressError>)
    ensures r.Err? <==> forall i :: 0 <= i < |ss| ==> !InRvaRange(ss[i], rva)
    ensures r.Err? ==> r.error == InvalidRva(rva)
    decreases |ss|
  {
    if ss == [] then Err(InvalidRva(rva))
    else if InRvaRange(ss[0], rva) then Ok(rva - ss[0].virtualAddress + ss[0].filePosition)
    else RvaToFile(ss[1..], rva)
  }

  /** The RVA of a file offset, through the first section in table order whose file range holds
      it. It fails exactly when no section holds the offset. */
  function FileToRva(ss: seq<PESection>, offset: int): (r: Result<int, AddressError>)
    ensures r.Err? <==> forall i :: 0 <= i < |ss| ==> !InFileRange(ss[i], offset)
    ensures r.Err? ==> r.error == InvalidOffset(offset)
    decreases |ss|
  {
    if ss == [] then Err(InvalidOffset(offset))
    else if InFileRange(ss[0], offset) then Ok(offset - ss[0].filePosition + ss[0].virtualAddress)
    else FileToRva(ss[1..], offset)
  }

  /** The memory address of an RVA, which lies the image base above it. */
  function RvaToMemory(img: PEImage, rva: int): (mem: int)
    ensures mem - img.imageBase == rva
  {
    rva + img.imageBase
  }

  /** The RVA of a memory address: the one whose memory address it is. */
  function MemoryToRva(img: PEImage, mem: int): (rva: int)
    ensures RvaToMemory(img, rva) == mem
  {
    mem - img.imageBase
  }

  /** The memory address of a file offset, through its RVA. */
  function FileToMemory(img: PEImage, offset: int): (r: Result<int, AddressError>)
    ensures r.Err? <==> forall i :: 0 <= i < |img.sections| ==> !InFileRange(img.sections[i], offset)
    ensures r.Err? ==> r.error == InvalidOffset(offset)
    ensures r.Ok? ==> FileToRva(img.sections, offset) == Ok(MemoryToRva(img, r.value))
  {
    var rva :- FileToRva(img.sections, offset);
    Ok(RvaToMemory(img, rva))
  }

  /** The file offset of a memory address, through its RVA. */
  function MemoryToFile(img: PEImage, mem: int): (r: Result<int, AddressError>)
    ensures r.Err? <==> forall i :: 0 <= i < |img.sections| ==> !InRvaRange(img.sections[i], mem - img.imageBase)
    ensures r.Err? ==> r.error == InvalidRva(mem - img.imageBase)
    ensures r.Ok? ==> RvaToFile(img.sections, MemoryToRva(img, mem)) == r
  {
    RvaToFile(img.sections, MemoryToRva(img, mem))
  }

  /** The image-level conversions delegate to the section-based ones: a memory address has a
      file offset exactly when a section's RVA range holds its RVA. */
  function ToFileAddress(img: PEImage, mem: int): (r: Result<int, AddressError>)
    ensures r.Ok? <==> exists i :: 0 <= i < |img.sections| && InRvaRange(img.sections[i], mem - img.imageBase)
    ensures r.Err? ==> r.error == InvalidRva(mem - img.imageBase)
    ensures r.Ok? ==> r == RvaToFile(img.sections, mem - img.imageBase)
  {
    MemoryToFile(img, mem)
  }

  /** A file offset has a memory address exactly when a section's file range holds it. */
  function ToMemAddress(img: PEImage, offset: int): (r: Result<int, AddressError>)
    ensures r.Ok? <==> exists i :: 0 <= i < |img.sections| && InFileRange(img.sections[i], offset)
    ensures r.Err? ==> r.error == InvalidOffset(offset)
    ensures r.Ok? ==> r.value - img.imageBase == FileToRva(img.sections, offset).value
  {
    FileToMemory(img, offset)
  }

  /** The memory address of the entry point. */
  function CodeEntryPointMem(img: PEImage): (mem: int)
    ensures MemoryToRva(img, mem) == img.entryPointRVA
  {
    RvaToMemory(img, img.entryPointRVA)
  }

  /** A decoding context for the image: 64-bit code for PE32+, 32-bit protected-mode code
      otherwise, for any processor model. */
  method CreateContext(img: PEImage) returns (ctx: X86Context.X86Context)
    ensures fresh(ctx)
    ensures ctx.model == ANY
    ensures ctx.execMode == if img.isPE64 then LONG else PROTECTED
    ensures ctx.prefix == EmptyPrefix && ctx.instructionPointer == 0
  {
    if img.isPE64 {
      ctx := new X86Context.X86Context(ANY, LONG);
    } else {
      ctx := new X86Context.X86Context(ANY, PROTECTED);
    }
  }

  // ---------------------------------------------------------------------------------------
  // Properties

  /** Adding and subtracting the image base undo each other. */
  lemma MemoryRvaInverse(img: PEImage, rva: int, mem: int)
    ensures MemoryToRva(img, RvaToMemory(img, rva)) == rva
    ensures RvaToMemory(img, MemoryToRva(img, mem)) == mem
  {
  }

  /** The first section holding the RVA decides the result, whatever later sections hold. */
  lemma {:induction false} RvaToFileFirstMatch(ss: seq<PESection>, rva: int, i: nat)
    requires i < |ss| && InRvaRange(ss[i], rva)
    requires forall j :: 0 <= j < i ==> !InRvaRange(ss[j], rva)
    ensures RvaToFile(ss, rva) == Ok(rva - ss[i].virtualAddress + ss[i].filePosition)
    ensures InFileRange(ss[i], RvaToFile(ss, rva).value)
  {
    if i > 0 {
      RvaToFileFirstMatch(ss[1..], rva, i - 1);
    }
  }

  /** The first section holding the offset decides the result. */
  lemma {:induction false} FileToRvaFirstMatch(ss: seq<PESection>, offset: int, i: nat)
    requires i < |ss| && InFileRange(ss[i], offset)
    requires forall j :: 0 <= j < i ==> !InFileRange(ss[j], offset)
    ensures FileToRva(ss, offset) == Ok(offset - ss[i].filePosition + ss[i].virtualAddress)
    ensures InRvaRange(ss[i], FileToRva(ss, offset).value)
  {
    if i > 0 {
      FileToRvaFirstMatch(ss[1..], offset, i - 1);
    }
  }

  /** A successful RVA lookup names a section that holds the RVA and maps it into its file range. */
  lemma {:induction false} RvaToFileHit(ss: seq<PESection>, rva: int) returns (i: nat)
    requires RvaToFile(ss, rva).Ok?
    ensures i < |ss| && InRvaRange(ss[i], rva)
    ensures RvaToFile(ss, rva).value == rva - ss[i].virtualAddress + ss[i].filePosition
    ensures InFileRange(ss[i], RvaToFile(ss, rva).value)
    decreases |ss|
  {
    if InRvaRange(ss[0], rva) {
      i := 0;
    } else {
      var k := RvaToFileHit(ss[1..], rva);
      i := k + 1;
    }
  }

  /** A successful offset lookup names a section that holds the offset and maps it into its RVA range. */
  lemma {:induction false} FileToRvaHit(ss: seq<PESection>, offset: int) returns (i: nat)
    requires FileToRva(ss, offset).Ok?
    ensures i < |ss| && InFileRange(ss[i], offset)
    ensures FileToRva(ss, offset).value == offset - ss[i].filePosition + ss[i].virtualAddress
    ensures InRvaRange(ss[i], FileToRva(ss, offset).value)
    decreases |ss|
  {
    if InFileRange(ss[0], offset) {
      i := 0;
    } else {
      var k := FileToRvaHit(ss[1..], offset);
      i := k + 1;
    }
  }

  /** No file offset lies in the file ranges of two different sections. */
  ghost predicate FileRangesDisjoint(ss: seq<PESection>)
  {
    forall i, j, offset :: 0 <= i < |ss| && 0 <= j < |ss| && i != j && InFileRange(ss[i], offset) ==>
      !InFileRange(ss[j], offset)
  }

  /** No RVA lies in the RVA ranges of two different sections. */
  ghost predicate RvaRangesDisjoint(ss: seq<PESection>)
  {
    forall i, j, rva :: 0 <= i < |ss| && 0 <= j < |ss| && i != j && InRvaRange(ss[i], rva) ==>
      !InRvaRange(ss[j], rva)
  }

  /** With disjoint file ranges, translating an RVA to a file offset and back gives the RVA. */
  lemma {:induction false} RvaFileRoundTrip(ss: seq<PESection>, rva: int)
    requires FileRangesDisjoint(ss)
    requires RvaToFile(ss, rva).Ok?
    ensures FileToRva(ss, RvaToFile(ss, rva).value) == Ok(rva)
  {
    var i := RvaToFileHit(ss, rva);
    var offset := RvaToFile(ss, rva).value;
    FileToRvaFirstMatch(ss, offset, i);
  }

  /** With disjoint RVA ranges, translating a file offset to an RVA and back gives the offset. */
  lemma {:induction false} FileRvaRoundTrip(ss: seq<PESection>, offset: int)
    requires RvaRangesDisjoint(ss)
    requires FileToRva(ss, offset).Ok?
    ensures RvaToFile(ss, FileToRva(ss, offset).value) == Ok(offset)
  {
    var i := FileToRvaHit(ss, offset);
    var rva := FileToRva(ss, offset).value;
    RvaToFileFirstMatch(ss, rva, i);
  }

  /** The image-level round trip: a memory address that has a file offset comes back from it. */
  lemma MemoryFileRoundTrip(img: PEImage, mem: int)
    requires FileRangesDisjoint(img.sections)
    requires ToFileAddress(img, mem).Ok?
    ensures ToMemAddress(img, ToFileAddress(img, mem).value) == Ok(mem)
  {
    RvaFileRoundTrip(img.sections, MemoryToRva(img, mem));
  }

  /** Without disjoint file ranges the round trip can miss, because the earlier section wins:
      RVA 0x1100 lies in the second section and maps to file offset 0x400, which also lies in the
      first section's file range and so maps back to 0x2000. */
  lemma OverlapBreaksRoundTrip()
    ensures var ss := [PESection(0x2000, 0x100, 0x400), PESection(0x1000, 0x1000, 0x300)];
            RvaToFile(ss, 0x1100) == Ok(0x400) && FileToRva(ss, 0x400) == Ok(0x2000)
  {
  }
}
