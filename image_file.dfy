/** The format-independent part of an executable image: finding the section that holds a memory
    address, and positioning the image's byte cursor at the file offset of a memory address.
    The format-specific address translation (for PE images, `PEFile.ToFileAddress`) is a
    parameter here. */
module ImageFile {
  import opened Outcomes
  import opened ByteSequences

  /** A section as the image reports it: the memory addresses from startAddress up to, but not
      including, endAddress. */
  datatype Section = Section(startAddress: int, endAddress: int)

  predicate Holds(sec: Section, memAddress: int)
  {
    sec.startAddress <= memAddress < sec.endAddress
  }

  /** The first section in the image's order that holds the address; None when none does. */
  function SectionForMemAddress(sections: seq<Section>, memAddress: int): (r: Option<Section>)
    ensures r.None? <==> forall i :: 0 <= i < |sections| ==> !Holds(sections[i], memAddress)
    ensures r.Some? ==> r.value in sections && Holds(r.value, memAddress)
    decreases |sections|
  {
    if sections == [] then None
    else if Holds(sections[0], memAddress) then Some(sections[0])
    else SectionForMemAddress(sections[1..], memAddress)
  }

  /** An address is valid exactly when some section holds it. */
  function IsValidAddress(sections: seq<Section>, memAddress: int): (b: bool)
    ensures b <==> exists i :: 0 <= i < |sections| && Holds(sections[i], memAddress)
  {
    SectionForMemAddress(sections, memAddress) != None
  }

  /** Why the cursor could not be positioned: the address has no file offset, or the offset is
      outside the file. */
  datatype AccessError<E> = Untranslatable(cause: E) | Unreachable(cursorError: CursorError)

  /** Positions the image's cursor at the file offset of a memory address and hands back that
      same cursor (not a copy). The offset goes through the cursor's 32-bit `Seek`. */
  method GetByteSequence<E>(image: ByteSequence, toFileAddress: int -> Result<int, E>, memAddress: int)
    returns (r: Result<ByteSequence, AccessError<E>>)
    requires image.Valid()
    modifies image`position
    ensures image.Valid()
    ensures r.Ok? <==> toFileAddress(memAddress).Ok? && 0 <= ToInt32(toFileAddress(memAddress).value) <= |image.bytes|
    ensures r.Ok? ==> r.value == image && image.position == ToInt32(toFileAddress(memAddress).value)
    ensures toFileAddress(memAddress).Err? ==> r == Err(Untranslatable(toFileAddress(memAddress).error))
    ensures r.Err? ==> image.position == old(image.position)
  {
    var offset := toFileAddress(memAddress);
    if offset.Err? {
      return Err(Untranslatable(offset.error));
    }
    var moved := image.Seek(offset.value);
    if moved.Err? {
      return Err(Unreachable(moved.error));
    }
    r := Ok(image);
  }

  // ---------------------------------------------------------------------------------------
  // Properties

  /** The first section holding the address is the one found, whatever later sections hold. */
  lemma {:induction false} FirstHoldingSection(sections: seq<Section>, memAddress: int, i: nat)
    requires i < |sections| && Holds(sections[i], memAddress)
    requires forall j :: 0 <= j < i ==> !Holds(sections[j], memAddress)
    ensures SectionForMemAddress(sections, memAddress) == Some(sections[i])
  {
    if i > 0 {
      FirstHoldingSection(sections[1..], memAddress, i - 1);
    }
  }

  /** A section's start address is inclusive and its end exclusive: both ends of a non-empty
      section are valid in any table that lists it, and in a table of that section alone the
      addresses just outside it are not. */
  lemma SectionBounds(sections: seq<Section>, i: nat)
    requires i < |sections| && sections[i].startAddress < sections[i].endAddress
    ensures IsValidAddress(sections, sections[i].startAddress)
    ensures IsValidAddress(sections, sections[i].endAddress - 1)
    ensures |sections| == 1 ==> !IsValidAddress(sections, sections[i].endAddress)
    ensures |sections| == 1 ==> !IsValidAddress(sections, sections[i].startAddress - 1)
  {
    assert Holds(sections[i], sections[i].startAddress);
    assert Holds(sections[i], sections[i].endAddress - 1);
  }

  /** Adding sections after the existing ones never changes the answer for an address that was
      already valid, and only adds new valid addresses. */
  lemma {:induction false} AppendKeepsLookup(sections: seq<Section>, more: seq<Section>, memAddress: int)
    ensures IsValidAddress(sections, memAddress) ==>
      SectionForMemAddress(sections + more, memAddress) == SectionForMemAddress(sections, memAddress)
    ensures !IsValidAddress(sections, memAddress) ==>
      SectionForMemAddress(sections + more, memAddress) == SectionForMemAddress(more, memAddress)
    decreases |sections|
  {
    if sections != [] {
      assert (sections + more)[1..] == sections[1..] + more;
      AppendKeepsLookup(sections[1..], more, memAddress);
    } else {
      assert sections + more == more;
    }
  }
}
