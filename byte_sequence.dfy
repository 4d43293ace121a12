/** A read cursor over an image's bytes: an immutable byte sequence and a position that every read
    advances. Multi-byte values are little-endian and signed reads are two's complement. Running
    past the end of the bytes, or moving the position outside them, is an error (the underlying
    buffer throws). */
module ByteSequences {
  import opened Outcomes

  type byte = x: int | 0 <= x < 256

  datatype CursorError =
    | Underflow                 // fewer bytes remain than the read needs
    | BadPosition(target: int)  // a new position outside 0..length

  /** 256 to the power n: one more than the largest unsigned n-byte value. */
  function Pow256(n: nat): (r: nat)
    ensures r >= 1
  {
    if n == 0 then 1 else 256 * Pow256(n - 1)
  }

  /** The unsigned little-endian value of a byte string: the first byte is the least significant. */
  function UnsignedLE(s: seq<byte>): nat
  {
    if s == [] then 0 else s[0] + 256 * UnsignedLE(s[1..])
  }

  /** The two's-complement value of a byte string: its unsigned value, less 256^n when the top
      bit of the last byte is set. */
  function SignedLE(s: seq<byte>): int
  {
    if s != [] && s[|s| - 1] >= 128 then UnsignedLE(s) - Pow256(|s|) else UnsignedLE(s)
  }

  /** The Java narrowing cast of an integer to a 32-bit `int`: keeps the low 32 bits, read as
      two's complement. */
  function ToInt32(x: int): (r: int)
    ensures -0x8000_0000 <= r < 0x8000_0000
    ensures (r - x) % 0x1_0000_0000 == 0
  {
    (x + 0x8000_0000) % 0x1_0000_0000 - 0x8000_0000
  }

  /** The character a Java `(char)` cast makes of a signed byte: 0..127 stay, and a negative
      byte b is sign-extended to the 16-bit unit 0x10000 + b, which for the unsigned byte value
      v >= 128 is 0xFF00 + v. */
  function CharOf(b: byte): (c: char)
    ensures c as int == SignedLE([b]) % 0x1_0000
  {
    assert UnsignedLE([b]) == b by {
      assert [b][1..] == [];
    }
    assert Pow256(1) == 256;
    if b < 128 then b as char else (0xFF00 + b) as char
  }

  /** Every byte as a character, in order. */
  function Chars(s: seq<byte>): (r: string)
    ensures |r| == |s|
    ensures forall i :: 0 <= i < |s| ==> r[i] == CharOf(s[i])
  {
    if s == [] then [] else [CharOf(s[0])] + Chars(s[1..])
  }

  /** The non-zero bytes as characters, in order; the zero bytes are dropped. */
  function NonZeroChars(s: seq<byte>): string
  {
    if s == [] then []
    else if s[0] == 0 then NonZeroChars(s[1..])
    else [CharOf(s[0])] + NonZeroChars(s[1..])
  }

  /** The value of n bytes fits in n bytes. */
  lemma {:induction false} UnsignedLEBound(s: seq<byte>)
    ensures UnsignedLE(s) < Pow256(|s|)
  {
    if s != [] {
      UnsignedLEBound(s[1..]);
    }
  }

  /** Appending a byte adds it as the new most significant digit. */
  lemma {:induction false} UnsignedLEAppend(s: seq<byte>, b: byte)
    ensures UnsignedLE(s + [b]) == UnsignedLE(s) + b * Pow256(|s|)
  {
    if s == [] {
      assert [b][1..] == [];
    } else {
      assert (s + [b])[1..] == s[1..] + [b];
      UnsignedLEAppend(s[1..], b);
    }
  }

  /** The top bit of the last byte decides whether the unsigned value reaches half the range. */
  lemma TopBitIsHalfRange(s: seq<byte>)
    requires s != []
    ensures s[|s| - 1] >= 128 <==> UnsignedLE(s) >= Pow256(|s|) / 2
  {
    var init, last := s[..|s| - 1], s[|s| - 1];
    assert s == init + [last];
    UnsignedLEAppend(init, last);
    UnsignedLEBound(init);
    var p := Pow256(|init|);
    assert Pow256(|s|) == 256 * p;
    TopDigit(UnsignedLE(init), last, p);
  }

  /** A number a + d * p with a < p reaches 128 * p exactly when its top digit d does reach 128. */
  lemma TopDigit(a: int, d: int, p: int)
    requires 0 <= a < p && 0 <= d < 256
    ensures d >= 128 <==> a + d * p >= 128 * p
  {
    if d >= 128 {
      var e := d - 128;
      assert d * p == 128 * p + e * p;
      MulNonNegative(e, p);
    } else {
      var e := 127 - d;
      assert 128 * p == d * p + p + e * p;
      MulNonNegative(e, p);
    }
  }

  lemma MulNonNegative(x: int, y: int)
    requires x >= 0 && y >= 0
    ensures x * y >= 0
  {
  }


  /** Euclidean remainder of a value in range, and of the same value less the modulus. */
  lemma ModOfShifted(x: int, n: int)
    requires 0 <= x < n
    ensures x % n == x
    ensures (x - n) % n == x
  {
    var q, r := (x - n) / n, (x - n) % n;
    assert x - n == n * q + r && 0 <= r < n;
    if q >= 0 || q <= -2 {
      assert false;
    }
    var q2, r2 := x / n, x % n;
    assert x == n * q2 + r2 && 0 <= r2 < n;
    if q2 >= 1 || q2 <= -1 {
      assert false;
    }
  }

  /** The signed value lies in the n-byte two's-complement range, and it agrees with the unsigned
      value modulo 256^n: masking a signed read gives the unsigned read of the same bytes. */
  lemma SignedLERange(s: seq<byte>)
    requires s != []
    ensures -(Pow256(|s|) / 2) <= SignedLE(s) < Pow256(|s|) / 2
    ensures SignedLE(s) % Pow256(|s|) == UnsignedLE(s)
  {
    TopBitIsHalfRange(s);
    UnsignedLEBound(s);
    assert Pow256(|s|) == 256 * Pow256(|s| - 1);
    ModOfShifted(UnsignedLE(s), Pow256(|s|));
  }

  /** The 32-bit narrowing keeps every value that already fits in an `int`. */
  lemma ToInt32Keeps(x: int)
    requires -0x8000_0000 <= x < 0x8000_0000
    ensures ToInt32(x) == x
  {
    ModOfShifted(x + 0x8000_0000, 0x1_0000_0000);
  }

  /** Offsets from 2^31 up to 2^32 narrow to negative positions, so a seek there fails. */
  lemma ToInt32WrapsHighOffsets(x: int)
    requires 0x8000_0000 <= x < 0x1_0000_0000
    ensures ToInt32(x) == x - 0x1_0000_0000 < 0
  {
    ModOfShifted(x - 0x8000_0000, 0x1_0000_0000);
    assert x + 0x8000_0000 == (x - 0x8000_0000) + 0x1_0000_0000;
  }

  /** Dropping zero bytes never lengthens the string, and drops nothing else. */
  lemma {:induction false} NonZeroCharsLength(s: seq<byte>)
    ensures |NonZeroChars(s)| <= |s|
    ensures (forall i :: 0 <= i < |s| ==> s[i] != 0) ==> NonZeroChars(s) == Chars(s)
  {
    if s != [] {
      NonZeroCharsLength(s[1..]);
    }
  }

  /** A bounded read that extends by one byte. */
  lemma {:induction false} NonZeroCharsAppend(s: seq<byte>, b: byte)
    ensures NonZeroChars(s + [b]) == NonZeroChars(s) + (if b == 0 then [] else [CharOf(b)])
  {
    if s == [] {
      assert [b][1..] == [];
    } else {
      assert (s + [b])[1..] == s[1..] + [b];
      NonZeroCharsAppend(s[1..], b);
    }
  }

  class ByteSequence {
    const bytes: seq<byte>
    var position: int

    ghost predicate Valid()
      reads this
    {
      0 <= position <= |bytes|
    }

    /** A cursor at position 0 over a copy of the given bytes. */
    constructor FromBytes(bs: seq<byte>)
      ensures Valid()
      ensures bytes == bs && position == 0
    {
      bytes := bs;
      position := 0;
    }

    /** Moves to an absolute position; the offset is first narrowed to a 32-bit int. */
    method Seek(offset: int) returns (r: Result<(), CursorError>)
      requires Valid()
      modifies this`position
      ensures Valid()
      ensures r.Ok? <==> 0 <= ToInt32(offset) <= |bytes|
      ensures r.Ok? ==> position == ToInt32(offset)
      ensures r.Err? ==> r.error == BadPosition(ToInt32(offset)) && position == old(position)
    {
      r := SetPosition(ToInt32(offset));
    }

    /** Moves by a relative amount; the new position is narrowed to a 32-bit int. */
    method Skip(amount: int) returns (r: Result<(), CursorError>)
      requires Valid()
      modifies this`position
      ensures Valid()
      ensures r.Ok? <==> 0 <= ToInt32(old(position) + amount) <= |bytes|
      ensures r.Ok? ==> position == ToInt32(old(position) + amount)
      ensures r.Err? ==> r.error == BadPosition(ToInt32(old(position) + amount)) && position == old(position)
    {
      r := SetPosition(ToInt32(position + amount));
    }

    method SetPosition(p: int) returns (r: Result<(), CursorError>)
      requires Valid()
      modifies this`position
      ensures Valid()
      ensures r.Ok? <==> 0 <= p <= |bytes|
      ensures r.Ok? ==> position == p
      ensures r.Err? ==> r.error == BadPosition(p) && position == old(position)
    {
      if p < 0 || p > |bytes| {
        return Err(BadPosition(p));
      }
      position := p;
      r := Ok(());
    }

    method GetPosition() returns (p: int)
      ensures p == position
    {
      p := position;
    }

    /** Reads n bytes as one two's-complement value and advances past them; when fewer than n
        bytes remain, fails and stays put. */
    method GetSigned(n: nat) returns (r: Result<int, CursorError>)
      requires Valid() && n > 0
      modifies this`position
      ensures Valid()
      ensures r.Ok? <==> old(position) + n <= |bytes|
      ensures r.Ok? ==> r.value == SignedLE(bytes[old(position)..old(position) + n])
      ensures r.Ok? ==> position == old(position) + n
      ensures r.Err? ==> r.error == Underflow && position == old(position)
    {
      if |bytes| - position < n {
        return Err(Underflow);
      }
      r := Ok(SignedLE(bytes[position..position + n]));
      position := position + n;
    }

    /** Reads n bytes as a signed value and masks it to n bytes, giving the unsigned value. */
    method GetUnsigned(n: nat) returns (r: Result<int, CursorError>)
      requires Valid() && n > 0
      modifies this`position
      ensures Valid()
      ensures r.Ok? <==> old(position) + n <= |bytes|
      ensures r.Ok? ==> r.value == UnsignedLE(bytes[old(position)..old(position) + n])
      ensures r.Ok? ==> 0 <= r.value < Pow256(n)
      ensures r.Ok? ==> position == old(position) + n
      ensures r.Err? ==> r.error == Underflow && position == old(position)
    {
      var v :- GetSigned(n);
      SignedLERange(bytes[old(position)..old(position) + n]);
      UnsignedLEBound(bytes[old(position)..old(position) + n]);
      r := Ok(v % Pow256(n));
    }

    method ReadUByte() returns (r: Result<int, CursorError>)
      requires Valid()
      modifies this`position
      ensures Valid()
      ensures r.Ok? <==> old(position) < |bytes|
      ensures r.Ok? ==> r.value == bytes[old(position)] && position == old(position) + 1
      ensures r.Err? ==> position == old(position)
    {
      r := GetUnsigned(1);
      if r.Ok? {
        assert bytes[old(position)..old(position) + 1] == [bytes[old(position)]];
      }
    }

    method ReadSByte() returns (r: Result<int, CursorError>)
      requires Valid()
      modifies this`position
      ensures Valid()
      ensures r.Ok? <==> old(position) < |bytes|
      ensures r.Ok? ==> -128 <= r.value < 128 && r.value % 256 == bytes[old(position)]
      ensures r.Ok? ==> position == old(position) + 1
      ensures r.Err? ==> position == old(position)
    {
      r := GetSigned(1);
      if r.Ok? {
        ghost var s := bytes[old(position)..old(position) + 1];
        assert s == [bytes[old(position)]];
        SignedLERange(s);
      }
    }

    method ReadUWord() returns (r: Result<int, CursorError>)
      requires Valid()
      modifies this`position
      ensures Valid()
      ensures r.Ok? <==> old(position) + 2 <= |bytes|
      ensures r.Ok? ==> r.value == UnsignedLE(bytes[old(position)..old(position) + 2]) && 0 <= r.value < 0x1_0000
      ensures r.Ok? ==> position == old(position) + 2
      ensures r.Err? ==> position == old(position)
    {
      r := GetUnsigned(2);
    }

    method ReadSWord() returns (r: Result<int, CursorError>)
      requires Valid()
      modifies this`position
      ensures Valid()
      ensures r.Ok? <==> old(position) + 2 <= |bytes|
      ensures r.Ok? ==> r.value == SignedLE(bytes[old(position)..old(position) + 2]) && -0x8000 <= r.value < 0x8000
      ensures r.Ok? ==> position == old(position) + 2
      ensures r.Err? ==> position == old(position)
    {
      r := GetSigned(2);
      if r.Ok? {
        SignedLERange(bytes[old(position)..old(position) + 2]);
      }
    }

    method ReadUDword() returns (r: Result<int, CursorError>)
      requires Valid()
      modifies this`position
      ensures Valid()
      ensures r.Ok? <==> old(position) + 4 <= |bytes|
      ensures r.Ok? ==> r.value == UnsignedLE(bytes[old(position)..old(position) + 4]) && 0 <= r.value < 0x1_0000_0000
      ensures r.Ok? ==> position == old(position) + 4
      ensures r.Err? ==> position == old(position)
    {
      r := GetUnsigned(4);
    }

    method ReadSDword() returns (r: Result<int, CursorError>)
      requires Valid()
      modifies this`position
      ensures Valid()
      ensures r.Ok? <==> old(position) + 4 <= |bytes|
      ensures r.Ok? ==> r.value == SignedLE(bytes[old(position)..old(position) + 4])
      ensures r.Ok? ==> -0x8000_0000 <= r.value < 0x8000_0000
      ensures r.Ok? ==> position == old(position) + 4
      ensures r.Err? ==> position == old(position)
    {
      r := GetSigned(4);
      if r.Ok? {
        SignedLERange(bytes[old(position)..old(position) + 4]);
      }
    }

    method ReadSQword() returns (r: Result<int, CursorError>)
      requires Valid()
      modifies this`position
      ensures Valid()
      ensures r.Ok? <==> old(position) + 8 <= |bytes|
      ensures r.Ok? ==> r.value == SignedLE(bytes[old(position)..old(position) + 8])
      ensures r.Ok? ==> -0x8000_0000_0000_0000 <= r.value < 0x8000_0000_0000_0000
      ensures r.Ok? ==> position == old(position) + 8
      ensures r.Err? ==> position == old(position)
    {
      r := GetSigned(8);
      if r.Ok? {
        SignedLERange(bytes[old(position)..old(position) + 8]);
      }
    }

    /** Reads a NUL-terminated string: the bytes before the first zero byte, as characters,
        leaving the position just past that zero. Without a zero byte before the end the read
        fails, and the position is left at the end. */
    method ReadString() returns (r: Result<string, CursorError>)
      requires Valid()
      modifies this`position
      ensures Valid()
      ensures r.Ok? <==> exists k :: old(position) <= k < |bytes| && bytes[k] == 0
      ensures r.Ok? ==> old(position) < position <= |bytes| && bytes[position - 1] == 0
      ensures r.Ok? ==> forall k :: old(position) <= k < position - 1 ==> bytes[k] != 0
      ensures r.Ok? ==> r.value == Chars(bytes[old(position)..position - 1])
      ensures r.Err? ==> r.error == Underflow && position == |bytes|
    {
      var res: string := [];
      while true
        invariant old(position) <= position <= |bytes|
        invariant forall k :: old(position) <= k < position ==> bytes[k] != 0
        invariant res == Chars(bytes[old(position)..position])
        decreases |bytes| - position
      {
        if position >= |bytes| {
          return Err(Underflow);
        }
        var b := bytes[position];
        position := position + 1;
        if b != 0 {
          assert bytes[old(position)..position] == bytes[old(position)..position - 1] + [b];
          res := res + [CharOf(b)];
        } else {
          return Ok(res);
        }
      }
    }

    /** Reads exactly maxLen bytes and keeps the non-zero ones, in order, as characters; a zero
        byte does not stop the read. When fewer than maxLen bytes remain the read fails at the
        end of the bytes, with the position left there. */
    method ReadStringMax(maxLen: int) returns (r: Result<string, CursorError>)
      requires Valid()
      modifies this`position
      ensures Valid()
      ensures r.Ok? <==> old(position) + maxLen <= |bytes|
      ensures r.Ok? ==> position == old(position) + (if maxLen < 0 then 0 else maxLen)
      ensures r.Ok? ==> r.value == NonZeroChars(bytes[old(position)..position])
      ensures r.Err? ==> r.error == Underflow && position == |bytes|
    {
      var res: string := [];
      var i := 0;
      while i < maxLen
        invariant 0 <= i && (maxLen >= 0 ==> i <= maxLen) && (maxLen < 0 ==> i == 0)
        invariant position == old(position) + i <= |bytes|
        invariant res == NonZeroChars(bytes[old(position)..position])
      {
        if position >= |bytes| {
          return Err(Underflow);
        }
        var b := bytes[position];
        assert bytes[old(position)..position + 1] == bytes[old(position)..position] + [b];
        NonZeroCharsAppend(bytes[old(position)..position], b);
        position := position + 1;
        if b != 0 {
          res := res + [CharOf(b)];
        }
        i := i + 1;
      }
      r := Ok(res);
    }
  }
}
