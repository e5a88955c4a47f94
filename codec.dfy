/**
 * The byte-level encoding of plugin/src/utils.cpp: little-endian 32-bit
 * unsigned integers, raw 4-byte floats and length-prefixed strings, appended
 * to a growing byte vector and read back through a cursor `pos`.
 *
 * The readers do no bounds checking, so every reader here requires that the
 * bytes it reads exist; the `Take*` functions are the same reads as total
 * functions that answer `None` where the source would read past the end.
 */
module Codec {
  import opened Scalars
  import opened Opt

  /** A value read from a buffer, with the cursor position after it. */
  datatype Read<T> = Read(value: T, next: nat)

  // ---------------------------------------------------------------------
  // Encodings

  /** The value of four bytes, the first the least significant. */
  function LittleEndian(b0: byte, b1: byte, b2: byte, b3: byte): uint32 {
    b0 as int + 0x100 * (b1 as int) + 0x1_0000 * (b2 as int) + 0x100_0000 * (b3 as int)
  }

  /**
   * The four bytes `append_uint32` pushes: `(v >> 8k) & 0xFF` for k = 0..3,
   * a shift by 8k being k divisions by 256.
   */
  function Uint32Bytes(v: uint32): (r: seq<byte>)
    ensures |r| == 4
  {
    var q1 := v / 0x100;
    var q2 := q1 / 0x100;
    var q3 := q2 / 0x100;
    [v % 0x100, q1 % 0x100, q2 % 0x100, q3 % 0x100]
  }

  /** Base-256 digits are unique. */
  lemma Base256(x: int, q: int, r: int)
    requires x == 0x100 * q + r && 0 <= r < 0x100
    ensures x / 0x100 == q && x % 0x100 == r
  {
  }

  /** The four bytes of `append_uint32` are the little-endian digits of `v`. */
  lemma Uint32BytesValue(v: uint32)
    ensures var r := Uint32Bytes(v); LittleEndian(r[0], r[1], r[2], r[3]) == v
  {
    var q1 := v / 0x100;
    var q2 := q1 / 0x100;
    var q3 := q2 / 0x100;
    assert v == 0x100 * q1 + v % 0x100;
    assert q1 == 0x100 * q2 + q1 % 0x100;
    assert q2 == 0x100 * q3 + q2 % 0x100;
    assert q1 < 0x100_0000 && q2 < 0x1_0000 && q3 < 0x100;
  }

  /** The four in-memory bytes of a float that `append_float32` pushes (little-endian host). */
  function Float32Bytes(f: Float32): (r: seq<byte>)
    ensures |r| == 4
  {
    Uint32Bytes(f.bits)
  }

  /**
   * What `append_string` pushes: the length, converted to the `uint32_t`
   * parameter of `append_uint32` (so taken modulo 2^32), then the bytes.
   */
  function StringBytes(s: seq<byte>): (r: seq<byte>)
    ensures |r| == 4 + |s|
    ensures r[4..] == s
  {
    Uint32Bytes(|s| % 0x1_0000_0000) + s
  }

  // ---------------------------------------------------------------------
  // Decodings

  /** Four bytes read little-endian are written back by `append_uint32` as the same four bytes. */
  lemma LittleEndianDigits(b0: byte, b1: byte, b2: byte, b3: byte)
    ensures Uint32Bytes(LittleEndian(b0, b1, b2, b3)) == [b0, b1, b2, b3]
  {
    Digits(LittleEndian(b0, b1, b2, b3), b0, b1, b2, b3);
  }

  /** The base-256 digits of `v`, least significant first, are the bytes of `append_uint32`. */
  lemma Digits(v: uint32, b0: byte, b1: byte, b2: byte, b3: byte)
    requires v == b0 as int + 0x100 * (b1 as int + 0x100 * (b2 as int + 0x100 * (b3 as int)))
    ensures Uint32Bytes(v) == [b0, b1, b2, b3]
  {
    var q2 := b2 as int + 0x100 * (b3 as int);
    var q1 := b1 as int + 0x100 * q2;
    Base256(v, q1, b0);
    Base256(q1, q2, b1);
    Base256(q2, b3, b2);
    assert b3 % 0x100 == b3;
  }

  /**
   * The little-endian value of the four bytes at `pos`: what `read_uint32` is
   * meant to return. It is below 2^16 exactly when the last two bytes are zero.
   */
  function Uint32At(buffer: seq<byte>, pos: nat): (r: uint32)
    requires pos + 4 <= |buffer|
    ensures r < 0x1_0000 <==> buffer[pos + 2] == 0 && buffer[pos + 3] == 0
  {
    LittleEndian(buffer[pos], buffer[pos + 1], buffer[pos + 2], buffer[pos + 3])
  }

  /** The value `Uint32At` reads is the one whose `append_uint32` bytes are the four at `pos`. */
  lemma Uint32AtBytes(buffer: seq<byte>, pos: nat)
    requires pos + 4 <= |buffer|
    ensures Uint32Bytes(Uint32At(buffer, pos)) == buffer[pos..pos + 4]
  {
    LittleEndianDigits(buffer[pos], buffer[pos + 1], buffer[pos + 2], buffer[pos + 3]);
  }

  function Pow2(n: nat): nat {
    if n == 0 then 1 else 2 * Pow2(n - 1)
  }

  /** Bitwise or of two naturals, from the lowest bit up. */
  function OrNat(a: nat, b: nat): nat
    decreases a + b
  {
    if a == 0 then b
    else if b == 0 then a
    else (if a % 2 == 1 || b % 2 == 1 then 1 else 0) + 2 * OrNat(a / 2, b / 2)
  }

  /** Or-ing two numbers of `width` bits gives a number of `width` bits. */
  lemma {:induction false} OrNatBound(a: nat, b: nat, width: nat)
    requires a < Pow2(width) && b < Pow2(width)
    ensures OrNat(a, b) < Pow2(width)
    decreases width
  {
    if a != 0 && b != 0 {
      OrNatBound(a / 2, b / 2, width - 1);
    }
  }

  /** Bitwise or of two bytes. */
  function Or8(a: byte, b: byte): byte {
    assert Pow2(8) == 0x100;
    OrNatBound(a, b, 8);
    OrNat(a, b)
  }

  lemma Or8Zero(a: byte)
    ensures Or8(a, 0) == a
  {
  }

  /**
   * `read_uint32` as written: `v = b0; v |= b1 << 8; v |= b2 << 8; v |= b3 << 8;`.
   * Bytes 1 to 3 are all or-ed into bits 8 to 15; as `b0` occupies bits 0 to 7
   * alone, the result is `b0 + 256 * (b1 | b2 | b3)`, always below 2^16.
   */
  function Uint32AtAsWritten(buffer: seq<byte>, pos: nat): (r: uint32)
    requires pos + 4 <= |buffer|
    ensures r < 0x1_0000
  {
    buffer[pos] + 0x100 * HighByte(buffer, pos, 1, 0)
  }

  /**
   * Bits 8 to 15 of `read_uint32` as written: `high` holds them before the
   * statement `v |= b[k] << 8`, which or-s byte `pos + k` into them; the
   * statements run for `k` up to 3.
   */
  function HighByte(buffer: seq<byte>, pos: nat, k: nat, high: byte): byte
    requires 1 <= k <= 4 && pos + 4 <= |buffer|
    decreases 4 - k
  {
    if k == 4 then high else HighByte(buffer, pos, k + 1, Or8(high, buffer[pos + k]))
  }

  /** The three or-ed bytes, spelled out. */
  lemma HighByteBytes(buffer: seq<byte>, pos: nat)
    requires pos + 4 <= |buffer|
    ensures HighByte(buffer, pos, 1, 0) == Or8(Or8(buffer[pos + 1], buffer[pos + 2]), buffer[pos + 3])
  {
    var b1, b2, b3 := buffer[pos + 1], buffer[pos + 2], buffer[pos + 3];
    assert HighByte(buffer, pos, 1, 0) == HighByte(buffer, pos, 2, b1);
    assert HighByte(buffer, pos, 2, b1) == HighByte(buffer, pos, 3, Or8(b1, b2));
    assert HighByte(buffer, pos, 3, Or8(b1, b2)) == HighByte(buffer, pos, 4, Or8(Or8(b1, b2), b3));
  }

  /** The float whose in-memory bytes are the four bytes at `pos`: what `read_float32` returns. */
  function Float32At(buffer: seq<byte>, pos: nat): Float32
    requires pos + 4 <= |buffer|
  {
    F32(Uint32At(buffer, pos))
  }

  /** The bytes at `pos` are exactly the in-memory bytes of the float read there. */
  lemma Float32AtBytes(buffer: seq<byte>, pos: nat)
    requires pos + 4 <= |buffer|
    ensures Float32Bytes(Float32At(buffer, pos)) == buffer[pos..pos + 4]
  {
    Uint32AtBytes(buffer, pos);
  }

  /**
   * Which `read_uint32` a reader uses: the one the source has, or the one its
   * shifts by 8 evidently intend (8, 16 and 24, the inverse of `append_uint32`).
   */
  datatype Reader = AsWritten | Intended

  /** What `rd`'s `read_uint32` makes of the four bytes at `pos`. */
  function Uint32By(rd: Reader, buffer: seq<byte>, pos: nat): (r: uint32)
    requires pos + 4 <= |buffer|
    ensures rd == AsWritten ==> r < 0x1_0000
  {
    if rd == Intended then Uint32At(buffer, pos) else Uint32AtAsWritten(buffer, pos)
  }

  /** The values `rd` reads back from their `append_uint32` bytes: all of them, or those below 2^16. */
  predicate Fits(rd: Reader, v: int) {
    0 <= v < if rd == Intended then 0x1_0000_0000 else 0x1_0000
  }

  /** `read_uint32` as a total function. */
  function TakeUint32(rd: Reader, buffer: seq<byte>, pos: nat): (r: Option<Read<uint32>>)
    ensures r.Some? <==> pos + 4 <= |buffer|
    ensures r.Some? ==> r.value.next == pos + 4
    ensures r.Some? && rd == AsWritten ==> r.value.value < 0x1_0000
  {
    if pos + 4 <= |buffer| then Some(Read(Uint32By(rd, buffer, pos), pos + 4)) else None
  }

  /** `read_float32` as a total function. */
  function TakeFloat32(buffer: seq<byte>, pos: nat): (r: Option<Read<Float32>>)
    ensures r.Some? <==> pos + 4 <= |buffer|
    ensures r.Some? ==> r.value.next == pos + 4 && Float32Bytes(r.value.value) == buffer[pos..pos + 4]
  {
    if pos + 4 <= |buffer| then
      Float32AtBytes(buffer, pos);
      Some(Read(Float32At(buffer, pos), pos + 4))
    else None
  }

  /**
   * `read_string` as a total function: the length, by `rd`'s `read_uint32`,
   * then that many bytes. As written, a string read takes fewer than 2^16 bytes.
   */
  function TakeString(rd: Reader, buffer: seq<byte>, pos: nat): (r: Option<Read<seq<byte>>>)
    ensures r.Some? <==> pos + 4 <= |buffer| && pos + 4 + Uint32By(rd, buffer, pos) <= |buffer|
    ensures r.Some? ==> |r.value.value| == Uint32By(rd, buffer, pos)
    ensures r.Some? ==> r.value.next == pos + 4 + |r.value.value|
    ensures r.Some? ==> r.value.value == buffer[pos + 4..r.value.next]
    ensures r.Some? && rd == AsWritten ==> |r.value.value| < 0x1_0000
  {
    if pos + 4 <= |buffer| && pos + 4 + Uint32By(rd, buffer, pos) <= |buffer| then
      var len := Uint32By(rd, buffer, pos);
      Some(Read(buffer[pos + 4..pos + 4 + len], pos + 4 + len))
    else None
  }

  // ---------------------------------------------------------------------
  // Round trips

  /** Reading back the four bytes of `append_uint32`, wherever they sit, gives the value. */
  lemma Uint32RoundTrip(v: uint32, prefix: seq<byte>, suffix: seq<byte>)
    ensures TakeUint32(Intended, prefix + Uint32Bytes(v) + suffix, |prefix|) == Some(Read(v, |prefix| + 4))
  {
    var b := prefix + Uint32Bytes(v) + suffix;
    Uint32BytesValue(v);
    assert b[|prefix|] == Uint32Bytes(v)[0];
    assert b[|prefix| + 1] == Uint32Bytes(v)[1];
    assert b[|prefix| + 2] == Uint32Bytes(v)[2];
    assert b[|prefix| + 3] == Uint32Bytes(v)[3];
  }

  /** With the shifts as written, the round trip holds for values below 2^16 ... */
  lemma AsWrittenRoundTripBelow64K(v: uint32, prefix: seq<byte>, suffix: seq<byte>)
    requires v < 0x1_0000
    ensures Uint32AtAsWritten(prefix + Uint32Bytes(v) + suffix, |prefix|) == v
  {
    Uint32RoundTrip(v, prefix, suffix);
    var b := prefix + Uint32Bytes(v) + suffix;
    assert b[|prefix| + 2] == Uint32Bytes(v)[2] == 0;
    assert b[|prefix| + 3] == Uint32Bytes(v)[3] == 0;
    HighByteBytes(b, |prefix|);
    Or8Zero(b[|prefix| + 1]);
    Or8Zero(Or8(b[|prefix| + 1], 0));
  }

  /** ... and for no value at or above 2^16. */
  lemma AsWrittenRoundTripFailsAbove64K(v: uint32)
    requires v >= 0x1_0000
    ensures Uint32AtAsWritten(Uint32Bytes(v), 0) != v
  {
  }

  /** A concrete witness: the bytes of 65536 read back as 256. */
  lemma AsWrittenReads65536As256()
    ensures Uint32Bytes(0x1_0000) == [0, 0, 1, 0]
    ensures Uint32AtAsWritten(Uint32Bytes(0x1_0000), 0) == 0x100
  {
    Digits(0x1_0000, 0, 0, 1, 0);
    HighByteBytes([0, 0, 1, 0], 0);
  }

  /** Each reader reads back the values that fit it, wherever they sit. */
  lemma Uint32ReadBack(rd: Reader, v: uint32, prefix: seq<byte>, suffix: seq<byte>)
    requires Fits(rd, v)
    ensures TakeUint32(rd, prefix + Uint32Bytes(v) + suffix, |prefix|) == Some(Read(v, |prefix| + 4))
  {
    Uint32RoundTrip(v, prefix, suffix);
    if rd == AsWritten {
      AsWrittenRoundTripBelow64K(v, prefix, suffix);
    }
  }

  lemma {:induction false} OrNatZeroIff(a: nat, b: nat)
    ensures OrNat(a, b) == 0 <==> a == 0 && b == 0
    decreases a + b
  {
    if a != 0 && b != 0 && a % 2 == 0 && b % 2 == 0 {
      OrNatZeroIff(a / 2, b / 2);
    }
  }

  /** Or-ing bytes gives zero exactly when both are zero. */
  lemma Or8ZeroIff(a: byte, b: byte)
    ensures Or8(a, b) == 0 <==> a == 0 && b == 0
  {
    OrNatZeroIff(a, b);
  }

  /**
   * The defect cannot change whether four bytes read as 0 or as 1: both
   * readers give 0, or 1, exactly when the last three bytes are zero and the
   * first is 0, or 1.
   */
  lemma AsWrittenSmallValues(buffer: seq<byte>, pos: nat)
    requires pos + 4 <= |buffer|
    ensures Uint32AtAsWritten(buffer, pos) == 0 <==> Uint32At(buffer, pos) == 0
    ensures Uint32AtAsWritten(buffer, pos) == 1 <==> Uint32At(buffer, pos) == 1
  {
    var b0, b1, b2, b3 := buffer[pos], buffer[pos + 1], buffer[pos + 2], buffer[pos + 3];
    HighByteBytes(buffer, pos);
    Or8ZeroIff(b1, b2);
    Or8ZeroIff(Or8(b1, b2), b3);
    assert Uint32At(buffer, pos) == b0 as int + 0x100 * (b1 as int) + 0x1_0000 * (b2 as int) + 0x100_0000 * (b3 as int);
  }

  /**
   * The two readers agree on four bytes exactly when the last two are zero:
   * then bytes 2 and 3 add nothing to the or, and otherwise the corrected
   * value is 2^16 or more, which the reader as written never returns.
   */
  lemma AsWrittenAgrees(buffer: seq<byte>, pos: nat)
    requires pos + 4 <= |buffer|
    ensures Uint32AtAsWritten(buffer, pos) == Uint32At(buffer, pos) <==> buffer[pos + 2] == 0 && buffer[pos + 3] == 0
  {
    if buffer[pos + 2] == 0 && buffer[pos + 3] == 0 {
      HighByteBytes(buffer, pos);
      Or8Zero(buffer[pos + 1]);
      Or8Zero(Or8(buffer[pos + 1], 0));
    }
  }

  /** Writing a float's bytes and reading them back gives the same float. */
  lemma Float32RoundTrip(f: Float32, prefix: seq<byte>, suffix: seq<byte>)
    ensures TakeFloat32(prefix + Float32Bytes(f) + suffix, |prefix|) == Some(Read(f, |prefix| + 4))
  {
    Uint32RoundTrip(f.bits, prefix, suffix);
  }

  /**
   * A string reads back from its `append_string` bytes when its length fits
   * the reader: below 2^32 bytes with the intended shifts, below 64 KiB as written ...
   */
  lemma StringRoundTrip(rd: Reader, s: seq<byte>, prefix: seq<byte>, suffix: seq<byte>)
    requires Fits(rd, |s|)
    ensures TakeString(rd, prefix + StringBytes(s) + suffix, |prefix|) == Some(Read(s, |prefix| + 4 + |s|))
  {
    var b := prefix + StringBytes(s) + suffix;
    var len: uint32 := |s|;
    assert b == prefix + Uint32Bytes(len) + (s + suffix) by {
      assert len % 0x1_0000_0000 == len;
    }
    assert Uint32By(rd, b, |prefix|) == len by {
      Uint32ReadBack(rd, len, prefix, s + suffix);
    }
    assert b[|prefix| + 4..|prefix| + 4 + |s|] == s;
    TakeStringOf(rd, b, |prefix|, s);
  }

  /** A length field that reads as `|s|`, followed by the bytes of `s`, is taken as `s`. */
  lemma TakeStringOf(rd: Reader, buffer: seq<byte>, pos: nat, s: seq<byte>)
    requires pos + 4 + |s| <= |buffer| && Uint32By(rd, buffer, pos) == |s|
    requires buffer[pos + 4..pos + 4 + |s|] == s
    ensures TakeString(rd, buffer, pos) == Some(Read(s, pos + 4 + |s|))
  {
  }

  /** ... and as written, a string of 64 KiB or more never does: the length read back is too short. */
  lemma AsWrittenStringRoundTripFails(s: seq<byte>, prefix: seq<byte>, suffix: seq<byte>)
    requires 0x1_0000 <= |s| < 0x1_0000_0000
    ensures TakeString(AsWritten, prefix + StringBytes(s) + suffix, |prefix|) != Some(Read(s, |prefix| + 4 + |s|))
  {
  }

  /** A witness: as written, a 65536-byte string reads back as its first 256 bytes. */
  lemma AsWrittenReadsPrefix(s: seq<byte>, prefix: seq<byte>, suffix: seq<byte>)
    requires |s| == 0x1_0000
    ensures TakeString(AsWritten, prefix + StringBytes(s) + suffix, |prefix|) == Some(Read(s[..0x100], |prefix| + 4 + 0x100))
  {
    var b := prefix + StringBytes(s) + suffix;
    var n := |prefix|;
    AsWrittenReads65536As256();
    assert StringBytes(s) == Uint32Bytes(0x1_0000) + s;
    assert b[n] == 0 && b[n + 1] == 0 && b[n + 2] == 1 && b[n + 3] == 0;
    HighByteBytes(b, n);
    assert Or8(0, 1) == 1;
    Or8Zero(1);
    assert Uint32AtAsWritten(b, n) == 0x100;
    assert b[n + 4..n + 4 + 0x100] == s[..0x100];
  }

  // ---------------------------------------------------------------------
  // The operations, on the caller's vector and cursor

  /** The caller's `std::vector<uint8_t>` that the `append_*` functions grow. */
  class ByteVector {
    var bytes: seq<byte>

    constructor ()
      ensures bytes == []
    {
      bytes := [];
    }

    /** `push_back`. */
    method PushBack(b: byte)
      modifies this
      ensures bytes == old(bytes) + [b]
    {
      bytes := bytes + [b];
    }
  }

  /** `append_uint32`: pushes the four bytes of `v`, least significant first. */
  method AppendUint32(v: uint32, buffer: ByteVector)
    modifies buffer
    ensures buffer.bytes == old(buffer.bytes) + Uint32Bytes(v)
  {
    buffer.PushBack(v % 0x100);
    buffer.PushBack(v / 0x100 % 0x100);
    buffer.PushBack(v / 0x100 / 0x100 % 0x100);
    buffer.PushBack(v / 0x100 / 0x100 / 0x100 % 0x100);
  }

  /** `read_uint32` as written, advancing the cursor by four. */
  method ReadUint32AsWritten(pos: nat, buffer: seq<byte>) returns (v: uint32, next: nat)
    requires pos + 4 <= |buffer|
    ensures v == Uint32AtAsWritten(buffer, pos) && next == pos + 4
  {
    // `low` is bits 0 to 7 of `v`, `high` bits 8 to 15, where every shifted byte lands
    next := pos;
    var low := buffer[next];             next := next + 1;
    var high := buffer[next];            next := next + 1;
    high := Or8(high, buffer[next]);     next := next + 1;
    high := Or8(high, buffer[next]);     next := next + 1;
    v := low as int + 0x100 * (high as int);
    HighByteBytes(buffer, pos);
  }

  /** `read_uint32` with the intended shifts 8, 16 and 24, advancing the cursor by four. */
  method ReadUint32(pos: nat, buffer: seq<byte>) returns (v: uint32, next: nat)
    requires pos + 4 <= |buffer|
    ensures TakeUint32(Intended, buffer, pos) == Some(Read(v, next))
  {
    next := pos;
    v := buffer[next];                            next := next + 1;
    v := v + 0x100 * (buffer[next] as int);       next := next + 1;
    v := v + 0x1_0000 * (buffer[next] as int);    next := next + 1;
    v := v + 0x100_0000 * (buffer[next] as int);  next := next + 1;
  }

  /** `read_uint32` by reader `rd`: as written, or with the intended shifts. */
  method ReadUint32By(rd: Reader, pos: nat, buffer: seq<byte>) returns (v: uint32, next: nat)
    requires pos + 4 <= |buffer|
    ensures TakeUint32(rd, buffer, pos) == Some(Read(v, next))
  {
    if rd == Intended {
      v, next := ReadUint32(pos, buffer);
    } else {
      v, next := ReadUint32AsWritten(pos, buffer);
    }
  }

  /** `append_float32`: pushes the float's four in-memory bytes. */
  method AppendFloat32(v: Float32, buffer: ByteVector)
    modifies buffer
    ensures buffer.bytes == old(buffer.bytes) + Float32Bytes(v)
  {
    var bytes := Float32Bytes(v);
    buffer.PushBack(bytes[0]);
    buffer.PushBack(bytes[1]);
    buffer.PushBack(bytes[2]);
    buffer.PushBack(bytes[3]);
  }

  /** `read_float32`: reassembles four bytes into a float, advancing the cursor by four. */
  method ReadFloat32(pos: nat, buffer: seq<byte>) returns (v: Float32, next: nat)
    requires pos + 4 <= |buffer|
    ensures next == pos + 4 && Float32Bytes(v) == buffer[pos..next]
    ensures TakeFloat32(buffer, pos) == Some(Read(v, next))
  {
    v := Float32At(buffer, pos);
    next := pos + 4;
    Float32AtBytes(buffer, pos);
  }

  /** `append_string`: pushes the length, then the bytes in order. */
  method AppendString(s: seq<byte>, buffer: ByteVector)
    modifies buffer
    ensures buffer.bytes == old(buffer.bytes) + StringBytes(s)
  {
    AppendUint32(|s| % 0x1_0000_0000, buffer);
    PushBytes(s, buffer);
  }

  /** The loop of `append_string`: `push_back` of each byte in turn. */
  method PushBytes(s: seq<byte>, buffer: ByteVector)
    modifies buffer
    ensures buffer.bytes == old(buffer.bytes) + s
  {
    for i := 0 to |s|
      invariant buffer.bytes == old(buffer.bytes) + s[..i]
    {
      buffer.PushBack(s[i]);
      assert s[..i + 1] == s[..i] + [s[i]];
    }
    assert s[..|s|] == s;
  }

  /** `read_string` by reader `rd`: the length, then that many bytes; the cursor ends just after them. */
  method ReadString(rd: Reader, pos: nat, buffer: seq<byte>) returns (s: seq<byte>, next: nat)
    requires pos + 4 <= |buffer| && pos + 4 + Uint32By(rd, buffer, pos) <= |buffer|
    ensures TakeString(rd, buffer, pos) == Some(Read(s, next))
    ensures next == pos + 4 + |s|
  {
    var len;
    len, next := ReadUint32By(rd, pos, buffer);
    s := buffer[next..next + len];
    next := next + len;
  }
}
