/** Little-endian packing of unsigned integers, as `struct.pack` with the
    'I' and 'H' codes does it on a little-endian host.  A value outside the
    code's range makes `struct.pack` raise, which is `None` here. */
module Bytes {
  import opened Wrappers

  newtype byte = x: int | 0 <= x < 0x100

  const U32Limit: int := 0x1_0000_0000

  /** The four bytes of a 32-bit value, least significant first; `None`
      when the value does not fit. */
  function PackU32(v: int): (r: Option<seq<byte>>)
    ensures r.Some? <==> 0 <= v < U32Limit
    ensures r.Some? ==> |r.value| == 4 && UnpackU32(r.value) == v
  {
    if 0 <= v < U32Limit then
      var v1 := v / 0x100;
      var v2 := v1 / 0x100;
      var v3 := v2 / 0x100;
      Some([(v % 0x100) as byte, (v1 % 0x100) as byte, (v2 % 0x100) as byte, v3 as byte])
    else
      None
  }

  /** The value of four little-endian bytes. */
  function UnpackU32(b: seq<byte>): int
    requires |b| == 4
  {
    b[0] as int + 0x100 * (b[1] as int + 0x100 * (b[2] as int + 0x100 * (b[3] as int)))
  }

  /** The two bytes of a 16-bit value, least significant first. */
  function PackU16(v: int): (r: Option<seq<byte>>)
    ensures r.Some? <==> 0 <= v < 0x1_0000
    ensures r.Some? ==> |r.value| == 2 && UnpackU16(r.value) == v
  {
    if 0 <= v < 0x1_0000 then Some([(v % 0x100) as byte, (v / 0x100) as byte]) else None
  }

  /** The value of two little-endian bytes. */
  function UnpackU16(b: seq<byte>): int
    requires |b| == 2
  {
    b[0] as int + 0x100 * (b[1] as int)
  }

  /** The lowest byte of a 32-bit pattern. */
  function LowByte(x: bv32): byte
  {
    (((x & 0xff) as bv8) as int) as byte
  }

  /** A byte read back as the low eight bits of a pattern. */
  function ByteBits(b: byte): bv32
  {
    ((b as int) as bv8) as bv32
  }

  lemma Bv8RoundTrip(b: bv8)
    ensures ((b as int) as bv8) == b
  {
  }

  lemma LowBitsWiden(x: bv32)
    ensures ((x & 0xff) as bv8) as bv32 == x & 0xff
  {
  }

  /** Reading a byte back gives the bits it was cut from. */
  lemma ByteBitsLowByte(x: bv32)
    ensures ByteBits(LowByte(x)) == x & 0xff
  {
    Bv8RoundTrip((x & 0xff) as bv8);
    LowBitsWiden(x);
  }

  lemma FourBytesRecombine(x: bv32)
    ensures (x & 0xff) | (((x >> 8) & 0xff) << 8) | (((x >> 16) & 0xff) << 16) | (((x >> 24) & 0xff) << 24) == x
  {
  }

  lemma TwoBytesRecombine(x: bv32)
    requires x < 0x1_0000
    ensures (x & 0xff) | (((x >> 8) & 0xff) << 8) == x
  {
  }

  /** The pattern four little-endian bytes spell. */
  function Word(b: seq<byte>): bv32
    requires |b| == 4
  {
    ByteBits(b[0]) | (ByteBits(b[1]) << 8) | (ByteBits(b[2]) << 16) | (ByteBits(b[3]) << 24)
  }

  /** The pattern two little-endian bytes spell. */
  function HalfWord(b: seq<byte>): bv32
    requires |b| == 2
  {
    ByteBits(b[0]) | (ByteBits(b[1]) << 8)
  }

  /** The four bytes of a 32-bit pattern, least significant first (the 'I'
      code applied to the pattern's value). */
  function WordBytes(x: bv32): (r: seq<byte>)
    ensures |r| == 4 && Word(r) == x
  {
    ByteBitsLowByte(x);
    ByteBitsLowByte(x >> 8);
    ByteBitsLowByte(x >> 16);
    ByteBitsLowByte(x >> 24);
    FourBytesRecombine(x);
    [LowByte(x), LowByte(x >> 8), LowByte(x >> 16), LowByte(x >> 24)]
  }

  /** The two bytes of a 16-bit pattern, least significant first (the 'H'
      code). */
  function HalfWordBytes(x: bv32): (r: seq<byte>)
    requires x < 0x1_0000
    ensures |r| == 2 && HalfWord(r) == x
  {
    ByteBitsLowByte(x);
    ByteBitsLowByte(x >> 8);
    TwoBytesRecombine(x);
    [LowByte(x), LowByte(x >> 8)]
  }

  /** The unsigned value of a 32-bit pattern, read through its bytes. */
  function Unsigned(x: bv32): (v: nat)
    ensures v < U32Limit
  {
    var b := WordBytes(x);
    UnpackU32Range(b);
    UnpackU32(b)
  }

  lemma UnpackU32Range(b: seq<byte>)
    requires |b| == 4
    ensures 0 <= UnpackU32(b) < U32Limit
  {
  }

  lemma ByteTrip(b: byte)
    ensures ((b as int) as bv8) as int == b as int
  {
    var x := (b as int) as bv8;
    assert x as int < 0x100;
    assert (x as int) % 0x100 == b as int;
  }

  /** Cutting the low byte from a byte's bits gives the byte back. */
  lemma LowByteOfBits(b: byte)
    ensures LowByte(ByteBits(b)) == b
  {
    ByteTrip(b);
  }

  lemma WordFields(b: seq<byte>)
    requires |b| == 4
    ensures Word(b) & 0xff == ByteBits(b[0])
    ensures (Word(b) >> 8) & 0xff == ByteBits(b[1])
    ensures (Word(b) >> 16) & 0xff == ByteBits(b[2])
    ensures Word(b) >> 24 == ByteBits(b[3])
  {
  }

  lemma LowByteMasked(x: bv32)
    ensures LowByte(x) == LowByte(x & 0xff)
  {
  }

  /** Splitting the pattern four bytes spell gives those bytes back. */
  lemma WordBytesOfWord(b: seq<byte>)
    requires |b| == 4
    ensures WordBytes(Word(b)) == b
  {
    var w := Word(b);
    WordFields(b);
    LowByteMasked(w);
    LowByteMasked(w >> 8);
    LowByteMasked(w >> 16);
    LowByteMasked(w >> 24);
    LowByteOfBits(b[0]);
    LowByteOfBits(b[1]);
    LowByteOfBits(b[2]);
    LowByteOfBits(b[3]);
  }

  /** The unsigned value of the pattern four bytes spell is the value
      those bytes unpack to. */
  lemma UnsignedOfWord(b: seq<byte>)
    requires |b| == 4
    ensures Unsigned(Word(b)) == UnpackU32(b)
  {
    WordBytesOfWord(b);
  }

  /** Every value fits 32 unsigned bits. */
  predicate AllU32(vs: seq<int>)
  {
    forall i :: 0 <= i < |vs| ==> 0 <= vs[i] < U32Limit
  }

  /** Joins two packings: the bytes of both, or `None` if either failed. */
  function Join(a: Option<seq<byte>>, b: Option<seq<byte>>): Option<seq<byte>>
  {
    if a.Some? && b.Some? then Some(a.value + b.value) else None
  }

  /** A run of 32-bit values packed one after the other (a format string
      of repeated 'I'); `None` when any value does not fit. */
  function PackU32s(vs: seq<int>): (r: Option<seq<byte>>)
    ensures r.Some? <==> AllU32(vs)
    ensures r.Some? ==> |r.value| == 4 * |vs| && UnpackU32s(r.value) == vs
  {
    if vs == [] then
      Some([])
    else
      var head, rest := PackU32(vs[0]), PackU32s(vs[1..]);
      assert head.Some? && rest.Some? ==>
               (head.value + rest.value)[..4] == head.value && (head.value + rest.value)[4..] == rest.value;
      assert AllU32(vs) <==> 0 <= vs[0] < U32Limit && AllU32(vs[1..]);
      Join(head, rest)
  }

  /** Reads a byte string four bytes at a time. */
  function UnpackU32s(b: seq<byte>): seq<int>
    requires |b| % 4 == 0
  {
    if b == [] then [] else [UnpackU32(b[..4])] + UnpackU32s(b[4..])
  }

  /** Packing a concatenation is joining the packings of its parts, so a
      structure packed field group by field group equals one packed flat. */
  lemma {:induction false} PackU32sAppend(a: seq<int>, b: seq<int>)
    ensures PackU32s(a + b) == Join(PackU32s(a), PackU32s(b))
  {
    if a == [] {
      assert a + b == b;
      if PackU32s(b).Some? {
        assert [] + PackU32s(b).value == PackU32s(b).value;
      }
    } else {
      assert (a + b)[1..] == a[1..] + b;
      PackU32sAppend(a[1..], b);
      JoinAssociative(PackU32(a[0]), PackU32s(a[1..]), PackU32s(b));
    }
  }

  /** A run of one value packs as that value. */
  lemma PackU32sSingle(v: int)
    ensures PackU32s([v]) == PackU32(v)
  {
    assert [v][1..] == [];
    if PackU32(v).Some? {
      assert PackU32(v).value + [] == PackU32(v).value;
    }
  }

  lemma JoinAssociative(a: Option<seq<byte>>, b: Option<seq<byte>>, c: Option<seq<byte>>)
    ensures Join(a, Join(b, c)) == Join(Join(a, b), c)
  {
    if a.Some? && b.Some? && c.Some? {
      assert a.value + (b.value + c.value) == (a.value + b.value) + c.value;
    }
  }
}
