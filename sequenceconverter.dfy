/** Sample converters of the DDS writer (class SequenceConverter in
    Util/LwDDS.py): each turns a list of samples into the bytes of one
    storage format, and a closed dispatch table picks one by source and
    target data type.

    A sample is a 32-bit pattern: the binary32 encoding of the value when
    the source type is Float32, the two's-complement integer when it is
    SInt32 or UInt8UNorm. */
module SequenceConverter {
  import opened Wrappers
  import opened Bytes
  import opened DdsFormats
  import Half

  /** Clamps v to lo..hi, testing the lower bound first (Clamp). */
  function Clamp(v: int, lo: int, hi: int): (r: int)
    ensures lo <= hi ==> lo <= r <= hi
    ensures lo <= v <= hi ==> r == v
    ensures v < lo ==> r == lo
    ensures lo <= v && hi < v ==> r == hi
  {
    if v < lo then lo else if v > hi then hi else v
  }

  /** An integer sample's value: its unsigned value, less 2^32 when the top
      bit is set. */
  function Int32(x: bv32): (v: int)
    ensures -0x8000_0000 <= v < 0x8000_0000
  {
    var b := WordBytes(x);
    UnpackU32(b) - (if b[3] >= 0x80 then U32Limit else 0)
  }

  function ExponentBits(x: bv32): bv8
  {
    Half.FloatExponent(x) as bv8
  }

  function MantissaBits(x: bv32): bv23
  {
    Half.FloatMantissa(x) as bv23
  }

  /** The exponent field of a binary32 pattern, as a number. */
  function ExponentValue(x: bv32): (e: nat)
    ensures e < 0x100
  {
    ExponentBits(x) as int
  }

  /** The mantissa field of a binary32 pattern, as a number. */
  function MantissaValue(x: bv32): (m: nat)
    ensures m < 0x80_0000
  {
    MantissaBits(x) as int
  }

  /** The pattern encodes a NaN: all-ones exponent, non-zero mantissa. */
  predicate IsNaN(x: bv32)
  {
    ExponentValue(x) == 0xff && MantissaValue(x) != 0
  }

  function Pow2(k: nat): (p: nat)
    ensures p >= 1
  {
    if k == 0 then 1 else 2 * Pow2(k - 1)
  }

  /** The integer significand of a finite binary32 pattern: the mantissa,
      with the hidden leading one when the exponent is not 0.  The
      magnitude of the value is Significand(x) / 2^ScaleShift(x). */
  function Significand(x: bv32): (m: nat)
    ensures m < 0x100_0000
  {
    MantissaValue(x) + (if ExponentValue(x) == 0 then 0 else 0x80_0000)
  }

  /** The power of two a binary32 significand is divided by: 150 - e for
      exponent e, and 149 for subnormals (values below 2^24). */
  function ScaleShift(x: bv32): (k: nat)
    requires ExponentValue(x) < 150
    ensures k >= 1
  {
    if ExponentValue(x) == 0 then 149 else 150 - ExponentValue(x)
  }

  /** Dividing a natural number by a positive one never makes it larger. */
  lemma DivisionShrinks(a: nat, p: nat)
    requires p >= 1
    ensures 0 <= a / p <= a
  {
    MultiplyAtLeastOne(a / p, p);
  }

  lemma ScaledSignificandBelow255(m: nat)
    requires m < 0x100_0000
    ensures 255 * m / 0x100_0000 < 255
  {
  }

  lemma Pow2Of24()
    ensures Pow2(24) == 0x100_0000
  {
    assert Pow2(8) == 0x100;
    assert Pow2(16) == 0x1_0000;
  }

  lemma {:induction false} Pow2Split(k: nat)
    requires k >= 24
    ensures Pow2(k) == 0x100_0000 * Pow2(k - 24)
  {
    if k == 24 {
      Pow2Of24();
    } else {
      Pow2Split(k - 1);
    }
  }

  /** Dividing by 2^24 and then by p brackets a between multiples of
      2^24 * p. */
  lemma TwoStepFloor(a: nat, top: nat, p: nat, b: nat)
    requires p >= 1 && top == a / 0x100_0000 && b == top / p
    ensures b * (0x100_0000 * p) <= a < (b + 1) * (0x100_0000 * p)
  {
    assert b * p <= top < (b + 1) * p;
    assert top * 0x100_0000 <= a < (top + 1) * 0x100_0000;
    assert b * p * 0x100_0000 <= top * 0x100_0000;
    assert (top + 1) * 0x100_0000 <= (b + 1) * p * 0x100_0000;
  }

  lemma MultiplyAtLeastOne(q: nat, p: nat)
    requires p >= 1
    ensures q <= q * p
  {
  }

  /** floor(255 * m / 2^shift) for a significand m and a shift of at least
      24, so for a sample c = m / 2^shift in [0, 1): the product is divided
      by 2^24 and then by the rest of the power, which rounds down the same
      way as one division. */
  function ScaledByte(m: nat, shift: nat): (b: byte)
    requires m < 0x100_0000 && shift >= 24
    ensures b < 255
    ensures b as int * Pow2(shift) <= 255 * m < (b as int + 1) * Pow2(shift)
  {
    var top := 255 * m / 0x100_0000;
    ScaledSignificandBelow255(m);
    DivisionShrinks(top, Pow2(shift - 24));
    var b := top / Pow2(shift - 24);
    TwoStepFloor(255 * m, top, Pow2(shift - 24), b);
    Pow2Split(shift);
    b as byte
  }

  /** The byte F32ToI8_UNorm stores for one sample:
      clamp(floor(c * 255), 0, 255).  The product is exact (a 24-bit
      significand times 255 fits a double), so the floor is taken on
      integers: negative samples and -0 give 0, 1.0 and above (and +Inf)
      give 255, and a sample in between gives its scaled byte.  A NaN
      passes the clamp unchanged and cannot be packed as a byte: `None`. */
  function UNormByte(x: bv32): (r: Option<byte>)
    ensures r.None? <==> IsNaN(x)
    ensures !IsNaN(x) && Half.FloatSign(x) == 1 ==> r == Some(0)
    ensures !IsNaN(x) && Half.FloatSign(x) == 0 && 127 <= ExponentValue(x) ==> r == Some(255)
    ensures Half.FloatSign(x) == 0 && ExponentValue(x) < 127 ==> r == Some(ScaledByte(Significand(x), ScaleShift(x)))
  {
    if IsNaN(x) then
      None
    else if Half.FloatSign(x) == 1 then
      Some(0)
    else if ExponentValue(x) >= 127 then
      Some(255)
    else
      Some(ScaledByte(Significand(x), ScaleShift(x)))
  }

  /** The byte I32ToI8_UNorm stores for one sample: the integer clamped to
      0..255, without scaling. */
  function IntByte(x: bv32): (b: byte)
    ensures 0 <= Int32(x) <= 255 ==> b as int == Int32(x)
    ensures Int32(x) < 0 ==> b == 0
    ensures Int32(x) > 255 ==> b == 255
  {
    Clamp(Int32(x), 0, 255) as byte
  }

  /** I32ToI8_UNorm: one clamped byte per sample. */
  function I32ToI8UNorm(src: seq<bv32>): (r: seq<byte>)
    ensures |r| == |src|
    ensures forall i :: 0 <= i < |src| ==> r[i] == IntByte(src[i])
  {
    if src == [] then [] else [IntByte(src[0])] + I32ToI8UNorm(src[1..])
  }

  /** No sample of the list is a NaN pattern. */
  predicate NoNaN(src: seq<bv32>)
  {
    forall i :: 0 <= i < |src| ==> !IsNaN(src[i])
  }

  /** F32ToI8_UNorm: one scaled byte per sample, or `None` if any sample is
      a NaN (the packer then rejects the whole list). */
  function F32ToI8UNorm(src: seq<bv32>): (r: Option<seq<byte>>)
    ensures r.Some? <==> NoNaN(src)
    ensures r.Some? ==> |r.value| == |src|
    ensures r.Some? ==> forall i :: 0 <= i < |src| ==> Some(r.value[i]) == UNormByte(src[i])
  {
    if src == [] then
      Some([])
    else
      match (UNormByte(src[0]), F32ToI8UNorm(src[1..]))
      case (Some(b), Some(rest)) => Some([b] + rest)
      case _ => None
  }

  /** F32ToF32_Float: each sample's four bytes, least significant first. */
  function F32ToF32(src: seq<bv32>): (r: seq<byte>)
    ensures |r| == 4 * |src|
    ensures forall i :: 0 <= i < |src| ==> Word(r[4 * i .. 4 * i + 4]) == src[i]
  {
    if src == [] then
      []
    else
      var head, rest := WordBytes(src[0]), F32ToF32(src[1..]);
      assert forall i :: 1 <= i < |src| ==> (head + rest)[4 * i .. 4 * i + 4] == rest[4 * (i - 1) .. 4 * (i - 1) + 4];
      head + rest
  }

  /** F32ToF16_Float: each sample's half-float pattern in two bytes, least
      significant first. */
  function F32ToF16(src: seq<bv32>): (r: seq<byte>)
    ensures |r| == 2 * |src|
    ensures forall i :: 0 <= i < |src| ==> HalfWord(r[2 * i .. 2 * i + 2]) == Half.GetHalf(src[i])
  {
    if src == [] then
      []
    else
      var head, rest := HalfWordBytes(Half.GetHalf(src[0])), F32ToF16(src[1..]);
      assert forall i :: 1 <= i < |src| ==> (head + rest)[2 * i .. 2 * i + 2] == rest[2 * (i - 1) .. 2 * (i - 1) + 2];
      head + rest
  }

  /** The four converters the dispatch table can name. */
  datatype Converter = I32ToI8UNormConverter | F32ToI8UNormConverter | F32ToF32Converter | F32ToF16Converter

  /** The dispatch table (GetConverters): source data type, then target
      data type, to converter. */
  const Converters: map<DataFormat, map<DataFormat, Converter>> :=
    map[
      Float32 := map[UInt8UNorm := F32ToI8UNormConverter, Float32 := F32ToF32Converter, Float16 := F32ToF16Converter],
      SInt32 := map[UInt8UNorm := I32ToI8UNormConverter, UInt8 := I32ToI8UNormConverter],
      UInt8UNorm := map[UInt8UNorm := I32ToI8UNormConverter, UInt8 := I32ToI8UNormConverter]
    ]

  /** GetBytes' two lookups: the source type must have a row, then the
      target type an entry in it. */
  function GetConverter(source: DataFormat, target: DataFormat): (r: Result<Converter, Error>)
    ensures r.Ok? <==>
              (source == Float32 && target in {UInt8UNorm, Float32, Float16}) ||
              (source in {SInt32, UInt8UNorm} && target in {UInt8UNorm, UInt8})
    ensures source !in {Float32, SInt32, UInt8UNorm} ==> r == Err(NoSourceConverter(source))
    ensures source in {Float32, SInt32, UInt8UNorm} && r.Err? ==> r == Err(NoTargetConverter(target))
    ensures r.Ok? && source == Float32 ==>
              r.value == (if target == UInt8UNorm then F32ToI8UNormConverter
                          else if target == Float32 then F32ToF32Converter
                          else F32ToF16Converter)
    ensures r.Ok? && source != Float32 ==> r.value == I32ToI8UNormConverter
  {
    if source !in Converters then
      Err(NoSourceConverter(source))
    else if target !in Converters[source] then
      Err(NoTargetConverter(target))
    else
      Ok(Converters[source][target])
  }

  /** Runs one converter; only the 8-bit float converter can fail. */
  function Apply(c: Converter, src: seq<bv32>): (r: Option<seq<byte>>)
    ensures r.None? <==> c == F32ToI8UNormConverter && !NoNaN(src)
    ensures r.Some? ==> |r.value| == match c
                                      case F32ToF32Converter => 4 * |src|
                                      case F32ToF16Converter => 2 * |src|
                                      case _ => |src|
  {
    match c
    case I32ToI8UNormConverter => Some(I32ToI8UNorm(src))
    case F32ToI8UNormConverter => F32ToI8UNorm(src)
    case F32ToF32Converter => Some(F32ToF32(src))
    case F32ToF16Converter => Some(F32ToF16(src))
  }

  /** Bytes one sample takes in a target data type the table can produce. */
  function SampleSize(target: DataFormat): nat
  {
    match target
    case Float32 => 4
    case Float16 => 2
    case _ => 1
  }

  /** GetBytes: the samples converted from the source to the target data
      type, or the exception the lookup or the packer raises. */
  function GetBytes(src: seq<bv32>, source: DataFormat, target: DataFormat): (r: Result<seq<byte>, Error>)
    ensures GetConverter(source, target).Err? ==> r == Err(GetConverter(source, target).error)
    ensures r.Ok? <==> GetConverter(source, target).Ok? && (source == Float32 && target == UInt8UNorm ==> NoNaN(src))
    ensures r.Err? && GetConverter(source, target).Ok? ==> r == Err(NaNSample)
    ensures r.Ok? ==> |r.value| == SampleSize(target) * |src|
  {
    match GetConverter(source, target)
    case Err(e) => Err(e)
    case Ok(c) =>
      match Apply(c, src)
      case None => Err(NaNSample)
      case Some(bytes) => Ok(bytes)
  }

  /** GetBytes from 32-bit floats to 16-bit floats is the half packer. */
  lemma GetBytesHalf(src: seq<bv32>)
    ensures GetBytes(src, Float32, Float16) == Ok(F32ToF16(src))
  {
  }

  /** GetBytes from 32-bit floats to 8-bit UNorm is the byte packer, which
      raises on the first NaN. */
  lemma GetBytesUNorm(src: seq<bv32>)
    ensures GetBytes(src, Float32, UInt8UNorm)
            == if NoNaN(src) then Ok(F32ToI8UNorm(src).value) else Err(NaNSample)
  {
  }

  /** GetBytes from integer samples to 8-bit targets clamps each sample. */
  lemma GetBytesInteger(src: seq<bv32>, source: DataFormat, target: DataFormat)
    requires source == SInt32 || source == UInt8UNorm
    requires target == UInt8UNorm || target == UInt8
    ensures GetBytes(src, source, target) == Ok(I32ToI8UNorm(src))
  {
  }
}
