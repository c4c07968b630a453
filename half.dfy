/** Bit-level conversion between binary32 and binary16 patterns, as the texture
    writer's half-float encoder does it (Util/Half.py).

    A binary32 value is represented by its 32-bit pattern and a binary16 value
    by its 16-bit pattern: the source's round trips through `struct` only
    reinterpret bits, so no real arithmetic is involved.  The encoder departs
    from IEEE 754 on purpose: it truncates the 13 dropped mantissa bits,
    flushes small magnitudes to signed zero, clamps large ones (and Inf/NaN)
    to the largest finite half, and decodes the half exponent 31 to that same
    largest finite value. */
module Half {

  // Fields of a binary32 pattern: 1 sign bit, 8 exponent bits, 23 mantissa bits.
  function FloatSign(b: bv32): bv32 { b >> 31 }
  function FloatExponent(b: bv32): bv32 { (b & 0x7f80_0000) >> 23 }
  function FloatMantissa(b: bv32): bv32 { b & 0x007f_ffff }

  // Fields of a binary16 pattern held in the low 16 bits of a bv32: 1 sign bit,
  // 5 exponent bits, 10 mantissa bits; higher bits are ignored, as the
  // source's masks ignore them.
  function HalfSign(h: bv32): bv32 { (h >> 15) & 0x1 }
  function HalfExponent(h: bv32): bv32 { (h >> 10) & 0x1f }
  function HalfMantissa(h: bv32): bv32 { h & 0x3ff }

  /** The largest finite half magnitude: exponent 30, mantissa 1023. */
  const MaxHalfMagnitude: bv32 := 0x7bff

  /** Component form of a binary32 value (class FP32). */
  datatype FP32 = FP32(mantissa: bv32, exponent: bv32, sign: bv32)
  {
    /** Recombines the components into a 32-bit pattern.  Components are
        ORed, not range-checked: a mantissa with bit 23 set spills into the
        exponent field. */
    function ToSingle(): (b: bv32)
      ensures mantissa < 0x80_0000 && exponent < 0x100 && sign < 2 ==>
                FloatMantissa(b) == mantissa && FloatExponent(b) == exponent && FloatSign(b) == sign
    {
      (sign << 31) | (exponent << 23) | mantissa
    }

    /** Splits a 32-bit pattern into its sign, exponent and mantissa fields. */
    static function FromSingle(b: bv32): (r: FP32)
      ensures r.mantissa == FloatMantissa(b) && r.exponent == FloatExponent(b) && r.sign == FloatSign(b)
      ensures r.mantissa < 0x80_0000 && r.exponent < 0x100 && r.sign < 2
      ensures r.ToSingle() == b
    {
      FP32(FloatMantissa(b), FloatExponent(b), FloatSign(b))
    }
  }

  /** floor(log2 m) for a non-zero 10-bit mantissa: the k with m >> k == 1,
      which is what `int(math.log(m, 2))` yields on 1..1023. */
  function FloorLog2(m: bv32): (k: bv32)
    requires 0 < m < 0x400
    ensures k < 10 && m >> k == 1
  {
    if m >= 0x200 then 9 else if m >= 0x100 then 8 else if m >= 0x80 then 7
    else if m >= 0x40 then 6 else if m >= 0x20 then 5 else if m >= 0x10 then 4
    else if m >= 0x8 then 3 else if m >= 0x4 then 2 else if m >= 0x2 then 1 else 0
  }

  /** Component form of a binary16 value (class FP16). */
  datatype FP16 = FP16(mantissa: bv32, exponent: bv32, sign: bv32)
  {
    /** The components fit their 10-, 5- and 1-bit fields. */
    predicate Valid() { mantissa < 0x400 && exponent < 0x20 && sign < 2 }

    /** Compiles the components into a 16-bit pattern. */
    function ToHalf(): (h: bv32)
      ensures Valid() ==> HalfMantissa(h) == mantissa && HalfExponent(h) == exponent && HalfSign(h) == sign
    {
      (sign << 15) | (exponent << 10) | mantissa
    }

    /** Decodes to a binary32 pattern through the component form.
        Exponent 0: zero, or the hand-normalised subnormal branch;
        exponent 31: the fixed exponent 142 / mantissa 8380416;
        otherwise: rebias the exponent and widen the mantissa. */
    function ToSingle(): (f: bv32)
      requires Valid()
      ensures FloatSign(f) == sign
      ensures exponent == 0 && mantissa == 0 ==> FloatExponent(f) == 0 && FloatMantissa(f) == 0
      ensures 0 < exponent < 31 ==>
                FloatExponent(f) == exponent + 112 && FloatMantissa(f) == mantissa << 13
      ensures exponent == 31 ==> FloatExponent(f) == 142 && FloatMantissa(f) == 1023 << 13
    {
      if exponent == 0 then
        if mantissa == 0 then
          FP32(0, 0, sign).ToSingle()
        else
          SubnormalComponents(mantissa, sign).ToSingle()
      else if exponent == 31 then
        FP32(8380416, 142, sign).ToSingle()
      else
        FP32((mantissa) << 13, (exponent) - 15 + 127, sign).ToSingle()
    }

    /** Narrows a binary32 pattern to half components, reading the
        fields FP32.FromSingle splits it into: flush to signed zero at or
        below exponent 112, clamp at or above 143, otherwise rebias the
        exponent and truncate the mantissa to its top 10 bits. */
    static function FromSingle(x: bv32): (r: FP16)
      ensures r.Valid() && r.sign == FloatSign(x)
      ensures FloatExponent(x) <= 112 ==> r.exponent == 0 && r.mantissa == 0
      ensures FloatExponent(x) >= 143 ==> r.exponent == 30 && r.mantissa == 1023
      ensures 112 < FloatExponent(x) < 143 ==>
                r.exponent == FloatExponent(x) - 112 && r.mantissa == FloatMantissa(x) >> 13
    {
      if FloatExponent(x) <= 112 then
        FP16(0, 0, FloatSign(x))
      else if FloatExponent(x) >= 143 then
        FP16(1023, 30, FloatSign(x))
      else
        FP16(FloatMantissa(x) >> 13, FloatExponent(x) - 127 + 15, FloatSign(x))
    }

    /** Splits a 16-bit pattern into its components. */
    static function FromHalf(h: bv32): (r: FP16)
      ensures r.mantissa == HalfMantissa(h) && r.exponent == HalfExponent(h) && r.sign == HalfSign(h)
      ensures r.Valid() && r.ToHalf() == h & 0xffff
    {
      FP16(HalfMantissa(h), HalfExponent(h), HalfSign(h))
    }
  }

  /** The half pattern the encoder writes for a binary32 pattern (GetHalf).
      It always fits 16 bits, keeps the sign, and never uses exponent 31, so
      no Inf or NaN is ever produced. */
  function GetHalf(x: bv32): (h: bv32)
    ensures h < 0x1_0000
    ensures HalfSign(h) == FloatSign(x)
    ensures HalfExponent(h) != 31
  {
    FP16.FromSingle(x).ToHalf()
  }

  /** The binary32 pattern a 16-bit half pattern decodes to (ToSingle); the
      sign always survives. */
  function ToSingle(h: bv32): (f: bv32)
    ensures FloatSign(f) == HalfSign(h)
  {
    FP16.FromHalf(h).ToSingle()
  }

  /** Magnitudes below 2^-14 (binary32 exponent <= 112) flush to signed zero. */
  lemma GetHalfFlushesSmall(x: bv32)
    requires FloatExponent(x) <= 112
    ensures GetHalf(x) == FloatSign(x) << 15
  {
    var c := FP16.FromSingle(x);
    assert c.exponent == 0 && c.mantissa == 0;
  }

  /** Magnitudes of 2^16 and above (binary32 exponent >= 143), Inf and NaN
      included, clamp to the largest finite half of the same sign. */
  lemma GetHalfClampsLarge(x: bv32)
    requires FloatExponent(x) >= 143
    ensures GetHalf(x) == (FloatSign(x) << 15) | MaxHalfMagnitude
  {
    var c := FP16.FromSingle(x);
    assert c.exponent == 30 && c.mantissa == 1023;
  }

  /** In the representable range the exponent is rebiased ... */
  lemma GetHalfNormalExponent(x: bv32)
    requires 112 < FloatExponent(x) < 143
    ensures HalfExponent(GetHalf(x)) == FloatExponent(x) - 112
  {
    var c := FP16.FromSingle(x);
    assert c.exponent == FloatExponent(x) - 112;
  }

  /** ... and the mantissa truncated, not rounded, to its top 10 bits. */
  lemma GetHalfNormalMantissa(x: bv32)
    requires 112 < FloatExponent(x) < 143
    ensures HalfMantissa(GetHalf(x)) == FloatMantissa(x) >> 13
  {
    var c := FP16.FromSingle(x);
    assert c.mantissa == FloatMantissa(x) >> 13;
  }

  /** Signed zeros decode to signed zeros. */
  lemma ToSingleZero(h: bv32)
    requires HalfExponent(h) == 0 && HalfMantissa(h) == 0
    ensures ToSingle(h) == HalfSign(h) << 31
  {
    var c := FP16.FromHalf(h);
    assert c.exponent == 0 && c.mantissa == 0;
  }

  /** Normal halves decode exactly: the exponent is rebiased ... */
  lemma ToSingleNormalExponent(h: bv32)
    requires 0 < HalfExponent(h) < 31
    ensures FloatExponent(ToSingle(h)) == HalfExponent(h) + 112
  {
    var c := FP16.FromHalf(h);
    assert c.exponent == HalfExponent(h);
  }

  /** ... and the mantissa widened with 13 zero bits. */
  lemma ToSingleNormalMantissa(h: bv32)
    requires 0 < HalfExponent(h) < 31
    ensures FloatMantissa(ToSingle(h)) == HalfMantissa(h) << 13
  {
    var c := FP16.FromHalf(h);
    assert c.exponent == HalfExponent(h);
  }

  /** Exponent 31 (Inf and NaN) decodes to 65504, the value of the largest
      finite half, whatever the mantissa. */
  lemma ToSingleTopExponent(h: bv32)
    requires HalfExponent(h) == 31
    ensures ToSingle(h) == (HalfSign(h) << 31) | 0x477f_e000
  {
    var c := FP16.FromHalf(h);
    assert c.exponent == 31;
  }

  /** A 10-bit mantissa shifted so that its leading one lands on bit 23:
      bit 23 is set and nothing above it. */
  lemma LeadingOneOnBit23(m: bv32)
    requires 0 < m < 0x400
    ensures 0x80_0000 <= m << (23 - FloorLog2(m)) < 0x100_0000
  {
  }

  /** Recombining a mantissa that has bit 23 set ORs that bit into the
      low bit of the exponent field ... */
  lemma SpillExponent(p: FP32)
    requires 0x80_0000 <= p.mantissa < 0x100_0000 && p.exponent < 0x100 && p.sign < 2
    ensures FloatExponent(p.ToSingle()) == p.exponent | 1
  {
  }

  /** ... and keeps the 23 bits below it as the mantissa field. */
  lemma SpillMantissa(p: FP32)
    requires 0x80_0000 <= p.mantissa < 0x100_0000 && p.exponent < 0x100 && p.sign < 2
    ensures FloatMantissa(p.ToSingle()) == p.mantissa & 0x7f_ffff
  {
  }

  /** The components the subnormal branch of FP16.ToSingle builds for a
      non-zero mantissa m: exponent 103 + floor(log2 m), and m shifted so
      that its leading one sits on bit 23. */
  function SubnormalComponents(m: bv32, sign: bv32): (p: FP32)
    requires 0 < m < 0x400 && sign < 2
    ensures 0x80_0000 <= p.mantissa < 0x100_0000 && p.exponent < 0x100 && p.sign == sign
    ensures p.exponent == 103 + FloorLog2(m) && p.mantissa == m << (23 - FloorLog2(m))
  {
    LeadingOneOnBit23(m);
    var shift := 10 - FloorLog2(m);
    FP32(m << (shift + 23 - 10), 127 - (15 - 1) - shift, sign)
  }

  /** Non-zero mantissas with exponent 0 (subnormal halves) decode through
      the hand-normalising branch, whose shifted mantissa keeps its leading
      one in bit 23; recombining ORs that bit into the exponent field, so
      the exponent is 103 + floor(log2 m) with its low bit forced to 1 ... */
  lemma ToSingleSubnormalExponent(h: bv32)
    requires HalfExponent(h) == 0 && HalfMantissa(h) != 0
    ensures FloatExponent(ToSingle(h)) == (103 + FloorLog2(HalfMantissa(h))) | 1
  {
    var c := FP16.FromHalf(h);
    var p := SubnormalComponents(c.mantissa, c.sign);
    assert ToSingle(h) == p.ToSingle();
    SpillExponent(p);
  }

  /** ... and the mantissa field holds the bits below the leading one. */
  lemma ToSingleSubnormalMantissa(h: bv32)
    requires HalfExponent(h) == 0 && HalfMantissa(h) != 0
    ensures FloatMantissa(ToSingle(h)) == (HalfMantissa(h) << (23 - FloorLog2(HalfMantissa(h)))) & 0x7f_ffff
  {
    var c := FP16.FromHalf(h);
    var p := SubnormalComponents(c.mantissa, c.sign);
    assert c.mantissa == HalfMantissa(h);
    assert ToSingle(h) == p.ToSingle();
    SpillMantissa(p);
  }

  /** The subnormal quirk on a concrete input: half 0x0002 denotes 2^-23,
      whose binary32 pattern is 0x3400_0000, but it decodes to 0x3480_0000,
      which is 2^-22. */
  lemma SubnormalQuirkExample()
    ensures ToSingle(0x0002) == 0x3480_0000
  {
    ToSingleSubnormalExponent(0x0002);
    ToSingleSubnormalMantissa(0x0002);
    SingleFieldsDetermine(ToSingle(0x0002), 0x3480_0000);
  }

  /** A binary32 pattern is determined by its three fields. */
  lemma SingleFieldsDetermine(a: bv32, b: bv32)
    requires FloatSign(a) == FloatSign(b) && FloatExponent(a) == FloatExponent(b)
    requires FloatMantissa(a) == FloatMantissa(b)
    ensures a == b
  {
  }

  /** Field-level step of HalfRoundTrip for a signed zero. */
  lemma ZeroRestored(h: bv32, f: bv32, g: bv32)
    requires HalfExponent(h) == 0 && HalfMantissa(h) == 0
    requires f == HalfSign(h) << 31 && g == FloatSign(f) << 15
    ensures FloatExponent(f) <= 112 && g == h & 0xffff
  {
  }

  /** Field-level step of HalfRoundTrip for a normal half: the widened
      pattern f lies in the narrowing range ... */
  lemma WidenedInRange(h: bv32, f: bv32)
    requires 0 < HalfExponent(h) < 31 && FloatExponent(f) == HalfExponent(h) + 112
    ensures 112 < FloatExponent(f) < 143
  {
  }

  /** ... and narrowing it again restores every field of h. */
  lemma NormalRestored(h: bv32, f: bv32, g: bv32)
    requires 0 < HalfExponent(h) < 31 && g < 0x1_0000
    requires FloatSign(f) == HalfSign(h) && HalfSign(g) == FloatSign(f)
    requires FloatExponent(f) == HalfExponent(h) + 112 && HalfExponent(g) == FloatExponent(f) - 112
    requires FloatMantissa(f) == HalfMantissa(h) << 13 && HalfMantissa(g) == FloatMantissa(f) >> 13
    ensures g == h & 0xffff
  {
  }

  /** Decoding then re-encoding gives back every signed zero and every
      normal half (bits above the low 16 are ignored on the way in). */
  lemma HalfRoundTrip(h: bv32)
    requires (HalfExponent(h) == 0 && HalfMantissa(h) == 0) || 0 < HalfExponent(h) < 31
    ensures GetHalf(ToSingle(h)) == h & 0xffff
  {
    var f := ToSingle(h);
    var g := GetHalf(f);
    if HalfExponent(h) == 0 {
      ToSingleZero(h);
      ZeroRestored(h, f, FloatSign(f) << 15);
      GetHalfFlushesSmall(f);
    } else {
      ToSingleNormalExponent(h);
      ToSingleNormalMantissa(h);
      WidenedInRange(h, f);
      GetHalfNormalExponent(f);
      GetHalfNormalMantissa(f);
      NormalRestored(h, f, g);
    }
  }

  /** Field-level step of TopExponentRoundTrip: the decoded value of an
      exponent-31 half lies in the narrowing range, with an all-ones top
      mantissa. */
  lemma TopDecodedFields(h: bv32, f: bv32)
    requires f == (HalfSign(h) << 31) | 0x477f_e000
    ensures 112 < FloatExponent(f) < 143
    ensures FloatExponent(f) - 112 == 30 && FloatMantissa(f) >> 13 == 1023 && FloatSign(f) == HalfSign(h)
  {
  }

  /** Field-level step of TopExponentRoundTrip: a 16-bit pattern with sign
      s, exponent 30 and mantissa 1023 is the largest finite half of sign s. */
  lemma LargestFinite(g: bv32, s: bv32)
    requires g < 0x1_0000 && s < 2
    requires HalfSign(g) == s && HalfExponent(g) == 30 && HalfMantissa(g) == 1023
    ensures g == (s << 15) | MaxHalfMagnitude
  {
  }

  /** A half with exponent 31 re-encodes as the largest finite half. */
  lemma TopExponentRoundTrip(h: bv32)
    requires HalfExponent(h) == 31
    ensures GetHalf(ToSingle(h)) == (HalfSign(h) << 15) | MaxHalfMagnitude
  {
    var f := ToSingle(h);
    var g := GetHalf(f);
    ToSingleTopExponent(h);
    TopDecodedFields(h, f);
    GetHalfNormalExponent(f);
    GetHalfNormalMantissa(f);
    LargestFinite(g, HalfSign(h));
  }

  /** Field-level step of SingleRoundTrip: a pattern f with x's sign and
      exponent and x's top 10 mantissa bits is x with its 13 low bits cleared. */
  lemma TruncationFields(x: bv32, f: bv32)
    requires FloatSign(f) == FloatSign(x) && FloatExponent(f) == FloatExponent(x)
    requires FloatMantissa(f) == (FloatMantissa(x) >> 13) << 13
    ensures f == x & 0xffff_e000
  {
  }

  /** Field-level step of SingleRoundTrip: narrowing x to h and widening
      h to f keeps the exponent and the top 10 mantissa bits. */
  lemma NarrowWidenFields(x: bv32, h: bv32, f: bv32)
    requires HalfExponent(h) == FloatExponent(x) - 112 && FloatExponent(f) == HalfExponent(h) + 112
    requires HalfMantissa(h) == FloatMantissa(x) >> 13 && FloatMantissa(f) == HalfMantissa(h) << 13
    ensures FloatExponent(f) == FloatExponent(x)
    ensures FloatMantissa(f) == (FloatMantissa(x) >> 13) << 13
  {
  }

  /** Field-level step of SingleRoundTrip: the narrowed exponent is a
      normal half exponent. */
  lemma NarrowedInRange(x: bv32, h: bv32)
    requires 112 < FloatExponent(x) < 143 && HalfExponent(h) == FloatExponent(x) - 112
    ensures 0 < HalfExponent(h) < 31
  {
  }

  /** Encoding then decoding a binary32 value in the half range only drops
      its 13 low mantissa bits. */
  lemma SingleRoundTrip(x: bv32)
    requires 112 < FloatExponent(x) < 143
    ensures ToSingle(GetHalf(x)) == x & 0xffff_e000
  {
    var h := GetHalf(x);
    var f := ToSingle(h);
    GetHalfNormalExponent(x);
    GetHalfNormalMantissa(x);
    NarrowedInRange(x, h);
    ToSingleNormalExponent(h);
    ToSingleNormalMantissa(h);
    NarrowWidenFields(x, h, f);
    TruncationFields(x, f);
  }
}
