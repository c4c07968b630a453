/** The texel producers of Gen/RenderFunctions.py.  The integer producers
    (parent index and depth) are modelled exactly; the ones that measure the
    Maya scene, divide the depth by the builder's maximum depth, draw random
    numbers or do floating-point geometry read their result from a `Scene`
    parameter. */
module RenderFunctions {
  import opened Wrappers
  import opened Bytes
  import Half
  import SequenceConverter
  import opened Pixels

  function Min(a: int, b: int): int { if a <= b then a else b }

  function Max(a: int, b: int): int { if a >= b then a else b }

  /** `clamp`: the larger of v and lo, capped at hi. */
  function Clamp(v: int, lo: int, hi: int): (r: int)
    ensures lo <= hi ==> lo <= r <= hi
    ensures lo <= v <= hi ==> r == v
    ensures v < lo <= hi ==> r == lo
    ensures hi < v || hi < lo ==> r == hi
  {
    Min(hi, Max(lo, v))
  }

  /** With ordered bounds this clamp and the sample converter's clamp agree. */
  lemma ClampMatchesConverter(v: int, lo: int, hi: int)
    requires lo <= hi
    ensures Clamp(v, lo, hi) == SequenceConverter.Clamp(v, lo, hi)
  {
  }

  /** With crossed bounds they do not: this one ends on hi, the converter's
      on lo. */
  lemma ClampCrossedBounds()
    ensures Clamp(4, 5, 3) == 3 && SequenceConverter.Clamp(4, 5, 3) == 5
  {
  }

  // ---------------------------------------------------------------------
  // int16ToHalf

  /** The 16-bit half pattern whose bits are the low 16 binary digits of v
      (two's complement for negative v, as Python's masks read them):
      mantissa v mod 2^10, exponent floor(v / 2^10) mod 2^5, sign
      floor(v / 2^15) mod 2. */
  function HalfPattern(v: int): (h: bv32)
    ensures h < 0x1_0000
    ensures Half.HalfMantissa(h) == ((v % 0x400) as bv10) as bv32
    ensures Half.HalfExponent(h) == (((v / 0x400) % 0x20) as bv5) as bv32
    ensures Half.HalfSign(h) == (((v / 0x8000) % 2) as bv1) as bv32
  {
    var m := (v % 0x400) as bv10;
    var e := ((v / 0x400) % 0x20) as bv5;
    var s := ((v / 0x8000) % 2) as bv1;
    PatternFields(m, e, s);
    PatternOf(m, e, s)
  }

  function PatternOf(m: bv10, e: bv5, s: bv1): bv32
  {
    ((s as bv32) << 15) | ((e as bv32) << 10) | (m as bv32)
  }

  lemma PatternFields(m: bv10, e: bv5, s: bv1)
    ensures PatternOf(m, e, s) < 0x1_0000
    ensures Half.HalfMantissa(PatternOf(m, e, s)) == m as bv32
    ensures Half.HalfExponent(PatternOf(m, e, s)) == e as bv32
    ensures Half.HalfSign(PatternOf(m, e, s)) == s as bv32
  {
  }

  /** The three digit groups of HalfPattern spell v modulo 2^16. */
  lemma HalfPatternDigits(v: int)
    ensures v % 0x1_0000 == v % 0x400 + 0x400 * ((v / 0x400) % 0x20) + 0x8000 * ((v / 0x8000) % 2)
  {
    var w := v % 0x1_0000;
    assert v == 0x1_0000 * (v / 0x1_0000) + w;
    assert v / 0x400 == 0x40 * (v / 0x1_0000) + w / 0x400;
    assert v / 0x8000 == 2 * (v / 0x1_0000) + w / 0x8000;
    assert v % 0x400 == w % 0x400;
    assert (v / 0x400) % 0x20 == (w / 0x400) % 0x20;
    assert (v / 0x8000) % 2 == w / 0x8000;
    assert w == w % 0x400 + 0x400 * ((w / 0x400) % 0x20) + 0x8000 * (w / 0x8000);
  }

  /** `int16ToHalf`: the integer i + 1024 read as a half bit pattern and
      widened to binary32.  The offset makes the exponent at least 1. */
  function Int16ToHalf(i: int): bv32
  {
    Half.ToSingle(HalfPattern(i + 1024))
  }

  lemma SmallExponent(v: int)
    requires 0x400 <= v < 0x7c00
    ensures 1 <= (v / 0x400) % 0x20 <= 30 && (v / 0x8000) % 2 == 0
  {
  }

  lemma TopExponent(v: int)
    requires 0x7c00 <= v < 0x8000
    ensures (v / 0x400) % 0x20 == 31 && (v / 0x8000) % 2 == 0
  {
  }

  lemma NormalExponentBits(x: int)
    requires 1 <= x <= 30
    ensures 0 < (x as bv5) as bv32 < 31
  {
  }

  lemma TopExponentBits(x: int)
    requires x == 31
    ensures (x as bv5) as bv32 == 31
  {
  }

  lemma ZeroSignBit(x: int)
    requires x == 0
    ensures (x as bv1) as bv32 == 0
  {
  }

  /** For 0 <= i <= 30719 the offset pattern is a positive normal half. */
  lemma Int16PatternNormal(i: int)
    requires 0 <= i <= 30719
    ensures 0 < Half.HalfExponent(HalfPattern(i + 1024)) < 31
    ensures Half.HalfSign(HalfPattern(i + 1024)) == 0
  {
    var v := i + 1024;
    SmallExponent(v);
    NormalExponentBits((v / 0x400) % 0x20);
    ZeroSignBit((v / 0x8000) % 2);
  }

  /** Narrowing the widened value gives back exactly the half pattern of
      i + 1024: the index survives the trip to a 16-bit float texture. */
  lemma Int16ToHalfRoundTrip(i: int)
    requires 0 <= i <= 30719
    ensures Half.GetHalf(Int16ToHalf(i)) == HalfPattern(i + 1024)
  {
    Int16PatternNormal(i);
    NormalHalfRoundTrip(HalfPattern(i + 1024));
  }

  lemma NormalHalfRoundTrip(h: bv32)
    requires h < 0x1_0000 && 0 < Half.HalfExponent(h) < 31
    ensures Half.GetHalf(Half.ToSingle(h)) == h
  {
    Half.HalfRoundTrip(h);
    SixteenBits(h);
  }

  lemma SixteenBits(h: bv32)
    requires h < 0x1_0000
    ensures h & 0xffff == h
  {
  }

  /** From 30720 on the exponent field is 31, which decodes to the largest
      finite half, so the stored pattern saturates at 0x7bff. */
  lemma Int16ToHalfSaturates(i: int)
    requires 30720 <= i <= 31743
    ensures Half.GetHalf(Int16ToHalf(i)) == Half.MaxHalfMagnitude
  {
    var v := i + 1024;
    var h := HalfPattern(v);
    TopExponent(v);
    TopExponentBits((v / 0x400) % 0x20);
    ZeroSignBit((v / 0x8000) % 2);
    Half.TopExponentRoundTrip(h);
  }

  // ---------------------------------------------------------------------
  // float(n): a whole number as a binary32 pattern

  function Pow2(k: nat): nat
  {
    SequenceConverter.Pow2(k)
  }

  lemma {:induction false} Pow2Add(a: nat, b: nat)
    ensures Pow2(a) * Pow2(b) == Pow2(a + b)
  {
    if a > 0 {
      Pow2Add(a - 1, b);
    }
  }

  /** floor(log2 n). */
  function Log2(n: nat): (k: nat)
    requires n >= 1
    ensures Pow2(k) <= n < 2 * Pow2(k)
  {
    if n == 1 then 0 else 1 + Log2(n / 2)
  }

  lemma Pow2Of23()
    ensures Pow2(23) == 0x80_0000
  {
    assert Pow2(8) == 0x100;
    assert Pow2(16) == 0x1_0000;
  }

  /** Below 2^24 the mantissa of a whole number is exact. */
  lemma ExactMantissa(n: nat, k: nat)
    requires k <= 23 && Pow2(k) <= n < 2 * Pow2(k)
    ensures 0 <= (n - Pow2(k)) * Pow2(23 - k) < 0x80_0000
    ensures n * Pow2(23 - k) == 0x80_0000 + (n - Pow2(k)) * Pow2(23 - k)
  {
    Pow2Add(k, 23 - k);
    Pow2Of23();
    SignificandSplit(n, Pow2(k), Pow2(23 - k));
  }

  /** With top * c == 2^23 and top <= n < 2 * top, n * c is 2^23 plus a
      part below 2^23. */
  lemma SignificandSplit(n: nat, top: nat, c: nat)
    requires top * c == 0x80_0000 && top <= n < 2 * top
    ensures 0 <= (n - top) * c < 0x80_0000
    ensures n * c == 0x80_0000 + (n - top) * c
  {
    var d := n - top;
    assert c >= 1;
    MultiplyStrict(d, top, c);
    MultiplyMonotone(0, d, c);
    Distribute(top, d, c);
  }

  lemma Distribute(a: int, b: int, c: int)
    ensures (a + b) * c == a * c + b * c
  {
  }

  lemma MultiplyStrict(a: nat, b: nat, c: nat)
    requires a < b && c >= 1
    ensures a * c < b * c
  {
  }

  lemma CancelStrict(a: nat, b: nat, c: nat)
    requires a * c < b * c
    ensures a < b
  {
    if a >= b {
      MultiplyMonotone(b, a, c);
    }
  }

  lemma MultiplyMonotone(a: nat, b: nat, c: nat)
    requires a <= b
    ensures a * c <= b * c
  {
  }

  /** 2^k <= n < 2^(k+1) with k > 23: dividing by 2^(k-23) leaves a
      24-bit significand. */
  lemma RoundedSignificand(n: nat, k: nat)
    requires k > 23 && Pow2(k) <= n < 2 * Pow2(k)
    ensures 0x80_0000 <= n / Pow2(k - 23) < 0x100_0000
  {
    var p := Pow2(k - 23);
    Pow2Add(23, k - 23);
    Pow2Of23();
    assert Pow2(k) == 0x80_0000 * p;
    var q := n / p;
    assert q * p <= n < (q + 1) * p;
    CancelStrict(0x80_0000, q + 1, p);
    CancelStrict(q, 0x100_0000, p);
  }

  lemma {:induction false} Pow2Monotone(a: nat, b: nat)
    requires a <= b
    ensures Pow2(a) <= Pow2(b)
  {
    if a < b {
      Pow2Monotone(a, b - 1);
    }
  }

  /** Whole numbers below 2^24 have floor(log2 n) <= 23. */
  lemma Log2Below24(n: nat)
    requires 1 <= n < 0x100_0000
    ensures Log2(n) <= 23
  {
    var k := Log2(n);
    SequenceConverter.Pow2Of24();
    if k >= 24 {
      Pow2Monotone(24, k);
    }
  }

  lemma DivModUnique(u: int, e: int, m: int)
    requires 0 <= m < 0x80_0000 && u == e * 0x80_0000 + m
    ensures u / 0x80_0000 == e && u % 0x80_0000 == m
  {
  }

  /** The exponent and mantissa fields of the binary32 value nearest to a
      positive whole number, ties to even (what `float` followed by
      packing with the 'f' code yields for magnitudes below 2^53); a value
      whose exponent would reach 255 becomes the infinity pattern. */
  function WholeFields(n: nat): (f: (nat, nat))
    requires n >= 1
    ensures f.0 < 0x100 && f.1 < 0x80_0000
  {
    var k := Log2(n);
    if k <= 23 then
      ExactMantissa(n, k);
      (127 + k, (n - Pow2(k)) * Pow2(23 - k))
    else
      var p := Pow2(k - 23);
      var q := n / p;
      var r := n % p;
      var half := Pow2(k - 24);
      var q' := if r > half || (r == half && q % 2 == 1) then q + 1 else q;
      RoundedSignificand(n, k);
      var e := if q' == 0x100_0000 then 128 + k else 127 + k;
      if e >= 0xff then (0xff, 0)
      else (e, if q' == 0x100_0000 then 0 else q' - 0x80_0000)
  }

  /** The unsigned value of the binary32 pattern of a whole number: sign
      bit, exponent field, mantissa field. */
  function Float32Bits(n: int): (u: nat)
    ensures u < U32Limit
  {
    if n == 0 then 0
    else
      var f := WholeFields(if n < 0 then -n else n);
      (if n < 0 then 0x8000_0000 else 0) + f.0 * 0x80_0000 + f.1
  }

  /** `float(n)` for a whole number n, as the binary32 pattern a channel
      holds. */
  function Float32OfInt(n: int): bv32
  {
    Word(PackU32(Float32Bits(n)).value)
  }

  lemma Float32OfIntBits(n: int)
    ensures Unsigned(Float32OfInt(n)) == Float32Bits(n)
  {
    UnsignedOfWord(PackU32(Float32Bits(n)).value);
  }

  /** Whole numbers below 2^24 are represented exactly: the pattern's
      exponent field e and mantissa field m satisfy n * 2^(150 - e) ==
      2^23 + m, which is n == (1 + m / 2^23) * 2^(e - 127). */
  lemma Float32OfIntExact(n: int)
    requires 1 <= n < 0x100_0000
    ensures 127 <= Unsigned(Float32OfInt(n)) / 0x80_0000 <= 150
    ensures n * Pow2(150 - Unsigned(Float32OfInt(n)) / 0x80_0000) == 0x80_0000 + Unsigned(Float32OfInt(n)) % 0x80_0000
  {
    Float32OfIntBits(n);
    Float32BitsExact(n);
    ReadFields(n, Log2(n), SmallMantissa(n), Float32Bits(n));
  }

  /** The mantissa field of a whole number below 2^24. */
  function SmallMantissa(n: int): (m: int)
    requires 1 <= n < 0x100_0000
    ensures Log2(n) <= 23
    ensures 0 <= m < 0x80_0000 && n * Pow2(23 - Log2(n)) == 0x80_0000 + m
  {
    Log2Below24(n);
    ExactMantissa(n, Log2(n));
    (n - Pow2(Log2(n))) * Pow2(23 - Log2(n))
  }

  lemma ReadFields(n: int, k: nat, m: int, u: int)
    requires k <= 23 && 0 <= m < 0x80_0000 && u == (127 + k) * 0x80_0000 + m
    requires n * Pow2(23 - k) == 0x80_0000 + m
    ensures 127 <= u / 0x80_0000 <= 150
    ensures n * Pow2(150 - u / 0x80_0000) == 0x80_0000 + u % 0x80_0000
  {
    DivModUnique(u, 127 + k, m);
  }

  lemma Float32BitsExact(n: int)
    requires 1 <= n < 0x100_0000
    ensures Log2(n) <= 23
    ensures Float32Bits(n) == (127 + Log2(n)) * 0x80_0000 + SmallMantissa(n)
  {
    Log2Below24(n);
  }

  /** Zero is the all-zero pattern. */
  lemma Float32OfZero()
    ensures Float32OfInt(0) == 0
  {
    assert PackU32(0).value == [0, 0, 0, 0];
  }

  // ---------------------------------------------------------------------
  // Producers

  /** What a producer reads from the node it renders (StaticMeshData and
      SkinnedMeshData). */
  datatype NodeData = NodeData(node: Option<string>, parentIndex: int, index: int, depth: int)

  /** The parent index, or the node's own index for a root (a negative
      parent index). */
  function ParentOrSelf(d: NodeData): (i: int)
    ensures d.parentIndex >= 0 ==> i == d.parentIndex
    ensures d.parentIndex < 0 ==> i == d.index
    ensures i >= 0 || i == d.index
  {
    if d.parentIndex < 0 then d.index else d.parentIndex
  }

  /** `parentIndexInt`: alpha becomes the parent index (or own index) run
      through int16ToHalf; red, green and blue are untouched. */
  method ParentIndexInt(d: NodeData, px: Pixel)
    modifies px
    ensures px.GetRGBA() == old(px.GetRGBA())[3 := Int16ToHalf(ParentOrSelf(d))]
    ensures 0 <= ParentOrSelf(d) <= 30719 ==> Half.GetHalf(px.GetA()) == HalfPattern(ParentOrSelf(d) + 1024)
  {
    var index := d.parentIndex;
    if index < 0 {
      index := d.index;
    }
    px.SetA(Int16ToHalf(index));
    if 0 <= index <= 30719 {
      Int16ToHalfRoundTrip(index);
    }
  }

  /** `parentIndexFloat`: alpha becomes the parent index (or own index) as a
      float; red, green and blue are untouched. */
  method ParentIndexFloat(d: NodeData, px: Pixel)
    modifies px
    ensures px.GetRGBA() == old(px.GetRGBA())[3 := Float32OfInt(ParentOrSelf(d))]
  {
    var index := d.parentIndex;
    if index < 0 {
      index := d.index;
    }
    px.SetA(Float32OfInt(index));
  }

  /** `stepsToRoot`: alpha becomes the node's depth as a float. */
  method StepsToRoot(d: NodeData, px: Pixel)
    modifies px
    ensures px.GetRGBA() == old(px.GetRGBA())[3 := Float32OfInt(d.depth)]
  {
    px.SetA(Float32OfInt(d.depth));
  }

  /** The functions the render-type table refers to, one per function of
      RenderFunctions.py. */
  datatype Producer =
    | PivotPosition          // pivotPosition
    | OriginPosition         // originPosition
    | Extents                // extents
    | XVector                // xvector
    | YVector                // yvector
    | ZVector                // zvector
    | ParentIndexAsHalf      // parentIndexInt
    | ParentIndexAsFloat     // parentIndexFloat
    | StepsFromRoot          // stepsToRoot
    | NormalizedStepsToRoot  // normalizedStepsToRoot
    | Random01               // random01
    | BoundingBoxDiameter    // boundingBoxDiameter
    | DistanceX              // maxBoundingBoxDistanceX
    | DistanceY              // maxBoundingBoxDistanceY
    | DistanceZ              // maxBoundingBoxDistanceZ
    | DistanceXLdr           // maxBoundingBoxDistanceXLDR
    | DistanceYLdr           // maxBoundingBoxDistanceYLDR
    | DistanceZLdr           // maxBoundingBoxDistanceZLDR

  datatype Vec3 = Vec3(x: bv32, y: bv32, z: bv32)

  /** What the scene gives the producers this model does not compute: the
      vector a position or axis producer stores in red, green and blue, and
      the value a measuring, normalising or random producer stores in
      alpha. */
  datatype Scene = Scene(vector: (Producer, NodeData) -> Vec3, scalar: (Producer, NodeData) -> bv32)

  /** The producers that write red, green and blue (and leave alpha). */
  predicate WritesRGB(f: Producer)
  {
    f in {PivotPosition, OriginPosition, Extents, XVector, YVector, ZVector}
  }

  /** The four channels after producer f ran on channels c. */
  function Rendered(f: Producer, d: NodeData, c: seq<bv32>, scene: Scene): (r: seq<bv32>)
    requires |c| == 4
    ensures |r| == 4
  {
    if StoresVector(f) then
      var v := scene.vector(f, d);
      [v.x, v.y, v.z, c[3]]
    else if f == Extents then
      [scene.scalar(DistanceX, d), scene.scalar(DistanceY, d), scene.scalar(DistanceZ, d), c[3]]
    else if f == ParentIndexAsHalf then c[3 := Int16ToHalf(ParentOrSelf(d))]
    else if f == ParentIndexAsFloat then c[3 := Float32OfInt(ParentOrSelf(d))]
    else if f == StepsFromRoot then c[3 := Float32OfInt(d.depth)]
    else c[3 := scene.scalar(f, d)]
  }

  /** The producers that store a vector the scene gives in red, green and
      blue. */
  predicate StoresVector(f: Producer)
  {
    f.PivotPosition? || f.OriginPosition? || f.XVector? || f.YVector? || f.ZVector?
  }

  /** A producer writes either the colour channels or alpha, never both. */
  lemma {:induction false} RenderedChannels(f: Producer, d: NodeData, c: seq<bv32>, scene: Scene)
    requires |c| == 4
    ensures WritesRGB(f) ==> Rendered(f, d, c, scene)[3] == c[3]
    ensures !WritesRGB(f) ==> Rendered(f, d, c, scene)[..3] == c[..3]
  {
  }

  /** `extents`: the three bounding-box distances, each produced in alpha
      and read back, become red, green and blue; alpha is restored. */
  method Extents3(d: NodeData, px: Pixel, scene: Scene)
    modifies px
    ensures px.GetRGBA() == Rendered(Extents, d, old(px.GetRGBA()), scene)
  {
    var a := px.GetA();
    px.SetA(scene.scalar(DistanceX, d));
    var x := px.GetA();
    px.SetA(scene.scalar(DistanceY, d));
    var y := px.GetA();
    px.SetA(scene.scalar(DistanceZ, d));
    var z := px.GetA();
    px.SetRGB([x, y, z]);
    px.SetA(a);
  }

  /** Runs one producer on a pixel. */
  method Render(f: Producer, d: NodeData, px: Pixel, scene: Scene)
    modifies px
    ensures px.GetRGBA() == Rendered(f, d, old(px.GetRGBA()), scene)
  {
    ghost var c := px.GetRGBA();
    if StoresVector(f) {
      var v := scene.vector(f, d);
      px.SetRGB([v.x, v.y, v.z]);
      assert [v.x, v.y, v.z][..3] + [c[3]] == [v.x, v.y, v.z, c[3]];
    } else if f == Extents {
      Extents3(d, px, scene);
    } else if f == ParentIndexAsHalf {
      ParentIndexInt(d, px);
    } else if f == ParentIndexAsFloat {
      ParentIndexFloat(d, px);
    } else if f == StepsFromRoot {
      StepsToRoot(d, px);
    } else {
      px.SetA(scene.scalar(f, d));
    }
  }
}
