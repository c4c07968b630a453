/** The DDS file writer (Util/LwDDS.py): the header structures as objects
    whose fields are filled one by one, their fixed-order serialisation,
    and WriteTexture2D, which builds a legacy header for one of two DXGI
    formats and writes the header bytes and then the converted pixel bytes
    to a file. */
module Dds {
  import opened Wrappers
  import opened Bytes
  import opened DdsFormats
  import opened SequenceConverter

  /** "DDS " read as a little-endian 32-bit value. */
  const Magic: int := 0x2053_4444
  /** The fourCC code announcing a DX10 extension block ("DX10"). */
  const Dx10FourCC: int := 0x3031_5844
  /** The fourCC code of 16-bit float RGBA in a legacy header. */
  const FloatRgbaFourCC: int := 0x71

  // Header flags (class DDSD) and pixel-format flags (class DDPF).
  const DdsdCaps: int := 0x1
  const DdsdHeight: int := 0x2
  const DdsdWidth: int := 0x4
  const DdsdPixelFormat: int := 0x1000
  const DdpfAlpha: int := 0x2
  const DdpfFourCC: int := 0x4
  const DdpfRgb: int := 0x40

  /** DDSCAPS_TEXTURE, the value WriteTexture2D means to store in the caps. */
  const CapsTexture: int := 0x1000
  /** ResourceDimension.Texture2D. */
  const Texture2D: int := 3

  /** DDS_PIXELFORMAT: eight 32-bit fields. */
  class PixelFormat {
    var size: int
    var flags: int
    var fourCC: int
    var rgbBitCount: int
    var rBitMask: int
    var gBitMask: int
    var bBitMask: int
    var aBitMask: int

    /** Every field 0 except the size, the structure's own byte count. */
    constructor ()
      ensures size == 32 && flags == 0 && fourCC == 0 && rgbBitCount == 0
      ensures rBitMask == 0 && gBitMask == 0 && bBitMask == 0 && aBitMask == 0
    {
      size := 32;
      flags := 0;
      fourCC := 0;
      rgbBitCount := 0;
      rBitMask := 0;
      gBitMask := 0;
      bBitMask := 0;
      aBitMask := 0;
    }

    /** The fields in serialisation order. */
    function Words(): seq<int>
      reads this
    {
      [size, flags, fourCC, rgbBitCount, rBitMask, gBitMask, bBitMask, aBitMask]
    }

    /** WriteTexture2D's pixel format for R16G16B16A16_Float: a fourCC
        code, the bit count and the masks left as they were. */
    method DescribeFloatRgba()
      modifies this
      ensures Words() == [old(size), DdpfFourCC, FloatRgbaFourCC, old(rgbBitCount),
                          old(rBitMask), old(gBitMask), old(bBitMask), old(aBitMask)]
    {
      flags := DdpfFourCC;
      fourCC := FloatRgbaFourCC;
    }

    /** WriteTexture2D's pixel format for B8G8R8A8_UNorm: RGB with alpha,
        32 bits per pixel, blue in the low byte and alpha in the high one. */
    method DescribeBgra8()
      modifies this
      ensures Words() == [old(size), DdpfRgb + DdpfAlpha, 0, 32, 0x00ff_0000, 0x0000_ff00, 0x0000_00ff, 0xff00_0000]
    {
      flags := DdpfRgb + DdpfAlpha;
      fourCC := 0;
      rgbBitCount := 32;
      rBitMask := 0x00ff_0000;
      gBitMask := 0x0000_ff00;
      bBitMask := 0x0000_00ff;
      aBitMask := 0xff00_0000;
    }

    /** The structure packed as eight 'I' values: 32 bytes spelling the
        fields in declaration order, or `None` if a field does not fit. */
    function Serialize(): (r: Option<seq<byte>>)
      reads this
      ensures r.Some? <==> AllU32(Words())
      ensures r.Some? ==> |r.value| == 32 && UnpackU32s(r.value) == Words()
    {
      PackU32s(Words())
    }
  }

  /** DDS_HEADER: 18 32-bit fields, the pixel format as a 32-byte string,
      then 5 more 32-bit fields.  `looseCaps` is the extra attribute named
      `Caps` that WriteTexture2D assigns; no field is serialised from it. */
  class Header {
    var pixelFormat: PixelFormat
    var size: int
    var flags: int
    var height: int
    var width: int
    var pitchOrLinearSize: int
    var depth: int
    var mipMapCount: int
    var reserved1_0: int
    var reserved1_1: int
    var reserved1_2: int
    var reserved1_3: int
    var reserved1_4: int
    var reserved1_5: int
    var reserved1_6: int
    var reserved1_7: int
    var reserved1_8: int
    var reserved1_9: int
    var reserved1_10: int
    var caps: int
    var caps2: int
    var caps3: int
    var caps4: int
    var reserved2: int
    var looseCaps: int

    /** A fresh pixel format and every field 0 except the size, the
        structure's own byte count. */
    constructor ()
      ensures fresh(pixelFormat)
      ensures pixelFormat.size == 32 && pixelFormat.flags == 0 && pixelFormat.fourCC == 0
      ensures pixelFormat.rgbBitCount == 0 && pixelFormat.rBitMask == 0 && pixelFormat.gBitMask == 0
      ensures pixelFormat.bBitMask == 0 && pixelFormat.aBitMask == 0
      ensures size == 124 && flags == 0 && height == 0 && width == 0 && pitchOrLinearSize == 0
      ensures depth == 0 && mipMapCount == 0
      ensures reserved1_0 == 0 && reserved1_1 == 0 && reserved1_2 == 0 && reserved1_3 == 0
      ensures reserved1_4 == 0 && reserved1_5 == 0 && reserved1_6 == 0 && reserved1_7 == 0
      ensures reserved1_8 == 0 && reserved1_9 == 0 && reserved1_10 == 0
      ensures caps == 0 && caps2 == 0 && caps3 == 0 && caps4 == 0 && reserved2 == 0
    {
      pixelFormat := new PixelFormat();
      size := 124;
      flags := 0;
      height := 0;
      width := 0;
      pitchOrLinearSize := 0;
      depth := 0;
      mipMapCount := 0;
      reserved1_0, reserved1_1, reserved1_2, reserved1_3 := 0, 0, 0, 0;
      reserved1_4, reserved1_5, reserved1_6, reserved1_7 := 0, 0, 0, 0;
      reserved1_8, reserved1_9, reserved1_10 := 0, 0, 0;
      caps := 0;
      caps2 := 0;
      caps3 := 0;
      caps4 := 0;
      reserved2 := 0;
    }

    /** The 18 fields before the pixel format, in serialisation order. */
    function HeadWords(): seq<int>
      reads this
    {
      [size, flags, height, width, pitchOrLinearSize, depth, mipMapCount,
       reserved1_0, reserved1_1, reserved1_2, reserved1_3, reserved1_4, reserved1_5,
       reserved1_6, reserved1_7, reserved1_8, reserved1_9, reserved1_10]
    }

    /** The 5 fields after the pixel format. */
    function TailWords(): seq<int>
      reads this
    {
      [caps, caps2, caps3, caps4, reserved2]
    }

    /** WriteTexture2D's surface fields: the Caps|Height|Width|PixelFormat
        flags (distinct bits, so their sum), the size, the pitch, depth 1
        and the mip count; the DDSCAPS_TEXTURE value goes to the stray
        `Caps` attribute, so the serialised caps word keeps its value. */
    method DescribeSurface(w: int, h: int, pitch: int, mipCount: int)
      modifies this
      ensures HeadWords() == [old(size), DdsdCaps + DdsdHeight + DdsdWidth + DdsdPixelFormat, h, w, pitch, 1, mipCount,
                              old(reserved1_0), old(reserved1_1), old(reserved1_2), old(reserved1_3),
                              old(reserved1_4), old(reserved1_5), old(reserved1_6), old(reserved1_7),
                              old(reserved1_8), old(reserved1_9), old(reserved1_10)]
      ensures TailWords() == old(TailWords())
      ensures pixelFormat == old(pixelFormat) && looseCaps == CapsTexture
    {
      flags := DdsdCaps + DdsdHeight + DdsdWidth + DdsdPixelFormat;
      height := h;
      width := w;
      pitchOrLinearSize := pitch;
      depth := 1;
      mipMapCount := mipCount;
      looseCaps := CapsTexture;
    }

    /** All 31 words the header spells, the pixel format's inline. */
    function Words(): seq<int>
      reads this, pixelFormat
    {
      HeadWords() + pixelFormat.Words() + TailWords()
    }

    /** The header packed field group by field group: 124 bytes, the same
        bytes as its 31 words packed flat, or `None` if any field (the
        pixel format's included) does not fit. */
    function Serialize(): (r: Option<seq<byte>>)
      reads this, pixelFormat
      ensures r == PackU32s(Words())
      ensures r.Some? ==> |r.value| == 124
    {
      PackU32sAppend(HeadWords(), pixelFormat.Words());
      PackU32sAppend(HeadWords() + pixelFormat.Words(), TailWords());
      Join(Join(PackU32s(HeadWords()), pixelFormat.Serialize()), PackU32s(TailWords()))
    }
  }

  /** DDS_HEADER_DXT10: five 32-bit fields. */
  class HeaderDxt10 {
    var dxgiFormat: int
    var resourceDimension: int
    var miscFlag: int
    var arraySize: int
    var miscFlags2: int

    /** Unknown format and dimension, an array of one texture. */
    constructor ()
      ensures dxgiFormat == 0 && resourceDimension == 0 && miscFlag == 0
      ensures arraySize == 1 && miscFlags2 == 0
    {
      dxgiFormat := 0;
      resourceDimension := 0;
      miscFlag := 0;
      arraySize := 1;
      miscFlags2 := 0;
    }

    function Words(): seq<int>
      reads this
    {
      [dxgiFormat, resourceDimension, miscFlag, arraySize, miscFlags2]
    }

    /** The block packed as five 'I' values: 20 bytes. */
    function Serialize(): (r: Option<seq<byte>>)
      reads this
      ensures r.Some? <==> AllU32(Words())
      ensures r.Some? ==> |r.value| == 20 && UnpackU32s(r.value) == Words()
    {
      PackU32s(Words())
    }
  }

  /** DDSFile: a header and a DX10 extension block. */
  class DdsFile {
    var header: Header
    var headerDx10: HeaderDxt10

    /** A default header and extension block. */
    constructor ()
      ensures fresh(header) && fresh(header.pixelFormat) && fresh(headerDx10)
      ensures headerDx10.Words() == [0, 0, 0, 1, 0]
    {
      header := new Header();
      headerDx10 := new HeaderDxt10();
    }

    /** The extension block is written exactly when the pixel format's
        fourCC announces it. */
    predicate HasDx10()
      reads this, header, header.pixelFormat
    {
      header.pixelFormat.fourCC == Dx10FourCC
    }

    /** The words of the file's prologue: the magic, the header, and the
        extension block when announced. */
    function Words(): seq<int>
      reads this, header, header.pixelFormat, headerDx10
    {
      [Magic] + header.Words() + (if HasDx10() then headerDx10.Words() else [])
    }

    /** The magic and the header, plus the extension block when announced:
        128 or 148 bytes, the same bytes as the words packed flat. */
    function Serialize(): (r: Option<seq<byte>>)
      reads this, header, header.pixelFormat, headerDx10
      ensures r == PackU32s(Words())
      ensures r.Some? ==> |r.value| == if HasDx10() then 148 else 128
    {
      PackU32sSingle(Magic);
      PackU32sAppend([Magic], header.Words());
      if HasDx10() then
        PackU32sAppend([Magic] + header.Words(), headerDx10.Words());
        Join(Join(PackU32(Magic), header.Serialize()), headerDx10.Serialize())
      else
        assert Words() == [Magic] + header.Words();
        Join(PackU32(Magic), header.Serialize())
    }
  }

  /** The file WriteTexture2D writes to: whether it is open (opening
      truncates it), and the bytes it holds. */
  class FileSink {
    var isOpen: bool
    var contents: seq<byte>

    constructor ()
      ensures !isOpen && contents == []
    {
      isOpen := false;
      contents := [];
    }

    /** Opens the file for writing ('w+b'): it is emptied. */
    method Open()
      modifies this
      ensures isOpen && contents == []
    {
      isOpen := true;
      contents := [];
    }

    /** Appends bytes to an open file. */
    method Write(bytes: seq<byte>)
      requires isOpen
      modifies this
      ensures isOpen && contents == old(contents) + bytes
    {
      contents := contents + bytes;
    }

    /** Closes the file, as leaving the `with` block does; the bytes stay. */
    method Close()
      modifies this
      ensures !isOpen && contents == old(contents)
    {
      isOpen := false;
    }
  }

  /** The pixel-format words of the legacy header for 16-bit float RGBA
      (a fourCC code) and for 8-bit BGRA (bit count and channel masks). */
  function PixelFormatWordsFor(format: int): seq<int>
  {
    if format == R16G16B16A16Float then
      [32, DdpfFourCC, FloatRgbaFourCC, 0, 0, 0, 0, 0]
    else
      [32, DdpfRgb + DdpfAlpha, 0, 32, 0x00ff_0000, 0x0000_ff00, 0x0000_00ff, 0xff00_0000]
  }

  /** The 31 header words WriteTexture2D means to write, given the
      format's bytes per pixel: header size, the Caps|Height|Width|
      PixelFormat flags (distinct bits, so their sum), height, width,
      pitch, depth 1, the mip count, 11 reserved zeros, the pixel format,
      and 5 zero words, the caps word among them. */
  function HeaderWordsFor(width: int, height: int, format: int, mipCount: int, bpp: int): seq<int>
  {
    [124, DdsdCaps + DdsdHeight + DdsdWidth + DdsdPixelFormat, height, width, width * bpp, 1, mipCount,
     0, 0, 0, 0, 0, 0, 0, 0, 0, 0, 0]
    + PixelFormatWordsFor(format)
    + [0, 0, 0, 0, 0]
  }

  /** The words of WriteTexture2D's prologue: the magic, then the header. */
  function TextureWords(width: int, height: int, format: int, mipCount: int, bpp: int): seq<int>
  {
    [Magic] + HeaderWordsFor(width, height, format, mipCount, bpp)
  }

  /** The header WriteTexture2D fills for one of the two legacy formats:
      a fresh header with its surface fields and its pixel format set;
      the DDSCAPS_TEXTURE value goes to the stray `Caps` attribute. */
  method NewTextureHeader(width: int, height: int, format: int, mipCount: int, bpp: int)
      returns (header: Header)
    requires format == R16G16B16A16Float || format == B8G8R8A8UNorm
    ensures fresh(header) && fresh(header.pixelFormat)
    ensures header.Words() == HeaderWordsFor(width, height, format, mipCount, bpp)
    ensures header.pixelFormat.fourCC != Dx10FourCC
    ensures header.looseCaps == CapsTexture
  {
    header := new Header();
    header.DescribeSurface(width, height, width * bpp, mipCount);
    if format == R16G16B16A16Float {
      header.pixelFormat.DescribeFloatRgba();
    } else {
      header.pixelFormat.DescribeBgra8();
    }
    assert header.Words() == HeaderWordsFor(width, height, format, mipCount, bpp);
  }

  /** The file structure WriteTexture2D fills: a fresh header replaces the
      one the file structure came with, and the extension block names the
      format, though no fourCC announces it. */
  method BuildTexture(width: int, height: int, format: int, mipCount: int, bpp: int)
      returns (dds: DdsFile)
    requires format == R16G16B16A16Float || format == B8G8R8A8UNorm
    ensures fresh(dds) && fresh(dds.header) && fresh(dds.header.pixelFormat) && fresh(dds.headerDx10)
    ensures !dds.HasDx10()
    ensures dds.Words() == TextureWords(width, height, format, mipCount, bpp)
    ensures dds.headerDx10.Words() == [format, Texture2D, 0, 1, 0]
    ensures dds.header.looseCaps == CapsTexture
  {
    dds := new DdsFile();
    var dx := dds.headerDx10;
    var header := NewTextureHeader(width, height, format, mipCount, bpp);
    dds.header := header;
    dx.dxgiFormat := format;
    dx.resourceDimension := Texture2D;
    assert dx.Words() == [format, Texture2D, 0, 1, 0];
    assert dds.Words() == [Magic] + header.Words();
  }

  /** What a call of WriteTexture2D leaves behind: whether the file was
      opened (and so truncated, written and closed again), the bytes it
      holds, and the exception raised, if any. */
  datatype TextureWrite = TextureWrite(wasOpened: bool, contents: seq<byte>, outcome: Result<(), Error>)

  /** The prologue packed as 32 'I' values: 128 bytes that read back as
      its words, or `None` exactly when a surface field does not fit. */
  function Prologue(width: int, height: int, format: int, mipCount: int, bpp: int): (r: Option<seq<byte>>)
    requires format == R16G16B16A16Float || format == B8G8R8A8UNorm
    ensures r.Some? <==> SurfaceFits(width, height, mipCount, bpp)
    ensures r.Some? ==> |r.value| == 128 && UnpackU32s(r.value) == TextureWords(width, height, format, mipCount, bpp)
  {
    TextureWordsFit(width, height, format, mipCount, bpp);
    PackU32s(TextureWords(width, height, format, mipCount, bpp))
  }

  /** Every prologue word fits 32 unsigned bits exactly when the surface
      fields do: the others are constants that fit. */
  lemma TextureWordsFit(width: int, height: int, format: int, mipCount: int, bpp: int)
    requires format == R16G16B16A16Float || format == B8G8R8A8UNorm
    ensures AllU32(TextureWords(width, height, format, mipCount, bpp)) <==> SurfaceFits(width, height, mipCount, bpp)
  {
    var ws := TextureWords(width, height, format, mipCount, bpp);
    assert ws[3] == height && ws[4] == width && ws[5] == width * bpp && ws[7] == mipCount;
    if SurfaceFits(width, height, mipCount, bpp) {
      assert forall i :: 0 <= i < |ws| ==> 0 <= ws[i] < U32Limit;
    }
  }

  /** WriteTexture2D once the file is opened, given the packed prologue
      and the converted samples: the prologue can fail to pack, leaving an
      empty file; the conversion can fail after the prologue is written,
      leaving a prologue-only file; otherwise the file is the prologue
      followed by the samples. */
  function OpenedFile(prologue: Option<seq<byte>>, pixels: Result<seq<byte>, Error>): TextureWrite
  {
    match prologue
    case None => TextureWrite(true, [], Err(FieldRange))
    case Some(header) =>
      match pixels
      case Err(e) => TextureWrite(true, header, Err(e))
      case Ok(p) => TextureWrite(true, header + p, Ok(()))
  }

  /** WriteTexture2D step by step: the pitch lookup and the legacy-format
      test can fail before the file is opened; after that, the prologue
      spells TextureWords and the samples are converted to the format's
      sample type. */
  function TextureFile(width: int, height: int, format: int, mipCount: int, data: seq<bv32>, source: DataFormat): TextureWrite
  {
    match GetBytesPerPixel(format)
    case Err(e) => TextureWrite(false, [], Err(e))
    case Ok(bpp) =>
      if format != R16G16B16A16Float && format != B8G8R8A8UNorm then
        TextureWrite(false, [], Err(LegacyFormat(format)))
      else
        OpenedFile(Prologue(width, height, format, mipCount, bpp),
                   GetBytes(data, source, GetDataFormat(format).value))
  }

  /** Writes a 2D texture (WriteTexture2D): looks up the bytes per pixel,
      refuses formats without a legacy header, builds a fresh file
      structure with a fresh header, fills it, then opens the file and
      writes the serialised header and the converted samples. */
  method WriteTexture2D(file: FileSink, width: int, height: int, format: int, mipCount: int,
                        data: seq<bv32>, source: DataFormat)
      returns (outcome: Result<(), Error>)
    modifies file
    ensures var w := TextureFile(width, height, format, mipCount, data, source);
            outcome == w.outcome &&
            (w.wasOpened ==> !file.isOpen && file.contents == w.contents) &&
            (!w.wasOpened ==> file.isOpen == old(file.isOpen) && file.contents == old(file.contents))
  {
    ghost var w := TextureFile(width, height, format, mipCount, data, source);
    var bpp := GetBytesPerPixel(format);
    if bpp.Err? {
      assert w == TextureWrite(false, [], Err(bpp.error));
      return Err(bpp.error);
    }
    if format != R16G16B16A16Float && format != B8G8R8A8UNorm {
      assert w == TextureWrite(false, [], Err(LegacyFormat(format)));
      return Err(LegacyFormat(format));
    }
    assert w == OpenedFile(Prologue(width, height, format, mipCount, bpp.value),
                           GetBytes(data, source, GetDataFormat(format).value));
    outcome := WriteLegacy(file, width, height, format, mipCount, bpp.value, data, source);
  }

  /** The part of WriteTexture2D after the format checks: the file is
      opened, then the prologue and the converted samples are written,
      stopping at the first that fails. */
  method WriteLegacy(file: FileSink, width: int, height: int, format: int, mipCount: int, bpp: int,
                     data: seq<bv32>, source: DataFormat)
      returns (outcome: Result<(), Error>)
    requires format == R16G16B16A16Float || format == B8G8R8A8UNorm
    modifies file
    ensures var w := OpenedFile(Prologue(width, height, format, mipCount, bpp),
                                GetBytes(data, source, GetDataFormat(format).value));
            outcome == w.outcome && !file.isOpen && file.contents == w.contents
  {
    var dds := BuildTexture(width, height, format, mipCount, bpp);
    file.Open();
    var prologue := dds.Serialize();
    assert prologue == Prologue(width, height, format, mipCount, bpp);
    if prologue.None? {
      outcome := Err(FieldRange);
    } else {
      file.Write(prologue.value);
      assert file.contents == prologue.value;
      var target := GetDataFormat(format);
      var pixels := GetBytes(data, source, target.value);
      if pixels.Err? {
        outcome := Err(pixels.error);
      } else {
        file.Write(pixels.value);
        assert file.contents == prologue.value + pixels.value;
        outcome := Ok(());
      }
    }
    file.Close();
  }

  /** The header fields WriteTexture2D sets from its arguments all fit 32
      unsigned bits, the pitch included. */
  predicate SurfaceFits(width: int, height: int, mipCount: int, bpp: int)
  {
    0 <= width < U32Limit && 0 <= height < U32Limit && 0 <= mipCount < U32Limit
    && 0 <= width * bpp < U32Limit
  }

  /** The texture capability bit is never written: the value goes to the
      stray `Caps` attribute, and the serialised caps word stays 0. */
  lemma CapsWordIsZero(width: int, height: int, format: int, mipCount: int, bpp: int)
    requires format == R16G16B16A16Float || format == B8G8R8A8UNorm
    ensures |TextureWords(width, height, format, mipCount, bpp)| == 32
    ensures TextureWords(width, height, format, mipCount, bpp)[27] == 0
  {
  }

  /** A format other than the two legacy ones leaves the file unopened,
      with the lookup's IndexError outside the table and the legacy-format
      exception inside it. */
  lemma RejectedFormat(width: int, height: int, format: int, mipCount: int, data: seq<bv32>, source: DataFormat)
    ensures var w := TextureFile(width, height, format, mipCount, data, source);
            !w.wasOpened <==> format != R16G16B16A16Float && format != B8G8R8A8UNorm
    ensures var w := TextureFile(width, height, format, mipCount, data, source);
            format != R16G16B16A16Float && format != B8G8R8A8UNorm ==>
              w.contents == [] &&
              w.outcome == Err(if -FormatCount <= format < FormatCount then LegacyFormat(format) else FormatIndex(format))
  {
  }

  /** Past the two format checks, the outcome is decided once the file is
      opened, by the packed prologue and the converted samples. */
  lemma LegacyTextureFile(width: int, height: int, format: int, mipCount: int, data: seq<bv32>, source: DataFormat)
    requires format == R16G16B16A16Float || format == B8G8R8A8UNorm
    ensures TextureFile(width, height, format, mipCount, data, source)
            == OpenedFile(Prologue(width, height, format, mipCount, BytesPP[format]),
                          GetBytes(data, source, ConvertDataFormat[format]))
  {
  }

  /** A surface field that does not fit 32 bits leaves the opened file empty. */
  lemma OversizedSurface(width: int, height: int, format: int, mipCount: int, data: seq<bv32>, source: DataFormat)
    requires format == R16G16B16A16Float || format == B8G8R8A8UNorm
    requires !SurfaceFits(width, height, mipCount, BytesPP[format])
    ensures TextureFile(width, height, format, mipCount, data, source) == TextureWrite(true, [], Err(FieldRange))
  {
    LegacyTextureFile(width, height, format, mipCount, data, source);
  }

  /** Samples without a converter to the format's data type: the file holds
      the 128-byte prologue only, and the lookup's exception is raised. */
  lemma UnconvertibleSamples(width: int, height: int, format: int, mipCount: int, data: seq<bv32>, source: DataFormat)
    requires format == R16G16B16A16Float || format == B8G8R8A8UNorm
    requires SurfaceFits(width, height, mipCount, BytesPP[format])
    requires GetConverter(source, ConvertDataFormat[format]).Err?
    ensures var w := TextureFile(width, height, format, mipCount, data, source);
            w.wasOpened && |w.contents| == 128 && w.outcome == Err(GetConverter(source, ConvertDataFormat[format]).error)
  {
    LegacyTextureFile(width, height, format, mipCount, data, source);
  }

  /** Float samples saved as R16G16B16A16_Float: the prologue, then each
      sample as the two bytes of its half-float pattern, low byte first. */
  lemma HalfFloatTexture(width: int, height: int, mipCount: int, data: seq<bv32>)
    requires SurfaceFits(width, height, mipCount, 8)
    ensures var w := TextureFile(width, height, R16G16B16A16Float, mipCount, data, Float32);
            w.wasOpened && w.outcome == Ok(()) && |w.contents| == 128 + 2 * |data| &&
            forall i :: 0 <= i < |data| ==>
              HalfWord(w.contents[128 + 2 * i..128 + 2 * i + 2]) == Half.GetHalf(data[i])
  {
    TableFacts();
    LegacyTextureFile(width, height, R16G16B16A16Float, mipCount, data, Float32);
    GetBytesHalf(data);
    var prologue := Prologue(width, height, R16G16B16A16Float, mipCount, 8).value;
    var samples := F32ToF16(data);
    assert TextureFile(width, height, R16G16B16A16Float, mipCount, data, Float32)
           == TextureWrite(true, prologue + samples, Ok(()));
    forall i | 0 <= i < |data|
      ensures (prologue + samples)[128 + 2 * i..128 + 2 * i + 2] == samples[2 * i..2 * i + 2]
    {
    }
  }

  /** Float samples saved as B8G8R8A8_UNorm: without a NaN, the prologue
      and then one byte per sample; a NaN raises after the prologue. */
  lemma UNormTexture(width: int, height: int, mipCount: int, data: seq<bv32>)
    requires SurfaceFits(width, height, mipCount, 4)
    ensures var w := TextureFile(width, height, B8G8R8A8UNorm, mipCount, data, Float32);
            w.wasOpened && (w.outcome == Ok(()) <==> NoNaN(data)) &&
            (!NoNaN(data) ==> w.outcome == Err(NaNSample) && |w.contents| == 128)
    ensures var w := TextureFile(width, height, B8G8R8A8UNorm, mipCount, data, Float32);
            NoNaN(data) ==>
              |w.contents| == 128 + |data| &&
              forall i :: 0 <= i < |data| ==> Some(w.contents[128 + i]) == UNormByte(data[i])
  {
    TableFacts();
    LegacyTextureFile(width, height, B8G8R8A8UNorm, mipCount, data, Float32);
    GetBytesUNorm(data);
    var prologue := Prologue(width, height, B8G8R8A8UNorm, mipCount, 4).value;
    if NoNaN(data) {
      var samples := F32ToI8UNorm(data).value;
      assert TextureFile(width, height, B8G8R8A8UNorm, mipCount, data, Float32)
             == TextureWrite(true, prologue + samples, Ok(()));
      assert forall i :: 0 <= i < |data| ==> (prologue + samples)[128 + i] == samples[i];
    } else {
      assert TextureFile(width, height, B8G8R8A8UNorm, mipCount, data, Float32)
             == TextureWrite(true, prologue, Err(NaNSample));
    }
  }

  /** Integer samples saved as B8G8R8A8_UNorm: the prologue, then each
      sample clamped to a byte. */
  lemma IntegerTexture(width: int, height: int, mipCount: int, data: seq<bv32>, source: DataFormat)
    requires source == SInt32 || source == UInt8UNorm
    requires SurfaceFits(width, height, mipCount, 4)
    ensures var w := TextureFile(width, height, B8G8R8A8UNorm, mipCount, data, source);
            w.wasOpened && w.outcome == Ok(()) && |w.contents| == 128 + |data| &&
            forall i :: 0 <= i < |data| ==> w.contents[128 + i] == IntByte(data[i])
  {
    TableFacts();
    LegacyTextureFile(width, height, B8G8R8A8UNorm, mipCount, data, source);
    GetBytesInteger(data, source, UInt8UNorm);
    var prologue := Prologue(width, height, B8G8R8A8UNorm, mipCount, 4).value;
    var samples := I32ToI8UNorm(data);
    assert TextureFile(width, height, B8G8R8A8UNorm, mipCount, data, source)
           == TextureWrite(true, prologue + samples, Ok(()));
    assert forall i :: 0 <= i < |data| ==> (prologue + samples)[128 + i] == samples[i];
  }

  /** The pitch counts four samples per pixel: the format's bytes per pixel
      are four times the bytes one converted sample takes. */
  lemma PitchMatchesSamples(format: int)
    requires format == R16G16B16A16Float || format == B8G8R8A8UNorm
    ensures BytesPP[format] == 4 * SampleSize(ConvertDataFormat[format])
  {
  }
}
