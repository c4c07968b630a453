/** Rendered textures (class Texture of Gen/Texture.py): a grid of pixels
    that is flattened into one sample list and handed to the DDS writer. */
module Textures {
  import opened Wrappers
  import opened Bytes
  import opened DdsFormats
  import opened SequenceConverter
  import opened Dds
  import Half
  import opened Pixels
  import opened RenderType

  /** The pixel getter used to flatten: `getRGBA` or `getBGRA`. */
  datatype Extractor = RGBAOrder | BGRAOrder

  /** Four channels in red, green, blue, alpha order as the extractor
      returns them. */
  function Ordered(e: Extractor, c: seq<bv32>): (r: seq<bv32>)
    requires |c| == 4
    ensures |r| == 4
  {
    if e == RGBAOrder then c else Swizzle(c)
  }

  /** The DDS format and pixel getter chosen for a colour source: 16-bit
      float RGBA for an HDR source, 8-bit BGRA otherwise. */
  function ChooseFormat(rgb: Item): (int, Extractor)
  {
    if IsHDR(rgb) then (R16G16B16A16Float, RGBAOrder) else (B8G8R8A8UNorm, BGRAOrder)
  }

  /** Every entry holds four channels. */
  predicate FourChannels(texels: seq<seq<bv32>>)
  {
    forall i :: 0 <= i < |texels| ==> |texels[i]| == 4
  }

  /** The samples of a run of pixels: each pixel's channels in the
      extractor's order, pixel after pixel. */
  function Flat(e: Extractor, texels: seq<seq<bv32>>): (r: seq<bv32>)
    requires FourChannels(texels)
    ensures |r| == 4 * |texels|
  {
    if texels == [] then [] else Flat(e, texels[..|texels| - 1]) + Ordered(e, texels[|texels| - 1])
  }

  /** Pixel i's samples are entries 4i to 4i + 3 of the flat list. */
  lemma {:induction false} FlatLayout(e: Extractor, texels: seq<seq<bv32>>, i: int)
    requires FourChannels(texels) && 0 <= i < |texels|
    ensures Flat(e, texels)[4 * i..4 * i + 4] == Ordered(e, texels[i])
  {
    var n := |texels| - 1;
    var front := Flat(e, texels[..n]);
    assert Flat(e, texels) == front + Ordered(e, texels[n]);
    if i < n {
      FlatLayout(e, texels[..n], i);
      assert (front + Ordered(e, texels[n]))[4 * i..4 * i + 4] == front[4 * i..4 * i + 4];
    }
  }

  /** The channels of a list of pixels, as `getRGBA` reads them. */
  function Texels(data: seq<Pixel>): (t: seq<seq<bv32>>)
    reads set p | p in data
    ensures |t| == |data| && FourChannels(t)
    ensures forall i :: 0 <= i < |data| ==> t[i] == data[i].GetRGBA()
  {
    if data == [] then [] else Texels(data[..|data| - 1]) + [data[|data| - 1].GetRGBA()]
  }

  /** Why writing a texture failed: an unknown render type id, or the DDS
      writer's error. */
  datatype WriteError = UnknownRenderType(renderType: int) | DdsError(error: Error)

  /** What writing a texture leaves behind: whether the file was opened, its
      contents, and how the call ended. */
  datatype TextureOutput = TextureOutput(wasOpened: bool, contents: seq<byte>, outcome: Result<(), WriteError>)

  /** The file `Texture.write` produces for textures with the given size,
      render type ids and pixel channels. */
  function TextureOutputFor(width: int, height: int, rgbSource: int, aSource: int, texels: seq<seq<bv32>>): TextureOutput
    requires FourChannels(texels)
  {
    match FromType(rgbSource)
    case Err(_) => TextureOutput(false, [], Err(UnknownRenderType(rgbSource)))
    case Ok(rgb) =>
      if FromType(aSource).Err? then
        TextureOutput(false, [], Err(UnknownRenderType(aSource)))
      else
        var (format, e) := ChooseFormat(rgb);
        var w := TextureFile(width, height, format, 1, Flat(e, texels), Float32);
        Reported(w)
  }

  /** The format chosen for a colour entry is one of the two the writer
      has a legacy header for: 16-bit float RGBA, read in RGBA order, for
      an HDR entry, and 8-bit BGRA, read with red and blue swapped,
      otherwise. */
  lemma ChosenFormat(rgb: Item)
    ensures var (format, e) := ChooseFormat(rgb);
            (format == R16G16B16A16Float <==> IsHDR(rgb)) &&
            (format == B8G8R8A8UNorm <==> !IsHDR(rgb)) &&
            (e == RGBAOrder <==> IsHDR(rgb))
  {
  }

  /** The file is opened exactly when both render type ids are known; an
      unknown id (the colour one first) is reported with the file left
      untouched. */
  lemma OpenedIffKnown(width: int, height: int, rgbSource: int, aSource: int, texels: seq<seq<bv32>>)
    requires FourChannels(texels)
    ensures var r := TextureOutputFor(width, height, rgbSource, aSource, texels);
            r.wasOpened <==> FromType(rgbSource).Ok? && FromType(aSource).Ok?
    ensures var r := TextureOutputFor(width, height, rgbSource, aSource, texels);
            !r.wasOpened ==>
              r.contents == [] &&
              r.outcome == Err(UnknownRenderType(if FromType(rgbSource).Err? then rgbSource else aSource))
  {
    if FromType(rgbSource).Ok? && FromType(aSource).Ok? {
      var (format, e) := ChooseFormat(FromType(rgbSource).value);
      ChosenFormat(FromType(rgbSource).value);
      var w := TextureFile(width, height, format, 1, Flat(e, texels), Float32);
      assert TextureOutputFor(width, height, rgbSource, aSource, texels) == Reported(w);
      RejectedFormat(width, height, format, 1, Flat(e, texels), Float32);
    }
  }

  /** The DDS writer's result, its error wrapped. */
  function Reported(w: TextureWrite): TextureOutput
  {
    TextureOutput(w.wasOpened, w.contents, if w.outcome.Ok? then Ok(()) else Err(DdsError(w.outcome.error)))
  }

  /** Sample k of a 16-bit float file: the two bytes after the prologue and
      the k samples before it, read as a half-float pattern. */
  function HalfSample(contents: seq<byte>, k: nat): bv32
    requires 128 + 2 * k + 2 <= |contents|
  {
    HalfWord(contents[128 + 2 * k..128 + 2 * k + 2])
  }

  /** Once both render types are known, the output is the DDS writer's on
      the format and pixel order the colour entry selects. */
  lemma FoundOutput(width: int, height: int, rgbSource: int, aSource: int, texels: seq<seq<bv32>>, rgb: Item)
    requires FromType(rgbSource) == Ok(rgb) && FromType(aSource).Ok? && FourChannels(texels)
    ensures TextureOutputFor(width, height, rgbSource, aSource, texels)
         == Reported(TextureFile(width, height, ChooseFormat(rgb).0, 1, Flat(ChooseFormat(rgb).1, texels), Float32))
  {
  }

  /** The 16-bit float file of a run of pixels: the prologue, then each
      pixel's red, green, blue and alpha as half-float patterns. */
  lemma {:induction false} HdrLayout(width: int, height: int, texels: seq<seq<bv32>>, w: TextureWrite, i: int, c: int)
    requires SurfaceFits(width, height, 1, 8) && FourChannels(texels)
    requires w == TextureFile(width, height, R16G16B16A16Float, 1, Flat(RGBAOrder, texels), Float32)
    requires 0 <= i < |texels| && 0 <= c < 4
    ensures w.wasOpened && w.outcome == Ok(()) && |w.contents| == 128 + 8 * |texels|
    ensures HalfSample(w.contents, 4 * i + c) == Half.GetHalf(texels[i][c])
  {
    var flat := Flat(RGBAOrder, texels);
    HalfFloatTexture(width, height, 1, flat);
    FlatLayout(RGBAOrder, texels, i);
    assert flat[4 * i + c] == flat[4 * i..4 * i + 4][c];
  }

  /** With a 16-bit float colour entry, `write` succeeds, and the file holds
      the 128-byte prologue and then, pixel after pixel, the half-float
      patterns of red, green, blue and alpha, two bytes each. */
  lemma HdrTexture(width: int, height: int, rgbSource: int, aSource: int,
                   texels: seq<seq<bv32>>, rgb: Item, w: TextureOutput, i: int, c: int)
    requires FromType(rgbSource) == Ok(rgb) && IsHDR(rgb) && FromType(aSource).Ok?
    requires SurfaceFits(width, height, 1, 8) && FourChannels(texels)
    requires w == TextureOutputFor(width, height, rgbSource, aSource, texels)
    requires 0 <= i < |texels| && 0 <= c < 4
    ensures w.wasOpened && w.outcome == Ok(()) && |w.contents| == 128 + 8 * |texels|
    ensures HalfSample(w.contents, 4 * i + c) == Half.GetHalf(texels[i][c])
  {
    FoundOutput(width, height, rgbSource, aSource, texels, rgb);
    HdrLayout(width, height, texels, TextureFile(width, height, R16G16B16A16Float, 1, Flat(RGBAOrder, texels), Float32), i, c);
  }

  /** No channel of any pixel is a NaN. */
  predicate ChannelsNoNaN(texels: seq<seq<bv32>>)
  {
    forall i, c :: 0 <= i < |texels| && 0 <= c < |texels[i]| ==> !IsNaN(texels[i][c])
  }

  /** The flat list holds a NaN exactly when some pixel does, whatever the
      channel order. */
  lemma FlatNoNaN(e: Extractor, texels: seq<seq<bv32>>)
    requires FourChannels(texels)
    ensures NoNaN(Flat(e, texels)) <==> ChannelsNoNaN(texels)
  {
    if NoNaN(Flat(e, texels)) {
      forall i, c | 0 <= i < |texels| && 0 <= c < |texels[i]|
        ensures !IsNaN(texels[i][c])
      {
        ChannelInFlat(e, texels, i, c);
      }
    }
    if ChannelsNoNaN(texels) {
      forall k | 0 <= k < 4 * |texels|
        ensures !IsNaN(Flat(e, texels)[k])
      {
        FlatEntry(e, texels, k);
      }
    }
  }

  /** Every channel of every pixel is somewhere in the flat list. */
  lemma ChannelInFlat(e: Extractor, texels: seq<seq<bv32>>, i: int, c: int)
    requires FourChannels(texels) && 0 <= i < |texels| && 0 <= c < 4
    ensures exists k :: 0 <= k < |Flat(e, texels)| && Flat(e, texels)[k] == texels[i][c]
  {
    var flat := Flat(e, texels);
    FlatLayout(e, texels, i);
    var k := if e == BGRAOrder && c != 1 && c != 3 then 2 - c else c;
    assert flat[4 * i + k] == flat[4 * i..4 * i + 4][k];
  }

  /** Every entry of the flat list is a channel of some pixel. */
  lemma FlatEntry(e: Extractor, texels: seq<seq<bv32>>, k: int)
    requires FourChannels(texels) && 0 <= k < 4 * |texels|
    ensures exists i, c :: 0 <= i < |texels| && 0 <= c < 4 && Flat(e, texels)[k] == texels[i][c]
  {
    var flat := Flat(e, texels);
    var i, c := k / 4, k % 4;
    FlatLayout(e, texels, i);
    assert flat[k] == flat[4 * i..4 * i + 4][c];
    var c' := if e == BGRAOrder && c != 1 && c != 3 then 2 - c else c;
    assert flat[k] == texels[i][c'];
  }

  /** The 8-bit file of a run of pixels: the prologue, then each pixel's
      blue, green, red and alpha scaled to a byte; a NaN channel anywhere
      stops the write after the prologue. */
  lemma {:induction false} LdrLayout(width: int, height: int, texels: seq<seq<bv32>>, w: TextureWrite)
    requires SurfaceFits(width, height, 1, 4) && FourChannels(texels)
    requires w == TextureFile(width, height, B8G8R8A8UNorm, 1, Flat(BGRAOrder, texels), Float32)
    ensures w.wasOpened && (w.outcome == Ok(()) <==> ChannelsNoNaN(texels))
    ensures !ChannelsNoNaN(texels) ==> w.outcome == Err(NaNSample) && |w.contents| == 128
    ensures ChannelsNoNaN(texels) ==> |w.contents| == 128 + 4 * |texels|
  {
    UNormTexture(width, height, 1, Flat(BGRAOrder, texels));
    FlatNoNaN(BGRAOrder, texels);
  }

  /** Byte c of pixel i in an 8-bit file is channel c of the pixel in blue,
      green, red, alpha order, scaled. */
  lemma {:induction false} LdrPixel(width: int, height: int, texels: seq<seq<bv32>>, w: TextureWrite, i: int, c: int)
    requires SurfaceFits(width, height, 1, 4) && FourChannels(texels) && ChannelsNoNaN(texels)
    requires w == TextureFile(width, height, B8G8R8A8UNorm, 1, Flat(BGRAOrder, texels), Float32)
    requires 0 <= i < |texels| && 0 <= c < 4
    ensures |w.contents| == 128 + 4 * |texels|
    ensures Some(w.contents[128 + 4 * i + c]) == UNormByte(Swizzle(texels[i])[c])
  {
    var flat := Flat(BGRAOrder, texels);
    UNormTexture(width, height, 1, flat);
    FlatNoNaN(BGRAOrder, texels);
    FlatLayout(BGRAOrder, texels, i);
    assert flat[4 * i + c] == flat[4 * i..4 * i + 4][c];
  }

  /** With an 8-bit colour entry, `write` opens the file and succeeds
      exactly when no channel is a NaN; byte c of pixel i is then channel c
      in blue, green, red, alpha order, scaled. */
  lemma LdrTexture(width: int, height: int, rgbSource: int, aSource: int,
                   texels: seq<seq<bv32>>, rgb: Item, w: TextureOutput, i: int, c: int)
    requires FromType(rgbSource) == Ok(rgb) && !IsHDR(rgb) && FromType(aSource).Ok?
    requires SurfaceFits(width, height, 1, 4) && FourChannels(texels)
    requires w == TextureOutputFor(width, height, rgbSource, aSource, texels)
    requires 0 <= i < |texels| && 0 <= c < 4
    ensures w.wasOpened && (w.outcome == Ok(()) <==> ChannelsNoNaN(texels))
    ensures ChannelsNoNaN(texels) ==>
              |w.contents| == 128 + 4 * |texels| && Some(w.contents[128 + 4 * i + c]) == UNormByte(Swizzle(texels[i])[c])
  {
    FoundOutput(width, height, rgbSource, aSource, texels, rgb);
    var file := TextureFile(width, height, B8G8R8A8UNorm, 1, Flat(BGRAOrder, texels), Float32);
    LdrLayout(width, height, texels, file);
    if ChannelsNoNaN(texels) {
      LdrPixel(width, height, texels, file, i, c);
    }
  }

  class Texture {
    const width: int
    const height: int
    /** The render type ids the texture's view selects for the colour
        channels and for alpha. */
    const rgbSource: int
    const aSource: int
    const data: seq<Pixel>

    /** Each pixel of the grid is an object of its own. */
    predicate Valid()
    {
      forall i, j :: 0 <= i < j < |data| ==> data[i] != data[j]
    }

    /** width * height new black, transparent pixels (none when the product
        is not positive, as `range` gives). */
    constructor (width: int, height: int, rgbSource: int, aSource: int)
      ensures this.width == width && this.height == height
      ensures this.rgbSource == rgbSource && this.aSource == aSource
      ensures |data| == if width * height > 0 then width * height else 0
      ensures Valid()
      ensures forall i :: 0 <= i < |data| ==> fresh(data[i]) && data[i].GetRGBA() == [0, 0, 0, 0]
    {
      var count := if width * height > 0 then width * height else 0;
      var pixels: seq<Pixel> := [];
      while |pixels| < count
        invariant |pixels| <= count
        invariant forall i, j :: 0 <= i < j < |pixels| ==> pixels[i] != pixels[j]
        invariant forall i :: 0 <= i < |pixels| ==> fresh(pixels[i]) && pixels[i].GetRGBA() == [0, 0, 0, 0]
      {
        var p := new Pixel();
        pixels := pixels + [p];
      }
      this.width := width;
      this.height := height;
      this.rgbSource := rgbSource;
      this.aSource := aSource;
      this.data := pixels;
    }

    /** The flattening loop of `write`: the extractor applied to every
        pixel in storage order, concatenated. */
    method Flatten(e: Extractor) returns (flat: seq<bv32>)
      ensures flat == Flat(e, Texels(data))
    {
      ghost var texels := Texels(data);
      flat := [];
      for i := 0 to |data|
        invariant flat == Flat(e, texels[..i])
      {
        var px := data[i];
        var c := if e == RGBAOrder then px.GetRGBA() else px.GetBGRA();
        assert texels[..i + 1][..i] == texels[..i];
        flat := flat + c;
      }
      assert texels[..|data|] == texels;
    }

    /** `write`: looks up both render types, picks the format from the
        colour type, flattens the pixels and writes a one-level texture
        of 32-bit float samples. */
    method Write(file: FileSink) returns (outcome: Result<(), WriteError>)
      modifies file
      ensures Delivered(TextureOutputFor(width, height, rgbSource, aSource, Texels(data)), outcome,
                        old(file.isOpen), old(file.contents), file.isOpen, file.contents)
    {
      ghost var w := TextureOutputFor(width, height, rgbSource, aSource, Texels(data));
      var rgb := FromType(rgbSource);
      if rgb.Err? {
        assert w == TextureOutput(false, [], Err(UnknownRenderType(rgbSource)));
        return Err(UnknownRenderType(rgbSource));
      }
      var alpha := FromType(aSource);
      if alpha.Err? {
        assert w == TextureOutput(false, [], Err(UnknownRenderType(aSource)));
        return Err(UnknownRenderType(aSource));
      }
      assert w == Reported(TextureFile(width, height, ChooseFormat(rgb.value).0, 1,
                                       Flat(ChooseFormat(rgb.value).1, Texels(data)), Float32));
      outcome := WriteFound(file, rgb.value);
    }

    /** The part of `write` after both lookups succeeded, for colour entry
        rgb. */
    method WriteFound(file: FileSink, rgb: Item) returns (outcome: Result<(), WriteError>)
      modifies file
      ensures var (format, e) := ChooseFormat(rgb);
              Delivered(Reported(TextureFile(width, height, format, 1, Flat(e, Texels(data)), Float32)), outcome,
                        old(file.isOpen), old(file.contents), file.isOpen, file.contents)
    {
      var (format, e) := ChooseFormat(rgb);
      var flat := Flatten(e);
      var written := WriteTexture2D(file, width, height, format, 1, flat, Float32);
      outcome := if written.Ok? then Ok(()) else Err(DdsError(written.error));
    }
  }

  /** A write ended as w says: same outcome; the file is closed again and
      holds w's contents when w opened it, and is as it was otherwise. */
  predicate Delivered(w: TextureOutput, outcome: Result<(), WriteError>,
                      wasOpen: bool, oldContents: seq<byte>, isOpen: bool, contents: seq<byte>)
  {
    outcome == w.outcome &&
    (w.wasOpened ==> !isOpen && contents == w.contents) &&
    (!w.wasOpened ==> isOpen == wasOpen && contents == oldContents)
  }
}
