# PivotTool texture output, modelled in Dafny

PivotTool is a Maya plug-in that bakes per-object data for real-time shaders into textures. Each object is a static mesh or a joint of a skinned mesh's skeleton, and gets one pixel index. Examples of the data are pivot positions, axis vectors, parent indices, hierarchy depth and bounding-box extents. The textures are written as DDS files. This project models the core of that output path and proves properties of it:

- **Half-float codec** (`Util/Half.py`; module `Half`): the component-based binary32 ⇄ binary16 conversions. Floats are their 32-bit patterns (`bv32`). Flush-to-zero, clamping, truncation and the decoder's subnormal branch are modelled exactly as written.
- **DDS writer** (`Util/LwDDS.py`; modules `DdsFormats`, `SequenceConverter`, `Dds`, `Bytes`):
  - the format tables;
  - the sample converters and their dispatch;
  - the header structures as classes, serialised as little-endian 32-bit words;
  - `WriteTexture2D` against a file sink, with every exception as an `Err` outcome.
- **Textures and pixels** (`Gen/Texture.py`; modules `Pixels`, `Textures`):
  - the mutable pixel;
  - the texture's pixel array;
  - the choice of DDS format and channel order from the colour render type;
  - the flattening loop.
- **Producers** (`Gen/RenderFunctions.py`; module `RenderFunctions`):
  - `clamp`, `int16ToHalf`, `parentIndexInt`, `parentIndexFloat`, `stepsToRoot` and `extents`;
  - a dispatcher that applies any render type's producer to a pixel.

  Producers that query Maya read their values from a `Scene` parameter.
- **Render-type registry** (`Gen/RenderType.py`; module `RenderType`): the table of render types, precision and channel tests, `fromType`, `getAlphas` and `getRGBs`.
- **Index allocation** (`Gen/Builder.py`, `Gen/StaticMeshBuilder.py`, `Gen/SkinnedMeshBuilder.py`; modules `Builders`, `StaticMeshBuilder`, `SkinnedMeshBuilder`, `MeshRendering`):
  - `fillHierarchyInfo`, which gives every node's data builder a consecutive block of pixel indices;
  - the skinned builder's depth-first joint walk;
  - the texture-filling loops of both builders;
  - `getTextureDimension`.
- **Trees and skeletons** (`Gen/Trees.py`, `Gen/Skeleton.py`; modules `Trees`, `Skeleton`):
  - tree iteration and `filterByShape`;
  - relevance marking, pruning and splicing of a skin cluster's skeleton;
  - `findCommonBase`.

Trees are values. Maya's answers (children, shapes, influences, ancestor paths, transforms) are inputs to the model.

The `Rendered`, `DrawFrom`, `RenderFrom`, `TextureFile`, `Pruned`, `Filtered`, `JointEntries` and `Dimension` functions are the specifications. The imperative methods that mirror the source are proved against them, and the lemmas state what those functions promise.

## Model

| member | source | states |
|---|---|---|
| Half.FP32.ToSingle | plug-ins/PivotTool/Util/Half.py:20-22 | components within their field widths come back unchanged as the sign, exponent and mantissa fields of the pattern |
| Half.FP32.FromSingle | plug-ins/PivotTool/Util/Half.py:25-34 | the components are the pattern's three fields, each within its width, and recombining them gives the pattern back |
| Half.FloorLog2 | plug-ins/PivotTool/Util/Half.py:59 | for a non-zero 10-bit mantissa, the k below 10 with m >> k == 1, i.e. floor(log2 m) |
| Half.FP16.ToHalf | plug-ins/PivotTool/Util/Half.py:47-48 | valid components appear unchanged as the pattern's mantissa, exponent and sign fields |
| Half.FP16.ToSingle | plug-ins/PivotTool/Util/Half.py:50-69 | the sign is kept; zero decodes to zero; a normal exponent is rebiased by +112 and the mantissa widened by 13 bits; exponent 31 decodes to exponent 142, mantissa 1023 << 13 |
| Half.FP16.FromSingle | plug-ins/PivotTool/Util/Half.py:72-89 | valid components with the input's sign; exponent <= 112 flushes to zero; >= 143 clamps to exponent 30, mantissa 1023; otherwise exponent - 112 and the top 10 mantissa bits |
| Half.FP16.FromHalf | plug-ins/PivotTool/Util/Half.py:91-99 | the components are the pattern's fields, and ToHalf gives back its low 16 bits |
| Half.GetHalf | plug-ins/PivotTool/Util/Half.py:102-104 | the result fits 16 bits, keeps the sign, and never has exponent 31 (no Inf or NaN is written) |
| Half.ToSingle | plug-ins/PivotTool/Util/Half.py:107-108 | decoding keeps the half's sign |
| Half.GetHalfFlushesSmall | plug-ins/PivotTool/Util/Half.py:79-81 | a binary32 exponent <= 112 encodes as a signed zero |
| Half.GetHalfClampsLarge | plug-ins/PivotTool/Util/Half.py:82-84 | a binary32 exponent >= 143 (including Inf and NaN) encodes as the largest finite half of that sign |
| Half.GetHalfNormalExponent | plug-ins/PivotTool/Util/Half.py:85-87 | in range, the half exponent is the binary32 exponent minus 112 |
| Half.GetHalfNormalMantissa | plug-ins/PivotTool/Util/Half.py:85-87 | in range, the half mantissa is the top 10 bits of the binary32 mantissa (truncation, no rounding) |
| Half.ToSingleZero | plug-ins/PivotTool/Util/Half.py:54-57 | a zero half decodes to the zero of the same sign |
| Half.ToSingleNormalExponent | plug-ins/PivotTool/Util/Half.py:65-67 | a normal half's exponent is rebiased by +112 |
| Half.ToSingleNormalMantissa | plug-ins/PivotTool/Util/Half.py:65-67 | a normal half's mantissa is shifted into the top of the binary32 mantissa |
| Half.ToSingleTopExponent | plug-ins/PivotTool/Util/Half.py:62-64 | exponent 31 (Inf/NaN) decodes to the finite 65504 (0x477fe000) of that sign |
| Half.ToSingleSubnormalExponent | plug-ins/PivotTool/Util/Half.py:58-61 | for a subnormal half, the decoded exponent field is (103 + floor(log2 m)) OR 1, because the leading mantissa bit lands on bit 23 |
| Half.ToSingleSubnormalMantissa | plug-ins/PivotTool/Util/Half.py:58-61 | for a subnormal half, the decoded mantissa field is the shifted mantissa without its leading bit |
| Half.SubnormalQuirkExample | plug-ins/PivotTool/Util/Half.py:58-61 | half 0x0002 decodes to 0x34800000 (2^-22), although its value is 2^-23 |
| Half.HalfRoundTrip | plug-ins/PivotTool/Util/Half.py:102-108 | every zero or normal half survives decode-then-encode: GetHalf(ToSingle(h)) is h's low 16 bits |
| Half.TopExponentRoundTrip | plug-ins/PivotTool/Util/Half.py:62-64 | a half with exponent 31 comes back from decode-then-encode as the largest finite half of its sign |
| Half.SingleRoundTrip | plug-ins/PivotTool/Util/Half.py:102-108 | a binary32 in the half's normal range survives encode-then-decode up to its 13 low mantissa bits: the result is x & 0xffffe000 |
| DdsFormats.PyIndex | plug-ins/PivotTool/Util/LwDDS.py:222-229 | Python list indexing: defined exactly for -len <= i < len, with negative indices counting from the end |
| DdsFormats.GetBytesPerPixel | plug-ins/PivotTool/Util/LwDDS.py:222-224 | a table entry for every index Python accepts, the format's own entry for a non-negative format, and the IndexError otherwise |
| DdsFormats.GetDataFormat | plug-ins/PivotTool/Util/LwDDS.py:227-229 | the same for the conversion table |
| DdsFormats.TableFacts | plug-ins/PivotTool/Util/LwDDS.py:183-219 | both tables have 119 entries, one per format index; R16G16B16A16_Float has 8 bytes per pixel and Float16 samples, B8G8R8A8_UNorm has 4 bytes and UInt8_UNorm samples |
| SequenceConverter.Clamp | plug-ins/PivotTool/Util/LwDDS.py:342-348 | the result lies in the bounds when they are ordered, is the value when it is inside them, and the low bound wins when the value is below it |
| SequenceConverter.UNormByte | plug-ins/PivotTool/Util/LwDDS.py:355-358 | floor(x*255) clamped to a byte: NaN raises, negatives give 0, values >= 1 give 255, and values in between give the exact floor of 255·x |
| SequenceConverter.IntByte | plug-ins/PivotTool/Util/LwDDS.py:350-353 | a signed 32-bit sample clamped to 0..255 |
| SequenceConverter.I32ToI8UNorm | plug-ins/PivotTool/Util/LwDDS.py:350-353 | one clamped byte per sample, in order |
| SequenceConverter.F32ToI8UNorm | plug-ins/PivotTool/Util/LwDDS.py:355-358 | packs exactly when no sample is NaN, one UNorm byte per sample |
| SequenceConverter.F32ToF32 | plug-ins/PivotTool/Util/LwDDS.py:360-362 | four bytes per sample whose little-endian word is the sample's pattern |
| SequenceConverter.F32ToF16 | plug-ins/PivotTool/Util/LwDDS.py:364-367 | two bytes per sample whose little-endian half-word is GetHalf of the sample |
| SequenceConverter.GetConverter | plug-ins/PivotTool/Util/LwDDS.py:369-395 | a converter exactly for the pairs in the dispatch table; an unknown source or an unknown target raises its own exception |
| SequenceConverter.Apply | plug-ins/PivotTool/Util/LwDDS.py:397 | only the float-to-UNorm converter can fail (on a NaN), and the output length is the sample count times the target's sample size |
| SequenceConverter.GetBytes | plug-ins/PivotTool/Util/LwDDS.py:388-397 | fails exactly on a missing converter or a NaN for the UNorm target, with that error; otherwise it gives SampleSize(target) bytes per sample |
| SequenceConverter.GetBytesHalf | plug-ins/PivotTool/Util/LwDDS.py:376 | Float32 samples for a Float16 target go through F32ToF16 |
| SequenceConverter.GetBytesUNorm | plug-ins/PivotTool/Util/LwDDS.py:374 | Float32 samples for a UInt8_UNorm target go through F32ToI8UNorm |
| SequenceConverter.GetBytesInteger | plug-ins/PivotTool/Util/LwDDS.py:378-385 | integer samples for a byte target are clamped by I32ToI8UNorm |
| Bytes.PackU32 | plug-ins/PivotTool/Util/LwDDS.py:257-258 | struct's 'I' packs exactly the values 0..2^32-1, into 4 bytes that unpack to the value |
| Bytes.PackU16 | plug-ins/PivotTool/Util/LwDDS.py:367 | struct's 'H' packs exactly 0..2^16-1, into 2 bytes that unpack to the value |
| Bytes.WordBytes | plug-ins/PivotTool/Util/LwDDS.py:362 | the 4 little-endian bytes of a pattern read back as the pattern |
| Bytes.HalfWordBytes | plug-ins/PivotTool/Util/LwDDS.py:367 | the 2 little-endian bytes of a 16-bit pattern read back as the pattern |
| Bytes.WordBytesOfWord | plug-ins/PivotTool/Util/LwDDS.py:362 | the reverse round trip: any 4 bytes are the bytes of the word they spell |
| Bytes.UnsignedOfWord | plug-ins/PivotTool/Util/LwDDS.py:257-258 | the word's unsigned value equals the little-endian unpacking of its bytes |
| Bytes.PackU32s | plug-ins/PivotTool/Util/LwDDS.py:314-320 | a word list packs exactly when every word fits 32 bits, into 4 bytes per word that unpack to the list |
| Bytes.PackU32sAppend | plug-ins/PivotTool/Util/LwDDS.py:332-336 | packing a concatenation is concatenating the packings, failing if either part fails |
| Dds.PixelFormat.constructor | plug-ins/PivotTool/Util/LwDDS.py:264-274 | size 32 and every other field zero |
| Dds.PixelFormat.DescribeFloatRgba | plug-ins/PivotTool/Util/LwDDS.py:419-421 | sets the FourCC flag and FourCC 0x71 (D3DFMT_A16B16G16R16F), leaving the other words as they were |
| Dds.PixelFormat.DescribeBgra8 | plug-ins/PivotTool/Util/LwDDS.py:422-429 | sets RGB and alpha flags, 32 bits per pixel and the BGRA channel masks |
| Dds.PixelFormat.Serialize | plug-ins/PivotTool/Util/LwDDS.py:277-278 | succeeds exactly when all eight words fit 32 bits, giving 32 bytes that unpack to the words in field order |
| Dds.Header.constructor | plug-ins/PivotTool/Util/LwDDS.py:284-311 | size 124, a fresh all-zero pixel format with size 32, and every other field zero |
| Dds.Header.DescribeSurface | plug-ins/PivotTool/Util/LwDDS.py:407-413 | flags Caps, Height, Width and PixelFormat; height, width, pitch, depth 1 and the mip count; the caps words unchanged (the 0x1000 lands on a separate attribute) |
| Dds.Header.Serialize | plug-ins/PivotTool/Util/LwDDS.py:314-320 | packs the 31 header words, the pixel format in place; 124 bytes when it succeeds |
| Dds.HeaderDxt10.Serialize | plug-ins/PivotTool/Util/LwDDS.py:246-258 | succeeds exactly when its five words fit, giving 20 bytes that unpack to them |
| Dds.DdsFile.Serialize | plug-ins/PivotTool/Util/LwDDS.py:332-336 | magic "DDS " then the header, plus the DX10 header only when the FourCC is "DX10"; 148 or 128 bytes |
| Dds.FileSink.Open | plug-ins/PivotTool/Util/LwDDS.py:435 | 'w+b' leaves an open, empty file |
| Dds.FileSink.Write | plug-ins/PivotTool/Util/LwDDS.py:436-437 | appends the bytes to an open file |
| Dds.FileSink.Close | plug-ins/PivotTool/Util/LwDDS.py:435-437 | leaving the `with` block closes the file and keeps its bytes |
| Dds.NewTextureHeader | plug-ins/PivotTool/Util/LwDDS.py:406-431 | a fresh header whose words are the texture header for the format; its FourCC is never "DX10"; the loose caps attribute is 0x1000 |
| Dds.BuildTexture | plug-ins/PivotTool/Util/LwDDS.py:404-433 | a fresh file structure without a DX10 part, with the texture words, and the DX10 header naming the format and Texture2D |
| Dds.Prologue | plug-ins/PivotTool/Util/LwDDS.py:436 | the serialised prologue exists exactly when the surface fields fit 32 bits, and is 128 bytes spelling the texture words |
| Dds.TextureWordsFit | plug-ins/PivotTool/Util/LwDDS.py:407-413 | all texture words fit 32 bits exactly when height, width, pitch and mip count do |
| Dds.TextureFile | plug-ins/PivotTool/Util/LwDDS.py:403-437 | the specification of the write; its lemmas RejectedFormat, LegacyTextureFile, OversizedSurface, UnconvertibleSamples, HalfFloatTexture, UNormTexture and IntegerTexture state each outcome |
| Dds.WriteTexture2D | plug-ins/PivotTool/Util/LwDDS.py:403-437 | the outcome and the file's new state are those of TextureFile: a file that was opened is closed again and holds TextureFile's bytes; a failure before the file opens leaves it untouched |
| Dds.WriteLegacy | plug-ins/PivotTool/Util/LwDDS.py:435-437 | for a legacy format, the file is closed holding OpenedFile's contents for the prologue and the converted samples, with its outcome |
| Dds.CapsWordIsZero | plug-ins/PivotTool/Util/LwDDS.py:413 | the header's Caps word (word 27 of the prologue) is written as 0, not DDSCAPS_TEXTURE |
| Dds.RejectedFormat | plug-ins/PivotTool/Util/LwDDS.py:410-431 | any format but the two legacy ones leaves the file unopened and empty, failing with the IndexError outside the table and the legacy-format exception inside it |
| Dds.LegacyTextureFile | plug-ins/PivotTool/Util/LwDDS.py:419-437 | past the format checks, the result is OpenedFile for the prologue and the format's converted samples |
| Dds.OversizedSurface | plug-ins/PivotTool/Util/LwDDS.py:436 | a field too large for 32 bits fails the packing and leaves the opened file empty |
| Dds.UnconvertibleSamples | plug-ins/PivotTool/Util/LwDDS.py:436-437 | a missing converter leaves exactly the 128-byte prologue in the file, with the lookup's exception |
| Dds.HalfFloatTexture | plug-ins/PivotTool/Util/LwDDS.py:419-437 | an R16G16B16A16_Float file is the prologue plus the half pattern of every sample, 2 bytes each, little-endian |
| Dds.UNormTexture | plug-ins/PivotTool/Util/LwDDS.py:422-437 | a B8G8R8A8_UNorm file of float samples succeeds exactly without NaN: the prologue plus one UNorm byte per sample, else the prologue alone |
| Dds.IntegerTexture | plug-ins/PivotTool/Util/LwDDS.py:422-437 | a B8G8R8A8_UNorm file of integer samples is the prologue plus one clamped byte per sample |
| Dds.PitchMatchesSamples | plug-ins/PivotTool/Util/LwDDS.py:410-437 | for both legacy formats, the pitch's bytes per pixel are four converted samples |
| Pixels.Pixel.constructor | plug-ins/PivotTool/Gen/Texture.py:17-21 | all four channels start at zero |
| Pixels.Pixel.SetRGB | plug-ins/PivotTool/Gen/Texture.py:23-26 | the first three entries become the colour channels, and alpha is kept |
| Pixels.Pixel.SetA | plug-ins/PivotTool/Gen/Texture.py:28-29 | only the alpha channel changes |
| Pixels.Pixel.GetRGBA | plug-ins/PivotTool/Gen/Texture.py:37-38 | four channels, ending with alpha |
| Pixels.Pixel.GetRGB | plug-ins/PivotTool/Gen/Texture.py:34-35 | the first three channels of GetRGBA |
| Pixels.Pixel.GetBGRA | plug-ins/PivotTool/Gen/Texture.py:40-41 | the red/blue swap of GetRGBA |
| Textures.Ordered | plug-ins/PivotTool/Gen/Texture.py:76-80 | an extractor returns four channels |
| Textures.Flat | plug-ins/PivotTool/Gen/Texture.py:87-90 | four samples per pixel |
| Textures.FlatLayout | plug-ins/PivotTool/Gen/Texture.py:87-90 | samples 4i..4i+3 of the flat array are pixel i's channels in extractor order |
| Textures.Texels | plug-ins/PivotTool/Gen/Texture.py:68-69 | one four-channel entry per pixel, each the pixel's RGBA |
| Textures.FoundOutput | plug-ins/PivotTool/Gen/Texture.py:71-93 | with both render types known, writing is WriteTexture2D of the flattened pixels, in the format the colour type selects |
| Textures.HdrLayout | plug-ins/PivotTool/Gen/Texture.py:78-93 | in a half-float texture, channel c of pixel i is the half of that channel, at sample 4i+c |
| Textures.ChooseFormat | plug-ins/PivotTool/Gen/Texture.py:75-80 | the format and channel order picked from the colour type; ChosenFormat states them |
| Textures.ChosenFormat | plug-ins/PivotTool/Gen/Texture.py:75-80 | an HDR colour type gives 16-bit float RGBA read in RGBA order, any other gives 8-bit BGRA read with red and blue swapped |
| Textures.TextureOutputFor | plug-ins/PivotTool/Gen/Texture.py:71-93 | the specification of `write`; OpenedIffKnown, FoundOutput, HdrTexture and LdrTexture state its outcomes |
| Textures.OpenedIffKnown | plug-ins/PivotTool/Gen/Texture.py:71-93 | the file is opened exactly when both render type ids are known; otherwise nothing is written and the unknown id, the colour one first, is reported |
| Textures.HdrTexture | plug-ins/PivotTool/Gen/Texture.py:71-93 | an HDR colour type writes a full file, with every channel of every pixel as its half pattern in RGBA order |
| Textures.FlatNoNaN | plug-ins/PivotTool/Gen/Texture.py:87-90 | the flat array has no NaN exactly when no pixel channel is NaN |
| Textures.LdrLayout | plug-ins/PivotTool/Gen/Texture.py:76-93 | a BGRA8 texture succeeds exactly without NaN channels, else only the prologue is written |
| Textures.LdrPixel | plug-ins/PivotTool/Gen/Texture.py:76-93 | in a BGRA8 texture, byte 128+4i+c is the UNorm byte of channel c of pixel i's BGRA |
| Textures.LdrTexture | plug-ins/PivotTool/Gen/Texture.py:71-93 | an LDR colour type writes a BGRA8 file that succeeds exactly without NaN, each byte the UNorm of the swizzled channel |
| Textures.Texture.constructor | plug-ins/PivotTool/Gen/Texture.py:48-54 | width*height fresh pixels (none when the product is not positive), all zero, and the two render-type ids |
| Textures.Texture.Flatten | plug-ins/PivotTool/Gen/Texture.py:87-90 | the loop's result is the flat array of the pixels' channels in extractor order |
| Textures.Texture.Write | plug-ins/PivotTool/Gen/Texture.py:71-93 | the outcome and the file are those of the texture output for the render types and the current pixels; an unknown type fails before the file is touched |
| Textures.Texture.WriteFound | plug-ins/PivotTool/Gen/Texture.py:76-93 | with the colour type known, the file is WriteTexture2D's in the chosen format and order |
| RenderFunctions.Clamp | plug-ins/PivotTool/Gen/RenderFunctions.py:17-18 | the result lies in ordered bounds, is the value inside them, the low bound below them, and the high bound above them or when the bounds cross |
| RenderFunctions.ClampMatchesConverter | plug-ins/PivotTool/Gen/RenderFunctions.py:17-18 | for ordered bounds, this clamp and the DDS converter's agree |
| RenderFunctions.ClampCrossedBounds | plug-ins/PivotTool/Gen/RenderFunctions.py:17-18 | with crossed bounds they differ: clamp(4, 5, 3) is 3 here and 5 in the converter |
| RenderFunctions.HalfPattern | plug-ins/PivotTool/Gen/RenderFunctions.py:24 | an integer's low 16 bits read as half fields: mantissa, exponent and sign are the corresponding digit groups |
| RenderFunctions.Int16ToHalf | plug-ins/PivotTool/Gen/RenderFunctions.py:22-24 | the index plus 1024 read as a half and widened; Int16ToHalfRoundTrip and Int16ToHalfSaturates state what survives |
| RenderFunctions.Int16PatternNormal | plug-ins/PivotTool/Gen/RenderFunctions.py:23-24 | adding 1024 makes every index in 0..30719 a positive normal half pattern |
| RenderFunctions.Int16ToHalfRoundTrip | plug-ins/PivotTool/Gen/RenderFunctions.py:22-24 | for 0..30719, the float int16ToHalf produces encodes back to exactly the pattern i + 1024 |
| RenderFunctions.Int16ToHalfSaturates | plug-ins/PivotTool/Gen/RenderFunctions.py:22-24 | from 30720 to 31743, the pattern hits exponent 31 and encodes back as the largest finite half, so the index is lost |
| RenderFunctions.Float32OfIntBits | plug-ins/PivotTool/Gen/RenderFunctions.py:65 | the pattern of float(n) is the rounded binary32 encoding |
| RenderFunctions.Float32OfIntExact | plug-ins/PivotTool/Gen/RenderFunctions.py:60-65 | for 1 <= n < 2^24, the pattern's exponent and mantissa denote exactly n |
| RenderFunctions.Float32BitsExact | plug-ins/PivotTool/Gen/RenderFunctions.py:125-126 | for 1 <= n < 2^24, the pattern is biased floor(log2 n) followed by n's bits after the leading one |
| RenderFunctions.Float32OfZero | plug-ins/PivotTool/Gen/RenderFunctions.py:126 | float(0) is the all-zero pattern |
| RenderFunctions.ParentOrSelf | plug-ins/PivotTool/Gen/RenderFunctions.py:53-56 | the parent index when it is non-negative, else the node's own index |
| RenderFunctions.ParentIndexInt | plug-ins/PivotTool/Gen/RenderFunctions.py:52-57 | only alpha changes, to int16ToHalf of the parent-or-self index; for indices up to 30719 the stored half is exactly index + 1024 |
| RenderFunctions.ParentIndexFloat | plug-ins/PivotTool/Gen/RenderFunctions.py:60-65 | only alpha changes, to float(parent-or-self index) |
| RenderFunctions.StepsToRoot | plug-ins/PivotTool/Gen/RenderFunctions.py:125-126 | only alpha changes, to float(depth) |
| RenderFunctions.RenderedChannels | plug-ins/PivotTool/Gen/RenderFunctions.py:27-134 | a colour producer keeps alpha, and an alpha producer keeps the three colour channels |
| RenderFunctions.Extents3 | plug-ins/PivotTool/Gen/RenderFunctions.py:38-49 | the pixel becomes the three bounding-box distances with its original alpha |
| RenderFunctions.Render | plug-ins/PivotTool/Gen/RenderFunctions.py:27-134 | the pixel's new channels are the producer's specification applied to its old ones |
| RenderType.PrecisionBits | plug-ins/PivotTool/Gen/RenderType.py:57-64 | for the three precisions, HDR means FP16 or Both and LDR means U8 or Both |
| RenderType.ChannelKinds | plug-ins/PivotTool/Gen/RenderType.py:51-55 | an undefined flag is both alpha and RGB, False is RGB only, and True is alpha only |
| RenderType.TypesDistinct | plug-ins/PivotTool/Gen/RenderType.py:97-120 | no two registry items share a type id |
| RenderType.ItemsDistinct | plug-ins/PivotTool/Gen/RenderType.py:97-120 | no registry item occurs twice, so an item has one registry position |
| RenderType.FromType | plug-ins/PivotTool/Gen/RenderType.py:122-125 | an item exactly when some registry item has the id, and that item has the id; otherwise the unknown-type error |
| RenderType.FromTypeUnique | plug-ins/PivotTool/Gen/RenderType.py:122-125 | each registry item is what its own id looks up |
| RenderType.GetAlphas | plug-ins/PivotTool/Gen/RenderType.py:127-129 | an item is listed exactly when it is in the registry, shares a precision bit and is an alpha item, and the listed items keep their registry order |
| RenderType.GetRGBs | plug-ins/PivotTool/Gen/RenderType.py:131-133 | an item is listed exactly when it is in the registry and is an RGB item, and the listed items keep their registry order |
| RenderType.Call | plug-ins/PivotTool/Gen/RenderType.py:47-49 | the pixel's new channels are the item's Apply of its old ones (none for NoRender) |
| RenderType.Apply | plug-ins/PivotTool/Gen/RenderType.py:47-49 | four channels in, four out |
| RenderType.ItemsWriteTheirChannels | plug-ins/PivotTool/Gen/RenderType.py:97-120 | an item that is not alpha leaves alpha alone, and one that is not RGB leaves the colour channels alone |
| Lists.Select | plug-ins/PivotTool/Gen/RenderType.py:129 | a filter never grows a list |
| Lists.SelectMembers | plug-ins/PivotTool/Gen/RenderType.py:127-133 | an element survives the filter exactly when it was there and passes the test |
| Lists.SelectAppend | plug-ins/PivotTool/Gen/Skeleton.py:39 | filtering distributes over concatenation |
| Lists.IndexOf | plug-ins/PivotTool/Gen/Skeleton.py:101 | list.index: a position of the element with no earlier occurrence |
| Lists.SelectOrdered | plug-ins/PivotTool/Gen/RenderType.py:127-133 | in a list without repeats, a filter keeps the original order: of two selected entries the earlier one sits earlier in the list |
| Trees.Walk | plug-ins/PivotTool/Gen/Trees.py:68-73 | the callback calls of `_iterate`, in order; WalkVisits states which nodes and parents they carry |
| Trees.Iterate | plug-ins/PivotTool/Gen/Trees.py:65-66 | the walk from the root with no parent; RootFirst states its first call |
| Trees.WalkVisits | plug-ins/PivotTool/Gen/Trees.py:68-73 | the walk makes one call per named node of t: every call is for a named node of t, every named node of t gets a call, and every call but the start's carries the node's tree parent, itself a node of t |
| Trees.WalkAllVisits | plug-ins/PivotTool/Gen/Trees.py:72-73 | the same for a list of children: one call per named node of the subtrees, every such node gets a call, and each call carries either the shared parent (for a top child) or the node's tree parent inside the subtrees |
| Trees.RootFirst | plug-ins/PivotTool/Gen/Trees.py:65-66 | iterating a named tree visits the root first, with no parent |
| Trees.Filtered | plug-ins/PivotTool/Gen/Trees.py:45-62 | a kept tree keeps the node |
| Trees.FilteredIff | plug-ins/PivotTool/Gen/Trees.py:45-62 | a tree is kept exactly when some node in it has a target shape, and every kept node has a target below or at it |
| Trees.FilteredAllIff | plug-ins/PivotTool/Gen/Trees.py:55-60 | the same for a list of children |
| Trees.FilterIdempotent | plug-ins/PivotTool/Gen/Trees.py:45-62 | filtering a filtered tree changes nothing |
| Trees.FilterByShape | plug-ins/PivotTool/Gen/Trees.py:45-62 | the loop's result is the filtered tree |
| Skeleton.Mark | plug-ins/PivotTool/Gen/Skeleton.py:29-34 | marking keeps the node and the number of children |
| Skeleton.MarkFlags | plug-ins/PivotTool/Gen/Skeleton.py:29-34 | a node is relevant exactly when it is an influence, has relevant children exactly when an influence lies strictly below it, and erasing the marks gives the tree back |
| Skeleton.MarkAllFlags | plug-ins/PivotTool/Gen/Skeleton.py:30-31 | the same for a list of children |
| Skeleton.MarkWellMarked | plug-ins/PivotTool/Gen/Skeleton.py:29-34 | the flags are consistent throughout the marked tree |
| Skeleton.MarkNode | plug-ins/PivotTool/Gen/Skeleton.py:29-34 | the method's result is the marked tree |
| Skeleton.Pruned | plug-ins/PivotTool/Gen/Skeleton.py:37-52 | pruning keeps the node and its flags |
| Skeleton.PrunedChildrenRelevant | plug-ins/PivotTool/Gen/Skeleton.py:37-52 | after pruning, every child is itself relevant |
| Skeleton.PruneKeepsRelevant | plug-ins/PivotTool/Gen/Skeleton.py:37-52 | on a well-marked tree, the nodes below the pruned root are exactly the relevant ones below it, in depth-first order |
| Skeleton.KeepFlagged | plug-ins/PivotTool/Gen/Skeleton.py:39 | the kept children come from the original children |
| Skeleton.ThreeLoops | plug-ins/PivotTool/Gen/Skeleton.py:39-52 | filtering, pruning each kept child and splicing the irrelevant ones gives the pruned children |
| Skeleton.RemoveNodes | plug-ins/PivotTool/Gen/Skeleton.py:37-52 | the method's result is the pruned tree |
| Skeleton.FlaggedChildren | plug-ins/PivotTool/Gen/Skeleton.py:39 | the comprehension keeps the flagged children |
| Skeleton.Splice | plug-ins/PivotTool/Gen/Skeleton.py:44-52 | the loop's result is the spliced child list |
| Skeleton.RelevantAreInfluences | plug-ins/PivotTool/Gen/Skeleton.py:33 | the relevant nodes below a marked tree are exactly the influences below it |
| Skeleton.CompactedSkeleton | plug-ins/PivotTool/Gen/Skeleton.py:21-26 | the built skeleton keeps its root, holds exactly the influences below the root in depth-first order, and every child is relevant |
| Skeleton.FindCommonBase | plug-ins/PivotTool/Gen/Skeleton.py:89-108 | None without paths; otherwise None at common depth 0 and else the last node of the longest prefix all paths share at the same positions |
| Skeleton.CommonDepthPrefix | plug-ins/PivotTool/Gen/Skeleton.py:95-104 | at the common depth every path starts with the same prefix |
| Skeleton.CommonDepthUnique | plug-ins/PivotTool/Gen/Skeleton.py:95-104 | the common depth the loop stops at is unique |
| SkinnedMeshBuilder.Deepest | plug-ins/PivotTool/Gen/SkinnedMeshBuilder.py:83 | the running `max` over the records' depths; DeepestIsMax states that it is their maximum |
| SkinnedMeshBuilder.JointEntries | plug-ins/PivotTool/Gen/SkinnedMeshBuilder.py:73-83 | the records appended for a joint's subtree; JointEntriesConsecutive, JointEntriesFollowWalk and JointEntriesLinked state their indices, order and links |
| SkinnedMeshBuilder.SkeletonEntries | plug-ins/PivotTool/Gen/SkinnedMeshBuilder.py:53-59 | the records of a whole skeleton from the builder's start index; SkeletonEntriesShape states their shape |
| SkinnedMeshBuilder.DeepestIsMax | plug-ins/PivotTool/Gen/SkinnedMeshBuilder.py:83 | the running maximum depth bounds every record's depth and is either the start value or some record's depth |
| SkinnedMeshBuilder.JointEntriesConsecutive | plug-ins/PivotTool/Gen/SkinnedMeshBuilder.py:79-80 | joints get consecutive indices from the running index |
| SkinnedMeshBuilder.JointEntriesFollowWalk | plug-ins/PivotTool/Gen/SkinnedMeshBuilder.py:59-82 | one record per visited joint, in walk order, naming that joint |
| SkinnedMeshBuilder.JointEntriesLinked | plug-ins/PivotTool/Gen/SkinnedMeshBuilder.py:75-77 | every record is at the joint's depth or deeper; the joint's record links to the builder's parent, and every other record's parent index is the index of its tree parent's record: the nearest earlier record one level up, with only deeper records between |
| SkinnedMeshBuilder.SkeletonEntriesShape | plug-ins/PivotTool/Gen/SkinnedMeshBuilder.py:53-61 | a skeleton's records match the tree walk one for one, with indices start, start+1, ..., the root joint's record linked to the builder's parent (for a root without a joint, each top joint's record linked to the start index, the root's own index), and every other record linked to its tree parent's record |
| SkinnedMeshBuilder.SkinnedMeshDataBuilder.constructor | plug-ins/PivotTool/Gen/SkinnedMeshBuilder.py:41-61 | the records are the skeleton's entries from the start index, the maximum depth is their deepest, and the index count is their number |
| SkinnedMeshBuilder.SkinnedMeshDataBuilder.AssignSkeletonData | plug-ins/PivotTool/Gen/SkinnedMeshBuilder.py:73-83 | appends one record linked to its parent, advances the running index by one, and raises the maximum depth to the record's |
| SkinnedMeshBuilder.SkinnedMeshDataBuilder.IterateJoints | plug-ins/PivotTool/Gen/SkinnedMeshBuilder.py:59 | walking a subtree appends its joint entries and updates the running index and maximum depth accordingly |
| SkinnedMeshBuilder.SkinnedMeshDataBuilder.IterateChildren | plug-ins/PivotTool/Gen/Trees.py:72-73 | walking a child list appends the entries of all children in order |
| SkinnedMeshBuilder.SkinnedMeshDataBuilder.RenderTextures | plug-ins/PivotTool/Gen/SkinnedMeshBuilder.py:114-123 | the outcome and every texture's channels are RenderFrom over the builder's records |
| SkinnedMeshBuilder.SkeletonRendered | plug-ins/PivotTool/Gen/SkinnedMeshBuilder.py:114-123 | with every type known and room for the skeleton, each joint's pixel gets the colour then the alpha call, and pixels outside the block are untouched |
| StaticMeshBuilder.NewStaticMeshDataBuilder | plug-ins/PivotTool/Gen/StaticMeshBuilder.py:40-45 | the builder starts at the given index, sits one level below its parent, counts one index, and its one record names the mesh with those values |
| StaticMeshBuilder.StaticAsSingleJoint | plug-ins/PivotTool/Gen/StaticMeshBuilder.py:40-54 | a static mesh is bookkept as a one-joint skeleton: the same record, root index, maximum depth and count |
| StaticMeshBuilder.StaticRendered | plug-ins/PivotTool/Gen/StaticMeshBuilder.py:74-82 | every texture keeps its pixel count |
| StaticMeshBuilder.RenderTextures | plug-ins/PivotTool/Gen/StaticMeshBuilder.py:74-82 | the outcome and every texture's channels are StaticRendered's |
| StaticMeshBuilder.StaticGuard | plug-ins/PivotTool/Gen/StaticMeshBuilder.py:76-77 | a negative index changes nothing and succeeds; otherwise an unknown first colour type fails with its id |
| StaticMeshBuilder.StaticPixel | plug-ins/PivotTool/Gen/StaticMeshBuilder.py:79-82 | with every type known and the index in range, the mesh's pixel gets the colour then the alpha call, and no other pixel changes |
| MeshRendering.DrawFrom | plug-ins/PivotTool/Gen/SkinnedMeshBuilder.py:120-123 | the pixel count and the four-channel shape are kept |
| MeshRendering.DrawFromOk | plug-ins/PivotTool/Gen/SkinnedMeshBuilder.py:120-123 | drawing succeeds exactly when every record's index is below the pixel count |
| MeshRendering.DrawFromError | plug-ins/PivotTool/Gen/SkinnedMeshBuilder.py:123 | a failure is the IndexError of the first out-of-range index |
| MeshRendering.DrawFromUntouched | plug-ins/PivotTool/Gen/SkinnedMeshBuilder.py:120-123 | a pixel no record names keeps its channels |
| MeshRendering.DrawFromEach | plug-ins/PivotTool/Gen/SkinnedMeshBuilder.py:120-123 | with distinct in-range indices, each record's pixel is the render type applied once to its old channels |
| MeshRendering.DrawSource | plug-ins/PivotTool/Gen/SkinnedMeshBuilder.py:118-123 | the pixel count and shape are kept |
| MeshRendering.Pass | plug-ins/PivotTool/Gen/SkinnedMeshBuilder.py:117-123 | the pixel count and shape are kept |
| MeshRendering.PassEach | plug-ins/PivotTool/Gen/SkinnedMeshBuilder.py:117-123 | an unknown colour type fails before any pixel changes; with both types known, each record's pixel gets the colour then the alpha call |
| MeshRendering.PassUntouched | plug-ins/PivotTool/Gen/SkinnedMeshBuilder.py:117-123 | a pixel no record names keeps its channels |
| MeshRendering.Sources | plug-ins/PivotTool/Gen/Texture.py:62-66 | one pair of looked-up render types per texture |
| MeshRendering.RenderFrom | plug-ins/PivotTool/Gen/SkinnedMeshBuilder.py:116-123 | every texture keeps its pixel count and shape |
| MeshRendering.RenderFromKeeps | plug-ins/PivotTool/Gen/SkinnedMeshBuilder.py:116 | textures already filled are not touched again |
| MeshRendering.RenderFromEach | plug-ins/PivotTool/Gen/SkinnedMeshBuilder.py:116-123 | filling succeeds exactly when each texture's pass does, and then each texture holds its own pass's result |
| MeshRendering.RenderFromAll | plug-ins/PivotTool/Gen/SkinnedMeshBuilder.py:116-123 | with types known and distinct in-range indices, filling succeeds, each named pixel gets the colour then the alpha call, and the rest are untouched |
| MeshRendering.ChannelsOf | plug-ins/PivotTool/Gen/Texture.py:68-69 | one channel table per texture, each its Texels |
| MeshRendering.DrawEntries | plug-ins/PivotTool/Gen/SkinnedMeshBuilder.py:120-123 | the loop's outcome and pixels are DrawFrom's |
| MeshRendering.DrawSourceOn | plug-ins/PivotTool/Gen/SkinnedMeshBuilder.py:118-123 | the lookup and loop give DrawSource's outcome and pixels |
| MeshRendering.PassOn | plug-ins/PivotTool/Gen/SkinnedMeshBuilder.py:117-123 | both sources give Pass's outcome and pixels |
| MeshRendering.PassAt | plug-ins/PivotTool/Gen/SkinnedMeshBuilder.py:117-123 | one texture's pass leaves every other texture unchanged |
| MeshRendering.RenderEntries | plug-ins/PivotTool/Gen/SkinnedMeshBuilder.py:116-123 | the outcome and every texture's channels are RenderFrom's |
| Builders.SnapFrom | plug-ins/PivotTool/Gen/Builder.py:82-85 | the snapped size is at least the input, and is the input or a listed size |
| Builders.SnapLeast | plug-ins/PivotTool/Gen/Builder.py:79-85 | up to 1024, the snapped size is the least listed size at or above the input; above 1024 the input is kept |
| Builders.CeilSqrt | plug-ins/PivotTool/Gen/Builder.py:81 | the least s with s*s >= n |
| Builders.CeilSqrtUnique | plug-ins/PivotTool/Gen/Builder.py:81 | that s is unique |
| Builders.Dimension | plug-ins/PivotTool/Gen/Builder.py:77-93 | the as-written size for n objects; DimensionOfNone, DimensionSizes and DimensionShortOf33 state its values |
| Builders.DimensionOfNone | plug-ins/PivotTool/Gen/Builder.py:77-93 | zero objects give a 4x4 texture |
| Builders.DimensionSizes | plug-ins/PivotTool/Gen/Builder.py:77-93 | up to 1024² objects, the width is the least listed size >= ceil(sqrt n), and the height is the least listed size >= the floor quotient n / width |
| Builders.DimensionShortOf33 | plug-ins/PivotTool/Gen/Builder.py:87-91 | as written, 33 objects give 8x4, which has room for only 32 |
| Builders.FittingDimensionHoldsAll | plug-ins/PivotTool/Gen/Builder.py:77-93 | with ceiling division, both sides are listed sizes and the texture holds every object |
| Builders.Builder.constructor | plug-ins/PivotTool/Gen/Builder.py:19-22 | no indices handed out, depth 0, and the record invariant holds |
| Builders.Builder.FillHierarchyInfo | plug-ins/PivotTool/Gen/Builder.py:25-42 | a skinned builder exactly when a skeleton is given; it starts at the running total and links to the parent builder; the total grows by its index count; the depth follows it only below a parent; the records stay numbered 0, 1, ... |
| Builders.Builder.SnapSize | plug-ins/PivotTool/Gen/Builder.py:82-85 | the search loop's result is the snapped size |
| Builders.Builder.GetTextureDimension | plug-ins/PivotTool/Gen/Builder.py:77-93 | the method returns the dimension as written |
| Builders.RecordsFit | plug-ins/PivotTool/Gen/Builder.py:45-93 | every record handed out has a pixel in a texture of the corrected size; as written, the 33rd of 33 records has none |

## Left out

- Maya queries are inputs to the model:
  - `listRelatives`, `nodeType`, `xform`, `skinCluster` and `getSkinCluster`;
  - `getInfluenceNodes`, `getAllParents` and `getFullPath`;
  - the `TreeNode` constructor, `discoverNodeChildren` and `getMeshHierarchy`.

  A tree, a shape predicate, an influence list, ancestor paths or a `Scene` of values stand in for them.
- UV work (`layoutUVs`, `tryMakeUVSet`, `getUVCoordinate`, `polyEditUV`) is not modelled. It only moves UVs in Maya and does not touch the textures.
- The producers that only read Maya read from the `Scene`:
  - pivot and origin position;
  - the axis vectors;
  - the bounding-box distances and their LDR variants.

  Their arithmetic in Maya space (the `Util/Vector.py` helpers) is not part of this model.
- `normalizedStepsToRoot` (Gen/RenderFunctions.py:129-130) is not modelled; the model takes its alpha value from the `Scene`. It reads no Maya state: it divides the record's depth by the `mMaxDepth` of the global `Builder` passed as context. Both are ints, so Python 2 floor division writes the floored quotient: 0 for every record shallower than `mMaxDepth`. While `Builder.mMaxDepth` is still its initial 0 (Gen/Builder.py:21, raised only for an object with a parent at Gen/Builder.py:41-42), as for a hierarchy of one object, it raises ZeroDivisionError. Neither the floor division nor that exception is captured.
- `random01` (Gen/RenderFunctions.py:133-134) is not modelled; it writes a draw of `random.random()`, and the model takes that value from the `Scene`.
- Floating-point arithmetic is not modelled. A pixel channel is a binary32 pattern. Python floats are doubles that the source narrows only when it packs them (`struct.pack('f')` on the HDR path); the model narrows them when a channel is stored:
  - `float(n)` followed by that narrowing is `Float32OfInt`, rounding to nearest even;
  - `math.log(m, 2)` on a 10-bit mantissa is `FloorLog2`;
  - `math.ceil(math.pow(n, 0.5))` is the exact `CeilSqrt`;
  - `F32ToI8UNorm`'s `math.floor(c * 255)` on a binary32 channel is the exact floor of 255·x (see the SequenceConverter.UNormByte line below for the doubles the source holds).
- SequenceConverter.UNormByte: a channel is its binary32 pattern, but on the 8-bit path the source never narrows: `F32ToI8UNorm` floors `c * 255` on the Python double `c` held in the pixel (Util/LwDDS.py:355-358). A double that rounds up across a multiple of 1/255 when narrowed gives a different byte: 0.99999999, from `random01` or a bounding-box ratio, gives 254 in the source and 255 in the model, which first rounds it to 1.0.
- Textures.LdrTexture: its bytes are those of the channels narrowed to binary32, so it inherits the difference described for SequenceConverter.UNormByte.
- SequenceConverter.F32ToF16: the source packs each double with `struct.pack('f')`, which raises OverflowError for a finite double above the largest binary32. Samples in the model are binary32 patterns already, so that exception is not modelled on the HDR path.
- Builders.Dimension: a width or height above 1024 stays the unsnapped `math.ceil` value, a Python float. Its later use as a pixel count is not modelled.
- File names and paths (`tempfile`, `os.path.join`, `setOutputPath`, the name built from the views) are not modelled. The output file is a `FileSink` holding its bytes.
- `Builder.generateTextureInfo`, `Builder.writeTextures`, `Builder.renderTextures`, `Builder.layoutUVs` and the `BuildOutput.py` orchestration are not part of this model. They only iterate the hierarchy and call the modelled members.
- Trees and skeletons are values. The source's in-place updates of `TreeNode` fields (`mChildren`, `mIsRelevant`, `mIndex`) and any aliasing between nodes are not modelled.
- SkinnedMeshBuilder.SkinnedMeshDataBuilder.constructor requires every node below the skeleton root to name a joint. In the source, `_iterate` skips an unnamed node, so an unnamed leaf gets no record, but a named child of an unnamed node below the root raises AttributeError, because the unnamed parent never had `mDepth` or `mIndex` set. The model rejects such skeletons instead; the skeletons `getMeshHierarchy` builds name every node below the root.
- MeshRendering.RenderEntries requires the textures not to share pixel objects, which holds for textures built by `Texture.__init__`.
- RenderType.FromType: the source's fallback `NoRender` is a name not in scope inside the static method, so an unknown id raises NameError. The model returns `Err(UnknownType(id))` and writes nothing.
- Dds.WriteTexture2D: the header's field stores are grouped into helper methods (`NewTextureHeader`, `BuildTexture`, `DescribeSurface`, `DescribeFloatRgba`, `DescribeBgra8`). The file is opened only after the format checks, as in the source.
- Exception types are collapsed into an error datatype, and nothing models their messages.

## Findings

| source | as written | input that shows it | evidently intended | confidence | as-written member | corrected member |
|---|---|---|---|---|---|---|
| plug-ins/PivotTool/Gen/Builder.py:87-91 | once the width is snapped to an int, `inObjectCount / width` is Python 2 floor division, so `math.ceil` rounds nothing | 33 objects: width 8, height ceil(33/8 floored) = 4 snapped to 4, and 8x4 = 32 pixels for 33 indices | ceiling division, so width x height >= object count | not executed | Builders.DimensionShortOf33 | Builders.FittingDimensionHoldsAll |
