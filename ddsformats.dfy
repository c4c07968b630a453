/** Format identifiers and lookup tables of the DDS writer (Util/LwDDS.py):
    the sample data types, the DXGI format ids the writer knows by number,
    and the two 119-entry tables indexed by DXGI id. */
module DdsFormats {
  import opened Wrappers

  /** Sample data types available for conversion (class DataFormat, ids 0..11). */
  datatype DataFormat =
    | Unknown | UInt8 | SInt8 | UInt8UNorm | SInt16 | UInt16 | UInt16UNorm
    | SInt32 | UInt32 | UInt32UNorm | Float32 | Float16

  /** The exceptions the writer can raise, by cause. */
  datatype Error =
    | FormatIndex(format: int)            // the table lookup by DXGI id fails
    | LegacyFormat(format: int)           // neither of the two legacy-header formats
    | FieldRange                          // a header field does not fit 32 unsigned bits
    | NoSourceConverter(source: DataFormat)
    | NoTargetConverter(target: DataFormat)
    | NaNSample                           // a NaN sample reaches the 8-bit packer

  /** DXGI ids the writer can emit a legacy header for. */
  const R16G16B16A16Float: int := 10
  const B8G8R8A8UNorm: int := 87

  /** Number of DXGI ids, and so of entries in each table. */
  const FormatCount: int := 119

  /** Bytes per pixel by DXGI id, used for the pitch (DXGIFormat.BytesPP). */
  const BytesPP: seq<nat> :=
    [0]
    + [16, 16, 16, 16]                        // RGBA32
    + [12, 12, 12, 12]                        // RGB32
    + [8, 8, 8, 8, 8, 8]                      // RGBA16
    + [8, 8, 8, 8]                            // RG32
    + [8, 8, 8, 8]                            // R32G8X24 .. X32_G8X24
    + [4, 4, 4, 4]                            // RGBA10 .. RG11B10
    + [4, 4, 4, 4, 4, 4]                      // RGBA8
    + [4, 4, 4, 4, 4, 4]                      // RG16
    + [4, 4, 4, 4, 4, 4, 4, 4, 4]             // R32 .. X24G8
    + [2, 2, 2, 2, 2]                         // RG8
    + [2, 2, 2, 2, 2, 2, 2]                   // R16
    + [1, 1, 1, 1, 1, 1]                      // R8
    + [0]                                     // R1
    + [0]                                     // shared exponent
    + [0, 0]                                  // R8G8_B8G8, G8R8_G8B8
    + [0, 0, 0, 0, 0, 0, 0, 0, 0, 0, 0, 0, 0, 0, 0]   // BC1 .. BC5
    + [2, 2]                                  // B5G6R5, B5G5R5A1
    + [4, 4, 4, 4, 4, 4, 4]                   // BGRA8
    + [0, 0, 0, 0, 0, 0]                      // BC6H, BC7
    + [0, 0, 0, 0, 0, 0, 0, 0, 0, 0]          // YUV
    + [0, 0, 0, 0, 0, 0, 0, 0, 0]             // YUV

  /** Sample data type each DXGI id is stored as (DXGIFormat.ConvertDataFormat). */
  const ConvertDataFormat: seq<DataFormat> :=
    [Unknown, Unknown, Float32, UInt32, SInt32, Unknown, Float32, UInt32]
    + [SInt32, Unknown, Float16, UInt16UNorm, UInt16, Unknown, SInt16, Unknown]
    + [Float32, UInt32, SInt32, Unknown, Unknown, Unknown, Unknown, Unknown]
    + [Unknown, Unknown, Unknown, Unknown, UInt8UNorm, UInt8UNorm, UInt8, Unknown]
    + [SInt8, Unknown, Float16, UInt16UNorm, UInt16, Unknown, SInt16, Unknown]
    + [Float32, Float32, UInt32, SInt32, Unknown, Unknown, Unknown, Unknown]
    + [Unknown, UInt8UNorm, UInt8, Unknown, SInt8, Unknown, Float16, UInt16UNorm]
    + [UInt16UNorm, UInt16, Unknown, SInt16, Unknown, UInt8UNorm, UInt8, Unknown]
    + [SInt8, UInt8UNorm, Unknown, Unknown, Unknown, Unknown, Unknown, Unknown]
    + [Unknown, Unknown, Unknown, Unknown, Unknown, Unknown, Unknown, Unknown]
    + [Unknown, Unknown, Unknown, Unknown, Unknown, Unknown, Unknown, UInt8UNorm]
    + [UInt8UNorm, Unknown, Unknown, UInt8UNorm, Unknown, UInt8UNorm, Unknown, Unknown]
    + [Unknown, Unknown, Unknown, Unknown, Unknown, Unknown, Unknown, Unknown]
    + [Unknown, Unknown, Unknown, Unknown, Unknown, Unknown, Unknown, Unknown]
    + [Unknown, UInt8, UInt8, Unknown, Unknown, Unknown, Unknown]

  /** Python list indexing: an index in -|s|..-1 counts from the end, and
      any other index outside 0..|s|-1 raises IndexError (`None` here). */
  function PyIndex<T>(s: seq<T>, i: int): (r: Option<T>)
    ensures r.Some? <==> -|s| <= i < |s|
    ensures 0 <= i < |s| ==> r == Some(s[i])
    ensures -|s| <= i < 0 ==> r == Some(s[|s| + i])
  {
    if 0 <= i < |s| then Some(s[i]) else if -|s| <= i < 0 then Some(s[|s| + i]) else None
  }

  /** Bytes per pixel of a DXGI id (GetBytesPerPixel). */
  function GetBytesPerPixel(format: int): (r: Result<nat, Error>)
    ensures r.Ok? <==> -FormatCount <= format < FormatCount
    ensures 0 <= format < FormatCount ==> r == Ok(BytesPP[format])
    ensures r.Err? ==> r.error == FormatIndex(format)
  {
    match PyIndex(BytesPP, format)
    case Some(n) => Ok(n)
    case None => Err(FormatIndex(format))
  }

  /** Sample data type of a DXGI id (GetDataFormat). */
  function GetDataFormat(format: int): (r: Result<DataFormat, Error>)
    ensures r.Ok? <==> -FormatCount <= format < FormatCount
    ensures 0 <= format < FormatCount ==> r == Ok(ConvertDataFormat[format])
    ensures r.Err? ==> r.error == FormatIndex(format)
  {
    match PyIndex(ConvertDataFormat, format)
    case Some(d) => Ok(d)
    case None => Err(FormatIndex(format))
  }

  /** Both tables have one entry per DXGI id 0..118, and the two formats
      the writer emits are 8-byte half-float RGBA and 4-byte 8-bit BGRA. */
  lemma TableFacts()
    ensures |BytesPP| == FormatCount && |ConvertDataFormat| == FormatCount
    ensures BytesPP[R16G16B16A16Float] == 8 && BytesPP[B8G8R8A8UNorm] == 4
    ensures ConvertDataFormat[R16G16B16A16Float] == Float16
    ensures ConvertDataFormat[B8G8R8A8UNorm] == UInt8UNorm
  {
  }
}
