/** One texel of a rendered texture (class Pixel of Gen/Texture.py).
    Channels hold binary32 bit patterns: a texture is always written with
    32-bit float samples, so a channel is the float it will be packed as. */
module Pixels {

  class Pixel {
    var r: bv32
    var g: bv32
    var b: bv32
    var a: bv32

    /** All four channels 0 (the pattern of 0.0). */
    constructor ()
      ensures r == 0 && g == 0 && b == 0 && a == 0
    {
      r, g, b, a := 0, 0, 0, 0;
    }

    /** Overwrites red, green and blue from the first three elements of a
        vector; alpha keeps its value. */
    method SetRGB(v: seq<bv32>)
      requires |v| >= 3
      modifies this
      ensures GetRGBA() == v[..3] + [old(a)]
    {
      r, g, b := v[0], v[1], v[2];
    }

    /** Overwrites alpha only. */
    method SetA(x: bv32)
      modifies this
      ensures GetRGBA() == old(GetRGBA())[3 := x]
    {
      a := x;
    }

    function GetA(): bv32
      reads this
    {
      a
    }

    /** The channels in red, green, blue, alpha order. */
    function GetRGBA(): (c: seq<bv32>)
      reads this
      ensures |c| == 4 && c[3] == GetA()
    {
      [r, g, b, a]
    }

    /** Red, green and blue: the first three of GetRGBA. */
    function GetRGB(): (c: seq<bv32>)
      reads this
      ensures c == GetRGBA()[..3]
    {
      [r, g, b]
    }

    /** The channels in blue, green, red, alpha order: GetRGBA with the red
        and blue channels exchanged. */
    function GetBGRA(): (c: seq<bv32>)
      reads this
      ensures c == Swizzle(GetRGBA())
    {
      [b, g, r, a]
    }
  }

  /** Exchanges the first and third of four channels. */
  function Swizzle(c: seq<bv32>): seq<bv32>
    requires |c| == 4
  {
    [c[2], c[1], c[0], c[3]]
  }
}
