/** A bitmap pixel as the platform hands it out: one 32-bit ARGB word,
    alpha in bits 24-31, red in 16-23, green in 8-15, blue in 0-7. */
module Pixels {

  type Pixel = bv32

  /** A decoded bitmap: `pixels` holds `height` rows of `width` words, row-major,
      as a full-frame `getPixels` copy lays them out. */
  datatype Bitmap = Bitmap(width: nat, height: nat, pixels: seq<Pixel>) {
    ghost predicate Valid() {
      |pixels| == width * height
    }
  }

  /** The byte that starts at bit `shift` of the pixel word. */
  function ByteAt(p: Pixel, shift: bv5): bv8
  {
    ((p >> shift) & 0xFF) as bv8
  }

  /** Bits 0-7 of the pixel word. */
  function Blue(p: Pixel): (b: nat)
    ensures b < 256
  {
    ByteAt(p, 0) as nat
  }

  /** Bits 8-15 of the pixel word. */
  function Green(p: Pixel): (g: nat)
    ensures g < 256
  {
    ByteAt(p, 8) as nat
  }

  /** Bits 16-23 of the pixel word. */
  function Red(p: Pixel): (r: nat)
    ensures r < 256
  {
    ByteAt(p, 16) as nat
  }

  /** Channel `c` in the order the colour encoder consumes them: 0 is blue,
      1 is green, 2 is red. */
  function Channel(p: Pixel, c: nat): nat
    requires c < 3
  {
    if c == 0 then Blue(p) else if c == 1 then Green(p) else Red(p)
  }

  /** The grey level the grayscale encoder computes from the raw channels; the
      weights are the rounded luma coefficients of ITU-R Recommendation BT.601. */
  function Luma(p: Pixel): (r: real)
    ensures 0.0 <= r <= 255.0
  {
    0.3 * Red(p) as real + 0.59 * Green(p) as real + 0.11 * Blue(p) as real
  }

  /** Builds the ARGB word from its four channels: the inverse of the extraction. */
  function Pack(alpha: bv8, red: bv8, green: bv8, blue: bv8): Pixel
  {
    (alpha as bv32 << 24) | (red as bv32 << 16) | (green as bv32 << 8) | blue as bv32
  }

  /** Extraction recovers exactly the colour channels a pixel was packed from,
      whatever its alpha. */
  lemma UnpackPack(alpha: bv8, red: bv8, green: bv8, blue: bv8)
    ensures Red(Pack(alpha, red, green, blue)) == red as nat
    ensures Green(Pack(alpha, red, green, blue)) == green as nat
    ensures Blue(Pack(alpha, red, green, blue)) == blue as nat
  {
  }

  /** Every pixel is the packing of its own channels, so the three channels
      together with the alpha byte lose nothing. */
  lemma PackUnpack(p: Pixel)
    ensures Pack(ByteAt(p, 24), ByteAt(p, 16), ByteAt(p, 8), ByteAt(p, 0)) == p
  {
  }

  /** Bits 24-31 (alpha) never influence the channels nor the grey level. */
  lemma AlphaIgnored(p: Pixel, q: Pixel)
    requires p & 0x00FF_FFFF == q & 0x00FF_FFFF
    ensures Blue(p) == Blue(q) && Green(p) == Green(q) && Red(p) == Red(q)
    ensures Luma(p) == Luma(q)
  {
  }

  /** A grey pixel (all three channels equal to v) has grey level exactly v:
      the three weights add up to one. */
  lemma LumaOfGrey(p: Pixel)
    requires Red(p) == Green(p) == Blue(p)
    ensures Luma(p) == Red(p) as real
  {
  }
}
