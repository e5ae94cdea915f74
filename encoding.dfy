/** How the classification task turns a bitmap into the network's input:
    the colour layout (B, G, R per pixel) and the grayscale layout (one grey
    level per pixel), each less the mean image consumed in order. */
module Encoding {
  import opened Pixels
  import opened Tensor

  /** The three floats written for one pixel in the colour layout, blue first,
      less the mean entries mean[i], mean[i+1], mean[i+2]. */
  function RgbBlock(p: Pixel, mean: seq<real>, i: nat): seq<real>
    requires i + 3 <= |mean|
  {
    [Blue(p) as real - mean[i], Green(p) as real - mean[i + 1], Red(p) as real - mean[i + 2]]
  }

  /** The storage of a tensor with `c` channels per position after the colour
      encoder has visited `pixels` in row-major order: pixel k takes the three
      mean entries 3k, 3k+1, 3k+2, its channels 0..2 get B, G, R less those,
      and channels 3..c-1 keep what `base` (the previous storage) held there. */
  function EncodeRgb(pixels: seq<Pixel>, mean: seq<real>, from: nat, c: nat, base: seq<real>): (t: seq<real>)
    requires 3 <= c && from + 3 * |pixels| <= |mean| && |pixels| * c <= |base|
    ensures |t| == |pixels| * c
    decreases |pixels|
  {
    if |pixels| == 0 then []
    else
      var n := |pixels| - 1;
      EncodeRgb(pixels[..n], mean, from, c, base) + RgbBlock(pixels[n], mean, from + 3 * n) + base[n * c + 3 .. n * c + c]
  }

  /** The storage of a one-channel tensor after the grayscale encoder has
      visited `pixels`: pixel k becomes its grey level, computed from the raw
      channels, less mean entry from + k. */
  function EncodeGray(pixels: seq<Pixel>, mean: seq<real>, from: nat): (t: seq<real>)
    requires from + |pixels| <= |mean|
    ensures |t| == |pixels|
    decreases |pixels|
  {
    if |pixels| == 0 then []
    else
      var n := |pixels| - 1;
      EncodeGray(pixels[..n], mean, from) + [Luma(pixels[n]) - mean[from + n]]
  }

  /** The colour layout element by element: element k*c + j holds channel j
      (B, G, R for j = 0, 1, 2) of pixel k less mean entry 3k + j, and the
      elements past channel 2 are untouched. */
  lemma {:induction false} EncodeRgbAt(pixels: seq<Pixel>, mean: seq<real>, from: nat, c: nat, base: seq<real>, k: nat, j: nat)
    requires 3 <= c && from + 3 * |pixels| <= |mean| && |pixels| * c <= |base|
    requires k < |pixels| && j < c
    ensures k * c + j < |pixels| * c
    ensures EncodeRgb(pixels, mean, from, c, base)[k * c + j] ==
      if j < 3 then Channel(pixels[k], j) as real - mean[from + 3 * k + j] else base[k * c + j]
  {
    var n := |pixels| - 1;
    SlotInBlock(k, |pixels|, c, j);
    if k < n {
      SlotInBlock(k, n, c, j);
      MulMonotone(n, |pixels|, c);
      EncodeRgbAt(pixels[..n], mean, from, c, base, k, j);
      EncodeRgbKeepsPrefix(pixels, mean, from, c, base, k * c + j);
    } else {
      EncodeRgbLastBlock(pixels, mean, from, c, base, j);
    }
  }

  /** Encoding one more pixel leaves the elements of the earlier pixels alone. */
  lemma EncodeRgbKeepsPrefix(pixels: seq<Pixel>, mean: seq<real>, from: nat, c: nat, base: seq<real>, i: nat)
    requires 3 <= c && from + 3 * |pixels| <= |mean| && |pixels| * c <= |base|
    requires 0 < |pixels| && i < (|pixels| - 1) * c
    ensures i < |pixels| * c
    ensures EncodeRgb(pixels, mean, from, c, base)[i] == EncodeRgb(pixels[..|pixels| - 1], mean, from, c, base)[i]
  {
  }

  /** The last pixel's block sits at the end of the encoding. */
  lemma EncodeRgbLastBlock(pixels: seq<Pixel>, mean: seq<real>, from: nat, c: nat, base: seq<real>, j: nat)
    requires 3 <= c && from + 3 * |pixels| <= |mean| && |pixels| * c <= |base|
    requires 0 < |pixels| && j < c
    ensures (|pixels| - 1) * c + j < |pixels| * c
    ensures EncodeRgb(pixels, mean, from, c, base)[(|pixels| - 1) * c + j] ==
      if j < 3 then Channel(pixels[|pixels| - 1], j) as real - mean[from + 3 * (|pixels| - 1) + j] else base[(|pixels| - 1) * c + j]
  {
    var n := |pixels| - 1;
    NextBlock(n, c);
    var prefix := EncodeRgb(pixels[..n], mean, from, c, base);
    var block := RgbBlock(pixels[n], mean, from + 3 * n) + base[n * c + 3 .. n * c + c];
    assert |prefix| == n * c;
    assert EncodeRgb(pixels, mean, from, c, base)[n * c + j] == block[j];
  }

  /** n + 1 blocks of c slots end c slots after n blocks. */
  lemma NextBlock(n: nat, c: nat)
    ensures c * (n + 1) == n * c + c
  {
  }

  /** Slot j of block k lies before the end of n blocks of c slots. */
  lemma SlotInBlock(k: nat, n: nat, c: nat, j: nat)
    requires k < n && j < c
    ensures 0 <= k * c && k * c + j < n * c
  {
    MulMonotone(k + 1, n, c);
  }

  /** The grayscale layout element by element: element k is pixel k's grey
      level less mean entry from + k. */
  lemma {:induction false} EncodeGrayAt(pixels: seq<Pixel>, mean: seq<real>, from: nat, k: nat)
    requires from + |pixels| <= |mean| && k < |pixels|
    ensures EncodeGray(pixels, mean, from)[k] == Luma(pixels[k]) - mean[from + k]
  {
    var n := |pixels| - 1;
    if k < n {
      EncodeGrayAt(pixels[..n], mean, from, k);
    }
  }

  /** The colour layout puts blue first: a pixel with red 10, green 20 and
      blue 30 is written as 30, 20, 10 when the mean is zero. */
  lemma BlueFirst(alpha: bv8)
    ensures RgbBlock(Pack(alpha, 10, 20, 30), [0.0, 0.0, 0.0], 0) == [30.0, 20.0, 10.0]
  {
    UnpackPack(alpha, 10, 20, 30);
  }
}
