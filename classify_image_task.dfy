/** The background work of one classification: encode the bitmap into the
    input tensor, run the network, reduce the "prob" output to its best label. */
module ClassifyImageTask {
  import opened Pixels
  import opened Tensor
  import opened Encoding
  import opened Ranking

  /** The colour encoder: visits the bitmap row by row, takes three mean
      entries per pixel and writes B, G, R less them at the pixel's position. */
  method WriteRgbBitmapAsFloat(image: Bitmap, mean: MeanBuffer, tensor: FloatTensor)
    requires image.Valid() && tensor.Valid() && mean.Valid()
    requires image.height == tensor.height && image.width == tensor.width && 3 <= tensor.channels
    requires 3 * |image.pixels| <= mean.Remaining()
    modifies mean`position, tensor.data
    ensures mean.Valid() && mean.position == old(mean.position) + 3 * |image.pixels|
    ensures tensor.data[..] == EncodeRgb(image.pixels, mean.contents, old(mean.position), tensor.channels, old(tensor.data[..]))
  {
    ghost var from := mean.position;
    ghost var base := tensor.data[..];
    StorageSize(tensor.height, tensor.width, tensor.channels, |base|, |image.pixels|);
    RgbProgressStart(image.pixels, mean.contents, from, tensor.channels, base);
    var y := 0;
    ghost var start: nat := 0;
    while y < image.height
      invariant y <= image.height && start == y * image.width
      invariant mean.Valid() && mean.position == from + 3 * start
      invariant RgbProgress(tensor.data[..], image.pixels, mean.contents, from, tensor.channels, base, start)
    {
      RowFits(y, image.width, image.height);
      WriteRgbRow(image, mean, tensor, y, start, from, base);
      y := y + 1;
      start := start + image.width;
    }
    StorageSize(image.height, image.width, 1, start, |image.pixels|);
    RgbProgressDone(tensor.data[..], image.pixels, mean.contents, from, tensor.channels, base);
  }

  /** The inner loop of the colour encoder: row y, left to right. */
  method WriteRgbRow(image: Bitmap, mean: MeanBuffer, tensor: FloatTensor, y: nat, ghost start: nat, ghost from: nat, ghost base: seq<real>)
    requires image.Valid() && tensor.Valid() && mean.Valid()
    requires image.height == tensor.height && image.width == tensor.width
    requires y < image.height && start == y * image.width && start + image.width <= |image.pixels|
    requires mean.position == from + 3 * start
    requires RgbProgress(tensor.data[..], image.pixels, mean.contents, from, tensor.channels, base, start)
    modifies mean`position, tensor.data
    ensures mean.Valid() && mean.position == from + 3 * (start + image.width)
    ensures RgbProgress(tensor.data[..], image.pixels, mean.contents, from, tensor.channels, base, start + image.width)
  {
    ghost var n := start;
    var x := 0;
    while x < image.width
      invariant x <= image.width && n == start + x
      invariant mean.Valid() && mean.position == from + 3 * n
      invariant RgbProgress(tensor.data[..], image.pixels, mean.contents, from, tensor.channels, base, n)
    {
      WriteRgbPixel(image, mean, tensor, y, x, n, from, base);
      x := x + 1;
      n := n + 1;
    }
  }

  /** The grayscale encoder: visits the bitmap row by row and writes each
      pixel's grey level less the next mean entry at the pixel's position. */
  method WriteGrayScaleBitmapAsFloat(image: Bitmap, mean: MeanBuffer, tensor: FloatTensor)
    requires image.Valid() && tensor.Valid() && mean.Valid()
    requires image.height == tensor.height && image.width == tensor.width && tensor.channels == 1
    requires |image.pixels| <= mean.Remaining()
    modifies mean`position, tensor.data
    ensures mean.Valid() && mean.position == old(mean.position) + |image.pixels|
    ensures tensor.data[..] == EncodeGray(image.pixels, mean.contents, old(mean.position))
  {
    ghost var from := mean.position;
    var y := 0;
    ghost var start: nat := 0;
    while y < image.height
      invariant y <= image.height && start == y * image.width
      invariant mean.Valid() && mean.position == from + start
      invariant GrayProgress(tensor.data[..], image.pixels, mean.contents, from, start)
    {
      RowFits(y, image.width, image.height);
      WriteGrayScaleRow(image, mean, tensor, y, start, from);
      y := y + 1;
      start := start + image.width;
    }
    assert start == |image.pixels|;
    assert image.pixels[..|image.pixels|] == image.pixels;
  }

  /** The inner loop of the grayscale encoder: row y, left to right. */
  method WriteGrayScaleRow(image: Bitmap, mean: MeanBuffer, tensor: FloatTensor, y: nat, ghost start: nat, ghost from: nat)
    requires image.Valid() && tensor.Valid() && mean.Valid()
    requires image.height == tensor.height && image.width == tensor.width && tensor.channels == 1
    requires y < image.height && start == y * image.width && start + image.width <= |image.pixels|
    requires mean.position == from + start
    requires GrayProgress(tensor.data[..], image.pixels, mean.contents, from, start)
    modifies mean`position, tensor.data
    ensures mean.Valid() && mean.position == from + start + image.width
    ensures GrayProgress(tensor.data[..], image.pixels, mean.contents, from, start + image.width)
  {
    ghost var n := start;
    var x := 0;
    while x < image.width
      invariant x <= image.width && n == start + x
      invariant mean.Valid() && mean.position == from + n
      invariant GrayProgress(tensor.data[..], image.pixels, mean.contents, from, n)
    {
      WriteGrayScalePixel(image, mean, tensor, y, x, n, from);
      x := x + 1;
      n := n + 1;
    }
  }

  /** One step of the colour encoder: pixel (y, x), the n-th in row-major
      order, takes the next three mean entries. */
  method WriteRgbPixel(image: Bitmap, mean: MeanBuffer, tensor: FloatTensor, y: nat, x: nat, ghost n: nat, ghost from: nat, ghost base: seq<real>)
    requires image.Valid() && tensor.Valid() && mean.Valid()
    requires image.height == tensor.height && image.width == tensor.width
    requires y < image.height && x < image.width && n == y * image.width + x && n < |image.pixels|
    requires mean.position == from + 3 * n
    requires RgbProgress(tensor.data[..], image.pixels, mean.contents, from, tensor.channels, base, n)
    modifies mean`position, tensor.data
    ensures mean.Valid() && mean.position == from + 3 * (n + 1)
    ensures RgbProgress(tensor.data[..], image.pixels, mean.contents, from, tensor.channels, base, n + 1)
  {
    var rgb := image.pixels[y * image.width + x];
    ghost var p := mean.position;
    var m0 := mean.Get();
    var m1 := mean.Get();
    var m2 := mean.Get();
    var b := Blue(rgb) as real - m0;
    var g := Green(rgb) as real - m1;
    var r := Red(rgb) as real - m2;
    ghost var before := tensor.data[..];
    assert [b, g, r] == RgbBlock(image.pixels[n], mean.contents, from + 3 * n);
    OffsetOfPixel(tensor, y, x, n);
    tensor.Write([b, g, r], y, x);
    RgbProgressStep(before, image.pixels, mean.contents, from, tensor.channels, base, n);
  }

  /** One step of the grayscale encoder: pixel (y, x), the n-th in row-major
      order, takes the next mean entry. */
  method WriteGrayScalePixel(image: Bitmap, mean: MeanBuffer, tensor: FloatTensor, y: nat, x: nat, ghost n: nat, ghost from: nat)
    requires image.Valid() && tensor.Valid() && mean.Valid()
    requires image.height == tensor.height && image.width == tensor.width && tensor.channels == 1
    requires y < image.height && x < image.width && n == y * image.width + x && n < |image.pixels|
    requires mean.position == from + n
    requires GrayProgress(tensor.data[..], image.pixels, mean.contents, from, n)
    modifies mean`position, tensor.data
    ensures mean.Valid() && mean.position == from + n + 1
    ensures GrayProgress(tensor.data[..], image.pixels, mean.contents, from, n + 1)
  {
    var rgb := image.pixels[y * image.width + x];
    var b := Blue(rgb) as real;
    var g := Green(rgb) as real;
    var r := Red(rgb) as real;
    var grayscale := r * 0.3 + g * 0.59 + b * 0.11;
    var m := mean.Get();
    grayscale := grayscale - m;
    ghost var before := tensor.data[..];
    assert grayscale == Luma(image.pixels[n]) - mean.contents[from + n];
    OffsetOfPixel(tensor, y, x, n);
    tensor.Write([grayscale], y, x);
    GrayProgressStep(before, image.pixels, mean.contents, from, n);
  }

  /** Row y + 1 starts one row width after row y, and it is still inside an
      image of h rows when y is. */
  lemma RowFits(y: nat, w: nat, h: nat)
    requires y < h
    ensures (y + 1) * w == y * w + w
    ensures (y + 1) * w <= w * h
  {
    MulMonotone(y + 1, h, w);
  }

  /** The flat offset of (y, x) is the pixel's row-major number times the channel count. */
  lemma OffsetOfPixel(tensor: FloatTensor, y: nat, x: nat, n: nat)
    requires n == y * tensor.width + x
    ensures tensor.Offset(y, x, 0) == n * tensor.channels
  {
  }

  /** The colour encoder has handled the first n pixels: the storage holds
      their blocks followed by the untouched rest of `base`. */
  ghost predicate RgbProgress(t: seq<real>, pixels: seq<Pixel>, mean: seq<real>, from: nat, c: nat, base: seq<real>, n: nat)
  {
    3 <= c && n <= |pixels| && from + 3 * |pixels| <= |mean| && |pixels| * c == |base| && n * c <= |base| &&
    t == EncodeRgb(pixels[..n], mean, from, c, base) + base[n * c..]
  }

  /** Before any pixel is handled the storage is the previous one. */
  lemma RgbProgressStart(pixels: seq<Pixel>, mean: seq<real>, from: nat, c: nat, base: seq<real>)
    requires 3 <= c && from + 3 * |pixels| <= |mean| && |pixels| * c == |base|
    ensures RgbProgress(base, pixels, mean, from, c, base, 0)
  {
    assert base[0 * c..] == base;
  }

  /** A tensor of h rows, w columns and c channels holds c elements per pixel
      of a w-by-h bitmap. */
  lemma StorageSize(h: nat, w: nat, c: nat, size: nat, pixels: nat)
    requires size == h * w * c && pixels == w * h
    ensures size == pixels * c
  {
  }

  /** Writing pixel n's block over the storage advances the progress by one pixel. */
  lemma RgbProgressStep(t: seq<real>, pixels: seq<Pixel>, mean: seq<real>, from: nat, c: nat, base: seq<real>, n: nat)
    requires RgbProgress(t, pixels, mean, from, c, base, n) && n < |pixels|
    ensures n * c + 3 <= |t|
    ensures RgbProgress(t[..n * c] + RgbBlock(pixels[n], mean, from + 3 * n) + t[n * c + 3..], pixels, mean, from, c, base, n + 1)
  {
    EncodeRgbStep(pixels, mean, from, c, base, n);
    var prefix := EncodeRgb(pixels[..n], mean, from, c, base);
    assert t[..n * c] == prefix;
    assert t[n * c + 3..] == base[n * c + 3..];
  }

  /** Once every pixel is handled the storage is exactly the encoding. */
  lemma RgbProgressDone(t: seq<real>, pixels: seq<Pixel>, mean: seq<real>, from: nat, c: nat, base: seq<real>)
    requires RgbProgress(t, pixels, mean, from, c, base, |pixels|)
    ensures t == EncodeRgb(pixels, mean, from, c, base)
  {
    assert pixels[..|pixels|] == pixels;
  }

  /** One step of the colour encoder: the block of pixel n follows the blocks
      of the pixels before it, and the rest of the storage is as it was. */
  lemma EncodeRgbStep(pixels: seq<Pixel>, mean: seq<real>, from: nat, c: nat, base: seq<real>, n: nat)
    requires 3 <= c && from + 3 * |pixels| <= |mean| && |pixels| * c <= |base| && n < |pixels|
    ensures (n + 1) * c == n * c + c && (n + 1) * c <= |base|
    ensures EncodeRgb(pixels[..n], mean, from, c, base) + RgbBlock(pixels[n], mean, from + 3 * n) + base[n * c + 3..] ==
      EncodeRgb(pixels[..n + 1], mean, from, c, base) + base[(n + 1) * c..]
  {
    NextBlock(n, c);
    MulMonotone(n + 1, |pixels|, c);
    var prefix := EncodeRgb(pixels[..n], mean, from, c, base);
    var block := RgbBlock(pixels[n], mean, from + 3 * n);
    var kept := base[n * c + 3 .. n * c + c];
    var rest := base[n * c + c..];
    assert pixels[..n + 1][..n] == pixels[..n] && pixels[..n + 1][n] == pixels[n];
    assert EncodeRgb(pixels[..n + 1], mean, from, c, base) == prefix + block + kept;
    assert base[n * c + 3..] == kept + rest;
    assert prefix + block + (kept + rest) == prefix + block + kept + rest;
  }

  /** The grayscale encoder has handled the first n pixels. */
  ghost predicate GrayProgress(t: seq<real>, pixels: seq<Pixel>, mean: seq<real>, from: nat, n: nat)
  {
    n <= |pixels| == |t| && from + |pixels| <= |mean| &&
    t[..n] == EncodeGray(pixels[..n], mean, from)
  }

  /** Writing pixel n's grey value advances the grayscale progress by one pixel. */
  lemma GrayProgressStep(t: seq<real>, pixels: seq<Pixel>, mean: seq<real>, from: nat, n: nat)
    requires GrayProgress(t, pixels, mean, from, n) && n < |pixels|
    ensures GrayProgress(t[..n] + [Luma(pixels[n]) - mean[from + n]] + t[n + 1..], pixels, mean, from, n + 1)
  {
    assert pixels[..n + 1][..n] == pixels[..n];
    var t' := t[..n] + [Luma(pixels[n]) - mean[from + n]] + t[n + 1..];
    assert t'[..n + 1] == t[..n] + [Luma(pixels[n]) - mean[from + n]];
  }

  /** The arg-max search: the lowest unselected index with the largest score
      above -1, or 0 when there is none. */
  method Top(values: array<real>, selected: array<bool>) returns (index: nat)
    requires values.Length == selected.Length
    ensures IsTop(values[..], selected[..], index)
  {
    index := 0;
    var max := Sentinel;
    var i := 0;
    while i < values.Length
      invariant i <= values.Length
      invariant ScanState(values[..], selected[..], i, index, max)
    {
      if !selected[i] && values[i] > max {
        max := values[i];
        index := i;
      }
      i := i + 1;
    }
    if !HasCandidate(values[..], selected[..]) {
      assert index == 0;
    }
  }

  /** After the search has looked at the first `i` entries: either no
      unselected one scored above -1 and `index` is still 0, or `index` is the
      first unselected one holding the largest score so far, `max`. */
  ghost predicate ScanState(a: seq<real>, sel: seq<bool>, i: nat, index: nat, max: real)
    requires |sel| == |a| && i <= |a|
  {
    if max == Sentinel then
      index == 0 && forall j :: 0 <= j < i && !sel[j] ==> a[j] <= Sentinel
    else
      index < i && !sel[index] && a[index] == max && max > Sentinel
      && (forall j :: 0 <= j < i && !sel[j] ==> a[j] <= max)
      && (forall j :: 0 <= j < index && !sel[j] ==> a[j] < max)
  }

  /** The top-k reduction: k rounds of the arg-max search, each marking its
      index as selected, as (index, score) pairs in round order. */
  method TopK(k: nat, scores: seq<real>) returns (top: seq<(nat, real)>)
    requires k == 0 || 0 < |scores|
    ensures |top| == k
    ensures forall s :: 0 <= s < k ==> top[s].0 < |scores| && top[s].1 == scores[top[s].0]
    ensures IsSelection(scores, Indices(top))
  {
    var values := new real[|scores|](j requires 0 <= j < |scores| => scores[j]);
    var selected := new bool[|scores|](_ => false);
    assert selected[..] == Marks(|scores|, []);
    top := [];
    var count := 0;
    while count < k
      invariant count <= k && |top| == count
      invariant values[..] == scores
      invariant selected[..] == Marks(|scores|, Indices(top))
      invariant forall s :: 0 <= s < count ==> top[s].0 < |scores| && top[s].1 == scores[top[s].0]
      invariant IsSelection(scores, Indices(top))
    {
      var index := Top(values, selected);
      TopInRange(scores, selected[..], index);
      SelectionExtend(scores, Indices(top), index);
      MarkOne(|scores|, Indices(top), index, selected[..]);
      selected[index] := true;
      assert Indices(top + [(index, values[index])]) == Indices(top) + [index];
      top := top + [(index, values[index])];
      count := count + 1;
    }
  }

  /** The indices of a list of (index, score) pairs. */
  function Indices(pairs: seq<(nat, real)>): (picks: seq<nat>)
    ensures |picks| == |pairs| && forall s :: 0 <= s < |pairs| ==> picks[s] == pairs[s].0
  {
    seq(|pairs|, s requires 0 <= s < |pairs| => pairs[s].0)
  }

  /** Marking one more index sets exactly that flag. */
  lemma MarkOne(n: nat, picks: seq<nat>, i: nat, flags: seq<bool>)
    requires i < n && flags == Marks(n, picks)
    ensures flags[i := true] == Marks(n, picks + [i])
  {
  }

  /** The name of the output layer whose scores are reported. */
  const OutputLayer: string := "prob"

  /** How the background work ends: the labels to report, or a failure. */
  datatype Delivery = ClassificationResult(labels: seq<string>) | ClassificationFailed

  /** The tensor the network is run on, for `c` channels: one grey level per
      pixel when c is 1, otherwise B, G, R at channels 0..2 of each position
      with the remaining channels left at zero; both less the mean image. */
  ghost function EncodedInput(pixels: seq<Pixel>, mean: seq<real>, c: nat): seq<real>
    requires (c == 1 || 3 <= c) && |mean| == |pixels| * c
  {
    if c == 1 then
      EncodeGray(pixels, mean, 0)
    else
      MulMonotone(3, c, |pixels|);
      EncodeRgb(pixels, mean, 0, c, seq(|mean|, _ => 0.0))
  }

  /** `result` is what the result assembly builds from the network's outputs:
      nothing when there is no "prob" output, otherwise the label of its best
      score followed by the text of that score. */
  ghost predicate ReportsTop(outputs: map<string, seq<real>>, labels: seq<string>, scoreText: real -> string, result: seq<string>)
  {
    if OutputLayer in outputs then
      exists i: nat :: IsBest(outputs[OutputLayer], i) && i < |outputs[OutputLayer]| && i < |labels|
        && result == [labels[i], scoreText(outputs[OutputLayer][i])]
    else
      result == []
  }

  /** The background work: gate on the mean image's length, encode the bitmap
      in the layout the last dimension selects, run the network and reduce
      its "prob" output to the top-1 label and score. */
  method Classify(shape: seq<nat>, image: Bitmap, mean: seq<real>, labels: seq<string>,
                  execute: seq<real> -> map<string, seq<real>>, scoreText: real -> string)
    returns (result: seq<string>, executed: bool)
    requires |shape| == 3 && image.Valid() && image.height == shape[0] && image.width == shape[1]
    requires shape[2] == 1 || 3 <= shape[2]
    requires forall t :: OutputLayer in execute(t) ==> 0 < |execute(t)[OutputLayer]| <= |labels|
    ensures executed <==> |mean| == shape[0] * shape[1] * shape[2]
    ensures !executed ==> result == []
    ensures executed ==> |mean| == |image.pixels| * shape[2]
    ensures executed ==> ReportsTop(execute(EncodedInput(image.pixels, mean, shape[2])), labels, scoreText, result)
  {
    var tensor := new FloatTensor(shape);
    var dimensions := tensor.Shape();
    var meanImage := new MeanBuffer(mean);
    if meanImage.Remaining() != tensor.Size() {
      return [], false;
    }
    StorageSize(tensor.height, tensor.width, tensor.channels, |mean|, |image.pixels|);
    var isGrayScale := dimensions[|dimensions| - 1] == 1;
    if !isGrayScale {
      MulMonotone(3, tensor.channels, |image.pixels|);
      WriteRgbBitmapAsFloat(image, meanImage, tensor);
    } else {
      WriteGrayScaleBitmapAsFloat(image, meanImage, tensor);
    }
    var input := tensor.Read();
    var outputs := execute(input);
    result := CollectResult(outputs, labels, scoreText);
    executed := true;
  }

  /** The result assembly: walks the outputs and, for the one named "prob",
      appends the label and the score text of its top-1 entry. */
  method CollectResult(outputs: map<string, seq<real>>, labels: seq<string>, scoreText: real -> string)
    returns (result: seq<string>)
    requires OutputLayer in outputs ==> 0 < |outputs[OutputLayer]| <= |labels|
    ensures ReportsTop(outputs, labels, scoreText, result)
  {
    result := [];
    var pending := outputs.Keys;
    while pending != {}
      invariant pending <= outputs.Keys
      invariant if OutputLayer in outputs && OutputLayer !in pending
        then ReportsTop(outputs, labels, scoreText, result) else result == []
      decreases |pending|
    {
      var key :| key in pending;
      if key == OutputLayer {
        var top := TopK(1, outputs[key]);
        assert Indices(top)[..0] == [];
        result := result + [labels[top[0].0], scoreText(top[0].1)];
      }
      pending := pending - {key};
    }
  }

  /** The completion step: a non-empty result is reported, an empty one is a failure. */
  function PostExecute(labels: seq<string>): (d: Delivery)
    ensures d.ClassificationResult? <==> 0 < |labels|
    ensures d.ClassificationResult? ==> d.labels == labels
  {
    if 0 < |labels| then ClassificationResult(labels) else ClassificationFailed
  }

  /** A run that got past the gate is reported exactly when the network
      produced a "prob" output, and then as a label and a score. */
  lemma DeliveredIffProb(outputs: map<string, seq<real>>, labels: seq<string>, scoreText: real -> string, result: seq<string>)
    requires ReportsTop(outputs, labels, scoreText, result)
    ensures PostExecute(result).ClassificationResult? <==> OutputLayer in outputs
    ensures OutputLayer in outputs ==> |result| == 2 && result[0] in labels
  {
    if OutputLayer in outputs {
      var i: nat :| IsBest(outputs[OutputLayer], i) && i < |outputs[OutputLayer]| && i < |labels|
        && result == [labels[i], scoreText(outputs[OutputLayer][i])];
      assert result[0] == labels[i];
    }
  }

  /** The grayscale input: element k is pixel k's grey level less mean entry k. */
  lemma GrayInputLayout(pixels: seq<Pixel>, mean: seq<real>, k: nat)
    requires |mean| == |pixels| * 1 && k < |pixels|
    ensures |EncodedInput(pixels, mean, 1)| == |pixels|
    ensures EncodedInput(pixels, mean, 1)[k] == Luma(pixels[k]) - mean[k]
  {
    EncodeGrayAt(pixels, mean, 0, k);
  }

  /** The colour input: element k*c + j is channel j (B, G, R) of pixel k less
      mean entry 3k + j for j < 3, and 0 for the channels beyond. */
  lemma RgbInputLayout(pixels: seq<Pixel>, mean: seq<real>, c: nat, k: nat, j: nat)
    requires 3 <= c && |mean| == |pixels| * c && k < |pixels| && j < c
    ensures 3 * k + 3 <= |mean| && k * c + j < |EncodedInput(pixels, mean, c)|
    ensures j < 3 ==> EncodedInput(pixels, mean, c)[k * c + j] == Channel(pixels[k], j) as real - mean[3 * k + j]
    ensures 3 <= j ==> EncodedInput(pixels, mean, c)[k * c + j] == 0.0
  {
    MulMonotone(3, c, |pixels|);
    EncodeRgbAt(pixels, mean, 0, c, seq(|mean|, _ => 0.0), k, j);
  }
}
