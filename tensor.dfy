/** The two buffers the classification task works on: the engine's input
    tensor, written in place, and the mean image, read through a moving position. */
module Tensor {

  /** A float tensor of shape [height, width, channels], stored row-major with
      the channels of one (y, x) position adjacent. */
  class FloatTensor {
    const height: nat
    const width: nat
    const channels: nat
    const data: array<real>

    ghost predicate Valid()
      reads this
    {
      data.Length == height * width * channels
    }

    /** The dimensions as the engine reports them. */
    function Shape(): seq<nat>
      reads this
    {
      [height, width, channels]
    }

    /** The number of elements. */
    function Size(): nat
      reads this
    {
      height * width * channels
    }

    /** Where element (y, x, c) lives in the flat storage. */
    function Offset(y: nat, x: nat, c: nat): nat
      reads this
    {
      (y * width + x) * channels + c
    }

    /** A tensor of the given shape, every element zero. */
    constructor (shape: seq<nat>)
      requires |shape| == 3
      ensures Valid() && fresh(data)
      ensures Shape() == shape
      ensures data[..] == seq(shape[0] * shape[1] * shape[2], _ => 0.0)
    {
      height, width, channels := shape[0], shape[1], shape[2];
      data := new real[shape[0] * shape[1] * shape[2]](_ => 0.0);
    }

    /** Writes `values` to the channels of position (y, x), starting at channel 0;
        every other element keeps its value. */
    method Write(values: seq<real>, y: nat, x: nat)
      requires Valid() && y < height && x < width && |values| <= channels
      modifies data
      ensures Offset(y, x, 0) + |values| <= data.Length
      ensures data[..] == old(data[..])[..Offset(y, x, 0)] + values + old(data[..])[Offset(y, x, 0) + |values|..]
    {
      var o := (y * width + x) * channels;
      PositionInBounds(y, x);
      forall i | o <= i < o + |values| {
        data[i] := values[i - o];
      }
    }

    /** Copies the elements out, in storage order. */
    method Read() returns (s: seq<real>)
      ensures s == data[..]
    {
      s := data[..];
    }

    /** The channels of any (y, x) inside the tensor lie inside the storage. */
    lemma PositionInBounds(y: nat, x: nat)
      requires Valid() && y < height && x < width
      ensures Offset(y, x, 0) + channels <= data.Length
    {
      MulMonotone(y + 1, height, width);
      MulMonotone(y * width + x + 1, height * width, channels);
    }
  }

  lemma MulMonotone(a: nat, b: nat, c: nat)
    requires a <= b
    ensures a * c <= b * c
  {
  }

  /** A float buffer that hands out its elements in order, as `FloatBuffer.get()` does. */
  class MeanBuffer {
    const contents: seq<real>
    var position: nat

    ghost predicate Valid()
      reads this
    {
      position <= |contents|
    }

    /** How many elements are still to be read. */
    function Remaining(): nat
      reads this
      requires Valid()
    {
      |contents| - position
    }

    constructor (contents: seq<real>)
      ensures Valid() && this.contents == contents && position == 0
    {
      this.contents := contents;
      position := 0;
    }

    /** Returns the next element and advances past it. */
    method Get() returns (v: real)
      requires Valid() && position < |contents|
      modifies this`position
      ensures Valid() && position == old(position) + 1
      ensures v == contents[old(position)]
    {
      v := contents[position];
      position := position + 1;
    }
  }
}
