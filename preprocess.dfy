/** The per-value part of the image pre-processing: every 8-bit RGB channel
    value of the 224x224 crop is mapped from 0..255 onto [-1, 1] by
    v / 127.5 - 1 before the tensor is handed to the classifier.
    Values are exact reals; float32 rounding is not modelled. */
module Preprocess {

  /** One channel value of an RGB pixel, as decoded into a uint8 array. */
  type Channel = v: int | 0 <= v <= 255

  /** The normalisation formula applied to a single channel value. */
  function Normalize(v: Channel): (r: real)
    ensures -1.0 <= r <= 1.0
    // the formula is invertible: the original channel value is recovered
    ensures Denormalize(r) == v as real
  {
    v as real / 127.5 - 1.0
  }

  /** Inverse of Normalize on its range. */
  function Denormalize(r: real): (v: real)
  {
    (r + 1.0) * 127.5
  }

  /** The darkest value goes to -1, the brightest to 1 and the midpoint 127.5 to 0. */
  lemma NormalizeEndpoints()
    ensures Normalize(0) == -1.0
    ensures Normalize(255) == 1.0
    ensures Normalize(127) < 0.0 < Normalize(128)
  {
  }

  /** Brighter channel values give strictly larger tensor values, so the map is injective. */
  lemma NormalizeStrictlyIncreasing(a: Channel, b: Channel)
    requires a < b
    ensures Normalize(a) < Normalize(b)
  {
  }

  /** The range is centred: complementing a channel value negates its image. */
  lemma NormalizeSymmetric(v: Channel)
    ensures Normalize(255 - v) == -Normalize(v)
  {
  }

  /** The element-wise normalisation of a whole image array, flattened. */
  function NormalizeAll(pixels: seq<Channel>): (r: seq<real>)
    ensures |r| == |pixels|
    ensures forall i :: 0 <= i < |r| ==> -1.0 <= r[i] <= 1.0
    ensures forall i :: 0 <= i < |r| ==> Denormalize(r[i]) == pixels[i] as real
  {
    seq(|pixels|, i requires 0 <= i < |pixels| => Normalize(pixels[i]))
  }
}
