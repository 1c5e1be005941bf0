/** Reduction of 8-bit grey values to the 16 levels the co-occurrence
    matrix is built over: `(gray / 16).astype(uint8)`. */
module Quantization {
  import opened Raster

  /** Number of grey levels of the co-occurrence matrix (`levels=16`). */
  const Levels := 16

  /** Width of the band of grey values that share one level: the divisor
      of `gray / 16`. Together with `Levels` it covers 0..255 exactly, since
      `BandWidth * Levels == 256`. */
  const BandWidth := 16

  /** Every value of `q` is a level in 0..Levels-1. */
  predicate IsLevelImage(q: Plane)
  {
    forall r, c :: 0 <= r < |q| && 0 <= c < |q[r]| ==> 0 <= q[r][c] < Levels
  }

  /** The level of one grey value. Division by 16 gives a non-negative
      quotient here, so truncating it to an unsigned byte is the floor. */
  function Quantize(g: int): (level: int)
    requires 0 <= g <= 255
    ensures 0 <= level < Levels
    ensures BandWidth * level <= g < BandWidth * level + BandWidth
  {
    g / BandWidth
  }

  /** The quantised image, pixel by pixel. */
  function QuantizedImage(gray: Plane): (q: Plane)
    requires IsGray(gray)
    ensures |q| == |gray|
    ensures forall r :: 0 <= r < |gray| ==> |q[r]| == |gray[r]|
    ensures forall r, c :: 0 <= r < |gray| && 0 <= c < |gray[r]| ==> q[r][c] == Quantize(gray[r][c])
    ensures IsLevelImage(q)
  {
    seq(|gray|, r requires 0 <= r < |gray| =>
      seq(|gray[r]|, c requires 0 <= c < |gray[r]| => Quantize(gray[r][c])))
  }
}
