/** The images the feature extractor reads: 3-channel colour rasters and
    single-channel grey rasters, both as rows of pixels. */
module Raster {

  /** One pixel of a 3-channel, 8-bit raster, channels in storage order. */
  datatype Pixel = Pixel(c0: int, c1: int, c2: int)
  {
    function Channel(k: int): int
      requires 0 <= k < 3
    {
      if k == 0 then c0 else if k == 1 then c1 else c2
    }
  }

  type ColourImage = seq<seq<Pixel>>

  /** A single-channel raster: one integer per pixel. */
  type Plane = seq<seq<int>>

  /** Side of the square working image every feature is computed on. */
  const Side := 128

  predicate IsGrid<T>(image: seq<seq<T>>, rows: nat, cols: nat)
  {
    |image| == rows && forall r :: 0 <= r < |image| ==> |image[r]| == cols
  }

  /** An 8-bit grey raster: every value lies in 0..255. */
  predicate IsGray(gray: Plane)
  {
    forall r, c :: 0 <= r < |gray| && 0 <= c < |gray[r]| ==> 0 <= gray[r][c] <= 255
  }

  /** The single-channel plane `image[:, :, k]`. */
  function ChannelPlane(image: ColourImage, k: int): (plane: Plane)
    requires 0 <= k < 3
    ensures |plane| == |image|
    ensures forall r :: 0 <= r < |image| ==> |plane[r]| == |image[r]|
    ensures forall r, c :: 0 <= r < |image| && 0 <= c < |image[r]| ==> plane[r][c] == image[r][c].Channel(k)
  {
    seq(|image|, r requires 0 <= r < |image| =>
      seq(|image[r]|, c requires 0 <= c < |image[r]| => image[r][c].Channel(k)))
  }
}
