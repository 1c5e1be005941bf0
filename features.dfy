/** Assembly of the 30-entry feature vector of one image, in the fixed
    order consumers index by position:

      0-5    colour statistics of the decoded image (three channel means, then three std-devs)
      6-11   the same for its HSV conversion
      12-17  the same for its LAB conversion
      18     variance of the Laplacian of the grey image
      19-21  co-occurrence contrast, energy, homogeneity
      22     Shannon entropy of the grey image
      23-28  area, perimeter, circularity, solidity, aspect ratio, extent
      29     dark-pixel ratio
*/
module Features {
  import opened Raster
  import opened Quantization
  import opened Cooccurrence
  import opened Texture
  import opened Shape
  import opened Brightness

  /** The computations the extractor hands to NumPy, OpenCV and
      scikit-image, whose insides are not modelled. */
  datatype Library = Library(
    mean: Plane -> real,              // np.mean of one channel
    std: Plane -> real,               // np.std (population) of one channel
    laplacianVariance: Plane -> real, // cv2.Laplacian(gray, cv2.CV_64F).var()
    entropy: Plane -> real,           // skimage.measure.shannon_entropy
    contours: Plane -> seq<Contour>,  // Otsu threshold, then external contours
    sqrt: real -> real,               // the root inside graycoprops' energy
    pi: Positive)                     // np.pi

  /** Number of entries of the feature vector. */
  const FeatureCount := 30

  /** Appends the three channel means, then the three channel std-devs, of
      one colour image, leaving what was there before untouched. */
  method AppendColourStats(features: seq<real>, image: ColourImage, lib: Library) returns (extended: seq<real>)
    ensures |extended| == |features| + 6
    ensures extended[..|features|] == features
    ensures forall k :: 0 <= k < 3 ==>
      extended[|features| + k] == lib.mean(ChannelPlane(image, k)) &&
      extended[|features| + 3 + k] == lib.std(ChannelPlane(image, k))
  {
    extended := features;
    for i := 0 to 3
      invariant |extended| == |features| + i
      invariant extended[..|features|] == features
      invariant forall k :: 0 <= k < i ==> extended[|features| + k] == lib.mean(ChannelPlane(image, k))
    {
      extended := extended + [lib.mean(ChannelPlane(image, i))];
    }
    for i := 0 to 3
      invariant |extended| == |features| + 3 + i
      invariant extended[..|features|] == features
      invariant forall k :: 0 <= k < 3 ==> extended[|features| + k] == lib.mean(ChannelPlane(image, k))
      invariant forall k :: 0 <= k < i ==> extended[|features| + 3 + k] == lib.std(ChannelPlane(image, k))
    {
      extended := extended + [lib.std(ChannelPlane(image, i))];
    }
  }

  /** The feature vector of one image, given its 128 x 128 colour, HSV, LAB
      and grey versions. */
  method ExtractFeatures(img: ColourImage, hsv: ColourImage, lab: ColourImage, gray: Plane, lib: Library)
    returns (features: seq<real>)
    requires IsGrid(img, Side, Side) && IsGrid(hsv, Side, Side) && IsGrid(lab, Side, Side)
    requires IsGrid(gray, Side, Side) && IsGray(gray)
    ensures |features| == FeatureCount
    ensures forall k :: 0 <= k < 3 ==>
      && features[k] == lib.mean(ChannelPlane(img, k))
      && features[3 + k] == lib.std(ChannelPlane(img, k))
      && features[6 + k] == lib.mean(ChannelPlane(hsv, k))
      && features[9 + k] == lib.std(ChannelPlane(hsv, k))
      && features[12 + k] == lib.mean(ChannelPlane(lab, k))
      && features[15 + k] == lib.std(ChannelPlane(lab, k))
    ensures features[18] == lib.laplacianVariance(gray)
    ensures features[19] == Contrast(Glcm(QuantizedImage(gray)))
    ensures features[20] == Energy(Glcm(QuantizedImage(gray)), lib.sqrt)
    ensures features[21] == Homogeneity(Glcm(QuantizedImage(gray)))
    ensures features[22] == lib.entropy(gray)
    ensures features[23..29] == ShapeOf(lib.contours(gray), lib.pi).Values()
    ensures features[29] == DarkRatio(gray)
  {
    features := [];
    features := AppendColourStats(features, img, lib);
    ghost var rgbBlock := features;
    features := AppendColourStats(features, hsv, lib);
    assert forall k :: 0 <= k < 6 ==> features[k] == rgbBlock[k];
    ghost var hsvBlock := features;
    features := AppendColourStats(features, lab, lib);
    assert forall k :: 0 <= k < 12 ==> features[k] == hsvBlock[k];
    ghost var colour := features;

    features := features + [lib.laplacianVariance(gray)];
    var glcm := Glcm(QuantizedImage(gray));
    features := features + [Contrast(glcm)];
    features := features + [Energy(glcm, lib.sqrt)];
    features := features + [Homogeneity(glcm)];
    features := features + [lib.entropy(gray)];

    features := features + ShapeOf(lib.contours(gray), lib.pi).Values();

    PixelCountOfGrid(gray, Side, Side);
    features := features + [DarkRatio(gray)];
    assert features[..18] == colour;
  }

  /** A grey image whose values all fall in one band of sixteen has
      contrast 0, energy 1 and homogeneity 1 in slots 19-21. */
  lemma UniformBandTexture(gray: Plane, sqrt: real -> real)
    requires IsGrid(gray, Side, Side) && IsGray(gray)
    requires forall r, c :: 0 <= r < Side && 0 <= c < Side ==> gray[r][c] / BandWidth == gray[0][0] / BandWidth
    requires IsSquareRoot(sqrt)
    ensures Contrast(Glcm(QuantizedImage(gray))) == 0.0
    ensures Energy(Glcm(QuantizedImage(gray)), sqrt) == 1.0
    ensures Homogeneity(Glcm(QuantizedImage(gray))) == 1.0
  {
    var q := QuantizedImage(gray);
    AdjacentPairsOfGrid(q, Side, Side);
    TextureOfUniform(q, Quantize(gray[0][0]), sqrt);
  }
}
