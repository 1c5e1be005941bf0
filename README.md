# Feature extraction for vegetable-freshness images, modelled in Dafny

`extract_features` turns one image into a 30-entry vector, and a classifier reads that vector by position. It builds the vector by appending values to a list, in this order:

- three colour statistics blocks: the decoded image, then its HSV and LAB conversions. Each block holds the three channel means followed by the three channel std-devs.
- five texture values:
  - the variance of the Laplacian;
  - the contrast, energy and homogeneity of a 16-level grey-level co-occurrence matrix, taken at distance 1 and angle 0, symmetric and normalised (Haralick, Shanmugam and Dinstein, 1973);
  - the Shannon entropy.
- six shape values of the largest Otsu contour: area, perimeter, circularity, solidity, aspect ratio and extent. All six are zero when there is no contour.
- the share of grey pixels below 50.

The model keeps the logic that belongs to the extractor and proves what it promises:

- the length of the vector and the slot of each value;
- the quantisation of grey values to 16 levels;
- the co-occurrence matrix and its three properties;
- the choice of the primary contour;
- the guarded shape ratios;
- the dark-pixel ratio.

Everything computed inside NumPy, OpenCV or scikit-image is an opaque input. These values arrive through the `Features.Library` record: channel mean and std-dev, Laplacian variance, entropy, the contours and their measurements, the square root and pi. All arithmetic is exact (`int` and `real`).

Modules:

- `Sums`: exact sums over rows and matrices.
- `Raster`: pixels, images and channel planes.
- `Quantization`: grey values to 16 levels.
- `Cooccurrence`: the co-occurrence matrix.
- `Texture`: the properties computed by `graycoprops`.
- `Shape`: contour choice and ratios.
- `Brightness`: the dark-pixel ratio.
- `Features`: assembly of the vector.

Two of these properties are often quoted in other forms. The model follows the scikit-image calls the code makes:

- Homogeneity is weighted by `1 / (1 + (i - j)^2)`, not by `1 / (1 + |i - j|)`.
- Energy is the square root of the angular second moment `Σ P(i,j)^2`, not the moment itself.

The counting follows `graycomatrix`: a matrix with no adjacent pair (fewer than two columns) is divided by 1 instead of 0, so it stays all zero. `graycoprops` normalises its argument again, and this is proved to change nothing.

The colour blocks are labelled RGB in the code. OpenCV decodes images in BGR order, so channel 0 of the first block is blue. The model speaks only of channel `k` of each image.

One property is sharper in the model than in its usual informal statement. A guarded ratio is zero exactly when its denominator is zero or its numerator is zero, not only when the denominator is zero. `Shape.Quotient`, `Shape.Circularity` and `Shape.Describe` state this.

## Model

| member | source | states |
|---|---|---|
| `Features.AppendColourStats` | features.py:22-37 | appends six values to a block and leaves the earlier entries unchanged: the three channel means in channel order 0, 1, 2, then the three std-devs |
| `Features.ExtractFeatures` | features.py:19-88 | the vector has exactly 30 entries. Slots 0-5, 6-11 and 12-17 hold the colour, HSV and LAB blocks, each with means before std-devs. Slot 18 is the Laplacian variance. Slots 19-21 are contrast, energy and homogeneity of the co-occurrence matrix of the quantised grey image. Slot 22 is the entropy. Slots 23-28 are the shape block in the order area, perimeter, circularity, solidity, aspect ratio, extent. Slot 29 is the dark ratio |
| `Quantization.Quantize` | features.py:43 | a grey value 0..255 maps to a level in 0..15 whose band `16*level .. 16*level+15` contains it, i.e. the truncated quotient by 16. The band width (`BandWidth`, the divisor) and the level count (`Levels`) are separate constants, both 16 |
| `Quantization.QuantizedImage` | features.py:43 | the quantised image has the grey image's shape, holds each pixel's level, and every level is in 0..15 |
| `Cooccurrence.CountsMeaning` | features.py:44-49 | counting each horizontally adjacent pair and its reverse gives entry (i, j) = pairs (i, j) + pairs (j, i), i.e. P + Pᵀ. The total is twice the number of adjacent pairs |
| `Cooccurrence.NormalizedSum` | features.py:44-49 | after normalisation the entries sum to 1, or to 0 when they summed to 0 (the total 0 is replaced by 1) |
| `Cooccurrence.NormalizedIdempotent` | features.py:51-53 | normalising an already normalised matrix changes nothing, so the re-normalisation done by `graycoprops` has no effect |
| `Cooccurrence.GlcmProperties` | features.py:44-49 | the matrix is 16 × 16, symmetric, has no negative entry, and each entry is the share of pairs (i, j) and (j, i) among both orientations of all pairs. It sums to 1 when the image has an adjacent pair and is all zero otherwise |
| `Cooccurrence.AdjacentPairsOfGrid` | features.py:44-47 | a rows × cols image with at least one column has rows·(cols−1) horizontally adjacent pairs at distance 1, angle 0. The lemma does not cover an image with no columns |
| `Cooccurrence.GlcmOfUniform` | features.py:44-49 | when every pixel has the same level v and there is a pair, the matrix is the single cell (v, v) equal to 1 |
| `Texture.ContrastWeight` | features.py:51 | the contrast weight `(i−j)^2` is non-negative and zero exactly on the diagonal |
| `Texture.HomogeneityWeight` | features.py:53 | the homogeneity weight `1/(1+(i−j)^2)` lies in (0, 1] and equals 1 exactly on the diagonal |
| `Texture.TextureOfUniform` | features.py:51-53 | for a uniform quantised image with at least one horizontally adjacent pair: contrast 0, homogeneity 1, angular second moment 1, and energy 1 for an exact square root. A uniform image with one column has an all-zero matrix, so the lemma does not apply to it |
| `Texture.TextureBounds` | features.py:51-53 | for every quantised image: contrast ≥ 0, and homogeneity, angular second moment and energy (exact root) all lie in [0, 1] |
| `Features.UniformBandTexture` | features.py:43-53 | a 128 × 128 grey image whose values all fall in one band of sixteen has slot values contrast 0, energy 1 and homogeneity 1 |
| `Shape.PrimaryIndex` | features.py:64 | picks a contour whose area is ≥ every contour's area, and the first such contour (all earlier ones are strictly smaller), as Python's `max` does |
| `Shape.Quotient` | features.py:74-76 | the guarded ratio times a non-zero denominator gives back the numerator, and the ratio is 0 exactly when the denominator or the numerator is 0 |
| `Shape.Circularity` | features.py:73 | for a non-zero perimeter, circularity · perimeter² = 4·pi·area; it is 0 exactly when the perimeter or the area is 0 |
| `Shape.Describe` | features.py:65-76 | area and perimeter pass through unchanged. Solidity, aspect ratio and extent are each the quotient for their denominator (hull area, h, w·h) and 0 exactly when that denominator or the numerator is 0. Circularity is as above |
| `Shape.ShapeOf` | features.py:63-81 | with no contours all six values are 0. Otherwise the values are those of a contour whose area is at least that of every contour and strictly greater than that of every earlier contour, i.e. the first contour of largest area |
| `Brightness.DarkCountBounds` | features.py:84 | the count of pixels below 50 is at most the pixel count. It equals the pixel count exactly when every pixel is below 50, and is 0 exactly when none is |
| `Brightness.PixelCountOfGrid` | features.py:85 | a rows × cols grey image has rows·cols pixels (16384 for the working image) |
| `Brightness.DarkRatio` | features.py:84-85 | the dark ratio lies in [0, 1]. It is 1 exactly when every pixel is below 50 and 0 exactly when none is |

## Left out

- Reading the file (`cv2.imread`, features.py:12): file I/O. The model takes the decoded image.
- Resizing to 128 × 128 (`cv2.resize`, features.py:13): the interpolation kernel belongs to OpenCV. `Features.ExtractFeatures` requires 128 × 128 images instead.
- The HSV, LAB and grey conversions (features.py:15-17): OpenCV's colour transforms with their rounding. The converted images are inputs, and the grey one is required to hold values in 0..255.
- `np.mean` and `np.std` (features.py:23-37): floating-point reductions. They are opaque functions of a channel plane, and only their placement is proved.
- The Laplacian variance (features.py:40) and `shannon_entropy` (features.py:55): OpenCV's kernel with its border handling, and logarithms. Both are opaque functions of the grey image.
- Otsu thresholding, `findContours`, `contourArea`, `arcLength`, `convexHull` and `boundingRect` (features.py:58-71): OpenCV geometry. Each contour is given by its area, perimeter, hull area, width and height. Solidity ≤ 1 is not claimed, because hull area ≥ area is a library fact.
- `Texture.Energy`: the square root comes with the library record and is not computed. The lemmas that bound energy assume an exact non-negative root (`Texture.IsSquareRoot`).
- `np.pi` (features.py:73): an abstract positive constant.
- Floating-point rounding throughout: the model computes over exact reals, so quotients and sums carry no rounding error.
- The four-dimensional result shape of `graycomatrix` and the `[0, 0]` indexing of `graycoprops` (features.py:44-53): the one distance and one angle make the matrix 16 × 16.
- The final conversion to a NumPy array (features.py:88): a change of representation only.
