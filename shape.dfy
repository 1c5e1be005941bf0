/** The six shape descriptors of the primary contour: the external contour
    of largest area in the Otsu-binarised grey image. The contour geometry
    (area, arc length, convex hull, bounding rectangle) comes from the image
    library; what belongs to the extractor is the choice of contour and the
    guarded ratios built from those measurements. */
module Shape {

  /** The measurements the extractor reads of one contour: its enclosed
      area, its closed arc length, the area of its convex hull and the width
      and height of its upright bounding rectangle. */
  datatype Contour = Contour(area: real, perimeter: real, hullArea: real, width: int, height: int)

  /** A strictly positive real; the type of the constant pi. */
  type Positive = x: real | x > 0.0 witness 1.0

  /** The six descriptors, in the order they enter the feature vector. */
  datatype ShapeDescriptors = ShapeDescriptors(
    area: real, perimeter: real, circularity: real,
    solidity: real, aspectRatio: real, extent: real)
  {
    function Values(): (s: seq<real>)
      ensures |s| == 6
    {
      [area, perimeter, circularity, solidity, aspectRatio, extent]
    }
  }

  /** Index of the primary contour: the first contour of largest area, as
      `max(contours, key=cv2.contourArea)` keeps the first of equal maxima. */
  function PrimaryIndex(cs: seq<Contour>): (k: nat)
    requires |cs| > 0
    ensures k < |cs|
    ensures forall j :: 0 <= j < |cs| ==> cs[j].area <= cs[k].area
    ensures forall j :: 0 <= j < k ==> cs[j].area < cs[k].area
  {
    if |cs| == 1 then 0
    else
      var k := PrimaryIndex(cs[..|cs| - 1]);
      if cs[|cs| - 1].area > cs[k].area then |cs| - 1 else k
  }

  /** `num / den if den != 0 else 0`. */
  function Quotient(num: real, den: real): (r: real)
    ensures den != 0.0 ==> r * den == num
    ensures r == 0.0 <==> den == 0.0 || num == 0.0
  {
    if den != 0.0 then num / den else 0.0
  }

  /** `4 pi area / perimeter^2`, or 0 when the perimeter is 0. */
  function Circularity(area: real, perimeter: real, pi: Positive): (r: real)
    ensures perimeter != 0.0 ==> r * (perimeter * perimeter) == 4.0 * pi * area
    ensures r == 0.0 <==> perimeter == 0.0 || area == 0.0
  {
    if perimeter != 0.0 then
      ProductNonZero(perimeter, perimeter);
      ProductNonZero(4.0 * pi, area);
      (4.0 * pi * area) / (perimeter * perimeter)
    else 0.0
  }

  lemma ProductNonZero(a: real, b: real)
    ensures a * b == 0.0 <==> a == 0.0 || b == 0.0
  {
    if a != 0.0 && b != 0.0 {
      assert (a * b) / b == a;
    }
  }

  /** The descriptors of one contour. Each ratio is zero exactly when its
      denominator or its numerator is zero, and otherwise is the quotient. */
  function Describe(c: Contour, pi: Positive): (d: ShapeDescriptors)
    ensures d.area == c.area && d.perimeter == c.perimeter
    ensures c.perimeter != 0.0 ==> d.circularity * (c.perimeter * c.perimeter) == 4.0 * pi * c.area
    ensures d.circularity == 0.0 <==> c.perimeter == 0.0 || c.area == 0.0
    ensures c.hullArea != 0.0 ==> d.solidity * c.hullArea == c.area
    ensures d.solidity == 0.0 <==> c.hullArea == 0.0 || c.area == 0.0
    ensures c.height != 0 ==> d.aspectRatio * c.height as real == c.width as real
    ensures d.aspectRatio == 0.0 <==> c.height == 0 || c.width == 0
    ensures c.width * c.height != 0 ==> d.extent * (c.width * c.height) as real == c.area
    ensures d.extent == 0.0 <==> c.width * c.height == 0 || c.area == 0.0
  {
    ShapeDescriptors(
      c.area, c.perimeter, Circularity(c.area, c.perimeter, pi),
      Quotient(c.area, c.hullArea),
      Quotient(c.width as real, c.height as real),
      Quotient(c.area, (c.width * c.height) as real))
  }

  /** The shape block of the feature vector: all zero when there is no
      contour, otherwise the descriptors of the first contour of largest area. */
  function ShapeOf(cs: seq<Contour>, pi: Positive): (d: ShapeDescriptors)
    ensures cs == [] ==> forall k :: 0 <= k < 6 ==> d.Values()[k] == 0.0
    ensures cs != [] ==> exists k :: 0 <= k < |cs| && d == Describe(cs[k], pi)
                                  && (forall j :: 0 <= j < |cs| ==> cs[j].area <= cs[k].area)
                                  && (forall j :: 0 <= j < k ==> cs[j].area < cs[k].area)
  {
    if cs == [] then ShapeDescriptors(0.0, 0.0, 0.0, 0.0, 0.0, 0.0)
    else Describe(cs[PrimaryIndex(cs)], pi)
  }
}
