/** The three co-occurrence properties the feature vector keeps, as
    `graycoprops` defines them: each re-normalises the matrix it is given,
    then takes a weighted sum over its entries. */
module Texture {
  import opened Sums
  import opened Raster
  import opened Quantization
  import opened Cooccurrence

  /** The contrast weight (i - j)^2. */
  function ContrastWeight(i: int, j: int): (w: real)
    ensures 0.0 <= w
    ensures w == 0.0 <==> i == j
  {
    ((i - j) * (i - j)) as real
  }

  /** The homogeneity weight 1 / (1 + (i - j)^2). */
  function HomogeneityWeight(i: int, j: int): (w: real)
    ensures 0.0 < w <= 1.0
    ensures w == 1.0 <==> i == j
  {
    1.0 / (1.0 + ContrastWeight(i, j))
  }

  /** The entries P(i, j) * (i - j)^2. */
  function ContrastTerms(p: seq<seq<real>>): (t: seq<seq<real>>)
    ensures |t| == |p| && forall i :: 0 <= i < |p| ==> |t[i]| == |p[i]|
    ensures forall i, j :: 0 <= i < |p| && 0 <= j < |p[i]| ==> t[i][j] == p[i][j] * ContrastWeight(i, j)
  {
    seq(|p|, i requires 0 <= i < |p| =>
      seq(|p[i]|, j requires 0 <= j < |p[i]| => p[i][j] * ContrastWeight(i, j)))
  }

  /** The entries P(i, j)^2. */
  function AsmTerms(p: seq<seq<real>>): (t: seq<seq<real>>)
    ensures |t| == |p| && forall i :: 0 <= i < |p| ==> |t[i]| == |p[i]|
    ensures forall i, j :: 0 <= i < |p| && 0 <= j < |p[i]| ==> t[i][j] == p[i][j] * p[i][j]
  {
    seq(|p|, i requires 0 <= i < |p| =>
      seq(|p[i]|, j requires 0 <= j < |p[i]| => p[i][j] * p[i][j]))
  }

  /** The entries P(i, j) / (1 + (i - j)^2). */
  function HomogeneityTerms(p: seq<seq<real>>): (t: seq<seq<real>>)
    ensures |t| == |p| && forall i :: 0 <= i < |p| ==> |t[i]| == |p[i]|
    ensures forall i, j :: 0 <= i < |p| && 0 <= j < |p[i]| ==> t[i][j] == p[i][j] * HomogeneityWeight(i, j)
  {
    seq(|p|, i requires 0 <= i < |p| =>
      seq(|p[i]|, j requires 0 <= j < |p[i]| => p[i][j] * HomogeneityWeight(i, j)))
  }

  lemma SquareAtMost(x: real, y: real)
    requires 0.0 <= x <= 1.0 && y == x * x
    ensures 0.0 <= y <= x
  {
    ScaledAtMost(x, x);
  }

  /** Scaling a value in [0, 1] by a weight in [0, 1] keeps it in [0, x]. */
  lemma ScaledAtMost(x: real, w: real)
    requires 0.0 <= x && 0.0 <= w <= 1.0
    ensures 0.0 <= x * w <= x
  {
  }

  /** `graycoprops(P, 'contrast')`. */
  function Contrast(p: seq<seq<real>>): real
  {
    MatrixSum(ContrastTerms(Normalized(p)))
  }

  /** The angular second moment, sum of P(i, j)^2, of which energy is the root. */
  function Asm(p: seq<seq<real>>): real
  {
    MatrixSum(AsmTerms(Normalized(p)))
  }

  /** `graycoprops(P, 'energy')`: the square root of the angular second
      moment, the root being supplied by the caller. */
  function Energy(p: seq<seq<real>>, sqrt: real -> real): real
  {
    sqrt(Asm(p))
  }

  /** `graycoprops(P, 'homogeneity')`, weighted by 1 / (1 + (i - j)^2). */
  function Homogeneity(p: seq<seq<real>>): real
  {
    MatrixSum(HomogeneityTerms(Normalized(p)))
  }

  /** `sqrt` is the exact non-negative square root on non-negative reals. */
  ghost predicate IsSquareRoot(sqrt: real -> real)
  {
    forall x :: 0.0 <= x ==> 0.0 <= sqrt(x) && sqrt(x) * sqrt(x) == x
  }

  /** The root of a value in [0, 1] lies in [0, 1], and the root of one is one. */
  lemma RootOfUnitInterval(sqrt: real -> real, x: real)
    requires IsSquareRoot(sqrt) && 0.0 <= x <= 1.0
    ensures 0.0 <= sqrt(x) <= 1.0
    ensures x == 1.0 ==> sqrt(x) == 1.0
  {
    var s := sqrt(x);
    assert 0.0 <= s && s * s == x;
    if x == 1.0 {
      calc {
        s - 1.0;
        ((s - 1.0) * (s + 1.0)) / (s + 1.0);
        (s * s - 1.0) / (s + 1.0);
        0.0;
      }
    }
  }

  predicate IsSingleCell(p: seq<seq<real>>, v: int)
  {
    IsSquare(p, Levels) && 0 <= v < Levels
    && forall i, j :: 0 <= i < Levels && 0 <= j < Levels ==> p[i][j] == if i == v && j == v then 1.0 else 0.0
  }

  lemma SingleCellNormalized(p: seq<seq<real>>, v: int)
    requires IsSingleCell(p, v)
    ensures Normalized(p) == p
  {
    MatrixSumOfSingle(p, v, v);
    DividedByOne(p);
  }

  /** A matrix whose single non-zero cell (v, v) holds one has contrast 0,
      homogeneity 1 and angular second moment 1. */
  lemma TextureOfSingleCell(p: seq<seq<real>>, v: int)
    requires IsSingleCell(p, v)
    ensures Contrast(p) == 0.0 && Homogeneity(p) == 1.0 && Asm(p) == 1.0
  {
    SingleCellNormalized(p, v);
    var ct, at, ht := ContrastTerms(p), AsmTerms(p), HomogeneityTerms(p);
    forall i, j | 0 <= i < Levels && 0 <= j < Levels && (i != v || j != v)
      ensures ct[i][j] == 0.0 && at[i][j] == 0.0 && ht[i][j] == 0.0
    {
      assert p[i][j] == 0.0;
    }
    MatrixSumOfSingle(ct, v, v);
    MatrixSumOfSingle(at, v, v);
    MatrixSumOfSingle(ht, v, v);
  }

  /** A uniform quantised image (every pixel at level v, with at least one
      adjacent pair) has contrast 0, homogeneity 1, angular second moment 1
      and energy 1: its matrix is the single cell (v, v) equal to one. */
  lemma TextureOfUniform(q: Plane, v: int, sqrt: real -> real)
    requires IsLevelImage(q) && AdjacentPairs(q) > 0 && 0 <= v < Levels
    requires forall r, c :: 0 <= r < |q| && 0 <= c < |q[r]| ==> q[r][c] == v
    requires IsSquareRoot(sqrt)
    ensures Contrast(Glcm(q)) == 0.0
    ensures Homogeneity(Glcm(q)) == 1.0
    ensures Asm(Glcm(q)) == 1.0
    ensures Energy(Glcm(q), sqrt) == 1.0
  {
    GlcmOfUniform(q, v);
    assert IsSingleCell(Glcm(q), v);
    TextureOfSingleCell(Glcm(q), v);
    RootOfUnitInterval(sqrt, 1.0);
  }

  /** Contrast of a matrix with no negative entry is non-negative. */
  lemma ContrastNonNegative(p: seq<seq<real>>)
    requires IsSquare(p, Levels) && NonNegative(p) && Normalized(p) == p
    ensures 0.0 <= Contrast(p)
  {
    var ct := ContrastTerms(p);
    forall i, j | 0 <= i < Levels && 0 <= j < Levels ensures 0.0 <= ct[i][j] {
      ScaledAtMost(p[i][j], 0.0);
      assert 0.0 <= p[i][j] * ContrastWeight(i, j);
    }
    MatrixSumNonNegative(ct);
  }

  /** Homogeneity never exceeds the total, since every weight is at most one. */
  lemma HomogeneityBounds(p: seq<seq<real>>)
    requires IsSquare(p, Levels) && NonNegative(p) && Normalized(p) == p
    ensures 0.0 <= Homogeneity(p) <= MatrixSum(p)
  {
    var ht := HomogeneityTerms(p);
    forall i, j | 0 <= i < Levels && 0 <= j < Levels ensures 0.0 <= ht[i][j] <= p[i][j] {
      ScaledAtMost(p[i][j], HomogeneityWeight(i, j));
    }
    MatrixSumNonNegative(ht);
    MatrixSumMonotone(ht, p);
  }

  /** The angular second moment of a matrix with entries in [0, 1] never
      exceeds its total. */
  lemma AsmBounds(p: seq<seq<real>>)
    requires IsSquare(p, Levels) && NonNegative(p) && Normalized(p) == p
    requires MatrixSum(p) <= 1.0
    ensures 0.0 <= Asm(p) <= MatrixSum(p)
  {
    SquaresAtMost(p);
  }

  lemma SquaresAtMost(p: seq<seq<real>>)
    requires IsSquare(p, Levels) && NonNegative(p)
    requires MatrixSum(p) <= 1.0
    ensures 0.0 <= MatrixSum(AsmTerms(p)) <= MatrixSum(p)
  {
    var at := AsmTerms(p);
    forall i, j | 0 <= i < Levels && 0 <= j < Levels ensures 0.0 <= at[i][j] <= p[i][j] {
      EntryAtMostMatrixSum(p, i, j);
      SquareAtMost(p[i][j], at[i][j]);
    }
    MatrixSumNonNegative(at);
    MatrixSumMonotone(at, p);
  }

  /** For any quantised image: contrast is non-negative, and homogeneity,
      the angular second moment and (for an exact root) energy lie in [0, 1]. */
  lemma TextureBounds(q: Plane, sqrt: real -> real)
    requires IsLevelImage(q)
    ensures 0.0 <= Contrast(Glcm(q))
    ensures 0.0 <= Homogeneity(Glcm(q)) <= 1.0
    ensures 0.0 <= Asm(Glcm(q)) <= 1.0
    ensures IsSquareRoot(sqrt) ==> 0.0 <= Energy(Glcm(q), sqrt) <= 1.0
  {
    var p := Glcm(q);
    GlcmProperties(q);
    NormalizedIdempotent(Counts(q));
    ContrastNonNegative(p);
    HomogeneityBounds(p);
    AsmBounds(p);
    if IsSquareRoot(sqrt) {
      RootOfUnitInterval(sqrt, Asm(Glcm(q)));
    }
  }
}
