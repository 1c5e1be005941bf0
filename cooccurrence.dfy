/** The grey-level co-occurrence matrix of a quantised image for pixel pairs
    at distance 1, angle 0 (each pixel and its right-hand neighbour), over
    16 levels, made symmetric and normalised (Haralick, Shanmugam and
    Dinstein, 1973), as `graycomatrix` computes it with `symmetric=True,
    normed=True`. */
module Cooccurrence {
  import opened Sums
  import opened Raster
  import opened Quantization

  /** Number of adjacent pairs (row[c], row[c+1]) in one row equal to (i, j). */
  function RowPairCount(row: seq<int>, i: int, j: int): nat
  {
    if |row| < 2 then 0
    else (if row[0] == i && row[1] == j then 1 else 0) + RowPairCount(row[1..], i, j)
  }

  /** Number of horizontally adjacent pixel pairs of `q` with values (i, j):
      the entry (i, j) of the unsymmetrised, unnormalised matrix. */
  function PairCount(q: Plane, i: int, j: int): nat
  {
    if q == [] then 0 else RowPairCount(q[0], i, j) + PairCount(q[1..], i, j)
  }

  /** Number of horizontally adjacent pixel pairs of `q`. */
  function AdjacentPairs(q: Plane): nat
  {
    if q == [] then 0
    else (if |q[0]| < 2 then 0 else |q[0]| - 1) + AdjacentPairs(q[1..])
  }

  predicate IsSquare(m: seq<seq<real>>, n: nat)
  {
    |m| == n && forall i :: 0 <= i < |m| ==> |m[i]| == n
  }

  predicate IsSymmetric(m: seq<seq<real>>)
    requires IsSquare(m, |m|)
  {
    forall i, j :: 0 <= i < |m| && 0 <= j < |m| ==> m[i][j] == m[j][i]
  }

  function ZeroMatrix(): (m: seq<seq<real>>)
    ensures IsSquare(m, Levels)
    ensures forall i, j :: 0 <= i < Levels && 0 <= j < Levels ==> m[i][j] == 0.0
  {
    seq(Levels, _ => seq(Levels, _ => 0.0))
  }

  /** Counts the pair (a, b) and its reverse (b, a). */
  function Tally(m: seq<seq<real>>, a: int, b: int): (r: seq<seq<real>>)
    requires IsSquare(m, Levels) && 0 <= a < Levels && 0 <= b < Levels
    ensures IsSquare(r, Levels)
  {
    var once := m[a := m[a][b := m[a][b] + 1.0]];
    once[b := once[b][a := once[b][a] + 1.0]]
  }

  /** Counts every adjacent pair of one row, left to right. */
  function TallyRow(m: seq<seq<real>>, row: seq<int>): (r: seq<seq<real>>)
    requires IsSquare(m, Levels)
    requires forall c :: 0 <= c < |row| ==> 0 <= row[c] < Levels
    ensures IsSquare(r, Levels)
    decreases |row|
  {
    if |row| < 2 then m else TallyRow(Tally(m, row[0], row[1]), row[1..])
  }

  /** Counts every adjacent pair of the image, top row first. */
  function TallyImage(m: seq<seq<real>>, q: Plane): (r: seq<seq<real>>)
    requires IsSquare(m, Levels) && IsLevelImage(q)
    ensures IsSquare(r, Levels)
    decreases |q|
  {
    if q == [] then m else TallyImage(TallyRow(m, q[0]), q[1..])
  }

  /** The symmetric count matrix. */
  function Counts(q: Plane): (m: seq<seq<real>>)
    requires IsLevelImage(q)
    ensures IsSquare(m, Levels)
  {
    TallyImage(ZeroMatrix(), q)
  }

  /** Division by the total, where a total of zero is replaced by one. */
  function Normalized(m: seq<seq<real>>): (r: seq<seq<real>>)
    ensures |r| == |m|
    ensures forall i :: 0 <= i < |m| ==> |r[i]| == |m[i]|
  {
    var total := MatrixSum(m);
    Divided(m, if total == 0.0 then 1.0 else total)
  }

  /** The symmetric, normalised co-occurrence matrix of a quantised image. */
  function Glcm(q: Plane): (p: seq<seq<real>>)
    requires IsLevelImage(q)
    ensures IsSquare(p, Levels)
  {
    Normalized(Counts(q))
  }

  lemma TallyEntry(m: seq<seq<real>>, a: int, b: int, i: int, j: int)
    requires IsSquare(m, Levels) && 0 <= a < Levels && 0 <= b < Levels
    requires 0 <= i < Levels && 0 <= j < Levels
    ensures Tally(m, a, b)[i][j]
         == m[i][j] + (if i == a && j == b then 1.0 else 0.0) + (if i == b && j == a then 1.0 else 0.0)
  {
  }

  lemma TallySum(m: seq<seq<real>>, a: int, b: int)
    requires IsSquare(m, Levels) && 0 <= a < Levels && 0 <= b < Levels
    ensures MatrixSum(Tally(m, a, b)) == MatrixSum(m) + 2.0
  {
    var once := m[a := m[a][b := m[a][b] + 1.0]];
    MatrixSumAdd(m, a, b, 1.0);
    MatrixSumAdd(once, b, a, 1.0);
  }

  lemma {:induction false} TallyRowEntry(m: seq<seq<real>>, row: seq<int>, i: int, j: int)
    requires IsSquare(m, Levels)
    requires forall c :: 0 <= c < |row| ==> 0 <= row[c] < Levels
    requires 0 <= i < Levels && 0 <= j < Levels
    ensures TallyRow(m, row)[i][j] == m[i][j] + (RowPairCount(row, i, j) + RowPairCount(row, j, i)) as real
    decreases |row|
  {
    if |row| >= 2 {
      TallyEntry(m, row[0], row[1], i, j);
      TallyRowEntry(Tally(m, row[0], row[1]), row[1..], i, j);
    }
  }

  lemma {:induction false} TallyRowSum(m: seq<seq<real>>, row: seq<int>)
    requires IsSquare(m, Levels)
    requires forall c :: 0 <= c < |row| ==> 0 <= row[c] < Levels
    ensures MatrixSum(TallyRow(m, row)) == MatrixSum(m) + 2.0 * (if |row| < 2 then 0 else |row| - 1) as real
    decreases |row|
  {
    if |row| >= 2 {
      TallySum(m, row[0], row[1]);
      TallyRowSum(Tally(m, row[0], row[1]), row[1..]);
    }
  }

  lemma {:induction false} TallyImageEntry(m: seq<seq<real>>, q: Plane, i: int, j: int)
    requires IsSquare(m, Levels) && IsLevelImage(q)
    requires 0 <= i < Levels && 0 <= j < Levels
    ensures TallyImage(m, q)[i][j] == m[i][j] + (PairCount(q, i, j) + PairCount(q, j, i)) as real
    decreases |q|
  {
    if q != [] {
      assert forall c :: 0 <= c < |q[0]| ==> 0 <= q[0][c] < Levels;
      TallyRowEntry(m, q[0], i, j);
      TallyImageEntry(TallyRow(m, q[0]), q[1..], i, j);
    }
  }

  lemma {:induction false} TallyImageSum(m: seq<seq<real>>, q: Plane)
    requires IsSquare(m, Levels) && IsLevelImage(q)
    ensures MatrixSum(TallyImage(m, q)) == MatrixSum(m) + 2.0 * AdjacentPairs(q) as real
    decreases |q|
  {
    if q != [] {
      assert forall c :: 0 <= c < |q[0]| ==> 0 <= q[0][c] < Levels;
      TallyRowSum(m, q[0]);
      TallyImageSum(TallyRow(m, q[0]), q[1..]);
    }
  }

  /** The counting fold computes P + P^T, where P(i, j) counts the pairs
      (i, j): each entry is the number of pairs (i, j) plus the number of
      pairs (j, i), and the total is twice the number of adjacent pairs. */
  lemma CountsMeaning(q: Plane)
    requires IsLevelImage(q)
    ensures forall i, j :: 0 <= i < Levels && 0 <= j < Levels ==>
      Counts(q)[i][j] == (PairCount(q, i, j) + PairCount(q, j, i)) as real
    ensures MatrixSum(Counts(q)) == 2.0 * AdjacentPairs(q) as real
  {
    forall i, j | 0 <= i < Levels && 0 <= j < Levels
      ensures Counts(q)[i][j] == (PairCount(q, i, j) + PairCount(q, j, i)) as real
    {
      TallyImageEntry(ZeroMatrix(), q, i, j);
    }
    TallyImageSum(ZeroMatrix(), q);
    MatrixSumOfZeros(ZeroMatrix());
  }

  /** A normalised matrix sums to one, unless every entry summed to zero, in
      which case it still sums to zero. */
  lemma NormalizedSum(m: seq<seq<real>>)
    ensures MatrixSum(Normalized(m)) == if MatrixSum(m) == 0.0 then 0.0 else 1.0
  {
    var total := MatrixSum(m);
    MatrixSumDivided(m, if total == 0.0 then 1.0 else total);
    assert total != 0.0 ==> total / total == 1.0;
  }

  /** Normalising twice is normalising once, so the re-normalisation that
      `graycoprops` applies to a matrix from `graycomatrix` changes nothing. */
  lemma NormalizedIdempotent(m: seq<seq<real>>)
    ensures Normalized(Normalized(m)) == Normalized(m)
  {
    NormalizedSum(m);
    DividedByOne(Normalized(m));
  }

  /** The number of adjacent pairs of a rows x cols grid. */
  lemma {:induction false} AdjacentPairsOfGrid(q: Plane, rows: nat, cols: nat)
    requires IsGrid(q, rows, cols) && cols >= 1
    ensures AdjacentPairs(q) == rows * (cols - 1)
  {
    if q != [] {
      AdjacentPairsOfGrid(q[1..], rows - 1, cols);
    }
  }

  /** The share of the pairs (i, j) and (j, i) among both orientations of
      every adjacent pair; zero when there is no adjacent pair. */
  function GlcmEntry(q: Plane, i: int, j: int): real
  {
    if AdjacentPairs(q) == 0 then 0.0
    else (PairCount(q, i, j) + PairCount(q, j, i)) as real / (2 * AdjacentPairs(q)) as real
  }

  lemma GlcmAt(q: Plane, i: int, j: int)
    requires IsLevelImage(q) && 0 <= i < Levels && 0 <= j < Levels
    ensures Glcm(q)[i][j] == GlcmEntry(q, i, j)
  {
    var c := Counts(q);
    TallyImageEntry(ZeroMatrix(), q, i, j);
    TallyImageSum(ZeroMatrix(), q);
    MatrixSumOfZeros(ZeroMatrix());
    var total := MatrixSum(c);
    assert Glcm(q)[i][j] == c[i][j] / (if total == 0.0 then 1.0 else total);
    if AdjacentPairs(q) == 0 {
      NoPairsNoCount(q, i, j);
      NoPairsNoCount(q, j, i);
    }
  }

  /** The matrix of a quantised image: 16 x 16, symmetric, no negative entry,
      each entry the share of pairs (i, j) and (j, i) among both orientations
      of every adjacent pair, summing to one when the image has an adjacent
      pair (at least two columns) and all zero when it has none. */
  lemma GlcmProperties(q: Plane)
    requires IsLevelImage(q)
    ensures var p := Glcm(q);
      && IsSquare(p, Levels)
      && (forall i, j :: 0 <= i < Levels && 0 <= j < Levels ==> p[i][j] == GlcmEntry(q, i, j))
      && IsSymmetric(p)
      && NonNegative(p)
      && MatrixSum(p) == if AdjacentPairs(q) == 0 then 0.0 else 1.0
  {
    var p := Glcm(q);
    forall i, j | 0 <= i < Levels && 0 <= j < Levels
      ensures p[i][j] == GlcmEntry(q, i, j) && p[i][j] == p[j][i] && 0.0 <= p[i][j]
    {
      GlcmAt(q, i, j);
      GlcmAt(q, j, i);
    }
    TallyImageSum(ZeroMatrix(), q);
    MatrixSumOfZeros(ZeroMatrix());
    NormalizedSum(Counts(q));
  }

  lemma {:induction false} NoPairsNoCount(q: Plane, i: int, j: int)
    requires AdjacentPairs(q) == 0
    ensures PairCount(q, i, j) == 0
  {
    if q != [] {
      NoPairsNoCount(q[1..], i, j);
    }
  }

  lemma {:induction false} UniformRowPairCount(row: seq<int>, v: int, i: int, j: int)
    requires forall c :: 0 <= c < |row| ==> row[c] == v
    ensures RowPairCount(row, i, j) == if i == v && j == v && |row| >= 2 then |row| - 1 else 0
  {
    if |row| >= 2 {
      UniformRowPairCount(row[1..], v, i, j);
    }
  }

  lemma {:induction false} UniformPairCount(q: Plane, v: int, i: int, j: int)
    requires forall r, c :: 0 <= r < |q| && 0 <= c < |q[r]| ==> q[r][c] == v
    ensures PairCount(q, i, j) == if i == v && j == v then AdjacentPairs(q) else 0
  {
    if q != [] {
      UniformRowPairCount(q[0], v, i, j);
      UniformPairCount(q[1..], v, i, j);
    }
  }

  lemma GlcmOfUniformAt(q: Plane, v: int, i: int, j: int)
    requires IsLevelImage(q) && AdjacentPairs(q) > 0
    requires forall r, c :: 0 <= r < |q| && 0 <= c < |q[r]| ==> q[r][c] == v
    requires 0 <= i < Levels && 0 <= j < Levels
    ensures Glcm(q)[i][j] == if i == v && j == v then 1.0 else 0.0
  {
    GlcmAt(q, i, j);
    UniformPairCount(q, v, i, j);
    UniformPairCount(q, v, j, i);
    var n := AdjacentPairs(q);
    if i == v && j == v {
      ShareOfAll(n + n, 2 * n);
    }
  }

  /** A count divided by itself is one; kept apart so the division is
      reasoned about without the matrix in scope. */
  lemma ShareOfAll(k: nat, n: nat)
    requires k == n && n > 0
    ensures k as real / n as real == 1.0
  {
  }

  /** When every pixel has level v and there is an adjacent pair, the matrix
      degenerates to a single cell (v, v) equal to one. */
  lemma GlcmOfUniform(q: Plane, v: int)
    requires IsLevelImage(q) && AdjacentPairs(q) > 0
    requires forall r, c :: 0 <= r < |q| && 0 <= c < |q[r]| ==> q[r][c] == v
    ensures forall i, j :: 0 <= i < Levels && 0 <= j < Levels ==>
      Glcm(q)[i][j] == if i == v && j == v then 1.0 else 0.0
  {
    forall i, j | 0 <= i < Levels && 0 <= j < Levels
      ensures Glcm(q)[i][j] == if i == v && j == v then 1.0 else 0.0
    {
      GlcmOfUniformAt(q, v, i, j);
    }
  }
}
