/** The dark-pixel ratio: the share of grey pixels strictly below 50. */
module Brightness {
  import opened Raster

  /** Grey values strictly below this count as dark. */
  const DarkThreshold := 50

  function RowDarkCount(row: seq<int>): nat
  {
    if row == [] then 0
    else (if row[0] < DarkThreshold then 1 else 0) + RowDarkCount(row[1..])
  }

  /** `np.sum(gray < 50)`. */
  function DarkCount(gray: Plane): nat
  {
    if gray == [] then 0 else RowDarkCount(gray[0]) + DarkCount(gray[1..])
  }

  /** `gray.size`. */
  function PixelCount(gray: Plane): nat
  {
    if gray == [] then 0 else |gray[0]| + PixelCount(gray[1..])
  }

  predicate AllDark(gray: Plane)
  {
    forall r, c :: 0 <= r < |gray| && 0 <= c < |gray[r]| ==> gray[r][c] < DarkThreshold
  }

  predicate NoneDark(gray: Plane)
  {
    forall r, c :: 0 <= r < |gray| && 0 <= c < |gray[r]| ==> gray[r][c] >= DarkThreshold
  }

  lemma {:induction false} RowDarkCountBounds(row: seq<int>)
    ensures RowDarkCount(row) <= |row|
    ensures RowDarkCount(row) == |row| <==> forall c :: 0 <= c < |row| ==> row[c] < DarkThreshold
    ensures RowDarkCount(row) == 0 <==> forall c :: 0 <= c < |row| ==> row[c] >= DarkThreshold
  {
    if row != [] {
      RowDarkCountBounds(row[1..]);
      assert forall c :: 1 <= c < |row| ==> row[c] == row[1..][c - 1];
    }
  }

  /** No more dark pixels than pixels; as many exactly when every pixel is
      dark, none exactly when no pixel is. */
  lemma {:induction false} DarkCountBounds(gray: Plane)
    ensures DarkCount(gray) <= PixelCount(gray)
    ensures DarkCount(gray) == PixelCount(gray) <==> AllDark(gray)
    ensures DarkCount(gray) == 0 <==> NoneDark(gray)
  {
    if gray != [] {
      RowDarkCountBounds(gray[0]);
      DarkCountBounds(gray[1..]);
      assert forall r :: 1 <= r < |gray| ==> gray[r] == gray[1..][r - 1];
    }
  }

  /** A rows x cols grid has rows * cols pixels. */
  lemma {:induction false} PixelCountOfGrid(gray: Plane, rows: nat, cols: nat)
    requires IsGrid(gray, rows, cols)
    ensures PixelCount(gray) == rows * cols
  {
    if gray != [] {
      PixelCountOfGrid(gray[1..], rows - 1, cols);
    }
  }

  /** `np.sum(gray < 50) / gray.size`: in [0, 1], one exactly when every
      pixel is dark, zero exactly when none is. */
  function DarkRatio(gray: Plane): (r: real)
    requires PixelCount(gray) > 0
    ensures 0.0 <= r <= 1.0
    ensures r == 1.0 <==> AllDark(gray)
    ensures r == 0.0 <==> NoneDark(gray)
  {
    DarkCountBounds(gray);
    Share(DarkCount(gray), PixelCount(gray))
  }

  function Share(k: nat, n: nat): (r: real)
    requires 0 < n && k <= n
    ensures 0.0 <= r <= 1.0
    ensures r == 1.0 <==> k == n
    ensures r == 0.0 <==> k == 0
  {
    k as real / n as real
  }
}
