/** Exact sums of reals over rows and (possibly ragged) matrices, with the
    facts about them that the co-occurrence matrix and its properties need. */
module Sums {

  /** Sum of a row, first element first. */
  function Sum(s: seq<real>): real
  {
    if s == [] then 0.0 else s[0] + Sum(s[1..])
  }

  /** Sum of every entry of a matrix, row by row. */
  function MatrixSum(m: seq<seq<real>>): real
  {
    if m == [] then 0.0 else Sum(m[0]) + MatrixSum(m[1..])
  }

  /** Every entry of `m` divided by `d`. */
  function Divided(m: seq<seq<real>>, d: real): (r: seq<seq<real>>)
    requires d != 0.0
    ensures |r| == |m|
    ensures forall i :: 0 <= i < |m| ==> |r[i]| == |m[i]|
  {
    seq(|m|, i requires 0 <= i < |m| => seq(|m[i]|, j requires 0 <= j < |m[i]| => m[i][j] / d))
  }

  predicate NonNegative(m: seq<seq<real>>)
  {
    forall i, j :: 0 <= i < |m| && 0 <= j < |m[i]| ==> 0.0 <= m[i][j]
  }

  /** Adding `x` to one entry of a row adds `x` to its sum. */
  lemma {:induction false} SumAdd(s: seq<real>, k: int, x: real)
    requires 0 <= k < |s|
    ensures Sum(s[k := s[k] + x]) == Sum(s) + x
  {
    if k > 0 {
      SumAdd(s[1..], k - 1, x);
      assert s[k := s[k] + x][1..] == s[1..][k - 1 := s[1..][k - 1] + x];
    } else {
      assert s[k := s[k] + x][1..] == s[1..];
    }
  }

  /** Replacing one row changes the matrix sum by the difference of the row sums. */
  lemma {:induction false} MatrixSumReplace(m: seq<seq<real>>, a: int, row: seq<real>)
    requires 0 <= a < |m|
    ensures MatrixSum(m[a := row]) == MatrixSum(m) - Sum(m[a]) + Sum(row)
  {
    if a > 0 {
      MatrixSumReplace(m[1..], a - 1, row);
      assert m[a := row][1..] == m[1..][a - 1 := row];
    } else {
      assert m[a := row][1..] == m[1..];
    }
  }

  /** Adding `x` to one entry of a matrix adds `x` to its sum. */
  lemma MatrixSumAdd(m: seq<seq<real>>, a: int, b: int, x: real)
    requires 0 <= a < |m| && 0 <= b < |m[a]|
    ensures MatrixSum(m[a := m[a][b := m[a][b] + x]]) == MatrixSum(m) + x
  {
    var row := m[a][b := m[a][b] + x];
    SumAdd(m[a], b, x);
    assert Sum(row) == Sum(m[a]) + x;
    MatrixSumReplace(m, a, row);
  }

  lemma {:induction false} SumDivided(s: seq<real>, t: seq<real>, d: real)
    requires d != 0.0 && |t| == |s|
    requires forall j :: 0 <= j < |s| ==> t[j] == s[j] / d
    ensures Sum(t) == Sum(s) / d
  {
    if s != [] {
      SumDivided(s[1..], t[1..], d);
    }
  }

  /** Dividing every entry by `d` divides the sum by `d`. */
  lemma {:induction false} MatrixSumDivided(m: seq<seq<real>>, d: real)
    requires d != 0.0
    ensures MatrixSum(Divided(m, d)) == MatrixSum(m) / d
  {
    if m != [] {
      var r := Divided(m, d);
      SumDivided(m[0], r[0], d);
      DividedTail(m, d);
      MatrixSumDivided(m[1..], d);
      SumOfQuotients(Sum(m[0]), MatrixSum(m[1..]), d);
    }
  }

  lemma DividedTail(m: seq<seq<real>>, d: real)
    requires d != 0.0 && m != []
    ensures Divided(m, d)[1..] == Divided(m[1..], d)
  {
    var r, rest := Divided(m, d), Divided(m[1..], d);
    forall i | 0 <= i < |rest| ensures r[1..][i] == rest[i] {
    }
  }

  lemma SumOfQuotients(a: real, b: real, d: real)
    requires d != 0.0
    ensures a / d + b / d == (a + b) / d
  {
  }

  /** Dividing by one changes nothing. */
  lemma DividedByOne(m: seq<seq<real>>)
    ensures Divided(m, 1.0) == m
  {
    var r := Divided(m, 1.0);
    forall i | 0 <= i < |m| ensures r[i] == m[i] {
      assert |r[i]| == |m[i]|;
    }
  }

  lemma {:induction false} SumMonotone(s: seq<real>, t: seq<real>)
    requires |s| == |t|
    requires forall j :: 0 <= j < |s| ==> s[j] <= t[j]
    ensures Sum(s) <= Sum(t)
  {
    if s != [] {
      SumMonotone(s[1..], t[1..]);
    }
  }

  /** A matrix dominated entrywise by another of the same shape has the smaller sum. */
  lemma {:induction false} MatrixSumMonotone(m: seq<seq<real>>, n: seq<seq<real>>)
    requires |m| == |n|
    requires forall i :: 0 <= i < |m| ==> |m[i]| == |n[i]|
    requires forall i, j :: 0 <= i < |m| && 0 <= j < |m[i]| ==> m[i][j] <= n[i][j]
    ensures MatrixSum(m) <= MatrixSum(n)
  {
    if m != [] {
      SumMonotone(m[0], n[0]);
      MatrixSumMonotone(m[1..], n[1..]);
    }
  }

  lemma {:induction false} SumNonNegative(s: seq<real>)
    requires forall j :: 0 <= j < |s| ==> 0.0 <= s[j]
    ensures 0.0 <= Sum(s)
  {
    if s != [] {
      SumNonNegative(s[1..]);
    }
  }

  lemma {:induction false} MatrixSumNonNegative(m: seq<seq<real>>)
    requires NonNegative(m)
    ensures 0.0 <= MatrixSum(m)
  {
    if m != [] {
      SumNonNegative(m[0]);
      MatrixSumNonNegative(m[1..]);
    }
  }

  lemma {:induction false} SumEntryAtMost(s: seq<real>, k: int)
    requires 0 <= k < |s|
    requires forall j :: 0 <= j < |s| ==> 0.0 <= s[j]
    ensures s[k] <= Sum(s)
  {
    SumNonNegative(s[1..]);
    if k > 0 {
      SumEntryAtMost(s[1..], k - 1);
    }
  }

  /** In a matrix with no negative entry, no entry exceeds the total. */
  lemma {:induction false} EntryAtMostMatrixSum(m: seq<seq<real>>, a: int, b: int)
    requires NonNegative(m)
    requires 0 <= a < |m| && 0 <= b < |m[a]|
    ensures m[a][b] <= MatrixSum(m)
  {
    SumNonNegative(m[0]);
    MatrixSumNonNegative(m[1..]);
    if a == 0 {
      SumEntryAtMost(m[0], b);
    } else {
      EntryAtMostMatrixSum(m[1..], a - 1, b);
    }
  }

  lemma {:induction false} SumOfZeros(s: seq<real>)
    requires forall j :: 0 <= j < |s| ==> s[j] == 0.0
    ensures Sum(s) == 0.0
  {
    if s != [] {
      SumOfZeros(s[1..]);
    }
  }

  lemma {:induction false} SumOfSingle(s: seq<real>, k: int)
    requires 0 <= k < |s|
    requires forall j :: 0 <= j < |s| && j != k ==> s[j] == 0.0
    ensures Sum(s) == s[k]
  {
    if k == 0 {
      SumOfZeros(s[1..]);
    } else {
      SumOfSingle(s[1..], k - 1);
    }
  }

  /** A matrix whose only non-zero entry is at (a, b) sums to that entry. */
  lemma {:induction false} MatrixSumOfSingle(m: seq<seq<real>>, a: int, b: int)
    requires 0 <= a < |m| && 0 <= b < |m[a]|
    requires forall i, j :: 0 <= i < |m| && 0 <= j < |m[i]| && (i != a || j != b) ==> m[i][j] == 0.0
    ensures MatrixSum(m) == m[a][b]
  {
    if a == 0 {
      SumOfSingle(m[0], b);
      MatrixSumOfZeros(m[1..]);
    } else {
      SumOfZeros(m[0]);
      MatrixSumOfSingle(m[1..], a - 1, b);
    }
  }

  lemma {:induction false} MatrixSumOfZeros(m: seq<seq<real>>)
    requires forall i, j :: 0 <= i < |m| && 0 <= j < |m[i]| ==> m[i][j] == 0.0
    ensures MatrixSum(m) == 0.0
  {
    if m != [] {
      SumOfZeros(m[0]);
      MatrixSumOfZeros(m[1..]);
    }
  }
}
