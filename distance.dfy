/**
 * `levenshtein`: the edit distance between two strings, filled in a
 * two-dimensional table, and what it promises (distance 0 exactly for equal
 * strings, symmetry, bounds by the lengths).
 */
module Distance {
  function Min3(x: nat, y: nat, z: nat): nat {
    if x <= y && x <= z then x else if y <= z then y else z
  }

  /** 0 when the two characters agree, 1 for a substitution. */
  function Cost(c: char, d: char): nat {
    if c == d then 0 else 1
  }

  /**
   * The edit distance between the prefixes `a[..i]` and `b[..j]`: drop the
   * last character of the first (a deletion), of the second (an insertion)
   * or of both (a substitution, free when the characters agree).
   */
  function LevAt(a: string, b: string, i: int, j: int): nat
    requires 0 <= i <= |a| && 0 <= j <= |b|
    decreases i + j
  {
    if i == 0 then j
    else if j == 0 then i
    else Min3(LevAt(a, b, i - 1, j) + 1,
              LevAt(a, b, i, j - 1) + 1,
              LevAt(a, b, i - 1, j - 1) + Cost(a[i - 1], b[j - 1]))
  }

  /** The edit distance between `a` and `b`. */
  function Lev(a: string, b: string): nat {
    LevAt(a, b, |a|, |b|)
  }

  /** One step of the recurrence, for a cell off the first row and column. */
  lemma LevAtStep(a: string, b: string, i: int, j: int)
    requires 0 < i <= |a| && 0 < j <= |b|
    ensures LevAt(a, b, i, j) ==
      Min3(LevAt(a, b, i - 1, j) + 1, LevAt(a, b, i, j - 1) + 1, LevAt(a, b, i - 1, j - 1) + Cost(a[i - 1], b[j - 1]))
  {
  }

  /** The cells of rows `0..rows` of `dp` hold the distances between the matching prefixes. */
  ghost predicate RowsFilled(dp: array2<nat>, a: string, b: string, rows: nat)
    reads dp
    requires dp.Length0 == |a| + 1 && dp.Length1 == |b| + 1 && rows <= |a| + 1
  {
    forall p, q {:trigger dp[p, q]} | 0 <= p < rows && 0 <= q <= |b| :: dp[p, q] == LevAt(a, b, p, q)
  }

  /** The inner loop of `levenshtein`: row `i` from its neighbours above and to the left. */
  method FillRow(dp: array2<nat>, a: string, b: string, i: nat)
    requires dp.Length0 == |a| + 1 && dp.Length1 == |b| + 1 && 1 <= i <= |a|
    requires RowsFilled(dp, a, b, i) && dp[i, 0] == i
    modifies dp
    ensures RowsFilled(dp, a, b, i + 1)
    ensures forall p | i < p <= |a| :: dp[p, 0] == old(dp[p, 0])
  {
    var j := 1;
    while j <= |b|
      invariant 1 <= j <= |b| + 1
      invariant RowsFilled(dp, a, b, i)
      invariant forall q {:trigger dp[i, q]} | 0 <= q < j :: dp[i, q] == LevAt(a, b, i, q)
      invariant forall p | i < p <= |a| :: dp[p, 0] == old(dp[p, 0])
    {
      var cost := if a[i - 1] == b[j - 1] then 0 else 1;
      dp[i, j] := Min3(dp[i - 1, j] + 1, dp[i, j - 1] + 1, dp[i - 1, j - 1] + cost);
      j := j + 1;
    }
  }

  /**
   * `levenshtein(a, b)`: the first column and row hold the distances to the
   * empty string, every other cell the minimum of its three neighbours; the
   * bottom-right cell is the edit distance.
   */
  method Levenshtein(a: string, b: string) returns (d: nat)
    ensures d == Lev(a, b)
  {
    var dp := new nat[|a| + 1, |b| + 1]((i, j) => 0);
    var i := 0;
    while i <= |a|
      invariant 0 <= i <= |a| + 1
      invariant forall p | 0 <= p < i :: dp[p, 0] == p
    {
      dp[i, 0] := i;
      i := i + 1;
    }
    var j := 0;
    while j <= |b|
      invariant 0 <= j <= |b| + 1
      invariant forall p | 1 <= p <= |a| :: dp[p, 0] == p
      invariant forall q | 0 <= q < j :: dp[0, q] == q
    {
      dp[0, j] := j;
      j := j + 1;
    }
    assert RowsFilled(dp, a, b, 1);
    i := 1;
    while i <= |a|
      invariant 1 <= i <= |a| + 1
      invariant forall p | i <= p <= |a| :: dp[p, 0] == p
      invariant RowsFilled(dp, a, b, i)
    {
      FillRow(dp, a, b, i);
      i := i + 1;
    }
    d := dp[|a|, |b|];
  }

  /** A prefix is at distance 0 from itself. */
  lemma {:induction false} LevAtSelf(a: string, i: nat)
    requires i <= |a|
    ensures LevAt(a, a, i, i) == 0
  {
    if i > 0 {
      LevAtSelf(a, i - 1);
    }
  }

  /** A string is at distance 0 from itself. */
  lemma LevSelf(a: string)
    ensures Lev(a, a) == 0
  {
    LevAtSelf(a, |a|);
  }

  lemma {:induction false} LevAtZeroIff(a: string, b: string, i: int, j: int)
    requires 0 <= i <= |a| && 0 <= j <= |b|
    ensures LevAt(a, b, i, j) == 0 <==> a[..i] == b[..j]
    decreases i + j
  {
    if i > 0 && j > 0 {
      LevAtZeroIff(a, b, i - 1, j - 1);
      assert a[..i] == a[..i - 1] + [a[i - 1]];
      assert b[..j] == b[..j - 1] + [b[j - 1]];
      if a[..i] == b[..j] {
        assert a[..i - 1] == a[..i][..i - 1];
        assert b[..j - 1] == b[..j][..j - 1];
      }
    }
  }

  /** Distance 0 means the strings are equal, and only then. */
  lemma LevZeroIff(a: string, b: string)
    ensures Lev(a, b) == 0 <==> a == b
  {
    LevAtZeroIff(a, b, |a|, |b|);
    assert a[..|a|] == a && b[..|b|] == b;
  }

  lemma Min3Swap(x: nat, y: nat, z: nat)
    ensures Min3(x, y, z) == Min3(y, x, z)
  {
  }

  lemma SymmetricStep(a: string, b: string, i: int, j: int)
    requires 0 < i <= |a| && 0 < j <= |b|
    requires LevAt(a, b, i - 1, j) == LevAt(b, a, j, i - 1)
    requires LevAt(a, b, i, j - 1) == LevAt(b, a, j - 1, i)
    requires LevAt(a, b, i - 1, j - 1) == LevAt(b, a, j - 1, i - 1)
    ensures LevAt(a, b, i, j) == LevAt(b, a, j, i)
  {
    LevAtStep(a, b, i, j);
    LevAtStep(b, a, j, i);
    Min3Swap(LevAt(a, b, i - 1, j) + 1, LevAt(a, b, i, j - 1) + 1, LevAt(a, b, i - 1, j - 1) + Cost(a[i - 1], b[j - 1]));
  }

  lemma {:induction false} LevAtSymmetric(a: string, b: string, i: int, j: int)
    requires 0 <= i <= |a| && 0 <= j <= |b|
    ensures LevAt(a, b, i, j) == LevAt(b, a, j, i)
    decreases i + j
  {
    if i > 0 && j > 0 {
      LevAtSymmetric(a, b, i - 1, j);
      LevAtSymmetric(a, b, i, j - 1);
      LevAtSymmetric(a, b, i - 1, j - 1);
      SymmetricStep(a, b, i, j);
    }
  }

  /** The distance does not depend on the order of the arguments. */
  lemma LevSymmetric(a: string, b: string)
    ensures Lev(a, b) == Lev(b, a)
  {
    LevAtSymmetric(a, b, |a|, |b|);
  }

  /** The difference of two lengths. */
  function Gap(m: nat, n: nat): nat {
    if m <= n then n - m else m - n
  }

  lemma Min3Bound(x: nat, y: nat, z: nat, lo: nat)
    requires x >= lo && y >= lo && z >= lo
    ensures Min3(x, y, z) >= lo
  {
  }

  lemma LowerStep(a: string, b: string, i: int, j: int)
    requires 0 < i <= |a| && 0 < j <= |b|
    requires LevAt(a, b, i - 1, j) >= Gap(i - 1, j)
    requires LevAt(a, b, i, j - 1) >= Gap(i, j - 1)
    requires LevAt(a, b, i - 1, j - 1) >= Gap(i - 1, j - 1)
    ensures LevAt(a, b, i, j) >= Gap(i, j)
  {
    LevAtStep(a, b, i, j);
    Min3Bound(LevAt(a, b, i - 1, j) + 1, LevAt(a, b, i, j - 1) + 1, LevAt(a, b, i - 1, j - 1) + Cost(a[i - 1], b[j - 1]), Gap(i, j));
  }

  lemma {:induction false} LevAtLower(a: string, b: string, i: int, j: int)
    requires 0 <= i <= |a| && 0 <= j <= |b|
    ensures LevAt(a, b, i, j) >= Gap(i, j)
    decreases i + j
  {
    if i > 0 && j > 0 {
      LevAtLower(a, b, i - 1, j);
      LevAtLower(a, b, i, j - 1);
      LevAtLower(a, b, i - 1, j - 1);
      LowerStep(a, b, i, j);
    }
  }

  /** The larger of two lengths. */
  function Longer(m: nat, n: nat): nat {
    if m <= n then n else m
  }

  lemma UpperStep(a: string, b: string, i: int, j: int)
    requires 0 < i <= |a| && 0 < j <= |b|
    requires LevAt(a, b, i - 1, j - 1) <= Longer(i - 1, j - 1)
    ensures LevAt(a, b, i, j) <= Longer(i, j)
  {
    LevAtStep(a, b, i, j);
  }

  lemma {:induction false} LevAtUpper(a: string, b: string, i: int, j: int)
    requires 0 <= i <= |a| && 0 <= j <= |b|
    ensures LevAt(a, b, i, j) <= Longer(i, j)
    decreases i + j
  {
    if i > 0 && j > 0 {
      LevAtUpper(a, b, i - 1, j - 1);
      UpperStep(a, b, i, j);
    }
  }

  /** The distance is at least the difference of the lengths and at most the longer length. */
  lemma LevBounds(a: string, b: string)
    ensures Gap(|a|, |b|) <= Lev(a, b) <= Longer(|a|, |b|)
  {
    LevAtLower(a, b, |a|, |b|);
    LevAtUpper(a, b, |a|, |b|);
  }

}
