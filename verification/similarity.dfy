/**
 * Normalised edit-distance similarity between two strings (server/src/util.ts).
 *
 * `Distance` is the Levenshtein recurrence on prefix lengths; the method
 * `TextSimilarity` fills the dynamic-programming table the way the server does
 * and is proved to compute `Similarity`, the ratio 1 - distance / max length.
 */
module Similarity {

  function Min3(x: nat, y: nat, z: nat): (m: nat)
    ensures m <= x && m <= y && m <= z
    ensures m == x || m == y || m == z
  {
    if x <= y && x <= z then x else if y <= z then y else z
  }

  function Max(x: nat, y: nat): nat { if x >= y then x else y }

  /** Substitution cost: 0 for equal characters, 1 otherwise. */
  function Cost(c: char, d: char): nat { if c == d then 0 else 1 }

  /** Levenshtein distance of the prefixes a[..i] and b[..j], by the
      recurrence on their last characters: cell (i, j) of the table. */
  function Distance(a: string, b: string, i: nat, j: nat): nat
    requires i <= |a| && j <= |b|
    decreases i + j
  {
    if i == 0 then j
    else if j == 0 then i
    else Min3(Distance(a, b, i - 1, j) + 1,
              Distance(a, b, i, j - 1) + 1,
              Distance(a, b, i - 1, j - 1) + Cost(a[i - 1], b[j - 1]))
  }

  /** Levenshtein distance of the whole strings. */
  function EditDistance(a: string, b: string): nat {
    Distance(a, b, |a|, |b|)
  }

  /** The similarity the server reports: 1 when both strings are empty,
      otherwise 1 - distance / max(|a|, |b|); it always lies in [0, 1]. */
  function Similarity(a: string, b: string): (r: real)
    ensures 0.0 <= r <= 1.0
  {
    var maxLength := Max(|a|, |b|);
    if maxLength == 0 then 1.0
    else
      DistanceAtMostMaxLength(a, b, |a|, |b|);
      RatioInUnit(EditDistance(a, b), maxLength);
      1.0 - (EditDistance(a, b) as real) / (maxLength as real)
  }

  /** A ratio d / m with d <= m lies in [0, 1], and hits its ends exactly at d == 0 and d == m. */
  lemma RatioInUnit(d: nat, m: nat)
    requires 0 < m && d <= m
    ensures 0.0 <= (d as real) / (m as real) <= 1.0
    ensures (d as real) / (m as real) == 0.0 <==> d == 0
    ensures (d as real) / (m as real) == 1.0 <==> d == m
  {
    var q := (d as real) / (m as real);
    assert q * (m as real) == d as real;
  }

  /** The distance never exceeds the longer length. */
  lemma {:induction false} DistanceAtMostMaxLength(a: string, b: string, i: nat, j: nat)
    requires i <= |a| && j <= |b|
    ensures Distance(a, b, i, j) <= Max(i, j)
    decreases i + j
  {
    if i > 0 && j > 0 {
      DistanceAtMostMaxLength(a, b, i - 1, j - 1);
    }
  }

  /** The distance is at least the difference of the lengths. */
  lemma {:induction false} DistanceAtLeastLengthGap(a: string, b: string, i: nat, j: nat)
    requires i <= |a| && j <= |b|
    ensures Distance(a, b, i, j) >= i - j && Distance(a, b, i, j) >= j - i
    decreases i + j
  {
    if i > 0 && j > 0 {
      DistanceAtLeastLengthGap(a, b, i - 1, j);
      DistanceAtLeastLengthGap(a, b, i, j - 1);
      DistanceAtLeastLengthGap(a, b, i - 1, j - 1);
    }
  }

  /** Distance zero holds exactly for identical prefixes. */
  lemma {:induction false} DistanceZeroIffEqual(a: string, b: string, i: nat, j: nat)
    requires i <= |a| && j <= |b|
    ensures Distance(a, b, i, j) == 0 <==> a[..i] == b[..j]
    decreases i + j
  {
    if i == 0 || j == 0 {
      assert |a[..i]| == i && |b[..j]| == j;
    } else {
      DistanceZeroIffEqual(a, b, i - 1, j - 1);
      assert a[..i] == a[..i - 1] + [a[i - 1]] && b[..j] == b[..j - 1] + [b[j - 1]];
      if a[..i] == b[..j] {
        assert a[..i][..i - 1] == b[..j][..j - 1];
      }
    }
  }

  /** The distance does not depend on the order of the arguments. */
  lemma DistanceSymmetric(a: string, b: string, i: nat, j: nat)
    requires i <= |a| && j <= |b|
    ensures Distance(a, b, i, j) == Distance(b, a, j, i)
  {
    SymmetricBelow(a, b, i + j);
  }

  /** Symmetry for every cell on the first n + 1 anti-diagonals, by induction on n. */
  lemma {:induction false} SymmetricBelow(a: string, b: string, n: nat)
    ensures forall i: nat, j: nat :: i <= |a| && j <= |b| && i + j <= n ==> Distance(a, b, i, j) == Distance(b, a, j, i)
  {
    if n > 0 {
      SymmetricBelow(a, b, n - 1);
    }
    forall i: nat, j: nat | i <= |a| && j <= |b| && i + j == n
      ensures Distance(a, b, i, j) == Distance(b, a, j, i)
    {
      if i > 0 && j > 0 {
        SymmetricStep(a, b, i, j);
      }
    }
  }

  /** The recurrence step of `DistanceSymmetric`: the two tables agree at
      (i, j) and (j, i) when they agree at the three neighbours. */
  lemma SymmetricStep(a: string, b: string, i: nat, j: nat)
    requires 0 < i <= |a| && 0 < j <= |b|
    requires Distance(a, b, i - 1, j) == Distance(b, a, j, i - 1)
    requires Distance(a, b, i, j - 1) == Distance(b, a, j - 1, i)
    requires Distance(a, b, i - 1, j - 1) == Distance(b, a, j - 1, i - 1)
    ensures Distance(a, b, i, j) == Distance(b, a, j, i)
  {
    var x, y := Distance(a, b, i - 1, j) + 1, Distance(a, b, i, j - 1) + 1;
    var z := Distance(a, b, i - 1, j - 1) + Cost(a[i - 1], b[j - 1]);
    assert Distance(a, b, i, j) == Min3(x, y, z);
    assert Distance(b, a, j, i) == Min3(y, x, z);
  }

  /** Cell (i, j) is the distance of the prefixes a[..i] and b[..j] as
      strings in their own right: the rest of a and b plays no part. */
  lemma DistanceOfPrefixes(a: string, b: string, i: nat, j: nat)
    requires i <= |a| && j <= |b|
    ensures Distance(a, b, i, j) == EditDistance(a[..i], b[..j])
  {
    PrefixesAgreeBelow(a, b, a[..i], b[..j], i + j);
  }

  /** The tables of (a, b) and of prefixes (x, y) of them agree on every cell
      of the smaller table on the first n + 1 anti-diagonals. */
  lemma {:induction false} PrefixesAgreeBelow(a: string, b: string, x: string, y: string, n: nat)
    requires |x| <= |a| && |y| <= |b| && x == a[..|x|] && y == b[..|y|]
    ensures forall p: nat, q: nat :: p <= |x| && q <= |y| && p + q <= n ==> Distance(a, b, p, q) == Distance(x, y, p, q)
  {
    if n > 0 {
      PrefixesAgreeBelow(a, b, x, y, n - 1);
    }
    forall p: nat, q: nat | p <= |x| && q <= |y| && p + q == n
      ensures Distance(a, b, p, q) == Distance(x, y, p, q)
    {
      if p > 0 && q > 0 {
        PrefixesAgreeStep(a, b, x, y, p, q);
      }
    }
  }

  /** The recurrence step of `PrefixesAgreeBelow`. */
  lemma PrefixesAgreeStep(a: string, b: string, x: string, y: string, p: nat, q: nat)
    requires |x| <= |a| && |y| <= |b| && x == a[..|x|] && y == b[..|y|]
    requires 0 < p <= |x| && 0 < q <= |y|
    requires Distance(a, b, p - 1, q) == Distance(x, y, p - 1, q)
    requires Distance(a, b, p, q - 1) == Distance(x, y, p, q - 1)
    requires Distance(a, b, p - 1, q - 1) == Distance(x, y, p - 1, q - 1)
    ensures Distance(a, b, p, q) == Distance(x, y, p, q)
  {
    assert x[p - 1] == a[p - 1] && y[q - 1] == b[q - 1];
  }

  /** Similarity is symmetric. */
  lemma SimilaritySymmetric(a: string, b: string)
    ensures Similarity(a, b) == Similarity(b, a)
  {
    DistanceSymmetric(a, b, |a|, |b|);
  }

  /** Similarity is exactly 1 for identical strings (two empty strings
      included) and for no other pair. */
  lemma SimilarityOneIffEqual(a: string, b: string)
    ensures Similarity(a, b) == 1.0 <==> a == b
  {
    DistanceZeroIffEqual(a, b, |a|, |b|);
    assert a[..|a|] == a && b[..|b|] == b;
    var maxLength := Max(|a|, |b|);
    if maxLength > 0 {
      DistanceAtMostMaxLength(a, b, |a|, |b|);
      RatioInUnit(EditDistance(a, b), maxLength);
    }
  }

  /** An empty string against a non-empty one has similarity 0, since the
      base row and column of the table count insertions only. */
  lemma {:induction false} SimilarityEmptyVersusNonEmpty(a: string, b: string)
    requires (a == [] && b != []) || (a != [] && b == [])
    ensures Similarity(a, b) == 0.0
  {
    assert EditDistance(a, b) == Max(|a|, |b|);
    RatioInUnit(Max(|a|, |b|), Max(|a|, |b|));
  }

  /** Similarity 0 means the distance reaches the longer length. */
  lemma SimilarityZeroIffMaximalDistance(a: string, b: string)
    ensures Similarity(a, b) == 0.0 <==> (Max(|a|, |b|) > 0 && EditDistance(a, b) == Max(|a|, |b|))
  {
    var maxLength := Max(|a|, |b|);
    if maxLength > 0 {
      DistanceAtMostMaxLength(a, b, |a|, |b|);
      RatioInUnit(EditDistance(a, b), maxLength);
    }
  }

  /** Rows 0 .. i - 1 of the table hold the recurrence. */
  ghost predicate RowsDone(dp: array2<nat>, a: string, b: string, i: nat)
    reads dp
    requires dp.Length0 == |a| + 1 && dp.Length1 == |b| + 1 && i <= |a| + 1
  {
    forall p, q {:trigger dp[p, q]} :: 0 <= p < i && 0 <= q <= |b| ==> dp[p, q] == Distance(a, b, p, q)
  }

  /** Column 0 holds the deletion counts 0 .. |a|. */
  ghost predicate BaseColumn(dp: array2<nat>, a: string)
    reads dp
    requires dp.Length0 == |a| + 1 && dp.Length1 >= 1
  {
    forall p :: 0 <= p <= |a| ==> dp[p, 0] == p
  }

  /** The inner loop of `textSimilarity`: fills row i, given rows 0 .. i - 1
      and the base column. */
  method FillRow(dp: array2<nat>, a: string, b: string, i: nat)
    requires dp.Length0 == |a| + 1 && dp.Length1 == |b| + 1 && 1 <= i <= |a|
    requires BaseColumn(dp, a) && RowsDone(dp, a, b, i)
    modifies dp
    ensures BaseColumn(dp, a) && RowsDone(dp, a, b, i + 1)
  {
    for j := 1 to |b| + 1
      invariant BaseColumn(dp, a)
      invariant RowsDone(dp, a, b, i)
      invariant forall q {:trigger dp[i, q]} :: 0 <= q < j ==> dp[i, q] == Distance(a, b, i, q)
    {
      var cost := if a[i - 1] == b[j - 1] then 0 else 1;
      assert dp[i - 1, j] == Distance(a, b, i - 1, j);
      assert dp[i - 1, j - 1] == Distance(a, b, i - 1, j - 1);
      assert dp[i, j - 1] == Distance(a, b, i, j - 1);
      var cell := Min3(dp[i - 1, j] + 1, dp[i, j - 1] + 1, dp[i - 1, j - 1] + cost);
      assert cell == Distance(a, b, i, j);
      dp[i, j] := cell;
    }
  }

  /** The server's `textSimilarity`: a (|a|+1) x (|b|+1) table whose cell
      (i, j) ends up holding the distance of the prefixes a[..i] and b[..j]. */
  method TextSimilarity(a: string, b: string) returns (r: real)
    ensures r == Similarity(a, b)
  {
    var dp := new nat[|a| + 1, |b| + 1];

    for i := 0 to |a| + 1
      invariant forall p :: 0 <= p < i ==> dp[p, 0] == p
    {
      dp[i, 0] := i;
    }
    for j := 0 to |b| + 1
      invariant BaseColumn(dp, a)
      invariant forall q :: 0 <= q < j ==> dp[0, q] == q
    {
      dp[0, j] := j;
    }
    assert RowsDone(dp, a, b, 1);

    for i := 1 to |a| + 1
      invariant BaseColumn(dp, a)
      invariant RowsDone(dp, a, b, i)
    {
      FillRow(dp, a, b, i);
    }

    var distance := dp[|a|, |b|];
    var maxLength := Max(|a|, |b|);
    r := if maxLength == 0 then 1.0 else 1.0 - (distance as real) / (maxLength as real);
  }
}
