/**
 * Levenshtein distance as AutomationService.ComputeEditDistance computes it: a
 * dynamic-programming table d[0..|left|, 0..|right|] whose cell (i, j) holds the
 * number of single-character insertions, deletions and substitutions that turn the
 * first i characters of `left` into the first j characters of `right`.
 */
module EditDistance {

  /** ComputeMin: Math.Min(Math.Min(e1, e2), e3). */
  function Min3(e1: int, e2: int, e3: int): int {
    var m := if e1 <= e2 then e1 else e2;
    if m <= e3 then m else e3
  }

  /** ComputeMin returns the least of its three inputs. */
  lemma Min3IsLeast(e1: int, e2: int, e3: int)
    ensures Min3(e1, e2, e3) <= e1 && Min3(e1, e2, e3) <= e2 && Min3(e1, e2, e3) <= e3
    ensures Min3(e1, e2, e3) == e1 || Min3(e1, e2, e3) == e2 || Min3(e1, e2, e3) == e3
  {
  }

  function Max(x: int, y: int): int { if x >= y then x else y }

  /** The recurrence of the table: the distance between a[..i] and b[..j]. */
  function Dist(a: string, b: string, i: int, j: int): int
    requires 0 <= i <= |a| && 0 <= j <= |b|
    decreases i + j
  {
    if i == 0 then j
    else if j == 0 then i
    else Min3(Dist(a, b, i - 1, j) + 1,
              Dist(a, b, i, j - 1) + 1,
              Dist(a, b, i - 1, j - 1) + (if b[j - 1] == a[i - 1] then 0 else 1))
  }

  /** The edit distance between two whole strings. */
  function Levenshtein(a: string, b: string): int {
    Dist(a, b, |a|, |b|)
  }

  /** ComputeEditDistance: fills the table row by row and returns its last cell. */
  method ComputeEditDistance(left: string, right: string) returns (r: int)
    ensures r == Levenshtein(left, right)
  {
    if |left| == 0 {
      return |right|;
    }
    if |right| == 0 {
      return |left|;
    }
    var d := new int[|left| + 1, |right| + 1];
    var i := 0;
    while i <= |left|
      invariant 0 <= i <= |left| + 1
      invariant forall p :: 0 <= p < i ==> d[p, 0] == p
    {
      d[i, 0] := i;
      i := i + 1;
    }
    var j := 0;
    while j <= |right|
      invariant 0 <= j <= |right| + 1
      invariant forall p :: 0 <= p <= |left| ==> d[p, 0] == p
      invariant forall q :: 0 <= q < j ==> d[0, q] == q
    {
      d[0, j] := j;
      j := j + 1;
    }
    i := 1;
    while i <= |left|
      invariant 1 <= i <= |left| + 1
      invariant forall p :: i <= p <= |left| ==> d[p, 0] == Dist(left, right, p, 0)
      invariant forall p, q :: 0 <= p < i && 0 <= q <= |right| ==> d[p, q] == Dist(left, right, p, q)
    {
      FillRow(d, left, right, i);
      i := i + 1;
    }
    r := d[|left|, |right|];
  }

  /** One pass of the inner loop of ComputeEditDistance: row i from row i - 1 and its first cell. */
  method FillRow(d: array2<int>, left: string, right: string, i: int)
    requires d.Length0 == |left| + 1 && d.Length1 == |right| + 1
    requires 1 <= i <= |left|
    requires d[i, 0] == Dist(left, right, i, 0)
    requires forall q {:trigger d[i - 1, q]} :: 0 <= q <= |right| ==> d[i - 1, q] == Dist(left, right, i - 1, q)
    modifies d
    ensures forall q :: 0 <= q <= |right| ==> d[i, q] == Dist(left, right, i, q)
    ensures forall p, q :: 0 <= p < d.Length0 && 0 <= q < d.Length1 && p != i ==> d[p, q] == old(d[p, q])
  {
    var j := 1;
    while j <= |right|
      invariant 1 <= j <= |right| + 1
      invariant forall q {:trigger d[i, q]} :: 0 <= q < j ==> d[i, q] == Dist(left, right, i, q)
      invariant forall p, q :: 0 <= p < d.Length0 && 0 <= q < d.Length1 && p != i ==> d[p, q] == old(d[p, q])
    {
      var cost := if right[j - 1] == left[i - 1] then 0 else 1;
      d[i, j] := Min3(d[i - 1, j] + 1, d[i, j - 1] + 1, d[i - 1, j - 1] + cost);
      j := j + 1;
    }
  }

  // ---------------------------------------------------------------------------
  // Properties of the distance

  /** An empty string is as far from another string as that string is long. */
  lemma EmptyDistance(a: string, b: string)
    ensures a == "" ==> Levenshtein(a, b) == |b|
    ensures b == "" ==> Levenshtein(a, b) == |a|
  {
  }

  /** One step of the recurrence, for indices past the borders. */
  lemma DistStep(a: string, b: string, i: int, j: int)
    requires 0 < i <= |a| && 0 < j <= |b|
    ensures Dist(a, b, i, j) == Min3(Dist(a, b, i - 1, j) + 1, Dist(a, b, i, j - 1) + 1,
                                     Dist(a, b, i - 1, j - 1) + (if b[j - 1] == a[i - 1] then 0 else 1))
  {
  }

  /** The distance is symmetric. */
  lemma {:induction false} DistSymmetric(a: string, b: string, i: int, j: int)
    requires 0 <= i <= |a| && 0 <= j <= |b|
    ensures Dist(a, b, i, j) == Dist(b, a, j, i)
    decreases i + j
  {
    if i > 0 && j > 0 {
      var up, left, diag := Dist(a, b, i - 1, j), Dist(a, b, i, j - 1), Dist(a, b, i - 1, j - 1);
      DistSymmetric(a, b, i - 1, j);
      DistSymmetric(a, b, i, j - 1);
      DistSymmetric(a, b, i - 1, j - 1);
      DistSymmetricStep(a, b, i, j, up, left, diag);
    }
  }

  /** The inductive step of DistSymmetric: the recurrence is the same read from either side. */
  lemma DistSymmetricStep(a: string, b: string, i: int, j: int, up: int, left: int, diag: int)
    requires 0 < i <= |a| && 0 < j <= |b|
    requires up == Dist(a, b, i - 1, j) == Dist(b, a, j, i - 1)
    requires left == Dist(a, b, i, j - 1) == Dist(b, a, j - 1, i)
    requires diag == Dist(a, b, i - 1, j - 1) == Dist(b, a, j - 1, i - 1)
    ensures Dist(a, b, i, j) == Dist(b, a, j, i)
  {
    var cost := if b[j - 1] == a[i - 1] then 0 else 1;
    var x, y, z := Dist(a, b, i - 1, j) + 1, Dist(a, b, i, j - 1) + 1, Dist(a, b, i - 1, j - 1) + cost;
    DistStep(a, b, i, j);
    DistStep(b, a, j, i);
    assert Min3(x, y, z) == Min3(y, x, z);
  }

  lemma LevenshteinSymmetric(a: string, b: string)
    ensures Levenshtein(a, b) == Levenshtein(b, a)
  {
    DistSymmetric(a, b, |a|, |b|);
  }

  /** The distance is never more than the longer length: substitute along the shorter, insert the rest. */
  lemma {:induction false} DistAtMostLonger(a: string, b: string, i: int, j: int)
    requires 0 <= i <= |a| && 0 <= j <= |b|
    ensures Dist(a, b, i, j) <= Max(i, j)
    decreases i + j
  {
    if i > 0 && j > 0 {
      DistAtMostLonger(a, b, i - 1, j - 1);
    }
  }

  /** The distance is never less than the difference of the lengths. */
  lemma {:induction false} DistAtLeastLengthGap(a: string, b: string, i: int, j: int)
    requires 0 <= i <= |a| && 0 <= j <= |b|
    ensures Dist(a, b, i, j) >= i - j && Dist(a, b, i, j) >= j - i
    decreases i + j
  {
    if i > 0 && j > 0 {
      assert Dist(a, b, i - 1, j) >= i - 1 - j && Dist(a, b, i - 1, j) >= j - i + 1 by {
        DistAtLeastLengthGap(a, b, i - 1, j);
      }
      assert Dist(a, b, i, j - 1) >= i - j + 1 && Dist(a, b, i, j - 1) >= j - 1 - i by {
        DistAtLeastLengthGap(a, b, i, j - 1);
      }
      assert Dist(a, b, i - 1, j - 1) >= i - j && Dist(a, b, i - 1, j - 1) >= j - i by {
        DistAtLeastLengthGap(a, b, i - 1, j - 1);
      }
      DistStep(a, b, i, j);
    }
  }

  lemma LevenshteinBounds(a: string, b: string)
    ensures Levenshtein(a, b) <= Max(|a|, |b|)
    ensures Levenshtein(a, b) >= |a| - |b| && Levenshtein(a, b) >= |b| - |a|
  {
    DistAtMostLonger(a, b, |a|, |b|);
    DistAtLeastLengthGap(a, b, |a|, |b|);
  }

  /** The distance is zero exactly between equal prefixes. */
  lemma {:induction false} DistZeroIffEqual(a: string, b: string, i: int, j: int)
    requires 0 <= i <= |a| && 0 <= j <= |b|
    ensures Dist(a, b, i, j) == 0 <==> i == j && a[..i] == b[..j]
    decreases i + j
  {
    if i > 0 && j > 0 {
      DistZeroIffEqual(a, b, i - 1, j - 1);
      DistAtLeastLengthGap(a, b, i - 1, j);
      DistAtLeastLengthGap(a, b, i, j - 1);
      DistAtLeastLengthGap(a, b, i - 1, j - 1);
      DistZeroStep(a, b, i, j);
      PrefixesEqualStep(a, b, i, j);
    } else {
      assert |a[..i]| == i && |b[..j]| == j;
    }
  }

  /** The inductive step of DistZeroIffEqual: with no negative neighbours, only the diagonal can give zero. */
  lemma DistZeroStep(a: string, b: string, i: int, j: int)
    requires 0 < i <= |a| && 0 < j <= |b|
    requires Dist(a, b, i - 1, j) >= 0 && Dist(a, b, i, j - 1) >= 0 && Dist(a, b, i - 1, j - 1) >= 0
    ensures Dist(a, b, i, j) == 0 <==> Dist(a, b, i - 1, j - 1) == 0 && b[j - 1] == a[i - 1]
  {
    DistStep(a, b, i, j);
  }

  /** Two non-empty prefixes are equal exactly when their own prefixes and their last characters are. */
  lemma PrefixesEqualStep(a: string, b: string, i: int, j: int)
    requires 0 < i <= |a| && 0 < j <= |b|
    ensures a[..i] == b[..j] <==> i == j && a[..i - 1] == b[..j - 1] && a[i - 1] == b[j - 1]
  {
    assert a[..i] == a[..i - 1] + [a[i - 1]];
    assert b[..j] == b[..j - 1] + [b[j - 1]];
    if a[..i] == b[..j] {
      assert a[..i - 1] == a[..i][..i - 1];
      assert b[..j - 1] == b[..j][..j - 1];
      assert a[i - 1] == a[..i][i - 1];
      assert b[j - 1] == b[..j][j - 1];
    }
  }

  lemma LevenshteinZeroIffEqual(a: string, b: string)
    ensures Levenshtein(a, b) == 0 <==> a == b
  {
    DistZeroIffEqual(a, b, |a|, |b|);
    assert a[..|a|] == a && b[..|b|] == b;
  }

  /** The number of positions below n where two strings differ. */
  function Mismatches(a: string, b: string, n: nat): nat
    requires n <= |a| && n <= |b|
  {
    if n == 0 then 0 else Mismatches(a, b, n - 1) + (if a[n - 1] == b[n - 1] then 0 else 1)
  }

  /** Between equal-length strings the distance is at most the number of differing positions. */
  lemma {:induction false} DistAtMostMismatches(a: string, b: string, n: int)
    requires 0 <= n <= |a| && n <= |b|
    ensures Dist(a, b, n, n) <= Mismatches(a, b, n)
  {
    if n > 0 {
      DistAtMostMismatches(a, b, n - 1);
    }
  }

  lemma LevenshteinAtMostMismatches(a: string, b: string)
    requires |a| == |b|
    ensures Levenshtein(a, b) <= Mismatches(a, b, |a|)
  {
    DistAtMostMismatches(a, b, |a|);
  }
}
