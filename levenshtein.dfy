/**
  The engine's Levenshtein distance: unit-cost insert, delete and substitute, computed with a
  single row of the dynamic-programming table that is overwritten in place.
*/
module EditDistance {
  import opened Util

  function Min3(x: nat, y: nat, z: nat): nat {
    if x <= y && x <= z then x else if y <= z then y else z
  }

  /**
    The table entry for the prefixes a[..i] and b[..j], by the recurrence the source's inner loop
    applies: a matching pair of last characters costs nothing, otherwise one edit plus the
    cheapest of substituting, inserting and deleting.
  */
  function Dist(a: string, b: string, i: nat, j: nat): nat
    requires i <= |a| && j <= |b|
    decreases i + j
  {
    if i == 0 then j
    else if j == 0 then i
    else if a[i - 1] == b[j - 1] then Dist(a, b, i - 1, j - 1)
    else 1 + Min3(Dist(a, b, i - 1, j - 1), Dist(a, b, i, j - 1), Dist(a, b, i - 1, j))
  }

  function Lev(a: string, b: string): nat {
    Dist(a, b, |a|, |b|)
  }

  /** levenshtein(a, b) */
  method Levenshtein(a: string, b: string) returns (r: nat)
    ensures r == Lev(a, b)
  {
    var m, n := |a|, |b|;
    if m == 0 { return n; }
    if n == 0 { return m; }
    var d := new nat[n + 1];
    var j := 0;
    while j <= n
      invariant 0 <= j <= n + 1
      invariant forall k :: 0 <= k < j ==> d[k] == k
    {
      d[j] := j;
      j := j + 1;
    }
    var i := 1;
    while i <= m
      invariant 1 <= i <= m + 1
      invariant forall k {:trigger d[k]} :: 0 <= k <= n ==> d[k] == Dist(a, b, i - 1, k)
    {
      NextRow(a, b, d, i);
      i := i + 1;
    }
    r := d[n];
  }

  /** One pass of the outer loop: the row for a[..i - 1] becomes the row for a[..i]. */
  method NextRow(a: string, b: string, d: array<nat>, i: nat)
    requires 1 <= i <= |a| && d.Length == |b| + 1
    requires forall k {:trigger d[k]} :: 0 <= k <= |b| ==> d[k] == Dist(a, b, i - 1, k)
    modifies d
    ensures forall k {:trigger d[k]} :: 0 <= k <= |b| ==> d[k] == Dist(a, b, i, k)
  {
    var n := |b|;
    var p := d[0];
    d[0] := i;
    var j := 1;
    while j <= n
      invariant 1 <= j <= n + 1
      invariant p == Dist(a, b, i - 1, j - 1)
      invariant forall k {:trigger d[k]} :: 0 <= k < j ==> d[k] == Dist(a, b, i, k)
      invariant forall k {:trigger d[k]} :: j <= k <= n ==> d[k] == Dist(a, b, i - 1, k)
    {
      var left, up := d[j - 1], d[j];
      assert left == Dist(a, b, i, j - 1) && up == Dist(a, b, i - 1, j);
      DistStep(a, b, i, j);
      var v := if a[i - 1] == b[j - 1] then p else 1 + Min3(p, left, up);
      d[j] := v;
      p := up;
      j := j + 1;
    }
  }

  lemma DistStep(a: string, b: string, i: nat, j: nat)
    requires 1 <= i <= |a| && 1 <= j <= |b|
    ensures Dist(a, b, i, j) == if a[i - 1] == b[j - 1] then Dist(a, b, i - 1, j - 1)
      else 1 + Min3(Dist(a, b, i - 1, j - 1), Dist(a, b, i, j - 1), Dist(a, b, i - 1, j))
  {
  }

  // ---------------------------------------------------------------------------

  /** Against the empty string the distance is the other string's length; a string is at distance 0 from itself. */
  lemma {:induction false} DistSame(a: string, i: nat)
    requires i <= |a|
    ensures Dist(a, a, i, i) == 0
  {
    if i > 0 {
      DistSame(a, i - 1);
    }
  }

  lemma LevBaseCases(a: string, b: string)
    ensures Lev(a, []) == |a| && Lev([], b) == |b|
    ensures Lev(a, a) == 0
  {
    DistSame(a, |a|);
  }

  /** The distance never exceeds the longer length, and is at least the difference of the lengths. */
  lemma {:induction false} DistBounds(a: string, b: string, i: nat, j: nat)
    requires i <= |a| && j <= |b|
    ensures Dist(a, b, i, j) <= Max(i, j)
    ensures Dist(a, b, i, j) >= if i < j then j - i else i - j
    decreases i + j
  {
    if i > 0 && j > 0 {
      DistBounds(a, b, i - 1, j - 1);
      DistBounds(a, b, i, j - 1);
      DistBounds(a, b, i - 1, j);
    }
  }

  lemma LevBounds(a: string, b: string)
    ensures Lev(a, b) <= Max(|a|, |b|)
    ensures Lev(a, b) >= if |a| < |b| then |b| - |a| else |a| - |b|
  {
    DistBounds(a, b, |a|, |b|);
  }

  /** The distance does not depend on the order of its arguments. */
  lemma {:induction false} DistSymmetric(a: string, b: string, i: nat, j: nat)
    requires i <= |a| && j <= |b|
    ensures Dist(a, b, i, j) == Dist(b, a, j, i)
    decreases i + j
  {
    if i > 0 && j > 0 {
      DistSymmetric(a, b, i - 1, j - 1);
      DistSymmetric(a, b, i, j - 1);
      DistSymmetric(a, b, i - 1, j);
    }
  }

  lemma LevSymmetric(a: string, b: string)
    ensures Lev(a, b) == Lev(b, a)
  {
    DistSymmetric(a, b, |a|, |b|);
  }

  /** Distance 0 means equal strings. */
  lemma {:induction false} DistZero(a: string, b: string, i: nat, j: nat)
    requires i <= |a| && j <= |b|
    requires Dist(a, b, i, j) == 0
    ensures i == j && a[..i] == b[..j]
    decreases i + j
  {
    if i > 0 && j > 0 {
      DistZero(a, b, i - 1, j - 1);
      assert a[..i] == a[..i - 1] + [a[i - 1]];
      assert b[..j] == b[..j - 1] + [b[j - 1]];
    }
  }

  lemma LevZeroIffEqual(a: string, b: string)
    ensures Lev(a, b) == 0 <==> a == b
  {
    if Lev(a, b) == 0 {
      DistZero(a, b, |a|, |b|);
      assert a == a[..|a|] && b == b[..|b|];
    } else {
      DistSame(a, |a|);
    }
  }
}
