/** `levenshtein_distance` of app.py: the two-row Wagner-Fischer algorithm.
    The rows are Python lists; here they are sequences that the loops
    rebuild, `current` growing by one appended cell per inner iteration.
    The inner loop is written as its own method, `NextRow`. */
module App {
  import opened LevenshteinSpec

  /** The edit distance between `s1` and `s2`. The source first puts the
      longer argument first (by calling itself with the arguments swapped),
      returns the longer length when the shorter one is empty, and otherwise
      keeps one table row per token of the longer argument. */
  method LevenshteinDistance<T(==)>(s1: seq<T>, s2: seq<T>) returns (d: nat)
    ensures d == Lev(s1, s2)
  {
    LevSymmetric(s1, s2);
    var a, b := if |s1| < |s2| then s2 else s1, if |s1| < |s2| then s1 else s2;
    assert Lev(a, b) == Lev(s1, s2);

    if |b| == 0 {
      assert b == [];
      LevEmpty(a, b);
      return |a|;
    }

    var previous: seq<nat> := seq(|b| + 1, j => j);
    for i := 0 to |a|
      invariant |previous| == |b| + 1
      invariant forall j :: 0 <= j <= |b| ==> previous[j] == TableCell(a, b, i, j)
    {
      previous := NextRow(previous, a, b, i);
    }

    TableCellIsLev(a, b, |a|, |b|);
    assert a[..|a|] == a && b[..|b|] == b;
    d := previous[|previous| - 1];
  }

  /** One pass of the outer loop: from the row for the first `i` tokens of
      `a`, the row for the first `i + 1` tokens. It starts with `i + 1`, and
      each further cell is the smallest of the cell above plus one, the cell
      to the left plus one, and the diagonal plus the cost of `a[i]` against
      the column's token. */
  method NextRow<T(==)>(previous: seq<nat>, a: seq<T>, b: seq<T>, i: nat) returns (current: seq<nat>)
    requires i < |a| && |previous| == |b| + 1
    requires forall j :: 0 <= j <= |b| ==> previous[j] == TableCell(a, b, i, j)
    ensures |current| == |b| + 1 && current[0] == i + 1
    ensures forall j :: 0 <= j <= |b| ==> current[j] == TableCell(a, b, i + 1, j)
  {
    current := [i + 1];
    for j := 0 to |b|
      invariant |current| == j + 1
      invariant current[0] == i + 1
      invariant forall k :: 0 <= k <= j ==> current[k] == TableCell(a, b, i + 1, k)
    {
      var insertions := previous[j + 1] + 1;
      var deletions := current[j] + 1;
      var substitutions := previous[j] + MismatchCost(a[i], b[j]);
      current := current + [Min3(insertions, deletions, substitutions)];
    }
  }
}
