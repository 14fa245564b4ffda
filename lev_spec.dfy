/** The Levenshtein distance between two token sequences, defined recursively
    over prefixes, and the properties the distance is known to have.

    `Lev(a, b)` recurses on the LAST token of each argument, so that
    `Lev(a[..i], b[..j])` is exactly cell `(i, j)` of the Wagner-Fischer
    table that `levenshtein_distance` fills row by row. */
module LevenshteinSpec {

  /** The smallest of three costs, as Python's `min` with three arguments. */
  function Min3(x: int, y: int, z: int): (m: int)
    ensures m <= x && m <= y && m <= z
    ensures m == x || m == y || m == z
  {
    if x <= y && x <= z then x else if y <= z then y else z
  }

  /** Cost of aligning token `x` with token `y`: free when they are equal.
      The source adds the boolean `c1 != c2` to an integer, i.e. 0 or 1. */
  function MismatchCost<T(==)>(x: T, y: T): (c: nat)
    ensures c <= 1
    ensures c == 0 <==> x == y
  {
    if x != y then 1 else 0
  }

  /** The Levenshtein distance: with an empty side, only insertions (or
      deletions) remain; otherwise the cheapest of dropping the last token of
      `a`, dropping the last token of `b`, or aligning the two last tokens. */
  function Lev<T(==)>(a: seq<T>, b: seq<T>): nat
    decreases |a| + |b|
  {
    if |a| == 0 then |b|
    else if |b| == 0 then |a|
    else
      var i, j := |a| - 1, |b| - 1;
      Min3(Lev(a[..i], b) + 1,
           Lev(a, b[..j]) + 1,
           Lev(a[..i], b[..j]) + MismatchCost(a[i], b[j]))
  }

  /** The recurrence one table cell obeys: cell `(i + 1, j + 1)` is the
      minimum of the cell above plus one, the cell to the left plus one, and
      the diagonal cell plus the mismatch cost of `a[i]` and `b[j]`. */
  lemma LevStep<T>(a: seq<T>, b: seq<T>, i: nat, j: nat, above: nat, left: nat, diagonal: nat)
    requires i < |a| && j < |b|
    requires above == Lev(a[..i], b[..j + 1])
    requires left == Lev(a[..i + 1], b[..j])
    requires diagonal == Lev(a[..i], b[..j])
    ensures Lev(a[..i + 1], b[..j + 1]) == Min3(above + 1, left + 1, diagonal + MismatchCost(a[i], b[j]))
  {
    assert a[..i + 1][..i] == a[..i];
    assert b[..j + 1][..j] == b[..j];
  }

  /** Cell `(i, j)` of the Wagner-Fischer table for `a` and `b`, computed by
      the same recurrence but on positions, without taking prefixes. */
  function TableCell<T(==)>(a: seq<T>, b: seq<T>, i: nat, j: nat): nat
    requires i <= |a| && j <= |b|
    decreases i + j
  {
    if i == 0 then j
    else if j == 0 then i
    else Min3(TableCell(a, b, i - 1, j) + 1,
              TableCell(a, b, i, j - 1) + 1,
              TableCell(a, b, i - 1, j - 1) + MismatchCost(a[i - 1], b[j - 1]))
  }

  /** Every table cell is the distance between the two prefixes it stands for. */
  lemma {:induction false} TableCellIsLev<T>(a: seq<T>, b: seq<T>, i: nat, j: nat)
    requires i <= |a| && j <= |b|
    ensures TableCell(a, b, i, j) == Lev(a[..i], b[..j])
    decreases i + j
  {
    if i == 0 {
      assert a[..i] == [];
    } else if j == 0 {
      assert b[..j] == [];
    } else {
      TableCellIsLev(a, b, i - 1, j);
      TableCellIsLev(a, b, i, j - 1);
      TableCellIsLev(a, b, i - 1, j - 1);
      TableCellStep(a, b, i - 1, j - 1);
    }
  }

  /** The distance is the last cell of the full table. */
  lemma LevIsLastCell<T>(a: seq<T>, b: seq<T>)
    ensures Lev(a, b) == TableCell(a, b, |a|, |b|)
  {
    TableCellIsLev(a, b, |a|, |b|);
    assert a[..|a|] == a && b[..|b|] == b;
  }

  /** One inner cell: once its three neighbours are known to be distances of
      prefixes, so is the cell itself. */
  lemma TableCellStep<T>(a: seq<T>, b: seq<T>, i: nat, j: nat)
    requires i < |a| && j < |b|
    requires TableCell(a, b, i, j + 1) == Lev(a[..i], b[..j + 1])
    requires TableCell(a, b, i + 1, j) == Lev(a[..i + 1], b[..j])
    requires TableCell(a, b, i, j) == Lev(a[..i], b[..j])
    ensures TableCell(a, b, i + 1, j + 1) == Lev(a[..i + 1], b[..j + 1])
  {
    LevStep(a, b, i, j, TableCell(a, b, i, j + 1), TableCell(a, b, i + 1, j), TableCell(a, b, i, j));
  }

  /** The first row and first column of the table: against an empty
      sequence the distance is the other sequence's length. */
  lemma LevEmpty<T>(a: seq<T>, b: seq<T>)
    ensures Lev(a, []) == |a| && Lev([], b) == |b|
  {
  }

  /** Argument order does not matter. */
  lemma {:induction false} LevSymmetric<T>(a: seq<T>, b: seq<T>)
    ensures Lev(a, b) == Lev(b, a)
    decreases |a| + |b|
  {
    if |a| != 0 && |b| != 0 {
      var i, j := |a| - 1, |b| - 1;
      LevSymmetric(a[..i], b);
      LevSymmetric(a, b[..j]);
      LevSymmetric(a[..i], b[..j]);
    }
  }

  /** The distance is zero exactly when the two sequences are equal. */
  lemma {:induction false} LevZeroIffEqual<T>(a: seq<T>, b: seq<T>)
    ensures Lev(a, b) == 0 <==> a == b
    decreases |a| + |b|
  {
    if |a| != 0 && |b| != 0 {
      var i, j := |a| - 1, |b| - 1;
      LevZeroIffEqual(a[..i], b[..j]);
      assert a == a[..i] + [a[i]];
      assert b == b[..j] + [b[j]];
      if a == b {
        assert a[..i] == b[..j];
      }
    }
  }

  /** A sequence is at distance zero from itself. */
  lemma {:induction false} LevSelf<T>(a: seq<T>)
    ensures Lev(a, a) == 0
  {
    LevZeroIffEqual(a, a);
  }

  /** Every edit changes the length by at most one, so the distance is at
      least the difference of the lengths. */
  lemma {:induction false} LevLowerBound<T>(a: seq<T>, b: seq<T>)
    ensures Lev(a, b) >= |a| - |b| && Lev(a, b) >= |b| - |a|
    decreases |a| + |b|
  {
    if |a| != 0 && |b| != 0 {
      var i, j := |a| - 1, |b| - 1;
      LevLowerBound(a[..i], b);
      LevLowerBound(a, b[..j]);
      LevLowerBound(a[..i], b[..j]);
    }
  }

  /** Substituting along the shorter sequence and inserting or deleting the
      rest never costs more than the longer length. */
  lemma {:induction false} LevUpperBound<T>(a: seq<T>, b: seq<T>)
    ensures Lev(a, b) <= if |a| <= |b| then |b| else |a|
    decreases |a| + |b|
  {
    if |a| != 0 && |b| != 0 {
      LevUpperBound(a[..|a| - 1], b[..|b| - 1]);
    }
  }
}
