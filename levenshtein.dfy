/**
 * Edit distance between command names (levenshtein.go).
 *
 * `Dist` is the textbook recurrence for the unit-cost insert/delete/substitute
 * distance. The Go code computes it row by row with two arrays; `Row` is the
 * row-by-row reading of the same recurrence, `RowIsDist` proves the two agree,
 * and the method `Levenshtein` keeps the arrays of the source and is proved to
 * return `EditDistance`.
 */
module Levenshtein {

  /** The distance below which a command name counts as similar to a request. */
  const SimilarThreshold: int := 5

  function Min2(a: int, b: int): int
  {
    if a <= b then a else b
  }

  function Min3(a: int, b: int, c: int): int
  {
    Min2(a, Min2(b, c))
  }

  /** Substitution cost: 0 exactly when the two elements are equal. */
  function Cost<T(==)>(x: T, y: T): nat
  {
    if x == y then 0 else 1
  }

  /**
   * The unit-cost insert/delete/substitute distance between the first `i`
   * elements of `s` and the first `j` elements of `t`.
   */
  function Dist<T(==)>(s: seq<T>, t: seq<T>, i: nat, j: nat): nat
    requires i <= |s| && j <= |t|
    decreases i + j
  {
    if i == 0 then j
    else if j == 0 then i
    else Min3(Dist(s, t, i, j - 1) + 1,
              Dist(s, t, i - 1, j) + 1,
              Dist(s, t, i - 1, j - 1) + Cost(s[i - 1], t[j - 1]))
  }

  /** The edit distance of the whole of `s` from the whole of `t`. */
  function EditDistance<T(==)>(s: seq<T>, t: seq<T>): nat
  {
    Dist(s, t, |s|, |t|)
  }

  /** 0, 1, ..., n - 1: the first row of the table. */
  function Naturals(n: nat): (r: seq<int>)
    ensures |r| == n
  {
    if n == 0 then [] else Naturals(n - 1) + [n - 1]
  }

  /**
   * Cells 0..j of row `i` (for i > 0), given the previous row `prev`: cell 0
   * is `i`, and cell j is the least of the cell to its left plus one, the cell
   * above plus one, and the cell above-left plus the substitution cost.
   */
  function RowPrefix<T(==)>(s: seq<T>, t: seq<T>, i: nat, prev: seq<int>, j: nat): (r: seq<int>)
    requires 0 < i <= |s| && |prev| == |t| + 1 && j <= |t|
    ensures |r| == j + 1
  {
    if j == 0 then [i]
    else
      var r := RowPrefix(s, t, i, prev, j - 1);
      r + [Min3(r[j - 1] + 1, prev[j] + 1, prev[j - 1] + Cost(s[i - 1], t[j - 1]))]
  }

  /** Row `i` of the table, one cell for each prefix length of `t`. */
  function Row<T(==)>(s: seq<T>, t: seq<T>, i: nat): (r: seq<int>)
    requires i <= |s|
    ensures |r| == |t| + 1
  {
    if i == 0 then Naturals(|t| + 1) else RowPrefix(s, t, i, Row(s, t, i - 1), |t|)
  }

  /** `min` of the source: the least of a non-empty list of integers. */
  method Min(xs: seq<int>) returns (m: int)
    requires |xs| > 0
    ensures m in xs
    ensures forall k :: 0 <= k < |xs| ==> m <= xs[k]
  {
    m := xs[0];
    var i := 1;
    while i < |xs|
      invariant 1 <= i <= |xs|
      invariant m in xs
      invariant forall k :: 0 <= k < i ==> m <= xs[k]
    {
      if xs[i] < m {
        m := xs[i];
      }
      i := i + 1;
    }
  }

  /** `levenshtein` of the source: two rows `v0`, `v1` over the columns of `t`. */
  method Levenshtein<T(==)>(s: seq<T>, t: seq<T>) returns (d: int)
    ensures d == EditDistance(s, t)
  {
    if s == t {
      DistToSelf(s, |s|);
      return 0;
    }
    if |s| == 0 {
      return |t|;
    }
    if |t| == 0 {
      return |s|;
    }
    var v0 := new int[|t| + 1];
    var v1 := new int[|t| + 1];
    for i := 0 to v0.Length
      invariant v0[..i] == Naturals(i)
    {
      v0[i] := i;
      assert v0[..i + 1] == v0[..i] + [i];
    }
    assert v0[..] == v0[..v0.Length];
    for i := 0 to |s|
      invariant v0[..] == Row(s, t, i)
      invariant i > 0 ==> v1[..] == v0[..]
    {
      NextRow(s, t, i, v0, v1);
      forall j | 0 <= j < v0.Length {
        v0[j] := v1[j];
      }
      assert v0[..] == v1[..];
    }
    RowIsDist(s, t, |s|, |t|);
    return v1[|t|];
  }

  /**
   * The body of the outer loop of `levenshtein` before the copy: fills `v1`
   * with row i + 1 of the table from row i held in `v0`.
   */
  method NextRow<T(==)>(s: seq<T>, t: seq<T>, i: nat, v0: array<int>, v1: array<int>)
    requires i < |s| && v0.Length == v1.Length == |t| + 1 && v0 != v1
    requires v0[..] == Row(s, t, i)
    modifies v1
    ensures v1[..] == Row(s, t, i + 1)
  {
    v1[0] := i + 1;
    ghost var prev := v0[..];
    for j := 0 to |t|
      invariant v1[..j + 1] == RowPrefix(s, t, i + 1, prev, j)
    {
      var cost := 0;
      if s[i] != t[j] {
        cost := 1;
      }
      ghost var done := RowPrefix(s, t, i + 1, prev, j);
      assert v1[j] == v1[..j + 1][j] == done[j];
      var choices := [v1[j] + 1, v0[j + 1] + 1, v0[j] + cost];
      var m := Min(choices);
      assert m <= choices[0] && m <= choices[1] && m <= choices[2];
      v1[j + 1] := m;
      assert v1[..j + 2] == v1[..j + 1] + [m];
    }
    assert v1[..] == v1[..|t| + 1];
  }

  /** Cells 0..j of `r` hold the recurrence's values for row `i`. */
  predicate DistCells<T(==)>(s: seq<T>, t: seq<T>, i: nat, r: seq<int>, j: nat)
    requires i <= |s| && j < |r| && j <= |t|
  {
    r[j] == Dist(s, t, i, j) && (j > 0 ==> DistCells(s, t, i, r, j - 1))
  }

  lemma {:induction false} DistCellsAt<T>(s: seq<T>, t: seq<T>, i: nat, r: seq<int>, j: nat, k: nat)
    requires i <= |s| && j < |r| && k <= j <= |t|
    requires DistCells(s, t, i, r, j)
    ensures r[k] == Dist(s, t, i, k)
  {
    if k < j {
      DistCellsAt(s, t, i, r, j - 1, k);
    }
  }

  lemma RowPrefixLast<T>(s: seq<T>, t: seq<T>, i: nat, prev: seq<int>, j: nat)
    requires 0 < i <= |s| && |prev| == |t| + 1 && 0 < j <= |t|
    ensures RowPrefix(s, t, i, prev, j)[j]
         == Min3(RowPrefix(s, t, i, prev, j - 1)[j - 1] + 1, prev[j] + 1, prev[j - 1] + Cost(s[i - 1], t[j - 1]))
  {
  }

  lemma RowPrefixKeeps<T>(s: seq<T>, t: seq<T>, i: nat, prev: seq<int>, j: nat, k: nat)
    requires 0 < i <= |s| && |prev| == |t| + 1 && k < j <= |t|
    ensures RowPrefix(s, t, i, prev, j)[k] == RowPrefix(s, t, i, prev, j - 1)[k]
  {
  }

  /** The recurrence at an inner cell: the least of the three neighbours' costs. */
  lemma DistStep<T>(s: seq<T>, t: seq<T>, i: nat, j: nat)
    requires 0 < i <= |s| && 0 < j <= |t|
    ensures Dist(s, t, i, j)
         == Min3(Dist(s, t, i, j - 1) + 1, Dist(s, t, i - 1, j) + 1, Dist(s, t, i - 1, j - 1) + Cost(s[i - 1], t[j - 1]))
  {
  }

  /**
   * The last cell of a row prefix is the recurrence's value, given the cells
   * above it and the cell to its left.
   */
  lemma LastCellIsDist<T>(s: seq<T>, t: seq<T>, i: nat, prev: seq<int>, j: nat)
    requires 0 < i <= |s| && |prev| == |t| + 1 && 0 < j <= |t|
    requires prev[j] == Dist(s, t, i - 1, j) && prev[j - 1] == Dist(s, t, i - 1, j - 1)
    requires RowPrefix(s, t, i, prev, j - 1)[j - 1] == Dist(s, t, i, j - 1)
    ensures RowPrefix(s, t, i, prev, j)[j] == Dist(s, t, i, j)
  {
    RowPrefixLast(s, t, i, prev, j);
    DistStep(s, t, i, j);
  }

  /** Cell k of a row prefix is the recurrence's value, given the row above. */
  lemma {:induction false} RowPrefixIsDist<T>(s: seq<T>, t: seq<T>, i: nat, prev: seq<int>, j: nat, k: nat)
    requires 0 < i <= |s| && |prev| == |t| + 1 && k <= j <= |t|
    requires DistCells(s, t, i - 1, prev, |t|)
    ensures RowPrefix(s, t, i, prev, j)[k] == Dist(s, t, i, k)
  {
    if k < j {
      RowPrefixKeeps(s, t, i, prev, j, k);
      RowPrefixIsDist(s, t, i, prev, j - 1, k);
    } else if j > 0 {
      RowPrefixIsDist(s, t, i, prev, j - 1, j - 1);
      DistCellsAt(s, t, i - 1, prev, |t|, j);
      DistCellsAt(s, t, i - 1, prev, |t|, j - 1);
      LastCellIsDist(s, t, i, prev, j);
    }
  }

  /** Cells 0..j of row `i` of the table hold the recurrence's values. */
  lemma {:induction false} RowCellsAreDist<T>(s: seq<T>, t: seq<T>, i: nat, j: nat)
    requires i <= |s| && j <= |t|
    ensures DistCells(s, t, i, Row(s, t, i), j)
    decreases i, j
  {
    if j > 0 {
      RowCellsAreDist(s, t, i, j - 1);
    }
    if i > 0 {
      RowCellsAreDist(s, t, i - 1, |t|);
      RowPrefixIsDist(s, t, i, Row(s, t, i - 1), |t|, j);
    } else {
      NaturalsAt(|t| + 1, j);
    }
  }

  /** Row `i` of the table holds the recurrence's value in every cell. */
  lemma RowIsDist<T>(s: seq<T>, t: seq<T>, i: nat, j: nat)
    requires i <= |s| && j <= |t|
    ensures Row(s, t, i)[j] == Dist(s, t, i, j)
  {
    RowCellsAreDist(s, t, i, j);
  }

  lemma {:induction false} NaturalsAt(n: nat, k: nat)
    requires k < n
    ensures Naturals(n)[k] == k
  {
    if k < n - 1 {
      NaturalsAt(n - 1, k);
    }
  }

  /** A sequence is at distance 0 from itself. */
  lemma {:induction false} DistToSelf<T>(s: seq<T>, i: nat)
    requires i <= |s|
    ensures Dist(s, s, i, i) == 0
  {
    if i > 0 {
      DistToSelf(s, i - 1);
    }
  }

  lemma EditDistanceToSelf<T>(s: seq<T>)
    ensures EditDistance(s, s) == 0
  {
    DistToSelf(s, |s|);
  }

  /** Against an empty sequence the distance is the other one's length. */
  lemma EditDistanceFromEmpty<T>(s: seq<T>, t: seq<T>)
    ensures |s| == 0 ==> EditDistance(s, t) == |t|
    ensures |t| == 0 ==> EditDistance(s, t) == |s|
  {
  }

  /** The distance is at least the difference of the two lengths. */
  lemma {:induction false} DistLowerBound<T>(s: seq<T>, t: seq<T>, i: nat, j: nat)
    requires i <= |s| && j <= |t|
    ensures i - j <= Dist(s, t, i, j) && j - i <= Dist(s, t, i, j)
    decreases i + j
  {
    if i > 0 && j > 0 {
      DistLowerBound(s, t, i - 1, j);
      DistLowerBound(s, t, i, j - 1);
      DistLowerBound(s, t, i - 1, j - 1);
    }
  }

  /** The distance is at most the longer of the two lengths. */
  lemma {:induction false} DistUpperBound<T>(s: seq<T>, t: seq<T>, i: nat, j: nat)
    requires i <= |s| && j <= |t|
    ensures Dist(s, t, i, j) <= if i <= j then j else i
    decreases i + j
  {
    if i > 0 && j > 0 {
      DistUpperBound(s, t, i - 1, j - 1);
    }
  }

  /** Only equal prefixes are at distance 0. */
  lemma {:induction false} DistZero<T>(s: seq<T>, t: seq<T>, i: nat, j: nat)
    requires i <= |s| && j <= |t| && Dist(s, t, i, j) == 0
    ensures i == j && s[..i] == t[..j]
    decreases i + j
  {
    if i > 0 && j > 0 {
      DistZero(s, t, i - 1, j - 1);
      assert s[..i] == s[..i - 1] + [s[i - 1]];
      assert t[..j] == t[..j - 1] + [t[j - 1]];
    }
  }

  /** The edit distance is 0 exactly when the two sequences are equal. */
  lemma EditDistanceZero<T>(s: seq<T>, t: seq<T>)
    ensures EditDistance(s, t) == 0 <==> s == t
  {
    if EditDistance(s, t) == 0 {
      DistZero(s, t, |s|, |t|);
      assert s == s[..|s|] && t == t[..|t|];
    } else if s == t {
      EditDistanceToSelf(s);
    }
  }

  /**
   * Cell 0 of `next` is `i`, and every cell 1..j follows the recurrence from the
   * cell to its left and the row `prev` above, for a row whose character is `c`.
   */
  predicate CellsFollow(c: char, t: string, i: nat, prev: seq<int>, next: seq<int>, j: nat)
    requires |prev| == |next| == |t| + 1 && j <= |t|
  {
    if j == 0 then next[0] == i
    else next[j] == Min3(next[j - 1] + 1, prev[j] + 1, prev[j - 1] + if c == t[j - 1] then 0 else 1)
         && CellsFollow(c, t, i, prev, next, j - 1)
  }

  lemma {:induction false} CellsFollowPrefix(s: string, t: string, i: nat, prev: seq<int>, next: seq<int>, j: nat)
    requires 0 < i <= |s| && |prev| == |next| == |t| + 1 && j <= |t|
    requires CellsFollow(s[i - 1], t, i, prev, next, j)
    ensures RowPrefix(s, t, i, prev, j) == next[..j + 1]
  {
    if j > 0 {
      CellsFollowPrefix(s, t, i, prev, next, j - 1);
      assert next[..j + 1] == next[..j] + [next[j]];
    }
  }

  lemma {:induction false} NaturalsIs(n: nat, r: seq<int>)
    requires |r| == n && forall k :: 0 <= k < n ==> r[k] == k
    ensures Naturals(n) == r
  {
    if n > 0 {
      NaturalsIs(n - 1, r[..n - 1]);
      assert r == r[..n - 1] + [n - 1];
    }
  }

  /** A row whose cells follow the recurrence from the row above it is the table's next row. */
  lemma RowFromCells(s: string, t: string, i: nat, c: char, prev: seq<int>, next: seq<int>)
    requires 0 < i <= |s| && c == s[i - 1] && |prev| == |next| == |t| + 1
    requires Row(s, t, i - 1) == prev
    requires CellsFollow(c, t, i, prev, next, |t|)
    ensures Row(s, t, i) == next
  {
    CellsFollowPrefix(s, t, i, prev, next, |t|);
    assert next[..|t| + 1] == next;
  }

  /**
   * `s` holds the characters of `w`, one by one: the same as `s == w`, but
   * stated per index so that the examples below take the text as a variable
   * `s` instead of a literal. With a literal argument the verifier unfolds
   * every recursive call on it, which makes the row-by-row proofs far more
   * expensive; `KittenSitting("kitten")` is the test case itself.
   */
  predicate Spells(s: string, w: string)
  {
    |s| == |w| && forall k :: 0 <= k < |s| ==> s[k] == w[k]
  }

  /** Rows 0..2 of the table for "kitten" against "sitting". */
  lemma KittenSittingRowsTo2(s: string)
    requires Spells(s, "kitten")
    ensures Row(s, "sitting", 2) == [2, 2, 1, 2, 3, 4, 5, 6]
  {
    NaturalsIs(8, [0, 1, 2, 3, 4, 5, 6, 7]);
    RowFromCells(s, "sitting", 1, 'k', [0, 1, 2, 3, 4, 5, 6, 7], [1, 1, 2, 3, 4, 5, 6, 7]);
    RowFromCells(s, "sitting", 2, 'i', [1, 1, 2, 3, 4, 5, 6, 7], [2, 2, 1, 2, 3, 4, 5, 6]);
  }

  /** Rows 3..4 of the table for "kitten" against "sitting". */
  lemma KittenSittingRowsTo4(s: string)
    requires Spells(s, "kitten")
    requires Row(s, "sitting", 2) == [2, 2, 1, 2, 3, 4, 5, 6]
    ensures Row(s, "sitting", 4) == [4, 4, 3, 2, 1, 2, 3, 4]
  {
    RowFromCells(s, "sitting", 3, 't', [2, 2, 1, 2, 3, 4, 5, 6], [3, 3, 2, 1, 2, 3, 4, 5]);
    RowFromCells(s, "sitting", 4, 't', [3, 3, 2, 1, 2, 3, 4, 5], [4, 4, 3, 2, 1, 2, 3, 4]);
  }

  /** Rows 5..6 of the table for "kitten" against "sitting". */
  lemma KittenSittingRowsTo6(s: string)
    requires Spells(s, "kitten")
    requires Row(s, "sitting", 4) == [4, 4, 3, 2, 1, 2, 3, 4]
    ensures Row(s, "sitting", 6) == [6, 6, 5, 4, 3, 3, 2, 3]
  {
    RowFromCells(s, "sitting", 5, 'e', [4, 4, 3, 2, 1, 2, 3, 4], [5, 5, 4, 3, 2, 2, 3, 4]);
    RowFromCells(s, "sitting", 6, 'n', [5, 5, 4, 3, 2, 2, 3, 4], [6, 6, 5, 4, 3, 3, 2, 3]);
  }

  /** The first example of the source's tests: "kitten" is at distance 3 from "sitting". */
  lemma KittenSitting(s: string)
    requires Spells(s, "kitten")
    ensures EditDistance(s, "sitting") == 3
  {
    KittenSittingRowsTo2(s);
    KittenSittingRowsTo4(s);
    KittenSittingRowsTo6(s);
    RowIsDist(s, "sitting", 6, 7);
  }

  /** Rows 0..2 of the table for "Saturday" against "Sunday". */
  lemma SaturdaySundayRowsTo2(s: string)
    requires Spells(s, "Saturday")
    ensures Row(s, "Sunday", 2) == [2, 1, 1, 2, 3, 3, 4]
  {
    NaturalsIs(7, [0, 1, 2, 3, 4, 5, 6]);
    RowFromCells(s, "Sunday", 1, 'S', [0, 1, 2, 3, 4, 5, 6], [1, 0, 1, 2, 3, 4, 5]);
    RowFromCells(s, "Sunday", 2, 'a', [1, 0, 1, 2, 3, 4, 5], [2, 1, 1, 2, 3, 3, 4]);
  }

  /** Rows 3..4 of the table for "Saturday" against "Sunday". */
  lemma SaturdaySundayRowsTo4(s: string)
    requires Spells(s, "Saturday")
    requires Row(s, "Sunday", 2) == [2, 1, 1, 2, 3, 3, 4]
    ensures Row(s, "Sunday", 4) == [4, 3, 2, 3, 3, 4, 5]
  {
    RowFromCells(s, "Sunday", 3, 't', [2, 1, 1, 2, 3, 3, 4], [3, 2, 2, 2, 3, 4, 4]);
    RowFromCells(s, "Sunday", 4, 'u', [3, 2, 2, 2, 3, 4, 4], [4, 3, 2, 3, 3, 4, 5]);
  }

  /** Rows 5..6 of the table for "Saturday" against "Sunday". */
  lemma SaturdaySundayRowsTo6(s: string)
    requires Spells(s, "Saturday")
    requires Row(s, "Sunday", 4) == [4, 3, 2, 3, 3, 4, 5]
    ensures Row(s, "Sunday", 6) == [6, 5, 4, 4, 3, 4, 5]
  {
    RowFromCells(s, "Sunday", 5, 'r', [4, 3, 2, 3, 3, 4, 5], [5, 4, 3, 3, 4, 4, 5]);
    RowFromCells(s, "Sunday", 6, 'd', [5, 4, 3, 3, 4, 4, 5], [6, 5, 4, 4, 3, 4, 5]);
  }

  /** Rows 7..8 of the table for "Saturday" against "Sunday". */
  lemma SaturdaySundayRowsTo8(s: string)
    requires Spells(s, "Saturday")
    requires Row(s, "Sunday", 6) == [6, 5, 4, 4, 3, 4, 5]
    ensures Row(s, "Sunday", 8) == [8, 7, 6, 6, 5, 4, 3]
  {
    RowFromCells(s, "Sunday", 7, 'a', [6, 5, 4, 4, 3, 4, 5], [7, 6, 5, 5, 4, 3, 4]);
    RowFromCells(s, "Sunday", 8, 'y', [7, 6, 5, 5, 4, 3, 4], [8, 7, 6, 6, 5, 4, 3]);
  }

  /** The second example of the source's tests: "Saturday" is at distance 3 from "Sunday". */
  lemma SaturdaySunday(s: string)
    requires Spells(s, "Saturday")
    ensures EditDistance(s, "Sunday") == 3
  {
    SaturdaySundayRowsTo2(s);
    SaturdaySundayRowsTo4(s);
    SaturdaySundayRowsTo6(s);
    SaturdaySundayRowsTo8(s);
    RowIsDist(s, "Sunday", 8, 6);
  }
}
