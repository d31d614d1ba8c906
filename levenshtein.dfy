/**
 * Levenshtein edit distance: the recursive definition, its algebraic
 * properties, and the one-row rolling-array computation the chatbot uses.
 */
module Levenshtein {
  import opened Numbers

  /** Entry (i, j) of the edit-distance table: the distance between the first
      `i` characters of `a` and the first `j` characters of `b`, by the
      classic recurrence. When the last characters agree they are kept for
      free; otherwise the cheapest of a deletion, an insertion and a
      substitution is paid for. */
  function Table(a: string, b: string, i: nat, j: nat): nat
    requires i <= |a| && j <= |b|
    decreases i + j
  {
    if i == 0 then j
    else if j == 0 then i
    else if a[i - 1] == b[j - 1] then Table(a, b, i - 1, j - 1)
    else 1 + Min(Min(Table(a, b, i - 1, j), Table(a, b, i, j - 1)), Table(a, b, i - 1, j - 1))
  }

  /** The edit distance between `a` and `b`. */
  function Distance(a: string, b: string): nat {
    Table(a, b, |a|, |b|)
  }

  /** A table entry is at most the longer prefix length. */
  lemma {:induction false} TableUpper(a: string, b: string, i: nat, j: nat)
    requires i <= |a| && j <= |b|
    ensures Table(a, b, i, j) <= Max(i, j)
    decreases i + j
  {
    if 0 < i && 0 < j {
      TableUpper(a, b, i - 1, j - 1);
      var z := Table(a, b, i - 1, j - 1);
      if a[i - 1] == b[j - 1] {
        assert Table(a, b, i, j) == z;
      } else {
        var x, y := Table(a, b, i - 1, j), Table(a, b, i, j - 1);
        assert Table(a, b, i, j) == 1 + Min(Min(x, y), z);
      }
    }
  }

  /** A table entry is at least the difference of the two prefix lengths. */
  lemma {:induction false} TableLower(a: string, b: string, i: nat, j: nat)
    requires i <= |a| && j <= |b|
    ensures i <= Table(a, b, i, j) + j && j <= Table(a, b, i, j) + i
    decreases i + j
  {
    if 0 < i && 0 < j {
      TableLower(a, b, i - 1, j - 1);
      var z := Table(a, b, i - 1, j - 1);
      if a[i - 1] == b[j - 1] {
        assert Table(a, b, i, j) == z;
      } else {
        TableLower(a, b, i - 1, j);
        TableLower(a, b, i, j - 1);
        var x, y := Table(a, b, i - 1, j), Table(a, b, i, j - 1);
        assert Table(a, b, i, j) == 1 + Min(Min(x, y), z);
      }
    }
  }

  /** The distance is at most the longer length and at least the difference
      of the lengths. */
  lemma DistanceBounds(a: string, b: string)
    ensures Distance(a, b) <= Max(|a|, |b|)
    ensures |a| <= Distance(a, b) + |b| && |b| <= Distance(a, b) + |a|
  {
    TableUpper(a, b, |a|, |b|);
    TableLower(a, b, |a|, |b|);
  }

  /** The distance to the empty string is the other string's length. */
  lemma DistanceToEmpty(a: string)
    ensures Distance(a, []) == |a| && Distance([], a) == |a|
  {
  }

  /** Equal prefixes of a string are at distance 0. */
  lemma {:induction false} TableToSelf(a: string, i: nat)
    requires i <= |a|
    ensures Table(a, a, i, i) == 0
  {
    if i > 0 {
      TableToSelf(a, i - 1);
    }
  }

  /** Prefixes at distance 0 are equal. */
  lemma {:induction false} TableZeroIsEqual(a: string, b: string, i: nat, j: nat)
    requires i <= |a| && j <= |b| && Table(a, b, i, j) == 0
    ensures i == j && a[..i] == b[..j]
    decreases i + j
  {
    if 0 < i && 0 < j {
      TableZeroIsEqual(a, b, i - 1, j - 1);
      assert a[..i] == a[..i - 1] + [a[i - 1]] && b[..j] == b[..j - 1] + [b[j - 1]];
    }
  }

  /** The distance is 0 exactly when the strings are equal. */
  lemma DistanceZeroIff(a: string, b: string)
    ensures Distance(a, b) == 0 <==> a == b
  {
    if a == b { TableToSelf(a, |a|); }
    if Distance(a, b) == 0 {
      TableZeroIsEqual(a, b, |a|, |b|);
      assert a[..|a|] == a && b[..|b|] == b;
    }
  }

  /** Swapping the strings transposes the table. */
  lemma {:induction false} TableSymmetric(a: string, b: string, i: nat, j: nat)
    requires i <= |a| && j <= |b|
    ensures Table(a, b, i, j) == Table(b, a, j, i)
    decreases i + j
  {
    if 0 < i && 0 < j {
      if a[i - 1] == b[j - 1] {
        TableSymmetric(a, b, i - 1, j - 1);
      } else {
        TableSymmetric(a, b, i - 1, j - 1);
        TableSymmetric(a, b, i - 1, j);
        TableSymmetric(a, b, i, j - 1);
        var x, y, z := Table(a, b, i - 1, j), Table(a, b, i, j - 1), Table(a, b, i - 1, j - 1);
        assert Table(a, b, i, j) == 1 + Min(Min(x, y), z);
        assert Table(b, a, j, i) == 1 + Min(Min(y, x), z);
      }
    }
  }

  /** The distance does not depend on the order of its arguments. */
  lemma DistanceSymmetric(a: string, b: string)
    ensures Distance(a, b) == Distance(b, a)
  {
    TableSymmetric(a, b, |a|, |b|);
  }

  /** A table entry depends only on the prefixes it covers. */
  lemma {:induction false} TableOfPrefixes(a: string, b: string, i: nat, j: nat, a': string, b': string)
    requires i <= |a| && j <= |b| && i <= |a'| && j <= |b'|
    requires a[..i] == a'[..i] && b[..j] == b'[..j]
    ensures Table(a, b, i, j) == Table(a', b', i, j)
    decreases i + j
  {
    if 0 < i && 0 < j {
      assert a[i - 1] == a'[..i][i - 1] && b[j - 1] == b'[..j][j - 1];
      assert a[..i - 1] == a'[..i - 1] && b[..j - 1] == b'[..j - 1];
      TableOfPrefixes(a, b, i - 1, j - 1, a', b');
      TableOfPrefixes(a, b, i - 1, j, a', b');
      TableOfPrefixes(a, b, i, j - 1, a', b');
    }
  }

  /** Entry (i, j) of the distance table as the distance between the two
      prefixes. */
  ghost function Cell(a: string, b: string, i: nat, j: nat): nat
    requires i <= |a| && j <= |b|
  {
    Distance(a[..i], b[..j])
  }

  /** Within the table of two prefixes, an entry is the cell of the same
      position. */
  lemma CellOfPrefixes(a: string, b: string, i: nat, j: nat, i': nat, j': nat)
    requires i' <= i <= |a| && j' <= j <= |b|
    ensures Table(a[..i], b[..j], i', j') == Cell(a, b, i', j')
  {
    assert a[..i][..i'] == a[..i'][..i'] && b[..j][..j'] == b[..j'][..j'];
    TableOfPrefixes(a[..i], b[..j], i', j', a[..i'], b[..j']);
  }

  /** The table's border: against an empty prefix the distance is the other
      prefix's length. */
  lemma CellBorder(a: string, b: string, i: nat, j: nat)
    requires i <= |a| && j <= |b| && (i == 0 || j == 0)
    ensures i == 0 ==> Cell(a, b, i, j) == j
    ensures j == 0 ==> Cell(a, b, i, j) == i
  {
  }

  /** The recurrence for the inner cells of the table. */
  lemma CellInner(a: string, b: string, i: nat, j: nat)
    requires 0 < i <= |a| && 0 < j <= |b|
    ensures Cell(a, b, i, j) ==
      if a[i - 1] == b[j - 1] then Cell(a, b, i - 1, j - 1)
      else 1 + Min(Min(Cell(a, b, i - 1, j - 1), Cell(a, b, i, j - 1)), Cell(a, b, i - 1, j))
  {
    var A, B := a[..i], b[..j];
    assert Cell(a, b, i, j) == Table(A, B, i, j);
    assert A[i - 1] == a[i - 1] && B[j - 1] == b[j - 1];
    CellOfPrefixes(a, b, i, j, i - 1, j - 1);
    CellOfPrefixes(a, b, i, j, i, j - 1);
    CellOfPrefixes(a, b, i, j, i - 1, j);
  }

  /** `levenshteinDistance(s1, s2)`: the distance table is computed row by
      row in `costs`; the outer loop is the iteration over `l1` and
      `FillRow` is the inner loop over `l2`. */
  method LevenshteinDistance(s1: string, s2: string) returns (d: nat)
    ensures d == Distance(s1, s2)
  {
    var costs := new nat[|s2| + 1];
    var l1 := 0;
    while l1 <= |s1|
      invariant 0 <= l1 <= |s1| + 1
      invariant l1 > 0 ==> forall j :: 0 <= j <= |s2| ==> costs[j] == Cell(s1, s2, l1 - 1, j)
    {
      FillRow(s1, s2, l1, costs);
      l1 := l1 + 1;
    }
    assert s1[..|s1|] == s1 && s2[..|s2|] == s2;
    d := costs[|s2|];
  }

  /** One pass of the inner loop for row `l1`: `lastValue` holds the cell to
      the left of the one being computed, and `costs[l2 - 1]` is overwritten
      only once its value from the previous row (the diagonal) has been read.
      At the end `costs` holds row `l1` of the table in place of row `l1 - 1`. */
  method FillRow(s1: string, s2: string, l1: nat, costs: array<nat>)
    requires l1 <= |s1| && costs.Length == |s2| + 1
    requires l1 > 0 ==> forall j :: 0 <= j <= |s2| ==> costs[j] == Cell(s1, s2, l1 - 1, j)
    modifies costs
    ensures forall j :: 0 <= j <= |s2| ==> costs[j] == Cell(s1, s2, l1, j)
  {
    var lastValue: nat := l1;
    var l2 := 0;
    while l2 <= |s2|
      invariant 0 <= l2 <= |s2| + 1
      invariant l1 == 0 ==> forall j :: 0 <= j < l2 ==> costs[j] == Cell(s1, s2, 0, j)
      invariant l1 > 0 ==> lastValue == Cell(s1, s2, l1, if l2 == 0 then 0 else l2 - 1)
      invariant l1 > 0 ==> forall j :: 0 <= j < l2 - 1 ==> costs[j] == Cell(s1, s2, l1, j)
      invariant l1 > 0 ==> forall j :: l2 - 1 <= j <= |s2| && 0 <= j ==> costs[j] == Cell(s1, s2, l1 - 1, j)
    {
      if l1 == 0 {
        CellBorder(s1, s2, 0, l2);
        costs[l2] := l2;
      } else if l2 > 0 {
        CellInner(s1, s2, l1, l2);
        var newValue := costs[l2 - 1];
        if s1[l1 - 1] != s2[l2 - 1] {
          newValue := Min(Min(newValue, lastValue), costs[l2]) + 1;
        }
        costs[l2 - 1] := lastValue;
        lastValue := newValue;
      } else {
        CellBorder(s1, s2, l1, 0);
      }
      l2 := l2 + 1;
    }
    if l1 > 0 {
      costs[|s2|] := lastValue;
    }
  }
}
