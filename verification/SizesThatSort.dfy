/**
 Which matrix sizes the program of CXXTest/concurrent_sort_test/main.cpp sorts: with the number of
 phases of line 152, exactly the powers of two. For every other size a matrix of zeros and a few
 ones in the last column is left unsorted.
 */
module SizesThatSort {
  import opened Bubble
  import opened Shearsort
  import opened SnakeOrder

  /** A row of zeros with at most one 1, at its right end. */
  ghost predicate SeedRow(s: seq<int>, one: bool) {
    && (forall j :: 0 <= j < |s| - 1 ==> s[j] == 0)
    && (s != [] ==> s[|s| - 1] == if one then 1 else 0)
  }

  /** Zeros, except for `k` ones at the right end of rows 0, 2, 4, ... */
  ghost predicate Seed(m: Matrix, n: nat, k: nat) {
    Square(m, n) && forall i :: 0 <= i < n ==> SeedRow(m[i], i % 2 == 0 && i < 2 * k)
  }

  lemma SeedExists(n: nat, k: nat) returns (m: Matrix)
    ensures Seed(m, n, k)
  {
    m := seq(n, i requires 0 <= i < n =>
      seq(n, j requires 0 <= j < n => if j == n - 1 && i % 2 == 0 && i < 2 * k then 1 else 0));
  }

  /** No row holds more than `b` ones. */
  ghost predicate AtMost(m: Matrix, b: nat) {
    forall i :: 0 <= i < |m| ==> CountGe(m[i], 1) <= b
  }

  lemma SeedRowCount(s: seq<int>, one: bool)
    requires s != [] && SeedRow(s, one)
    ensures CountGe(s, 1) == if one then 1 else 0
  {
    UniformCount(s[..|s| - 1], 1);
  }

  lemma {:induction false} SeedPrefixTotal(m: Matrix, n: nat, k: nat, h: nat)
    requires Seed(m, n, k) && h <= n
    ensures h < 2 * k ==> RowTotal(m[..h], 1) == (h + 1) / 2
    ensures h >= 2 * k - 1 >= 0 ==> RowTotal(m[..h], 1) == k
  {
    if h > 0 {
      SeedPrefixTotal(m, n, k, h - 1);
      assert m[..h] == m[..h - 1] + [m[h - 1]];
      RowTotalSnoc(m[..h - 1], m[h - 1]);
      SeedRowCount(m[h - 1], (h - 1) % 2 == 0 && h - 1 < 2 * k);
    }
  }

  lemma RowTotalSnoc(m: Matrix, row: seq<int>)
    ensures RowTotal(m + [row], 1) == RowTotal(m, 1) + CountGe(row, 1)
  {
    assert (m + [row])[..|m|] == m;
  }

  lemma SeedTotal(m: Matrix, n: nat, k: nat)
    requires Seed(m, n, k) && n >= 2 * k - 1 >= 0
    ensures RowTotal(m, 1) == k
  {
    SeedPrefixTotal(m, n, k, n);
    assert m[..n] == m;
  }

  // ----- how far the ones can spread

  /** A line whose ones lie in its first `a` or last `b` places holds at most `a + b`. */
  lemma {:induction false} EndsCount(s: seq<int>, a: nat, b: nat)
    requires a + b <= |s| && forall j :: a <= j < |s| - b ==> s[j] < 1
    ensures CountGe(s, 1) <= a + b
  {
    if b > 0 {
      EndsCount(s[..|s| - 1], a, b - 1);
    } else if a < |s| {
      EndsCount(s[..|s| - 1], a, 0);
    }
  }

  /** After a row phase the ones sit in the outer columns. */
  lemma OnesMoveOut(m: Matrix, n: nat, b: nat, i: nat, j: nat)
    requires Square(m, n) && AtMost(m, b) && i < n && b <= j < n - b
    ensures RowPhase(m, n)[i][j] < 1
  {
    SortRowsRow(m, n, n, i);
    SortSorts(m[i], Ascends(i));
    SortedCut(RowPhase(m, n)[i], Ascends(i), 1);
  }

  /** A column without ones keeps none. */
  lemma EmptyColumnStays(m: Matrix, n: nat, i: nat, j: nat)
    requires Square(m, n) && i < n && j < n && forall h :: 0 <= h < n ==> m[h][j] < 1
    ensures ColPhase(m, n)[i][j] < 1
  {
    ColPhaseCut(m, n, 1, i, j);
    UniformCount(Col(m, j), 1);
  }

  /** One pair of phases at most doubles the ones of a row. */
  lemma PairDoubles(m: Matrix, n: nat, b: nat)
    requires Square(m, n) && AtMost(m, b)
    ensures AtMost(ColPhase(RowPhase(m, n), n), 2 * b)
  {
    var r := RowPhase(m, n);
    forall i | 0 <= i < n
      ensures CountGe(ColPhase(r, n)[i], 1) <= 2 * b
    {
      if 2 * b <= n {
        forall j | b <= j < n - b
          ensures ColPhase(r, n)[i][j] < 1
        {
          forall h | 0 <= h < n
            ensures r[h][j] < 1
          {
            OnesMoveOut(m, n, b, h, j);
          }
          EmptyColumnStays(r, n, i, j);
        }
        EndsCount(ColPhase(r, n)[i], b, b);
      }
    }
  }

  /** In the seed all ones move to the last column and stay there for the first pair. */
  lemma SeedFirstPair(m: Matrix, n: nat, k: nat)
    requires n > 0 && Seed(m, n, k)
    ensures AtMost(ColPhase(RowPhase(m, n), n), 1)
  {
    var r := RowPhase(m, n);
    forall h, j | 0 <= h < n && 0 <= j < n - 1
      ensures r[h][j] < 1
    {
      SeedRowCount(m[h], h % 2 == 0 && h < 2 * k);
      SortRowsRow(m, n, n, h);
      SortSorts(m[h], Ascends(h));
      SortedCut(r[h], Ascends(h), 1);
    }
    forall i | 0 <= i < n
      ensures CountGe(ColPhase(r, n)[i], 1) <= 1
    {
      forall j | 0 <= j < n - 1
        ensures ColPhase(r, n)[i][j] < 1
      {
        EmptyColumnStays(r, n, i, j);
      }
      EndsCount(ColPhase(r, n)[i], 0, 1);
    }
  }

  lemma {:induction false} FewPerRow(m: Matrix, n: nat, k: nat, p: nat)
    requires n > 0 && p > 0 && Seed(m, n, k)
    ensures AtMost(Pairs(m, n, p), Pow2(p - 1))
  {
    if p == 1 {
      SeedFirstPair(m, n, k);
      assert Pairs(m, n, 1) == ColPhase(RowPhase(Pairs(m, n, 0), n), n);
    } else {
      FewPerRow(m, n, k, p - 1);
      PairDoubles(Pairs(m, n, p - 1), n, Pow2(p - 2));
    }
  }

  // ----- totals against rows

  lemma {:induction false} TotalAtLeastRow(m: Matrix, i: nat)
    requires i < |m|
    ensures RowTotal(m, 1) >= CountGe(m[i], 1)
  {
    if i < |m| - 1 {
      TotalAtLeastRow(m[..|m| - 1], i);
    }
  }

  lemma {:induction false} ZeroTotal(m: Matrix)
    requires forall i :: 0 <= i < |m| ==> CountGe(m[i], 1) == 0
    ensures RowTotal(m, 1) == 0
  {
    if m != [] {
      ZeroTotal(m[..|m| - 1]);
    }
  }

  /** More ones than one row may hold: some row before the last has one. */
  lemma SomeEarlierRow(m: Matrix, n: nat, b: nat) returns (i: nat, j: nat)
    requires n > 0 && Square(m, n) && AtMost(m, b) && RowTotal(m, 1) > b
    ensures i < n - 1 && j < n && m[i][j] >= 1
  {
    if forall h :: 0 <= h < n - 1 ==> CountGe(m[h], 1) == 0 {
      ZeroTotal(m[..n - 1]);
      assert false;
    }
    i :| 0 <= i < n - 1 && CountGe(m[i], 1) != 0;
    UniformCount(m[i], 1);
    j :| 0 <= j < n && m[i][j] >= 1;
  }

  // ----- an odd number of phases

  lemma NotSnake(r: Matrix, n: nat, b: nat)
    requires n > 0 && Square(r, n) && AtMost(r, b) && b < n && RowTotal(r, 1) > b
    ensures !SnakeSorted(r, n)
  {
    var i, j := SomeEarlierRow(r, n, b);
    if SnakeSorted(r, n) {
      var last := r[n - 1];
      assert forall h :: 0 <= h < n ==> last[h] >= r[i][j];
      UniformCount(last, 1);
    }
  }

  lemma RowPhaseKeepsAtMost(m: Matrix, n: nat, b: nat)
    requires Square(m, n) && AtMost(m, b)
    ensures AtMost(RowPhase(m, n), b)
  {
    forall i | 0 <= i < n
      ensures CountGe(RowPhase(m, n)[i], 1) <= b
    {
      SortRowsRow(m, n, n, i);
      SortSorts(m[i], Ascends(i));
    }
  }

  lemma PairsKeepTotal(m: Matrix, n: nat, p: nat)
    requires Square(m, n)
    ensures RowTotal(Pairs(m, n, p), 1) == RowTotal(m, 1)
  {
    PairsIsRun(m, n, p);
    RunKeepsTotal(m, n, 2 * p, 1);
  }

  /** After `p` pairs no row of the matrix holds all its ones. */
  ghost predicate Overflows(m: Matrix, n: nat, p: nat)
    requires Square(m, n)
  {
    p > 0 && AtMost(Pairs(m, n, p), Pow2(p - 1)) && RowTotal(m, 1) == Pow2(p - 1) + 1
  }

  lemma SeedOverflows(m: Matrix, n: nat, p: nat)
    requires p > 0 && Pow2(p) < n && Seed(m, n, Pow2(p - 1) + 1)
    ensures Overflows(m, n, p)
  {
    FewPerRow(m, n, Pow2(p - 1) + 1, p);
    SeedTotal(m, n, Pow2(p - 1) + 1);
  }

  lemma OddPhasesFail(m: Matrix, n: nat, p: nat)
    requires Square(m, n) && Overflows(m, n, p) && Pow2(p) < n
    ensures !SnakeSorted(Run(m, n, 2 * p + 1), n)
  {
    var a := Pairs(m, n, p);
    PairsKeepTotal(m, n, p);
    RowPhaseKeepsAtMost(a, n, Pow2(p - 1));
    RowPhaseKeepsTotal(a, n, 1);
    NotSnake(RowPhase(a, n), n, Pow2(p - 1));
    LastPhase(m, n, p);
  }

  // ----- an even number of phases

  /** A sorted row with a one has it at its high end. */
  lemma HighEnd(m: Matrix, n: nat, i: nat)
    requires Square(m, n) && i < n && CountGe(m[i], 1) > 0
    ensures RowPhase(m, n)[i][if Ascends(i) then n - 1 else 0] >= 1
  {
    SortRowsRow(m, n, n, i);
    SortSorts(m[i], Ascends(i));
    SortedCut(RowPhase(m, n)[i], Ascends(i), 1);
  }

  /** A one anywhere in a column ends up in the last row. */
  lemma OneSinks(m: Matrix, n: nat, i: nat, j: nat)
    requires Square(m, n) && i < n && j < n && m[i][j] >= 1
    ensures ColPhase(m, n)[n - 1][j] >= 1
  {
    UniformCount(Col(m, j), 1);
    assert Col(m, j)[i] >= 1;
    ColPhaseCut(m, n, 1, n - 1, j);
  }

  /** Both of the last two rows hold a one when the columns are sorted and the ones overflow one row. */
  lemma LastTwoRows(m: Matrix, n: nat, b: nat)
    requires n > 1 && Square(m, n)
    requires AtMost(ColPhase(m, n), b) && RowTotal(ColPhase(m, n), 1) > b
    ensures CountGe(ColPhase(m, n)[n - 2], 1) > 0 && CountGe(ColPhase(m, n)[n - 1], 1) > 0
  {
    var c := ColPhase(m, n);
    var i, j := SomeEarlierRow(c, n, b);
    ColPhaseCut(m, n, 1, i, j);
    ColPhaseCut(m, n, 1, n - 2, j);
    ColPhaseCut(m, n, 1, n - 1, j);
    UniformCount(c[n - 2], 1);
    UniformCount(c[n - 1], 1);
  }

  lemma NotSnakeAfterColumns(m: Matrix, n: nat, b: nat)
    requires n > 1 && Square(m, n)
    requires AtMost(ColPhase(m, n), b) && b < RowTotal(ColPhase(m, n), 1) < n
    ensures !SnakeSorted(ColPhase(RowPhase(ColPhase(m, n), n), n), n)
  {
    var a := ColPhase(m, n);
    var r := RowPhase(a, n);
    var c := ColPhase(r, n);
    LastTwoRows(m, n, b);
    HighEnd(a, n, n - 2);
    HighEnd(a, n, n - 1);
    assert Ascends(n - 2) != Ascends(n - 1);
    OneSinks(r, n, n - 2, if Ascends(n - 2) then n - 1 else 0);
    OneSinks(r, n, n - 1, if Ascends(n - 1) then n - 1 else 0);
    if SnakeSorted(c, n) {
      SnakeRowSorted(c, n, n - 1);
      BothEndsHigh(c[n - 1], Ascends(n - 1));
      RowPhaseKeepsTotal(a, n, 1);
      ColPhaseKeepsTotal(r, n, 1);
      TotalAtLeastRow(c, n - 1);
    }
  }

  lemma SnakeRowSorted(m: Matrix, n: nat, i: nat)
    requires Square(m, n) && SnakeSorted(m, n) && i < n
    ensures Sorted(m[i], Ascends(i))
  {
  }

  lemma BothEndsHigh(s: seq<int>, ascending: bool)
    requires s != [] && Sorted(s, ascending) && s[0] >= 1 && s[|s| - 1] >= 1
    ensures CountGe(s, 1) == |s|
  {
    UniformCount(s, 1);
  }

  lemma EvenPhasesFail(m: Matrix, n: nat, p: nat)
    requires Square(m, n) && Overflows(m, n, p) && Pow2(p) < n
    ensures !SnakeSorted(Run(m, n, 2 * (p + 1)), n)
  {
    var r := RowPhase(Pairs(m, n, p - 1), n);
    assert Pairs(m, n, p) == ColPhase(r, n);
    PairsKeepTotal(m, n, p);
    NotSnakeAfterColumns(r, n, Pow2(p - 1));
    PairsIsRun(m, n, p + 1);
  }

  // ----- the exact sizes

  lemma SquareRootBound(a: nat, n: nat)
    requires a * a <= n * n
    ensures a <= n
  {
    if n < a {
      MulGap(a, n, a);
      MulGap(n, n, a);
    }
  }

  /** For a size that is no power of two the program stops too early: `2^p < n` for its `p` full pairs. */
  lemma TooFewPhases(n: nat) returns (p: nat)
    requires n > 0 && !IsPowerOfTwo(n)
    ensures p > 0 && Pow2(p) < n
    ensures MaxPhase(n) == 2 * p + 1 || MaxPhase(n) == 2 * (p + 1)
  {
    var l := FloorLog2(n * n);
    assert n != Pow2(0) && n != Pow2(1);
    MulGap(n, 2, n);
    FloorLog2Bounds(n * n);
    assert l >= 2 by {
      assert Pow2(1) == 2 && Pow2(0) == 1;
    }
    p := l / 2;
    Pow2Square(p);
    assert Pow2(2 * p) <= Pow2(l);
    SquareRootBound(Pow2(p), n);
  }

  /** A size that is no power of two has an input that the program leaves unsorted. */
  lemma OtherSizesFail(n: nat) returns (m: Matrix)
    requires n > 0 && !IsPowerOfTwo(n)
    ensures Square(m, n) && !SnakeSorted(Run(m, n, MaxPhase(n)), n)
  {
    var p := TooFewPhases(n);
    m := SeedExists(n, Pow2(p - 1) + 1);
    SeedOverflows(m, n, p);
    OddPhasesFail(m, n, p);
    EvenPhasesFail(m, n, p);
  }

  /** The program sorts every n x n matrix in snake order if and only if n is a power of two. */
  lemma SortsExactlyPowersOfTwo(n: nat)
    requires n > 0
    ensures IsPowerOfTwo(n) <==> forall m | Square(m, n) :: SnakeSorted(Run(m, n, MaxPhase(n)), n)
  {
    if IsPowerOfTwo(n) {
      forall m | Square(m, n)
        ensures SnakeSorted(Run(m, n, MaxPhase(n)), n)
      {
        PowerOfTwoSorts(m, n);
      }
    } else {
      var m := OtherSizesFail(n);
    }
  }
}
