/**
 What the whole run of the concurrent sort produces, and for which matrix sizes
 (CXXTest/concurrent_sort_test/main.cpp, lines 84-126 and 151-152).
 */
module SnakeOrder {
  import opened Bubble
  import opened Shearsort

  /** Even rows rise, odd rows fall, and every value of a row is at most every value of a later row. */
  ghost predicate SnakeSorted(m: Matrix, n: nat)
    requires Square(m, n)
  {
    && (forall i, j, l :: 0 <= i < n && 0 <= j < l < n ==>
          if i % 2 == 0 then m[i][j] <= m[i][l] else m[i][j] >= m[i][l])
    && forall i, k, j, l :: 0 <= i < k < n && 0 <= j < n && 0 <= l < n ==> m[i][j] <= m[k][l]
  }

  ghost predicate IsPowerOfTwo(n: nat) {
    exists k: nat :: n == Pow2(k)
  }

  // ----- the entries of a matrix

  function Flatten(m: Matrix): (s: seq<int>) {
    if m == [] then [] else Flatten(m[..|m| - 1]) + m[|m| - 1]
  }

  function RowTotal(m: Matrix, t: int): (c: nat) {
    if m == [] then 0 else RowTotal(m[..|m| - 1], t) + CountGe(m[|m| - 1], t)
  }

  ghost predicate Rect(m: Matrix, n: nat) {
    forall i :: 0 <= i < |m| ==> |m[i]| == n
  }

  function ColTotal(m: Matrix, n: nat, w: nat, t: int): (c: nat)
    requires Rect(m, n) && w <= n
  {
    if w == 0 then 0 else ColTotal(m, n, w - 1, t) + CountGe(Col(m, w - 1), t)
  }

  lemma {:induction false} FlattenTotal(m: Matrix, t: int)
    ensures CountGe(Flatten(m), t) == RowTotal(m, t)
  {
    if m != [] {
      FlattenTotal(m[..|m| - 1], t);
      CountGeConcat(Flatten(m[..|m| - 1]), m[|m| - 1], t);
    }
  }

  lemma {:induction false} SameRowTotals(m: Matrix, m': Matrix, t: int)
    requires |m| == |m'| && forall i :: 0 <= i < |m| ==> CountGe(m[i], t) == CountGe(m'[i], t)
    ensures RowTotal(m, t) == RowTotal(m', t)
  {
    if m != [] {
      SameRowTotals(m[..|m| - 1], m'[..|m| - 1], t);
    }
  }

  lemma {:induction false} SameColTotals(m: Matrix, m': Matrix, n: nat, w: nat, t: int)
    requires Rect(m, n) && Rect(m', n) && w <= n
    requires forall j :: 0 <= j < w ==> CountGe(Col(m, j), t) == CountGe(Col(m', j), t)
    ensures ColTotal(m, n, w, t) == ColTotal(m', n, w, t)
  {
    if w > 0 {
      SameColTotals(m, m', n, w - 1, t);
    }
  }

  /** Taking the last row away takes its part away from every column. */
  lemma {:induction false} ColTotalSplit(m: Matrix, n: nat, w: nat, t: int)
    requires m != [] && Rect(m, n) && w <= n
    ensures Rect(m[..|m| - 1], n)
    ensures ColTotal(m, n, w, t) == ColTotal(m[..|m| - 1], n, w, t) + CountGe(m[|m| - 1][..w], t)
  {
    if w > 0 {
      var u, last := m[..|m| - 1], m[|m| - 1];
      ColTotalSplit(m, n, w - 1, t);
      assert Col(m, w - 1)[..|m| - 1] == Col(u, w - 1);
      assert last[..w][..w - 1] == last[..w - 1];
    }
  }

  /** Counting by rows and counting by columns agree. */
  lemma {:induction false} DoubleCount(m: Matrix, n: nat, t: int)
    requires Rect(m, n)
    ensures RowTotal(m, t) == ColTotal(m, n, n, t)
  {
    if m == [] {
      EmptyColTotal(m, n, n, t);
    } else {
      ColTotalSplit(m, n, n, t);
      DoubleCount(m[..|m| - 1], n, t);
      assert m[|m| - 1][..n] == m[|m| - 1];
    }
  }

  lemma {:induction false} EmptyColTotal(m: Matrix, n: nat, w: nat, t: int)
    requires m == [] && w <= n
    ensures ColTotal(m, n, w, t) == 0
  {
    if w > 0 {
      EmptyColTotal(m, n, w - 1, t);
    }
  }

  lemma RowPhaseKeepsTotal(m: Matrix, n: nat, t: int)
    requires Square(m, n)
    ensures RowTotal(RowPhase(m, n), t) == RowTotal(m, t)
  {
    forall i | 0 <= i < n
      ensures CountGe(RowPhase(m, n)[i], t) == CountGe(m[i], t)
    {
      SortRowsRow(m, n, n, i);
      SortSorts(m[i], Ascends(i));
    }
    SameRowTotals(RowPhase(m, n), m, t);
  }

  lemma ColPhaseKeepsTotal(m: Matrix, n: nat, t: int)
    requires Square(m, n)
    ensures RowTotal(ColPhase(m, n), t) == RowTotal(m, t)
  {
    forall j | 0 <= j < n
      ensures CountGe(Col(ColPhase(m, n), j), t) == CountGe(Col(m, j), t)
    {
      SortColsCol(m, n, n, j);
      SortSorts(Col(m, j), true);
    }
    SameColTotals(ColPhase(m, n), m, n, n, t);
    DoubleCount(m, n, t);
    DoubleCount(ColPhase(m, n), n, t);
  }

  lemma {:induction false} RunKeepsTotal(m: Matrix, n: nat, p: nat, t: int)
    requires Square(m, n)
    ensures RowTotal(Run(m, n, p), t) == RowTotal(m, t)
  {
    if p > 0 {
      RunKeepsTotal(m, n, p - 1, t);
      RowPhaseKeepsTotal(Run(m, n, p - 1), n, t);
      ColPhaseKeepsTotal(Run(m, n, p - 1), n, t);
    }
  }

  /** However many phases have run, the matrix holds the numbers it started with. */
  lemma RunPermutes(m: Matrix, n: nat, p: nat)
    requires Square(m, n)
    ensures multiset(Flatten(Run(m, n, p))) == multiset(Flatten(m))
  {
    var r := Run(m, n, p);
    forall v
      ensures multiset(Flatten(r))[v] == multiset(Flatten(m))[v]
    {
      CountGeIsMultiplicity(Flatten(m), v);
      CountGeIsMultiplicity(Flatten(r), v);
      forall t
        ensures CountGe(Flatten(r), t) == CountGe(Flatten(m), t)
      {
        FlattenTotal(m, t);
        FlattenTotal(r, t);
        RunKeepsTotal(m, n, p, t);
      }
    }
  }

  // ----- the number of phases

  lemma {:induction false} FloorLog2Bounds(x: nat)
    requires x > 0
    ensures Pow2(FloorLog2(x)) <= x < 2 * Pow2(FloorLog2(x))
  {
    if x >= 2 {
      FloorLog2Bounds(x / 2);
    }
  }

  lemma {:induction false} Pow2Monotone(a: nat, b: nat)
    ensures a < b ==> 2 * Pow2(a) <= Pow2(b)
    decreases b
  {
    if a < b - 1 {
      Pow2Monotone(a, b - 1);
    }
  }

  lemma {:induction false} Pow2Square(k: nat)
    ensures Pow2(k) * Pow2(k) == Pow2(2 * k)
  {
    if k > 0 {
      Pow2Square(k - 1);
      assert Pow2(2 * k) == 2 * Pow2(2 * k - 1) && Pow2(2 * k - 1) == 2 * Pow2(2 * (k - 1));
      assert Pow2(k) * Pow2(k) == 4 * (Pow2(k - 1) * Pow2(k - 1));
    }
  }

  lemma FloorLog2Unique(x: nat, l: nat)
    requires Pow2(l) <= x < 2 * Pow2(l)
    ensures FloorLog2(x) == l
  {
    FloorLog2Bounds(x);
    Pow2Monotone(l, FloorLog2(x));
    Pow2Monotone(FloorLog2(x), l);
  }

  /** For every size the program runs the number of phases whose power of two is the first above n * n. */
  lemma PhasesExactly(n: nat)
    requires n > 0
    ensures MaxPhase(n) >= 1 && Pow2(MaxPhase(n) - 1) <= n * n < Pow2(MaxPhase(n))
  {
    assert n * n > 0;
    FloorLog2Bounds(n * n);
  }

  /** For n = 2^k the program runs k pairs of phases and one more row phase. */
  lemma PhasesAtPowerOfTwo(k: nat)
    ensures MaxPhase(Pow2(k)) == 2 * k + 1
  {
    Pow2Square(k);
    FloorLog2Unique(Pow2(k) * Pow2(k), 2 * k);
  }

  // ----- sortedness at a power of two

  /** When no threshold leaves more than one row mixed, values of different rows are in order. */
  lemma NarrowWindowsOrder(m: Matrix, n: nat, i: nat, k: nat, j: nat, l: nat, lo: nat, hi: nat)
    requires Square(m, n) && i < k < n && j < n && l < n
    requires Window(m, n, m[i][j], lo, hi) && hi - lo <= 1
    ensures m[i][j] <= m[k][l]
  {
  }

  lemma CeilDivSelf(n: nat)
    requires n > 0
    ensures CeilDiv(n, n) == 1
  {
    DivUnique(2 * n - 1, n, 1, n - 1);
  }

  /** After k pairs and a row phase on a 2^k matrix every threshold leaves at most one mixed row. */
  lemma NarrowWindow(m: Matrix, n: nat, k: nat, t: int) returns (lo: nat, hi: nat)
    requires Square(m, n) && n == Pow2(k)
    ensures Window(RowPhase(Pairs(m, n, k), n), n, t, lo, hi) && hi - lo <= 1
  {
    lo, hi := PairsHalve(m, n, t, k);
    CeilDivSelf(n);
    RowPhaseKeepsWindow(Pairs(m, n, k), n, t, lo, hi);
  }

  lemma RowsAlternate(r: Matrix, n: nat)
    requires Square(r, n) && RowsSorted(r)
    ensures forall i, j, l :: 0 <= i < n && 0 <= j < l < n ==>
                                if i % 2 == 0 then r[i][j] <= r[i][l] else r[i][j] >= r[i][l]
  {
    forall i, j, l | 0 <= i < n && 0 <= j < l < n
      ensures if i % 2 == 0 then r[i][j] <= r[i][l] else r[i][j] >= r[i][l]
    {
      assert Sorted(r[i], Ascends(i)) && InOrder(r[i][j], r[i][l], Ascends(i));
    }
  }

  /** After k pairs on a 2^k matrix a last row phase leaves the snake order. */
  lemma LastRowPhaseSorts(m: Matrix, n: nat, k: nat)
    requires Square(m, n) && n == Pow2(k)
    ensures SnakeSorted(RowPhase(Pairs(m, n, k), n), n)
  {
    var r := RowPhase(Pairs(m, n, k), n);
    RowPhaseSortsRows(Pairs(m, n, k), n);
    RowsAlternate(r, n);
    forall i, h, j, l | 0 <= i < h < n && 0 <= j < n && 0 <= l < n
      ensures r[i][j] <= r[h][l]
    {
      var lo, hi := NarrowWindow(m, n, k, r[i][j]);
      NarrowWindowsOrder(r, n, i, h, j, l, lo, hi);
    }
  }

  /** For every n = 2^k and every n x n matrix the program's phases sort it in snake order. */
  lemma PowerOfTwoSorts(m: Matrix, n: nat)
    requires Square(m, n) && IsPowerOfTwo(n)
    ensures var r := Run(m, n, MaxPhase(n));
            && (forall i, j, l :: 0 <= i < n && 0 <= j < l < n ==> i % 2 == 0 ==> r[i][j] <= r[i][l])
            && (forall i, j, l :: 0 <= i < n && 0 <= j < l < n ==> i % 2 == 1 ==> r[i][j] >= r[i][l])
            && (forall i, k, j, l :: 0 <= i < k < n && 0 <= j < n && 0 <= l < n ==> r[i][j] <= r[k][l])
    ensures SnakeSorted(Run(m, n, MaxPhase(n)), n)
    ensures multiset(Flatten(Run(m, n, MaxPhase(n)))) == multiset(Flatten(m))
  {
    var k: nat :| n == Pow2(k);
    PhasesAtPowerOfTwo(k);
    PairsIsRun(m, n, k);
    LastRowPhaseSorts(m, n, k);
    LastPhase(m, n, k);
    RunPermutes(m, n, MaxPhase(n));
  }

  lemma LastPhase(m: Matrix, n: nat, k: nat)
    requires Square(m, n)
    ensures Run(m, n, 2 * k + 1) == RowPhase(Pairs(m, n, k), n)
  {
    PairsIsRun(m, n, k);
  }
}
