/**
 The phases of the concurrent sort run one after another: odd phases sort every row in its own
 direction, even phases sort every column (CXXTest/concurrent_sort_test/main.cpp, lines 84-126).
 A matrix is looked at through one threshold `t` at a time, so that the proof is about which
 rows mix values below `t` with values at or above it.
 */
module Shearsort {
  import opened Bubble

  type Matrix = seq<seq<int>>

  ghost predicate Square(m: Matrix, n: nat) {
    |m| == n && forall i :: 0 <= i < n ==> |m[i]| == n
  }

  /** Column `j` of a matrix that has one. */
  function Col(m: Matrix, j: nat): (s: seq<int>)
    requires forall i :: 0 <= i < |m| ==> j < |m[i]|
    ensures |s| == |m| && forall i :: 0 <= i < |m| ==> s[i] == m[i][j]
  {
    seq(|m|, i requires 0 <= i < |m| => m[i][j])
  }

  /** The matrix with column `j` replaced. */
  function SetCol(m: Matrix, n: nat, j: nat, line: seq<int>): (r: Matrix)
    requires Square(m, n) && j < n && |line| == n
    ensures Square(r, n)
  {
    seq(n, i requires 0 <= i < n => m[i][j := line[i]])
  }

  lemma SetColCols(m: Matrix, n: nat, j: nat, line: seq<int>, k: nat)
    requires Square(m, n) && j < n && |line| == n && k < n
    ensures Col(SetCol(m, n, j, line), k) == if k == j then line else Col(m, k)
  {
  }

  /** Workers 0..k-1 sort their rows, one worker after another. */
  function SortRows(m: Matrix, n: nat, k: nat): (r: Matrix)
    requires Square(m, n) && k <= n
    ensures Square(r, n)
  {
    if k == 0 then m
    else
      var r := SortRows(m, n, k - 1);
      r[k - 1 := Sort(r[k - 1], Ascends(k - 1))]
  }

  /** Workers 0..k-1 sort their columns, one worker after another. */
  function SortCols(m: Matrix, n: nat, k: nat): (r: Matrix)
    requires Square(m, n) && k <= n
    ensures Square(r, n)
  {
    if k == 0 then m
    else
      var r := SortCols(m, n, k - 1);
      SetCol(r, n, k - 1, Sort(Col(r, k - 1), true))
  }

  lemma {:induction false} SortRowsRow(m: Matrix, n: nat, k: nat, i: nat)
    requires Square(m, n) && k <= n && i < n
    ensures SortRows(m, n, k)[i] == if i < k then Sort(m[i], Ascends(i)) else m[i]
  {
    if k > 0 {
      SortRowsRow(m, n, k - 1, i);
    }
  }

  lemma {:induction false} SortColsCol(m: Matrix, n: nat, k: nat, j: nat)
    requires Square(m, n) && k <= n && j < n
    ensures Col(SortCols(m, n, k), j) == if j < k then Sort(Col(m, j), true) else Col(m, j)
  {
    if k > 0 {
      SortColsCol(m, n, k - 1, j);
      var r := SortCols(m, n, k - 1);
      SetColCols(r, n, k - 1, Sort(Col(r, k - 1), true), j);
    }
  }

  /** A whole row phase. */
  function RowPhase(m: Matrix, n: nat): (r: Matrix)
    requires Square(m, n)
    ensures Square(r, n)
  {
    SortRows(m, n, n)
  }

  /** A whole column phase. */
  function ColPhase(m: Matrix, n: nat): (r: Matrix)
    requires Square(m, n)
    ensures Square(r, n)
  {
    SortCols(m, n, n)
  }

  /** Phase `p`, numbered from 1 as `thread_func` numbers them. */
  function Phase(m: Matrix, n: nat, p: nat): (r: Matrix)
    requires Square(m, n)
    ensures Square(r, n)
  {
    if p % 2 == 1 then RowPhase(m, n) else ColPhase(m, n)
  }

  /** The matrix after phases 1..p. */
  function Run(m: Matrix, n: nat, p: nat): (r: Matrix)
    requires Square(m, n)
    ensures Square(r, n)
  {
    if p == 0 then m else Phase(Run(m, n, p - 1), n, p)
  }

  function Pow2(p: nat): (q: nat)
    ensures q >= 1
  {
    if p == 0 then 1 else 2 * Pow2(p - 1)
  }

  function FloorLog2(x: nat): (l: nat) {
    if x < 2 then 0 else 1 + FloorLog2(x / 2)
  }

  /** `log(N) / log(2) + 1` of line 152, with the logarithm taken exactly. */
  function MaxPhase(n: nat): (p: nat) {
    FloorLog2(n * n) + 1
  }

  function CeilDiv(x: nat, q: nat): (r: nat)
    requires q > 0
  {
    (x + q - 1) / q
  }

  // ----- one line seen through a threshold

  /** A sorted line is cut by a threshold at the place its count says. */
  lemma {:induction false} SortedCut(s: seq<int>, ascending: bool, t: int)
    requires Sorted(s, ascending)
    ensures ascending ==> forall i :: 0 <= i < |s| ==> (s[i] >= t <==> i >= |s| - CountGe(s, t))
    ensures !ascending ==> forall i :: 0 <= i < |s| ==> (s[i] >= t <==> i < CountGe(s, t))
  {
    if s != [] {
      var u := s[..|s| - 1];
      SortedCut(u, ascending, t);
      if ascending && s[|s| - 1] < t {
        UniformCount(s, t);
      }
    }
  }

  lemma {:induction false} UniformCount(s: seq<int>, t: int)
    ensures (forall i :: 0 <= i < |s| ==> s[i] < t) <==> CountGe(s, t) == 0
    ensures (forall i :: 0 <= i < |s| ==> s[i] >= t) <==> CountGe(s, t) == |s|
  {
    if s != [] {
      var u := s[..|s| - 1];
      UniformCount(u, t);
      assert forall i :: 0 <= i < |u| ==> u[i] == s[i];
    }
  }

  // ----- dirty rows

  /** A row that holds values on both sides of the threshold. */
  ghost predicate Dirty(row: seq<int>, t: int) {
    (exists j :: 0 <= j < |row| && row[j] < t) && (exists j :: 0 <= j < |row| && row[j] >= t)
  }

  /** Rows above `lo` lie below the threshold and rows from `hi` on lie at or above it. */
  ghost predicate Window(m: Matrix, n: nat, t: int, lo: nat, hi: nat)
    requires Square(m, n)
  {
    && lo <= hi <= n
    && (forall i, j :: 0 <= i < lo && 0 <= j < n ==> m[i][j] < t)
    && (forall i, j :: hi <= i < n && 0 <= j < n ==> m[i][j] >= t)
  }

  /** A window whose rows are all dirty: exactly the dirty rows, hence contiguous. */
  ghost predicate DirtyBand(m: Matrix, n: nat, t: int, lo: nat, hi: nat)
    requires Square(m, n)
  {
    Window(m, n, t, lo, hi) && forall i :: lo <= i < hi ==> Dirty(m[i], t)
  }

  /** Every row sorted in its own direction: the state a row phase leaves. */
  ghost predicate RowsSorted(m: Matrix) {
    forall i :: 0 <= i < |m| ==> Sorted(m[i], Ascends(i))
  }

  lemma RowPhaseSortsRows(m: Matrix, n: nat)
    requires Square(m, n)
    ensures RowsSorted(RowPhase(m, n))
  {
    forall i | 0 <= i < n
      ensures Sorted(RowPhase(m, n)[i], Ascends(i))
    {
      SortRowsRow(m, n, n, i);
      SortSorts(m[i], Ascends(i));
    }
  }

  /** Sorting rows keeps the window: a uniform row stays uniform. */
  lemma RowPhaseKeepsWindow(m: Matrix, n: nat, t: int, lo: nat, hi: nat)
    requires Square(m, n) && Window(m, n, t, lo, hi)
    ensures Window(RowPhase(m, n), n, t, lo, hi)
  {
    forall i | 0 <= i < n && (i < lo || hi <= i)
      ensures i < lo ==> forall j :: 0 <= j < n ==> RowPhase(m, n)[i][j] < t
      ensures hi <= i ==> forall j :: 0 <= j < n ==> RowPhase(m, n)[i][j] >= t
    {
      SortRowsRow(m, n, n, i);
      SortSorts(m[i], Ascends(i));
      UniformCount(m[i], t);
      UniformCount(RowPhase(m, n)[i], t);
    }
  }

  /** Two neighbouring rows run in opposite directions, so they cannot favour column `j` over `k` twice. */
  lemma NeighboursCancel(m: Matrix, n: nat, t: int, r: nat, j: nat, k: nat)
    requires Square(m, n) && RowsSorted(m) && r + 1 < n && j < n && k < n
    ensures !(m[r][j] >= t && m[r + 1][j] >= t && m[r][k] < t && m[r + 1][k] < t)
  {
    assert Ascends(r) != Ascends(r + 1);
    assert Sorted(m[r], Ascends(r)) && Sorted(m[r + 1], Ascends(r + 1));
  }

  /** Two lines that never differ twice in a row the same way differ by at most half their length. */
  lemma {:induction false} SpreadHalves(a: seq<int>, b: seq<int>, t: int)
    requires |a| == |b|
    requires forall r :: 0 <= r < |a| - 1 ==> !(a[r] >= t && a[r + 1] >= t && b[r] < t && b[r + 1] < t)
    ensures CountGe(a, t) - CountGe(b, t) <= (|a| + 1) / 2
  {
    var h := |a|;
    if h >= 2 {
      assert a == a[..h - 2] + [a[h - 2], a[h - 1]];
      assert b == b[..h - 2] + [b[h - 2], b[h - 1]];
      CountGeConcat(a[..h - 2], [a[h - 2], a[h - 1]], t);
      CountGeConcat(b[..h - 2], [b[h - 2], b[h - 1]], t);
      CountGePair(a[h - 2], a[h - 1], t);
      CountGePair(b[h - 2], b[h - 1], t);
      SpreadHalves(a[..h - 2], b[..h - 2], t);
    }
  }

  /** A line that is low before `lo` and high from `hi` on is counted by its middle part. */
  lemma MiddleCount(a: seq<int>, t: int, lo: nat, hi: nat)
    requires lo <= hi <= |a|
    requires forall i :: 0 <= i < lo ==> a[i] < t
    requires forall i :: hi <= i < |a| ==> a[i] >= t
    ensures CountGe(a, t) == CountGe(a[lo..hi], t) + |a| - hi
  {
    CountGeParts(a, lo, hi, t);
    UniformCount(a[..lo], t);
    UniformCount(a[hi..], t);
  }

  /** Outside a window all columns look alike, so two columns differ by at most half the window. */
  lemma WindowSpread(m: Matrix, n: nat, t: int, j: nat, k: nat, lo: nat, hi: nat)
    requires Square(m, n) && RowsSorted(m) && j < n && k < n && Window(m, n, t, lo, hi)
    ensures CountGe(Col(m, j), t) - CountGe(Col(m, k), t) <= (hi - lo + 1) / 2
  {
    var a, b := Col(m, j), Col(m, k);
    MiddleCount(a, t, lo, hi);
    MiddleCount(b, t, lo, hi);
    forall r | lo <= r < hi - 1
      ensures !(a[r] >= t && a[r + 1] >= t && b[r] < t && b[r + 1] < t)
    {
      NeighboursCancel(m, n, t, r, j, k);
    }
    SpreadHalves(a[lo..hi], b[lo..hi], t);
  }

  /** Where a non-empty list of counts is largest and where it is smallest. */
  lemma {:induction false} Extremes(c: seq<int>) returns (most: nat, least: nat)
    requires c != []
    ensures most < |c| && least < |c|
    ensures forall j :: 0 <= j < |c| ==> c[least] <= c[j] <= c[most]
  {
    if |c| == 1 {
      most, least := 0, 0;
    } else {
      var last := |c| - 1;
      most, least := Extremes(c[..last]);
      assert forall j :: 0 <= j < last ==> c[least] <= c[..last][j] == c[j] <= c[most];
      most, least := if c[last] > c[most] then last else most, if c[last] < c[least] then last else least;
    }
  }

  /** After a column phase the value at row `i` is above the threshold iff the column had enough such values. */
  lemma ColPhaseCut(m: Matrix, n: nat, t: int, i: nat, j: nat)
    requires Square(m, n) && i < n && j < n
    ensures ColPhase(m, n)[i][j] >= t <==> i >= n - CountGe(Col(m, j), t)
  {
    SortColsCol(m, n, n, j);
    SortSorts(Col(m, j), true);
    SortedCut(Col(ColPhase(m, n), j), true, t);
  }

  /** A column phase after a row phase leaves a contiguous dirty band of at most half the window. */
  lemma ColPhaseHalves(m: Matrix, n: nat, t: int, lo: nat, hi: nat) returns (lo': nat, hi': nat)
    requires n > 0 && Square(m, n) && RowsSorted(m) && Window(m, n, t, lo, hi)
    ensures DirtyBand(ColPhase(m, n), n, t, lo', hi')
    ensures hi' - lo' <= (hi - lo + 1) / 2
  {
    var counts := seq(n, j requires 0 <= j < n => CountGe(Col(m, j), t));
    var most, least := Extremes(counts);
    lo', hi' := n - counts[most], n - counts[least];
    WindowSpread(m, n, t, most, least, lo, hi);
    forall i, j | 0 <= i < n && 0 <= j < n
      ensures ColPhase(m, n)[i][j] >= t <==> i >= n - counts[j]
    {
      ColPhaseCut(m, n, t, i, j);
    }
    CutsMakeBand(ColPhase(m, n), n, t, counts, most, least);
  }

  /** When column `j` turns high at row `n - counts[j]`, the dirty rows lie between the extreme cuts. */
  lemma CutsMakeBand(r: Matrix, n: nat, t: int, counts: seq<int>, most: nat, least: nat)
    requires Square(r, n) && |counts| == n && most < n && least < n
    requires forall j :: 0 <= j < n ==> 0 <= counts[least] <= counts[j] <= counts[most] <= n
    requires forall i, j :: 0 <= i < n && 0 <= j < n ==> (r[i][j] >= t <==> i >= n - counts[j])
    ensures DirtyBand(r, n, t, n - counts[most], n - counts[least])
  {
    forall i, j | 0 <= i < n && 0 <= j < n
      ensures i < n - counts[most] ==> r[i][j] < t
      ensures n - counts[least] <= i ==> r[i][j] >= t
    {
      assert counts[least] <= counts[j] <= counts[most];
    }
    forall i | n - counts[most] <= i < n - counts[least]
      ensures Dirty(r[i], t)
    {
      assert r[i][most] >= t && r[i][least] < t;
    }
  }

  lemma CeilDivHalves(n: nat, q: nat)
    requires q > 0
    ensures (CeilDiv(n, q) + 1) / 2 == CeilDiv(n, 2 * q)
  {
    var x := n + 2 * q - 1;
    assert x / q == (n + q - 1) / q + 1 by {
      assert x == (n + q - 1) + q;
      DivAddOne(n + q - 1, q);
    }
    DivDiv(x, q);
  }

  lemma HalfBound(n: nat, p: nat, w: nat)
    requires p > 0 && w <= CeilDiv(n, Pow2(p - 1))
    ensures (w + 1) / 2 <= CeilDiv(n, Pow2(p))
  {
    CeilDivHalves(n, Pow2(p - 1));
  }

  lemma DivAddOne(x: nat, q: nat)
    requires q > 0
    ensures (x + q) / q == x / q + 1
  {
    DivUnique(x + q, q, x / q + 1, x % q);
  }

  lemma DivDiv(x: nat, q: nat)
    requires q > 0
    ensures (x / q) / 2 == x / (2 * q)
  {
    var a, r := x / q, x % q;
    var b, s := a / 2, a % 2;
    assert x == q * a + r && a == 2 * b + s;
    TwiceAndRest(q, a, b, s, r);
    DivUnique(x, 2 * q, b, q * s + r);
  }

  lemma TwiceAndRest(q: nat, a: nat, b: nat, s: nat, r: nat)
    requires a == 2 * b + s && s <= 1 && r < q
    ensures q * a + r == (2 * q) * b + (q * s + r) && q * s + r < 2 * q
  {
    assert q * (2 * b) == (2 * q) * b;
    assert q * (2 * b + s) == q * (2 * b) + q * s;
  }

  lemma DivUnique(x: nat, q: nat, b: nat, r: nat)
    requires x == q * b + r && r < q
    ensures x / q == b
  {
    var b', r' := x / q, x % q;
    if b' < b {
      MulGap(q, b', b);
    } else if b < b' {
      MulGap(q, b, b');
    }
  }

  lemma {:induction false} MulGap(q: nat, a: nat, b: nat)
    requires a < b
    ensures q * b >= q * a + q
  {
    if a + 1 < b {
      MulGap(q, a, b - 1);
    }
  }

  /** One row phase followed by one column phase halves any window. */
  lemma PairHalves(m: Matrix, n: nat, t: int, lo: nat, hi: nat) returns (lo': nat, hi': nat)
    requires n > 0 && Square(m, n) && Window(m, n, t, lo, hi)
    ensures DirtyBand(ColPhase(RowPhase(m, n), n), n, t, lo', hi')
    ensures hi' - lo' <= (hi - lo + 1) / 2
  {
    RowPhaseKeepsWindow(m, n, t, lo, hi);
    RowPhaseSortsRows(m, n);
    lo', hi' := ColPhaseHalves(RowPhase(m, n), n, t, lo, hi);
  }

  /** `p` pairs of a row phase followed by a column phase. */
  function Pairs(m: Matrix, n: nat, p: nat): (r: Matrix)
    requires Square(m, n)
    ensures Square(r, n)
  {
    if p == 0 then m else ColPhase(RowPhase(Pairs(m, n, p - 1), n), n)
  }

  /** After an even number of phases come a row phase and a column phase. */
  lemma RunPair(m: Matrix, n: nat, q: nat)
    requires Square(m, n) && q % 2 == 0
    ensures Run(m, n, q + 2) == ColPhase(RowPhase(Run(m, n, q), n), n)
  {
    assert Run(m, n, q + 1) == Phase(Run(m, n, q), n, q + 1);
  }

  lemma OnePairMore(m: Matrix, n: nat, p: nat, q: nat, p': nat, q': nat)
    requires Square(m, n) && p == p' + 1 && q == q' + 2 && q' % 2 == 0 && Pairs(m, n, p') == Run(m, n, q')
    ensures Pairs(m, n, p) == Run(m, n, q)
  {
    RunPair(m, n, q');
  }

  lemma {:induction false} PairsAreRun(m: Matrix, n: nat, p: nat, q: nat)
    requires Square(m, n) && q == 2 * p
    ensures Pairs(m, n, p) == Run(m, n, q)
  {
    if p > 0 {
      var p', q' := p - 1, q - 2;
      PairsAreRun(m, n, p', q');
      OnePairMore(m, n, p, q, p', q');
    }
  }

  lemma PairsIsRun(m: Matrix, n: nat, p: nat)
    requires Square(m, n)
    ensures Pairs(m, n, p) == Run(m, n, 2 * p)
  {
    PairsAreRun(m, n, p, 2 * p);
  }

  lemma {:induction false} PairsHalve(m: Matrix, n: nat, t: int, p: nat) returns (lo: nat, hi: nat)
    requires n > 0 && Square(m, n)
    ensures Window(Pairs(m, n, p), n, t, lo, hi)
    ensures p > 0 ==> DirtyBand(Pairs(m, n, p), n, t, lo, hi)
    ensures hi - lo <= CeilDiv(n, Pow2(p))
  {
    if p == 0 {
      lo, hi := 0, n;
    } else {
      var l, h := PairsHalve(m, n, t, p - 1);
      lo, hi := PairHalves(Pairs(m, n, p - 1), n, t, l, h);
      HalfBound(n, p, h - l);
    }
  }

  /**
   Dirty-row halving: after `p >= 1` pairs of a row phase and a column phase the rows that mix
   values on both sides of any threshold form one contiguous band of at most ceil(n / 2^p) rows.
   */
  lemma DirtyRowsHalve(m: Matrix, n: nat, t: int, p: nat) returns (lo: nat, hi: nat)
    requires n > 0 && Square(m, n) && p > 0
    ensures DirtyBand(Run(m, n, 2 * p), n, t, lo, hi)
    ensures hi - lo <= CeilDiv(n, Pow2(p))
  {
    lo, hi := PairsHalve(m, n, t, p);
    PairsIsRun(m, n, p);
  }
}
