/**
 The bubble sort that one worker thread runs on its own row or column
 (CXXTest/concurrent_sort_test/main.cpp, lines 87-126), as a function of the line it
 sorts, and the two facts the rest of the sort rests on: it sorts, and it permutes.
 */
module Bubble {

  /** `a` may stand before `b` in a line sorted in the given direction. */
  predicate InOrder(a: int, b: int, ascending: bool) {
    if ascending then a <= b else a >= b
  }

  ghost predicate Sorted(s: seq<int>, ascending: bool) {
    forall i, j :: 0 <= i < j < |s| ==> InOrder(s[i], s[j], ascending)
  }

  /** Line 94: even rows are sorted upwards, odd rows downwards. */
  predicate Ascends(id: nat) {
    id % 2 == 0
  }

  /** The loop body: compare the neighbours at `c` and `c + 1`, swap them when out of order. */
  function CompareSwap(s: seq<int>, c: nat, ascending: bool): (r: seq<int>)
    requires c + 1 < |s|
    ensures |r| == |s|
  {
    if InOrder(s[c], s[c + 1], ascending) then s else s[c := s[c + 1]][c + 1 := s[c]]
  }

  /** How many elements of a line are at least `t`: the line seen through one threshold. */
  function CountGe(s: seq<int>, t: int): (n: nat)
    ensures n <= |s|
  {
    if s == [] then 0 else CountGe(s[..|s| - 1], t) + if s[|s| - 1] >= t then 1 else 0
  }

  lemma {:induction false} CountGeConcat(s: seq<int>, u: seq<int>, t: int)
    ensures CountGe(s + u, t) == CountGe(s, t) + CountGe(u, t)
  {
    if u == [] {
      assert s + u == s;
    } else {
      assert (s + u)[..|s + u| - 1] == s + u[..|u| - 1];
      CountGeConcat(s, u[..|u| - 1], t);
    }
  }

  lemma CountGeParts(s: seq<int>, i: nat, j: nat, t: int)
    requires i <= j <= |s|
    ensures CountGe(s, t) == CountGe(s[..i], t) + CountGe(s[i..j], t) + CountGe(s[j..], t)
  {
    var x, y, z := s[..i], s[i..j], s[j..];
    assert s == (x + y) + z;
    CountGeConcat(x + y, z, t);
    CountGeConcat(x, y, t);
  }

  lemma {:induction false} CountGeIsMultiplicity(s: seq<int>, v: int)
    ensures multiset(s)[v] == CountGe(s, v) - CountGe(s, v + 1)
  {
    if s != [] {
      assert s == s[..|s| - 1] + [s[|s| - 1]];
      CountGeIsMultiplicity(s[..|s| - 1], v);
    }
  }

  lemma CompareSwapKeepsCount(s: seq<int>, c: nat, ascending: bool, t: int)
    requires c + 1 < |s|
    ensures CountGe(CompareSwap(s, c, ascending), t) == CountGe(s, t)
  {
    var r := CompareSwap(s, c, ascending);
    var pre, post := s[..c], s[c + 2..];
    assert s == pre + [s[c], s[c + 1]] + post && r == pre + [r[c], r[c + 1]] + post;
    CountGeConcat(pre + [s[c], s[c + 1]], post, t);
    CountGeConcat(pre, [s[c], s[c + 1]], t);
    CountGeConcat(pre + [r[c], r[c + 1]], post, t);
    CountGeConcat(pre, [r[c], r[c + 1]], t);
    CountGePair(s[c], s[c + 1], t);
    CountGePair(s[c + 1], s[c], t);
  }

  lemma CountGePair(x: int, y: int, t: int)
    ensures CountGe([x, y], t) == (if x >= t then 1 else 0) + if y >= t then 1 else 0
  {
    assert [x, y][..1] == [x] && [x][..0] == [];
  }

  /** What is left of the nested loops when the outer counter is `i` and the inner one `c`. */
  function RunFrom(s: seq<int>, i: int, c: nat, ascending: bool): (r: seq<int>)
    requires i < |s| || i <= 0
    ensures |r| == |s|
    decreases i, i - c
  {
    if i <= 0 then s
    else if c < i then RunFrom(CompareSwap(s, c, ascending), i, c + 1, ascending)
    else RunFrom(s, i - 1, 0, ascending)
  }

  /** The whole bubble sort of one line. */
  function Sort(s: seq<int>, ascending: bool): (r: seq<int>) {
    RunFrom(s, |s| - 1, 0, ascending)
  }

  /** The outer loop's invariant: the tail after `i` is final. */
  ghost predicate TailDone(s: seq<int>, i: int, ascending: bool) {
    forall j, k :: 0 <= j < k < |s| && i < k ==> InOrder(s[j], s[k], ascending)
  }

  /** The inner loop's invariant: position `c` holds the extreme of everything before it. */
  ghost predicate HeadCarried(s: seq<int>, c: nat, ascending: bool) {
    forall j :: 0 <= j < c < |s| ==> InOrder(s[j], s[c], ascending)
  }

  lemma CompareSwapKeepsTail(s: seq<int>, i: int, c: nat, ascending: bool)
    requires c < i < |s| && TailDone(s, i, ascending)
    ensures TailDone(CompareSwap(s, c, ascending), i, ascending)
  {
  }

  lemma CompareSwapCarries(s: seq<int>, c: nat, ascending: bool)
    requires c + 1 < |s| && HeadCarried(s, c, ascending)
    ensures HeadCarried(CompareSwap(s, c, ascending), c + 1, ascending)
  {
  }

  lemma PassEnds(s: seq<int>, i: nat, ascending: bool)
    requires 0 < i < |s| && TailDone(s, i, ascending) && HeadCarried(s, i, ascending)
    ensures TailDone(s, i - 1, ascending)
  {
  }

  lemma {:induction false} RunFromSorts(s: seq<int>, i: nat, c: nat, ascending: bool)
    requires c <= i < |s|
    requires TailDone(s, i, ascending) && HeadCarried(s, c, ascending)
    ensures TailDone(RunFrom(s, i, c, ascending), 0, ascending)
    decreases i, i - c
  {
    if i == 0 {
    } else if c < i {
      CompareSwapKeepsTail(s, i, c, ascending);
      CompareSwapCarries(s, c, ascending);
      RunFromSorts(CompareSwap(s, c, ascending), i, c + 1, ascending);
    } else {
      PassEnds(s, i, ascending);
      RunFromSorts(s, i - 1, 0, ascending);
    }
  }

  lemma {:induction false} RunFromKeepsCount(s: seq<int>, i: nat, c: nat, ascending: bool, t: int)
    requires i < |s|
    ensures CountGe(RunFrom(s, i, c, ascending), t) == CountGe(s, t)
    decreases i, i - c
  {
    if 0 < i {
      if c < i {
        CompareSwapKeepsCount(s, c, ascending, t);
        RunFromKeepsCount(CompareSwap(s, c, ascending), i, c + 1, ascending, t);
      } else {
        RunFromKeepsCount(s, i - 1, 0, ascending, t);
      }
    }
  }

  /** The bubble sort of a line is sorted and holds as many values of `t` or more as the line. */
  lemma SortSorts(s: seq<int>, ascending: bool)
    ensures |Sort(s, ascending)| == |s|
    ensures Sorted(Sort(s, ascending), ascending)
    ensures var r := Sort(s, ascending);
            forall i, j :: 0 <= i < j < |r| ==> if ascending then r[i] <= r[j] else r[i] >= r[j]
    ensures forall t :: CountGe(Sort(s, ascending), t) == CountGe(s, t)
  {
    if s != [] {
      RunFromSorts(s, |s| - 1, 0, ascending);
      forall t
        ensures CountGe(Sort(s, ascending), t) == CountGe(s, t)
      {
        RunFromKeepsCount(s, |s| - 1, 0, ascending, t);
      }
    }
  }

  /** The bubble sort of a line is a permutation of the line. */
  lemma SortPermutes(s: seq<int>, ascending: bool)
    ensures multiset(Sort(s, ascending)) == multiset(s)
  {
    SortSorts(s, ascending);
    forall v
      ensures multiset(Sort(s, ascending))[v] == multiset(s)[v]
    {
      CountGeIsMultiplicity(s, v);
      CountGeIsMultiplicity(Sort(s, ascending), v);
    }
  }

  /** Row `id` of the shared matrix, as a value. */
  ghost function Row(a: array2<int>, id: nat): (s: seq<int>)
    requires id < a.Length0
    reads a
  {
    seq(a.Length1, c requires 0 <= c < a.Length1 reads a => a[id, c])
  }

  /** Column `id` of the shared matrix, as a value. */
  ghost function Column(a: array2<int>, id: nat): (s: seq<int>)
    requires id < a.Length1
    reads a
  {
    seq(a.Length0, r requires 0 <= r < a.Length0 reads a => a[r, id])
  }

  /** Only row `id` differs between two states of the matrix. */
  twostate predicate OnlyRow(a: array2<int>, id: nat)
    reads a
  {
    forall r, c :: 0 <= r < a.Length0 && 0 <= c < a.Length1 && r != id ==> a[r, c] == old(a[r, c])
  }

  /** Only column `id` differs between two states of the matrix. */
  twostate predicate OnlyColumn(a: array2<int>, id: nat)
    reads a
  {
    forall r, c :: 0 <= r < a.Length0 && 0 <= c < a.Length1 && c != id ==> a[r, c] == old(a[r, c])
  }

  /** Lines 94-107. */
  method CompareSwapRow(a: array2<int>, id: nat, col: nat)
    requires id < a.Length0 && col + 1 < a.Length1
    modifies a
    ensures Row(a, id) == CompareSwap(old(Row(a, id)), col, Ascends(id))
    ensures var x, y := old(a[id, col]), old(a[id, col + 1]);
            var swaps := if id % 2 == 0 then x > y else x < y;
            a[id, col] == (if swaps then y else x) && a[id, col + 1] == if swaps then x else y
    ensures OnlyRow(a, id)
  {
    if id % 2 == 0 {
      if a[id, col] > a[id, col + 1] {
        a[id, col], a[id, col + 1] := a[id, col + 1], a[id, col];
      }
    } else {
      if a[id, col] < a[id, col + 1] {
        a[id, col], a[id, col + 1] := a[id, col + 1], a[id, col];
      }
    }
  }

  /** Lines 120-123. */
  method CompareSwapColumn(a: array2<int>, id: nat, row: nat)
    requires id < a.Length1 && row + 1 < a.Length0
    modifies a
    ensures Column(a, id) == CompareSwap(old(Column(a, id)), row, true)
    ensures var x, y := old(a[row, id]), old(a[row + 1, id]);
            a[row, id] == (if x > y then y else x) && a[row + 1, id] == if x > y then x else y
    ensures OnlyColumn(a, id)
  {
    if a[row, id] > a[row + 1, id] {
      a[row, id], a[row + 1, id] := a[row + 1, id], a[row, id];
    }
  }

  /** Lines 90-110: worker `id` sorts row `id` in place, even rows up, odd rows down. */
  method SortRow(a: array2<int>, id: nat)
    requires id < a.Length0
    modifies a
    ensures Row(a, id) == Sort(old(Row(a, id)), Ascends(id))
    ensures id % 2 == 0 ==> forall j, l :: 0 <= j < l < a.Length1 ==> a[id, j] <= a[id, l]
    ensures id % 2 == 1 ==> forall j, l :: 0 <= j < l < a.Length1 ==> a[id, j] >= a[id, l]
    ensures multiset(Row(a, id)) == multiset(old(Row(a, id)))
    ensures OnlyRow(a, id)
  {
    var i := a.Length1 - 1;
    while i > 0
      invariant i < a.Length1
      invariant RunFrom(Row(a, id), i, 0, Ascends(id)) == Sort(old(Row(a, id)), Ascends(id))
      invariant OnlyRow(a, id)
    {
      var col := 0;
      while col < i
        invariant 0 <= col <= i
        invariant RunFrom(Row(a, id), i, col, Ascends(id)) == Sort(old(Row(a, id)), Ascends(id))
        invariant OnlyRow(a, id)
      {
        CompareSwapRow(a, id, col);
        col := col + 1;
      }
      i := i - 1;
    }
    SortedRow(a, id, old(Row(a, id)));
  }

  /** What the sorted line means for the cells of the row. */
  lemma SortedRow(a: array2<int>, id: nat, was: seq<int>)
    requires id < a.Length0 && Row(a, id) == Sort(was, Ascends(id))
    ensures id % 2 == 0 ==> forall j, l :: 0 <= j < l < a.Length1 ==> a[id, j] <= a[id, l]
    ensures id % 2 == 1 ==> forall j, l :: 0 <= j < l < a.Length1 ==> a[id, j] >= a[id, l]
    ensures multiset(Row(a, id)) == multiset(was)
  {
    SortSorts(was, Ascends(id));
    SortPermutes(was, Ascends(id));
    assert forall c :: 0 <= c < a.Length1 ==> Row(a, id)[c] == a[id, c];
  }

  /** The same for a column. */
  lemma SortedColumn(a: array2<int>, id: nat, was: seq<int>)
    requires id < a.Length1 && Column(a, id) == Sort(was, true)
    ensures forall j, l :: 0 <= j < l < a.Length0 ==> a[j, id] <= a[l, id]
    ensures multiset(Column(a, id)) == multiset(was)
  {
    SortSorts(was, true);
    SortPermutes(was, true);
    assert forall r :: 0 <= r < a.Length0 ==> Column(a, id)[r] == a[r, id];
  }

  /** Lines 116-125: worker `id` sorts column `id` in place, downwards from small to large. */
  method SortColumn(a: array2<int>, id: nat)
    requires id < a.Length1
    modifies a
    ensures Column(a, id) == Sort(old(Column(a, id)), true)
    ensures forall j, l :: 0 <= j < l < a.Length0 ==> a[j, id] <= a[l, id]
    ensures multiset(Column(a, id)) == multiset(old(Column(a, id)))
    ensures OnlyColumn(a, id)
  {
    var i := a.Length0 - 1;
    while i > 0
      invariant i < a.Length0
      invariant RunFrom(Column(a, id), i, 0, true) == Sort(old(Column(a, id)), true)
      invariant OnlyColumn(a, id)
    {
      var row := 0;
      while row < i
        invariant 0 <= row <= i
        invariant RunFrom(Column(a, id), i, row, true) == Sort(old(Column(a, id)), true)
        invariant OnlyColumn(a, id)
      {
        CompareSwapColumn(a, id, row);
        row := row + 1;
      }
      i := i - 1;
    }
    SortedColumn(a, id, old(Column(a, id)));
  }
}
