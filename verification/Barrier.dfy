/**
 The threads of CXXTest/concurrent_sort_test/main.cpp as a step relation: one worker per line of the
 matrix (`thread_func`, lines 82-139) and the main thread that counts them in and releases them
 (lines 167-185). Every compare-and-swap, every counter update and every condition-variable
 operation is one step, and the steps of different threads interleave freely. A notification that
 nobody waits for is lost.
 */
module Barrier {
  import opened Bubble
  import opened Shearsort
  import opened SnakeOrder

  /** Where a worker is: in its loops, before line 128, 131, 133, in the wait of line 135, woken from it, or done. */
  datatype Pc = Sorting(i: int, c: nat) | Counting | Notifying | Locking | Blocked | Woken | Exited

  datatype Worker = Worker(phase: nat, pc: Pc)

  /**
   Where main is: before the test of line 172, between a test that failed and the wait of line 174
   with `g_lock` in hand, in that wait, past it, or joining.
   */
  datatype MainPc = Checking | Sleeping | Waiting | Passed | Joining

  datatype State = State(m: Matrix, workers: seq<Worker>, count: int, loop: nat, main: MainPc)

  /** The start of a worker's loops for an n x n matrix. */
  function Begin(n: nat): (pc: Pc) {
    if n > 1 then Sorting(n - 1, 0) else Counting
  }

  /** The loop counters after the compare-and-swap at `c` of pass `i`. */
  function Advance(i: int, c: nat): (pc: Pc) {
    if c + 1 < i then Sorting(i, c + 1) else if i > 1 then Sorting(i - 1, 0) else Counting
  }

  /** The line worker `w` owns in phase `p`: row `w` in odd phases, column `w` in even ones. */
  function Line(m: Matrix, n: nat, p: nat, w: nat): (s: seq<int>)
    requires Square(m, n) && w < n
    ensures |s| == n
  {
    if p % 2 == 1 then m[w] else Col(m, w)
  }

  function SetLine(m: Matrix, n: nat, p: nat, w: nat, line: seq<int>): (r: Matrix)
    requires Square(m, n) && w < n && |line| == n
    ensures Square(r, n)
  {
    if p % 2 == 1 then m[w := line] else SetCol(m, n, w, line)
  }

  predicate Up(p: nat, w: nat) {
    p % 2 == 0 || Ascends(w)
  }

  lemma SetLineLines(m: Matrix, n: nat, p: nat, w: nat, line: seq<int>, v: nat)
    requires Square(m, n) && w < n && |line| == n && v < n
    ensures Line(SetLine(m, n, p, w, line), n, p, v) == if v == w then line else Line(m, n, p, v)
  {
    if p % 2 == 0 {
      SetColCols(m, n, w, line, v);
    }
  }

  lemma PhaseLine(m: Matrix, n: nat, p: nat, w: nat)
    requires Square(m, n) && w < n
    ensures Line(Phase(m, n, p), n, p, w) == Sort(Line(m, n, p, w), Up(p, w))
  {
    if p % 2 == 1 {
      SortRowsRow(m, n, n, w);
    } else {
      SortColsCol(m, n, n, w);
    }
  }

  lemma LinesDetermine(m: Matrix, m': Matrix, n: nat, p: nat)
    requires Square(m, n) && Square(m', n)
    requires forall w :: 0 <= w < n ==> Line(m, n, p, w) == Line(m', n, p, w)
    ensures m == m'
  {
    forall i, j | 0 <= i < n && 0 <= j < n
      ensures m[i][j] == m'[i][j]
    {
      assert Line(m, n, p, i) == Line(m', n, p, i) && Line(m, n, p, j) == Line(m', n, p, j);
      if p % 2 == 0 {
        assert Col(m, j)[i] == Col(m', j)[i];
      }
    }
    assert forall i :: 0 <= i < n ==> m[i] == m'[i];
  }

  // ----- steps

  ghost predicate Init(s: State, m: Matrix, n: nat) {
    && Square(m, n) && n > 0
    && s.m == m && s.count == 0 && s.loop == 0 && s.main == Checking
    && |s.workers| == n && forall w :: 0 <= w < n ==> s.workers[w] == Worker(1, Begin(n))
  }

  /** Worker `w` moves to `x`; nothing else changes. */
  function Move(s: State, w: nat, x: Worker): (s': State)
    requires w < |s.workers|
  {
    s.(workers := s.workers[w := x])
  }

  /** One compare-and-swap of worker `w` on its own line. */
  ghost predicate SwapStep(s: State, s': State, n: nat, w: nat) {
    && Square(s.m, n) && w < n && w < |s.workers|
    && var x := s.workers[w];
    && x.pc.Sorting? && x.pc.c + 1 < n
    && var line := CompareSwap(Line(s.m, n, x.phase, w), x.pc.c, Up(x.phase, w));
    s' == Move(s, w, Worker(x.phase, Advance(x.pc.i, x.pc.c))).(m := SetLine(s.m, n, x.phase, w, line))
  }

  /** `g_cal_count++` (line 128). */
  ghost predicate CountStep(s: State, s': State, w: nat) {
    && w < |s.workers| && s.workers[w].pc.Counting?
    && s' == Move(s, w, s.workers[w].(pc := Notifying)).(count := s.count + 1)
  }

  /** `pcv->notify_one()` (line 131): wakes main if it waits, is lost otherwise. */
  ghost predicate NotifyStep(s: State, s': State, w: nat) {
    && w < |s.workers| && s.workers[w].pc.Notifying?
    && s' == Move(s, w, s.workers[w].(pc := Locking)).(main := if s.main.Waiting? then Checking else s.main)
  }

  /** The worker takes the lock, unless main has it, and blocks (lines 133-135). */
  ghost predicate BlockStep(s: State, s': State, w: nat) {
    && w < |s.workers| && s.workers[w].pc.Locking? && !s.main.Sleeping?
    && s' == Move(s, w, s.workers[w].(pc := Blocked))
  }

  /** The worker returns from its wait and goes on to the next phase (lines 135-138, 85). */
  ghost predicate ResumeStep(s: State, s': State, n: nat, max: nat, w: nat) {
    && w < |s.workers| && s.workers[w].pc.Woken?
    && var p := s.workers[w].phase + 1;
    s' == Move(s, w, Worker(p, if p <= max then Begin(n) else Exited))
  }

  /** Main tests the counter (line 172). */
  ghost predicate CheckStep(s: State, s': State, n: nat) {
    s.main.Checking? && s' == s.(main := if s.count < (s.loop + 1) * n then Sleeping else Passed)
  }

  /** Main begins to wait (line 174); workers count and notify without the lock, also between its test and this. */
  ghost predicate SleepStep(s: State, s': State) {
    s.main.Sleeping? && s' == s.(main := Waiting)
  }

  /** Main's wait returns without a notification; its loop tests again. */
  ghost predicate SpuriousStep(s: State, s': State) {
    s.main.Waiting? && s' == s.(main := Checking)
  }

  function Wake(x: Worker): (y: Worker) {
    if x.pc.Blocked? then x.(pc := Woken) else x
  }

  /** `g_cv.notify_all()` (line 184): wakes the workers that wait now and no others. */
  ghost predicate ReleaseStep(s: State, s': State, max: nat) {
    && s.main.Passed?
    && s' == s.(workers := seq(|s.workers|, w requires 0 <= w < |s.workers| => Wake(s.workers[w])),
                loop := s.loop + 1,
                main := if s.loop + 1 < max then Checking else Joining)
  }

  ghost predicate WorkerStep(s: State, s': State, n: nat, max: nat, w: nat) {
    || SwapStep(s, s', n, w)
    || CountStep(s, s', w)
    || NotifyStep(s, s', w)
    || BlockStep(s, s', w)
    || ResumeStep(s, s', n, max, w)
  }

  /** The steps that need no spurious wakeup. */
  ghost predicate QuietNext(s: State, s': State, n: nat, max: nat) {
    || (exists w: nat :: WorkerStep(s, s', n, max, w))
    || CheckStep(s, s', n)
    || SleepStep(s, s')
    || ReleaseStep(s, s', max)
  }

  ghost predicate Next(s: State, s': State, n: nat, max: nat) {
    QuietNext(s, s', n, max) || SpuriousStep(s, s')
  }

  /** A run: any finite sequence of steps from the initial state. */
  ghost predicate IsRun(t: seq<State>, m: Matrix, n: nat, max: nat) {
    t != [] && Init(t[0], m, n) && forall k :: 0 <= k < |t| - 1 ==> Next(t[k], t[k + 1], n, max)
  }

  // ----- the invariant

  /** How many phases a worker has sorted and counted. */
  function Finished(x: Worker): (f: int) {
    if x.pc.Sorting? || x.pc.Counting? || x.pc.Exited? then x.phase - 1 else x.phase
  }

  function Total(ws: seq<Worker>): (c: int) {
    if ws == [] then 0 else Total(ws[..|ws| - 1]) + Finished(ws[|ws| - 1])
  }

  /** A worker is never ahead of the release it needs and never behind the previous one. */
  ghost predicate WorkerOk(x: Worker, n: nat, loop: nat, max: nat) {
    && loop <= Finished(x) && x.phase <= loop + 1
    && (x.pc.Sorting? ==> x.pc.c < x.pc.i < n)
    && (x.pc.Woken? ==> x.phase <= loop)
    && (if x.pc.Exited? then x.phase == max + 1 else x.phase <= max)
  }

  /** What a worker has made of its line of phase `p`, which started as `base`. */
  ghost predicate LineOk(x: Worker, p: nat, cur: seq<int>, base: seq<int>, up: bool) {
    if x.phase != p || x.pc.Exited? then cur == base
    else if x.pc.Sorting? then x.pc.i < |cur| && RunFrom(cur, x.pc.i, x.pc.c, up) == Sort(base, up)
    else cur == Sort(base, up)
  }

  ghost predicate LineAt(x: Worker, cur: Matrix, base: Matrix, n: nat, p: nat, w: nat)
    requires Square(cur, n) && Square(base, n) && w < n
  {
    LineOk(x, p, Line(cur, n, p, w), Line(base, n, p, w), Up(p, w))
  }

  /** Every line is on its way from the matrix `base` of the last release. */
  ghost predicate LinesOk(s: State, base: Matrix, n: nat)
    requires Square(s.m, n) && Square(base, n) && |s.workers| == n
  {
    forall w :: 0 <= w < n ==> LineAt(s.workers[w], s.m, base, n, s.loop + 1, w)
  }

  ghost predicate Control(s: State, n: nat, max: nat) {
    && |s.workers| == n && s.loop <= max
    && (forall w :: 0 <= w < n ==> WorkerOk(s.workers[w], n, s.loop, max))
    && s.count == Total(s.workers)
    && (s.main.Passed? ==> forall w :: 0 <= w < n ==> Finished(s.workers[w]) == s.loop + 1)
    && (if s.main.Joining? then s.loop == max else s.loop < max)
  }

  ghost predicate Inv(s: State, m: Matrix, n: nat, max: nat) {
    Square(m, n) && Square(s.m, n) && Control(s, n, max) && LinesOk(s, Run(m, n, s.loop), n)
  }

  lemma {:induction false} TotalUpdate(ws: seq<Worker>, w: nat, x: Worker)
    requires w < |ws|
    ensures Total(ws[w := x]) == Total(ws) - Finished(ws[w]) + Finished(x)
  {
    var u := ws[..|ws| - 1];
    if w == |ws| - 1 {
      assert ws[w := x][..|ws| - 1] == u;
    } else {
      assert ws[w := x][..|ws| - 1] == u[w := x];
      TotalUpdate(u, w, x);
    }
  }

  lemma {:induction false} TotalSame(ws: seq<Worker>, ws': seq<Worker>)
    requires |ws| == |ws'| && forall w :: 0 <= w < |ws| ==> Finished(ws[w]) == Finished(ws'[w])
    ensures Total(ws) == Total(ws')
  {
    if ws != [] {
      TotalSame(ws[..|ws| - 1], ws'[..|ws| - 1]);
    }
  }

  lemma {:induction false} TotalZero(ws: seq<Worker>)
    requires forall w :: 0 <= w < |ws| ==> Finished(ws[w]) == 0
    ensures Total(ws) == 0
  {
    if ws != [] {
      TotalZero(ws[..|ws| - 1]);
    }
  }

  lemma {:induction false} TotalBound(ws: seq<Worker>, b: int)
    requires forall w :: 0 <= w < |ws| ==> Finished(ws[w]) <= b
    ensures Total(ws) <= b * |ws|
  {
    if ws != [] {
      TotalBound(ws[..|ws| - 1], b);
      assert b * |ws| == b * (|ws| - 1) + b;
    }
  }

  /** The counting argument: nobody above `b` and a full total leave nobody below `b`. */
  lemma {:induction false} TotalReached(ws: seq<Worker>, b: int)
    requires forall w :: 0 <= w < |ws| ==> Finished(ws[w]) <= b
    requires Total(ws) >= b * |ws|
    ensures forall w :: 0 <= w < |ws| ==> Finished(ws[w]) == b
  {
    if ws != [] {
      var u := ws[..|ws| - 1];
      assert b * |ws| == b * (|ws| - 1) + b;
      TotalBound(u, b);
      TotalReached(u, b);
      assert forall w :: 0 <= w < |u| ==> u[w] == ws[w];
    }
  }

  // ----- every step keeps the invariant

  lemma InitInv(s: State, m: Matrix, n: nat, max: nat)
    requires Init(s, m, n) && max > 0
    ensures Inv(s, m, n, max)
  {
    TotalZero(s.workers);
    assert Run(m, n, 0) == m;
  }

  /** Worker `w` moved and nothing else that the control part of the invariant speaks of. */
  ghost predicate Moved(s: State, s': State, n: nat, max: nat, w: nat) {
    && w < n && |s.workers| == |s'.workers| == n
    && s'.workers == s.workers[w := s'.workers[w]] && s'.loop == s.loop
    && (s'.main == s.main || (s.main.Waiting? && s'.main.Checking?))
    && WorkerOk(s'.workers[w], n, s.loop, max)
    && Finished(s.workers[w]) <= Finished(s'.workers[w])
    && s'.count == s.count + Finished(s'.workers[w]) - Finished(s.workers[w])
  }

  lemma MoveKeepsControl(s: State, s': State, n: nat, max: nat, w: nat)
    requires Control(s, n, max) && Moved(s, s', n, max, w)
    ensures Control(s', n, max)
  {
    TotalUpdate(s.workers, w, s'.workers[w]);
  }

  lemma MoveKeepsLines(s: State, s': State, base: Matrix, n: nat, max: nat, w: nat, p: nat)
    requires Moved(s, s', n, max, w) && p == s.loop + 1
    requires Square(s.m, n) && Square(s'.m, n) && Square(base, n) && LinesOk(s, base, n)
    requires forall v :: 0 <= v < n && v != w ==> Line(s'.m, n, p, v) == Line(s.m, n, p, v)
    requires LineAt(s'.workers[w], s'.m, base, n, p, w)
    ensures LinesOk(s', base, n)
  {
    forall v | 0 <= v < n
      ensures LineAt(s'.workers[v], s'.m, base, n, p, v)
    {
      if v != w {
        assert LineAt(s.workers[v], s.m, base, n, p, v);
        assert Line(s'.m, n, p, v) == Line(s.m, n, p, v);
      }
    }
  }

  lemma SwapKeepsLines(s: State, s': State, base: Matrix, n: nat, max: nat, w: nat)
    requires SwapStep(s, s', n, w) && Moved(s, s', n, max, w) && s.workers[w].phase == s.loop + 1
    requires Square(s'.m, n) && Square(base, n) && |s.workers| == n && LinesOk(s, base, n)
    requires s.workers[w].pc.c < s.workers[w].pc.i < n
    ensures LinesOk(s', base, n)
  {
    var x, p := s.workers[w], s.loop + 1;
    assert LineAt(x, s.m, base, n, p, w);
    var line := CompareSwap(Line(s.m, n, p, w), x.pc.c, Up(p, w));
    forall v | 0 <= v < n
      ensures Line(s'.m, n, p, v) == if v == w then line else Line(s.m, n, p, v)
    {
      SetLineLines(s.m, n, p, w, line, v);
    }
    SwapKeepsLine(x, p, Line(s.m, n, p, w), Line(base, n, p, w), Up(p, w));
    MoveKeepsLines(s, s', base, n, max, w, p);
  }

  lemma SwapKeepsInv(s: State, s': State, m: Matrix, n: nat, max: nat, w: nat)
    requires Inv(s, m, n, max) && SwapStep(s, s', n, w)
    ensures Inv(s', m, n, max)
  {
    assert WorkerOk(s.workers[w], n, s.loop, max);
    MoveKeepsControl(s, s', n, max, w);
    SwapKeepsLines(s, s', Run(m, n, s.loop), n, max, w);
  }

  /** One compare-and-swap leaves the same result to be reached. */
  lemma SwapKeepsLine(x: Worker, p: nat, cur: seq<int>, base: seq<int>, up: bool)
    requires x.phase == p && x.pc.Sorting? && x.pc.c < x.pc.i < |cur|
    requires LineOk(x, p, cur, base, up)
    ensures LineOk(Worker(p, Advance(x.pc.i, x.pc.c)), p, CompareSwap(cur, x.pc.c, up), base, up)
  {
    var next := CompareSwap(cur, x.pc.c, up);
    assert RunFrom(cur, x.pc.i, x.pc.c, up) == RunFrom(next, x.pc.i, x.pc.c + 1, up);
    if x.pc.c + 1 == x.pc.i {
      assert RunFrom(next, x.pc.i, x.pc.c + 1, up) == RunFrom(next, x.pc.i - 1, 0, up);
    }
  }

  /** A move that leaves the matrix alone keeps the invariant when the worker's own line allows it. */
  lemma StillKeepsInv(s: State, s': State, m: Matrix, n: nat, max: nat, w: nat)
    requires Inv(s, m, n, max) && Moved(s, s', n, max, w) && s'.m == s.m
    requires LineAt(s'.workers[w], s.m, Run(m, n, s.loop), n, s.loop + 1, w)
    ensures Inv(s', m, n, max)
  {
    MoveKeepsControl(s, s', n, max, w);
    StillKeepsLines(s, s', Run(m, n, s.loop), n, max, w);
  }

  lemma StillKeepsLines(s: State, s': State, base: Matrix, n: nat, max: nat, w: nat)
    requires Moved(s, s', n, max, w) && s'.m == s.m
    requires Square(s.m, n) && Square(base, n) && LinesOk(s, base, n)
    requires LineAt(s'.workers[w], s.m, base, n, s.loop + 1, w)
    ensures LinesOk(s', base, n)
  {
    MoveKeepsLines(s, s', base, n, max, w, s.loop + 1);
  }

  lemma SignalMoves(s: State, s': State, n: nat, max: nat, w: nat)
    requires Control(s, n, max) && (CountStep(s, s', w) || NotifyStep(s, s', w) || BlockStep(s, s', w))
    ensures Moved(s, s', n, max, w)
  {
    assert WorkerOk(s.workers[w], n, s.loop, max);
  }

  lemma ResumeMoves(s: State, s': State, n: nat, max: nat, w: nat)
    requires Control(s, n, max) && ResumeStep(s, s', n, max, w)
    ensures Moved(s, s', n, max, w) && s.workers[w].phase == s.loop
  {
    assert WorkerOk(s.workers[w], n, s.loop, max);
  }

  lemma SignalKeepsInv(s: State, s': State, m: Matrix, n: nat, max: nat, w: nat)
    requires Inv(s, m, n, max)
    requires CountStep(s, s', w) || NotifyStep(s, s', w) || BlockStep(s, s', w)
    ensures Inv(s', m, n, max)
  {
    SignalMoves(s, s', n, max, w);
    SignalKeepsLine(s, s', Run(m, n, s.loop), n, w);
    StillKeepsInv(s, s', m, n, max, w);
  }

  lemma SignalKeepsLine(s: State, s': State, base: Matrix, n: nat, w: nat)
    requires CountStep(s, s', w) || NotifyStep(s, s', w) || BlockStep(s, s', w)
    requires Square(s.m, n) && Square(base, n) && |s.workers| == n && LinesOk(s, base, n)
    ensures s'.m == s.m && LineAt(s'.workers[w], s.m, base, n, s.loop + 1, w)
  {
    assert LineAt(s.workers[w], s.m, base, n, s.loop + 1, w);
  }

  lemma ResumeKeepsInv(s: State, s': State, m: Matrix, n: nat, max: nat, w: nat)
    requires Inv(s, m, n, max) && ResumeStep(s, s', n, max, w)
    ensures Inv(s', m, n, max)
  {
    ResumeMoves(s, s', n, max, w);
    ResumeKeepsLine(s, s', Run(m, n, s.loop), n, max, w);
    StillKeepsInv(s, s', m, n, max, w);
  }

  lemma ResumeKeepsLine(s: State, s': State, base: Matrix, n: nat, max: nat, w: nat)
    requires ResumeStep(s, s', n, max, w) && s.workers[w].phase == s.loop
    requires Square(s.m, n) && Square(base, n) && |s.workers| == n && LinesOk(s, base, n)
    ensures s'.m == s.m && LineAt(s'.workers[w], s.m, base, n, s.loop + 1, w)
  {
    assert LineAt(s.workers[w], s.m, base, n, s.loop + 1, w);
  }

  lemma CheckKeepsControl(s: State, s': State, n: nat, max: nat)
    requires Control(s, n, max) && CheckStep(s, s', n)
    ensures Control(s', n, max)
  {
    if s'.main.Passed? {
      forall w | 0 <= w < n
        ensures Finished(s.workers[w]) <= s.loop + 1
      {
        assert WorkerOk(s.workers[w], n, s.loop, max);
      }
      TotalReached(s.workers, s.loop + 1);
    }
  }

  /** Steps of main that touch neither workers nor matrix keep the lines in order. */
  lemma MainKeepsInv(s: State, s': State, m: Matrix, n: nat, max: nat)
    requires Inv(s, m, n, max) && Control(s', n, max)
    requires s'.m == s.m && s'.workers == s.workers && s'.loop == s.loop
    ensures Inv(s', m, n, max)
  {
    SameLines(s, s', Run(m, n, s.loop), n);
  }

  lemma SameLines(s: State, s': State, base: Matrix, n: nat)
    requires Square(s.m, n) && Square(base, n) && |s.workers| == n && LinesOk(s, base, n)
    requires s'.m == s.m && s'.workers == s.workers && s'.loop == s.loop
    ensures LinesOk(s', base, n)
  {
  }

  /** When main is past its wait the matrix is the sequential one. */
  lemma PassedMatrix(s: State, m: Matrix, n: nat, max: nat)
    requires Inv(s, m, n, max) && s.main.Passed?
    ensures s.m == Run(m, n, s.loop + 1)
  {
    var base, p := Run(m, n, s.loop), s.loop + 1;
    forall w | 0 <= w < n
      ensures Line(s.m, n, p, w) == Line(Phase(base, n, p), n, p, w)
    {
      assert WorkerOk(s.workers[w], n, s.loop, max);
      assert LineAt(s.workers[w], s.m, base, n, p, w);
      PhaseLine(base, n, p, w);
    }
    LinesDetermine(s.m, Phase(base, n, p), n, p);
  }

  lemma ReleaseKeepsInv(s: State, s': State, m: Matrix, n: nat, max: nat)
    requires Inv(s, m, n, max) && ReleaseStep(s, s', max)
    ensures Inv(s', m, n, max)
  {
    PassedMatrix(s, m, n, max);
    forall w | 0 <= w < n
      ensures WorkerOk(s'.workers[w], n, s'.loop, max)
      ensures LineAt(s'.workers[w], s'.m, s.m, n, s'.loop + 1, w)
      ensures Finished(s'.workers[w]) == Finished(s.workers[w])
    {
      assert WorkerOk(s.workers[w], n, s.loop, max);
    }
    TotalSame(s.workers, s'.workers);
    assert LinesOk(s', s.m, n);
  }

  lemma WorkerKeepsInv(s: State, s': State, m: Matrix, n: nat, max: nat, w: nat)
    requires Inv(s, m, n, max) && WorkerStep(s, s', n, max, w)
    ensures Inv(s', m, n, max)
  {
    if SwapStep(s, s', n, w) {
      SwapKeepsInv(s, s', m, n, max, w);
    } else if ResumeStep(s, s', n, max, w) {
      ResumeKeepsInv(s, s', m, n, max, w);
    } else {
      SignalKeepsInv(s, s', m, n, max, w);
    }
  }

  /** Every step of every thread keeps the invariant. */
  lemma NextKeepsInv(s: State, s': State, m: Matrix, n: nat, max: nat)
    requires Inv(s, m, n, max) && Next(s, s', n, max)
    ensures Inv(s', m, n, max)
  {
    if w: nat :| WorkerStep(s, s', n, max, w) {
      WorkerKeepsInv(s, s', m, n, max, w);
    } else if CheckStep(s, s', n) {
      CheckKeepsControl(s, s', n, max);
      MainKeepsInv(s, s', m, n, max);
    } else if ReleaseStep(s, s', max) {
      ReleaseKeepsInv(s, s', m, n, max);
    } else {
      MainKeepsInv(s, s', m, n, max);
    }
  }

  lemma {:induction false} RunKeepsInv(t: seq<State>, m: Matrix, n: nat, max: nat)
    requires IsRun(t, m, n, max) && max > 0
    ensures Inv(t[|t| - 1], m, n, max)
  {
    if |t| == 1 {
      InitInv(t[0], m, n, max);
    } else {
      RunKeepsInv(t[..|t| - 1], m, n, max);
      NextKeepsInv(t[|t| - 2], t[|t| - 1], m, n, max);
    }
  }

  // ----- what it gives

  /** No worker sorts phase p + 1 before every worker has counted phase p. */
  lemma NobodyRunsAhead(t: seq<State>, m: Matrix, n: nat, max: nat, v: nat, w: nat)
    requires IsRun(t, m, n, max) && max > 0 && v < n && w < n
    ensures var ws := t[|t| - 1].workers; |ws| == n && Finished(ws[v]) >= ws[w].phase - 1
  {
    RunKeepsInv(t, m, n, max);
    var s := t[|t| - 1];
    assert WorkerOk(s.workers[v], n, s.loop, max) && WorkerOk(s.workers[w], n, s.loop, max);
  }

  /**
   In every run, when main is past its wait for phase `loop`, every worker has finished exactly
   `loop + 1` phases, none is sorting, and the matrix main prints is that of the sequential phases.
   */
  lemma BarrierHolds(t: seq<State>, m: Matrix, n: nat, max: nat)
    requires IsRun(t, m, n, max) && max > 0 && t[|t| - 1].main.Passed?
    ensures var s := t[|t| - 1];
            && s.m == Run(m, n, s.loop + 1)
            && |s.workers| == n
            && forall w :: 0 <= w < n ==> Finished(s.workers[w]) == s.loop + 1 && !s.workers[w].pc.Sorting?
  {
    RunKeepsInv(t, m, n, max);
    var s := t[|t| - 1];
    PassedMatrix(s, m, n, max);
    forall w | 0 <= w < n
      ensures !s.workers[w].pc.Sorting?
    {
      assert WorkerOk(s.workers[w], n, s.loop, max);
    }
  }

  /** Once main joins, the matrix is that of all phases and no later step changes it. */
  lemma FinalMatrix(t: seq<State>, m: Matrix, n: nat, max: nat)
    requires IsRun(t, m, n, max) && max > 0 && t[|t| - 1].main.Joining?
    ensures t[|t| - 1].m == Run(m, n, max)
  {
    RunKeepsInv(t, m, n, max);
    var s := t[|t| - 1];
    var base, p := Run(m, n, s.loop), s.loop + 1;
    forall w | 0 <= w < n
      ensures Line(s.m, n, p, w) == Line(base, n, p, w)
    {
      assert WorkerOk(s.workers[w], n, s.loop, max);
      assert LineAt(s.workers[w], s.m, base, n, p, w);
    }
    LinesDetermine(s.m, base, n, p);
  }

  /** Every run of the program on a 2^k x 2^k matrix that gets to joining its threads has sorted it. */
  lemma ConcurrentSortSorts(t: seq<State>, m: Matrix, n: nat)
    requires IsRun(t, m, n, MaxPhase(n)) && IsPowerOfTwo(n) && t[|t| - 1].main.Joining?
    ensures Square(t[|t| - 1].m, n)
    ensures var r := t[|t| - 1].m;
            && (forall i, j, l :: 0 <= i < n && 0 <= j < l < n ==> i % 2 == 0 ==> r[i][j] <= r[i][l])
            && (forall i, j, l :: 0 <= i < n && 0 <= j < l < n ==> i % 2 == 1 ==> r[i][j] >= r[i][l])
            && (forall i, k, j, l :: 0 <= i < k < n && 0 <= j < n && 0 <= l < n ==> r[i][j] <= r[k][l])
    ensures SnakeSorted(t[|t| - 1].m, n)
    ensures multiset(Flatten(t[|t| - 1].m)) == multiset(Flatten(m))
  {
    FinalMatrix(t, m, n, MaxPhase(n));
    PowerOfTwoSorts(m, n);
  }
}
