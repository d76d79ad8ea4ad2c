/**
 When the threads of CXXTest/concurrent_sort_test/main.cpp get to the end (lines 128-137 and 167-191).
 Both waits can miss a notification: a worker that is not yet in its wait when main releases, and main
 itself between its test and its wait. These are the only ways to get stuck.
 */
module BarrierProgress {
  import opened Shearsort
  import opened Barrier

  /** All threads have ended. */
  ghost predicate Done(s: State) {
    s.main.Joining? && forall w :: 0 <= w < |s.workers| ==> s.workers[w].pc.Exited?
  }

  /** Steps from `t[0]` on, with or without spurious wakeups of main. */
  ghost predicate IsPath(t: seq<State>, n: nat, max: nat, quiet: bool) {
    t != [] && forall k :: 0 <= k < |t| - 1 ==> StepOf(t[k], t[k + 1], n, max, quiet)
  }

  ghost predicate StepOf(s: State, s': State, n: nat, max: nat, quiet: bool) {
    if quiet then QuietNext(s, s', n, max) else Next(s, s', n, max)
  }

  ghost predicate CanFinish(s: State, n: nat, max: nat, quiet: bool) {
    exists t :: IsPath(t, n, max, quiet) && t[0] == s && Done(t[|t| - 1])
  }

  // ----- how to get stuck

  /** A worker that has finished a phase already released, and is not woken. */
  predicate Behind(x: Worker, loop: nat) {
    x.phase <= loop && (x.pc.Notifying? || x.pc.Locking? || x.pc.Blocked?)
  }

  ghost predicate SomeBehind(s: State) {
    exists w :: 0 <= w < |s.workers| && Behind(s.workers[w], s.loop)
  }

  /** Main waits, or is about to, and every worker has sent its notification. */
  ghost predicate MainMissed(s: State) {
    && (s.main.Sleeping? || s.main.Waiting?)
    && forall w :: 0 <= w < |s.workers| ==> s.workers[w].pc.Locking? || s.workers[w].pc.Blocked?
  }

  /** Main released the workers (line 184) when one of them was not yet in its wait. */
  ghost predicate MissingRelease(s: State, s': State) {
    s.loop < s'.loop && exists w :: 0 <= w < |s.workers| && !s.workers[w].pc.Blocked?
  }

  /** A worker that moves is behind afterwards exactly when it was before. */
  lemma WorkerKeepsBehind(s: State, s': State, n: nat, max: nat, v: nat, w: nat)
    requires Control(s, n, max) && WorkerStep(s, s', n, max, v) && w < n
    ensures |s'.workers| == n && s'.loop == s.loop && (Behind(s'.workers[w], s.loop) <==> Behind(s.workers[w], s.loop))
  {
    assert WorkerOk(s.workers[w], n, s.loop, max);
  }

  /** A release leaves behind exactly the workers that are not in their wait. */
  lemma ReleaseLeavesBehind(s: State, s': State, m: Matrix, n: nat, max: nat, w: nat)
    requires Inv(s, m, n, max) && ReleaseStep(s, s', max) && w < n
    ensures |s'.workers| == n && (Behind(s'.workers[w], s'.loop) <==> !s.workers[w].pc.Blocked?)
    ensures !Behind(s.workers[w], s.loop)
  {
    assert WorkerOk(s.workers[w], n, s.loop, max);
    assert Finished(s.workers[w]) == s.loop + 1;
  }

  /** Being behind never ends, and begins only with a release that misses a worker. */
  lemma NextBehind(s: State, s': State, m: Matrix, n: nat, max: nat)
    requires Inv(s, m, n, max) && Next(s, s', n, max)
    ensures SomeBehind(s') <==> SomeBehind(s) || MissingRelease(s, s')
  {
    if v: nat :| WorkerStep(s, s', n, max, v) {
      forall w | 0 <= w < n
        ensures |s'.workers| == n && s'.loop == s.loop
        ensures Behind(s'.workers[w], s.loop) <==> Behind(s.workers[w], s.loop)
      {
        WorkerKeepsBehind(s, s', n, max, v, w);
      }
      WorkerKeepsBehind(s, s', n, max, v, v);
    } else if ReleaseStep(s, s', max) {
      forall w | 0 <= w < n
        ensures |s'.workers| == n && (Behind(s'.workers[w], s'.loop) <==> !s.workers[w].pc.Blocked?)
        ensures !Behind(s.workers[w], s.loop)
      {
        ReleaseLeavesBehind(s, s', m, n, max, w);
      }
    }
  }

  /** Some release so far missed a worker. */
  ghost predicate Missed(t: seq<State>) {
    exists k :: 0 <= k < |t| - 1 && MissingRelease(t[k], t[k + 1])
  }

  lemma MissedMore(t: seq<State>, l: nat)
    requires 0 < l && |t| == l + 1
    ensures Missed(t) <==> Missed(t[..l]) || MissingRelease(t[l - 1], t[l])
  {
    var u := t[..l];
    if k :| 0 <= k < l && MissingRelease(t[k], t[k + 1]) {
      assert k < l - 1 ==> MissingRelease(u[k], u[k + 1]);
    }
    if k :| 0 <= k < l - 1 && MissingRelease(u[k], u[k + 1]) {
      assert MissingRelease(t[k], t[k + 1]);
    }
  }

  lemma {:induction false} BehindMeansMissed(t: seq<State>, m: Matrix, n: nat, max: nat)
    requires IsRun(t, m, n, max) && max > 0
    ensures SomeBehind(t[|t| - 1]) <==> Missed(t)
  {
    var l := |t| - 1;
    if l > 0 {
      var u := t[..l];
      BehindMeansMissed(u, m, n, max);
      RunKeepsInv(u, m, n, max);
      NextBehind(u[l - 1], t[l], m, n, max);
      MissedMore(t, l);
    }
  }

  /** In every run some worker is behind exactly when some release missed a worker. */
  lemma BehindExactly(t: seq<State>, m: Matrix, n: nat, max: nat)
    requires IsRun(t, m, n, max) && max > 0
    ensures SomeBehind(t[|t| - 1]) <==> exists k :: 0 <= k < |t| - 1 && MissingRelease(t[k], t[k + 1])
  {
    BehindMeansMissed(t, m, n, max);
  }

  /** Without spurious wakeups a notification that main has missed is not made up for. */
  lemma MissedStays(s: State, s': State, n: nat, max: nat)
    requires MainMissed(s) && QuietNext(s, s', n, max)
    ensures MainMissed(s')
  {
  }

  /** Nobody who is stuck gets to the end. */
  lemma {:induction false} StuckForGood(t: seq<State>, m: Matrix, n: nat, max: nat, quiet: bool)
    requires IsPath(t, n, max, quiet) && Inv(t[0], m, n, max) && n > 0
    requires SomeBehind(t[0]) || (quiet && MainMissed(t[0]))
    ensures !Done(t[|t| - 1])
    decreases |t|
  {
    if |t| > 1 {
      assert StepOf(t[0], t[1], n, max, quiet);
      NextKeepsInv(t[0], t[1], m, n, max);
      if SomeBehind(t[0]) {
        NextBehind(t[0], t[1], m, n, max);
      } else {
        MissedStays(t[0], t[1], n, max);
      }
      StuckForGood(t[1..], m, n, max, quiet);
    }
  }

  // ----- how to get to the end

  /** The steps a worker has before it to the end of its phase, and one more to get into it. */
  function Rank(x: Worker, n: nat): (r: int) {
    match x.pc
    case Woken => n * n + 5
    case Sorting(i, c) => i * n - c + 4
    case Counting => 3
    case Notifying => 2
    case Locking => 1
    case Blocked => 0
    case Exited => 0
  }

  function Work(ws: seq<Worker>, n: nat): (r: int) {
    if ws == [] then 0 else Work(ws[..|ws| - 1], n) + Rank(ws[|ws| - 1], n)
  }

  lemma {:induction false} WorkUpdate(ws: seq<Worker>, w: nat, x: Worker, n: nat)
    requires w < |ws|
    ensures Work(ws[w := x], n) == Work(ws, n) - Rank(ws[w], n) + Rank(x, n)
  {
    var u := ws[..|ws| - 1];
    if w == |ws| - 1 {
      assert ws[w := x][..|ws| - 1] == u;
    } else {
      assert ws[w := x][..|ws| - 1] == u[w := x];
      WorkUpdate(u, w, x, n);
    }
  }

  lemma SortingRanks(i: nat, c: nat, n: nat)
    requires c < i < n
    ensures 0 <= i * n - c && i * n < n * n + 1
    ensures i > 1 ==> (i - 1) * n < i * n - c
  {
    assert i * n == (i - 1) * n + n;
    assert n * n == i * n + (n - i) * n;
  }

  lemma {:induction false} WorkIsNat(ws: seq<Worker>, n: nat, loop: nat, max: nat)
    requires forall w :: 0 <= w < |ws| ==> WorkerOk(ws[w], n, loop, max)
    ensures Work(ws, n) >= 0
  {
    if ws != [] {
      var x := ws[|ws| - 1];
      assert WorkerOk(x, n, loop, max);
      if x.pc.Sorting? {
        SortingRanks(x.pc.i, x.pc.c, n);
      }
      WorkIsNat(ws[..|ws| - 1], n, loop, max);
    }
  }

  /** A worker that is not blocked and has not ended. */
  predicate Movable(s: State, x: Worker) {
    !x.pc.Blocked? && !x.pc.Exited? && (x.pc.Locking? ==> !s.main.Sleeping?)
  }

  /** What a worker's next step leaves. */
  function Stepped(x: Worker, n: nat, max: nat): (y: Worker) {
    match x.pc
    case Woken => Worker(x.phase + 1, if x.phase + 1 <= max then Begin(n) else Exited)
    case Sorting(i, c) => Worker(x.phase, Advance(i, c))
    case Counting => x.(pc := Notifying)
    case Notifying => x.(pc := Locking)
    case _ => x.(pc := Blocked)
  }

  lemma SteppedRank(x: Worker, n: nat, loop: nat, max: nat)
    requires WorkerOk(x, n, loop, max) && !x.pc.Blocked? && !x.pc.Exited?
    ensures Rank(Stepped(x, n, max), n) < Rank(x, n)
  {
    match x.pc
    case Sorting(i, c) => SortingRanks(i, c, n);
    case Woken =>
      if n > 1 {
        SortingRanks(n - 1, 0, n);
      }
    case _ =>
  }

  /** The state after worker `w` has moved. */
  ghost function MoveOf(s: State, n: nat, max: nat, w: nat): (s': State)
    requires Square(s.m, n) && w < n && w < |s.workers|
    requires s.workers[w].pc.Sorting? ==> s.workers[w].pc.c + 1 < n
  {
    var x := s.workers[w];
    var s1 := Move(s, w, Stepped(x, n, max));
    match x.pc
    case Sorting(_, c) => s1.(m := SetLine(s.m, n, x.phase, w, Bubble.CompareSwap(Line(s.m, n, x.phase, w), c,
        Up(x.phase, w))))
    case Counting => s1.(count := s.count + 1)
    case Notifying => s1.(main := if s.main.Waiting? then Checking else s.main)
    case _ => s1
  }

  lemma WorkerMoves(s: State, m: Matrix, n: nat, max: nat, w: nat) returns (s': State)
    requires Inv(s, m, n, max) && w < n && Movable(s, s.workers[w])
    ensures QuietNext(s, s', n, max) && Inv(s', m, n, max) && s'.loop == s.loop
    ensures s'.workers == s.workers[w := Stepped(s.workers[w], n, max)]
    ensures s'.main == if s.workers[w].pc.Notifying? && s.main.Waiting? then Checking else s.main
    ensures Work(s'.workers, n) < Work(s.workers, n) && (SomeBehind(s') ==> SomeBehind(s))
  {
    var x := s.workers[w];
    assert WorkerOk(x, n, s.loop, max);
    s' := MoveOf(s, n, max, w);
    assert WorkerStep(s, s', n, max, w);
    NextKeepsInv(s, s', m, n, max);
    NextBehind(s, s', m, n, max);
    SteppedRank(x, n, s.loop, max);
    WorkUpdate(s.workers, w, Stepped(x, n, max), n);
  }

  function MainRank(pc: MainPc): (r: nat) {
    match pc
    case Checking => 3
    case Sleeping => 2
    case Waiting => 1
    case Passed => 1
    case Joining => 0
  }

  /** Nobody is stuck. */
  ghost predicate Live(s: State, m: Matrix, n: nat, max: nat) {
    Inv(s, m, n, max) && n > 0 && !SomeBehind(s) && !MainMissed(s)
  }

  /** `s'` is nearer to the end. */
  ghost predicate Nearer(s: State, s': State, n: nat) {
    || s'.loop > s.loop
    || (s'.loop == s.loop && Work(s'.workers, n) < Work(s.workers, n))
    || (s'.loop == s.loop && s'.workers == s.workers && MainRank(s'.main) < MainRank(s.main))
  }

  /** A test of the counter that fails leaves a worker that has yet to notify. */
  lemma CheckStaysLive(s: State, m: Matrix, n: nat, max: nat) returns (s': State)
    requires Live(s, m, n, max) && s.main.Checking?
    ensures QuietNext(s, s', n, max) && Live(s', m, n, max) && Nearer(s, s', n)
  {
    s' := s.(main := if s.count < (s.loop + 1) * n then Sleeping else Passed);
    assert CheckStep(s, s', n);
    NextKeepsInv(s, s', m, n, max);
    NextBehind(s, s', m, n, max);
    if MainMissed(s') {
      forall w | 0 <= w < n
        ensures Finished(s.workers[w]) == s.loop + 1
      {
        assert WorkerOk(s.workers[w], n, s.loop, max) && !Behind(s.workers[w], s.loop);
        assert s'.workers[w] == s.workers[w];
      }
      TotalIs(s.workers, s.loop + 1);
    }
  }

  lemma {:induction false} TotalIs(ws: seq<Worker>, b: int)
    requires forall w :: 0 <= w < |ws| ==> Finished(ws[w]) == b
    ensures Total(ws) == b * |ws|
  {
    if ws != [] {
      TotalIs(ws[..|ws| - 1], b);
      assert b * |ws| == b * (|ws| - 1) + b;
    }
  }

  lemma SleepStaysLive(s: State, m: Matrix, n: nat, max: nat) returns (s': State)
    requires Live(s, m, n, max) && s.main.Sleeping?
    ensures QuietNext(s, s', n, max) && Live(s', m, n, max) && Nearer(s, s', n)
  {
    s' := s.(main := Waiting);
    assert SleepStep(s, s');
    NextKeepsInv(s, s', m, n, max);
    NextBehind(s, s', m, n, max);
  }

  /** While main waits there is a worker that has yet to notify it, and moves. */
  lemma WaitingStaysLive(s: State, m: Matrix, n: nat, max: nat) returns (s': State)
    requires Live(s, m, n, max) && s.main.Waiting?
    ensures QuietNext(s, s', n, max) && Live(s', m, n, max) && Nearer(s, s', n)
  {
    var w :| 0 <= w < |s.workers| && !s.workers[w].pc.Locking? && !s.workers[w].pc.Blocked?;
    assert WorkerOk(s.workers[w], n, s.loop, max);
    s' := WorkerMoves(s, m, n, max, w);
    NotifierLeft(s, s', n, max, w);
  }

  /** The worker wakes main, or has yet to. */
  lemma NotifierLeft(s: State, s': State, n: nat, max: nat, w: nat)
    requires w < |s.workers| && s'.workers == s.workers[w := Stepped(s.workers[w], n, max)] && s.main.Waiting?
    requires s'.main == if s.workers[w].pc.Notifying? then Checking else s.main
    requires !s.workers[w].pc.Locking? && !s.workers[w].pc.Blocked? && !s.workers[w].pc.Exited?
    ensures !MainMissed(s')
  {
    assert s'.workers[w] == Stepped(s.workers[w], n, max);
  }

  /** Main past its wait releases the workers when all are in theirs. */
  lemma PassedStaysLive(s: State, m: Matrix, n: nat, max: nat) returns (s': State)
    requires Live(s, m, n, max) && s.main.Passed?
    ensures QuietNext(s, s', n, max) && Live(s', m, n, max) && Nearer(s, s', n)
  {
    if w :| 0 <= w < n && !s.workers[w].pc.Blocked? {
      assert WorkerOk(s.workers[w], n, s.loop, max);
      s' := WorkerMoves(s, m, n, max, w);
    } else {
      s' := s.(workers := seq(|s.workers|, w requires 0 <= w < |s.workers| => Wake(s.workers[w])),
               loop := s.loop + 1, main := if s.loop + 1 < max then Checking else Joining);
      assert ReleaseStep(s, s', max);
      NextKeepsInv(s, s', m, n, max);
      NextBehind(s, s', m, n, max);
    }
  }

  lemma JoiningStaysLive(s: State, m: Matrix, n: nat, max: nat) returns (s': State)
    requires Live(s, m, n, max) && s.main.Joining? && !Done(s)
    ensures QuietNext(s, s', n, max) && Live(s', m, n, max) && Nearer(s, s', n)
  {
    var w :| 0 <= w < |s.workers| && !s.workers[w].pc.Exited?;
    assert WorkerOk(s.workers[w], n, s.loop, max) && !Behind(s.workers[w], s.loop);
    s' := WorkerMoves(s, m, n, max, w);
  }

  lemma OneStepNearer(s: State, m: Matrix, n: nat, max: nat) returns (s': State)
    requires Live(s, m, n, max) && !Done(s)
    ensures QuietNext(s, s', n, max) && Live(s', m, n, max) && Nearer(s, s', n)
  {
    match s.main
    case Checking => s' := CheckStaysLive(s, m, n, max);
    case Sleeping => s' := SleepStaysLive(s, m, n, max);
    case Waiting => s' := WaitingStaysLive(s, m, n, max);
    case Passed => s' := PassedStaysLive(s, m, n, max);
    case Joining => s' := JoiningStaysLive(s, m, n, max);
  }

  ghost function WorkLeft(s: State, n: nat): (r: nat) {
    if Work(s.workers, n) >= 0 then Work(s.workers, n) else 0
  }

  /** Where nobody is stuck there is a way to the end. */
  lemma {:induction false} WayToTheEnd(s: State, m: Matrix, n: nat, max: nat) returns (t: seq<State>)
    requires Live(s, m, n, max)
    ensures IsPath(t, n, max, true) && t[0] == s && Done(t[|t| - 1])
    decreases max - s.loop, WorkLeft(s, n), MainRank(s.main)
  {
    if Done(s) {
      t := [s];
    } else {
      var s' := OneStepNearer(s, m, n, max);
      WorkIsNat(s.workers, n, s.loop, max);
      WorkIsNat(s'.workers, n, s'.loop, max);
      var u := WayToTheEnd(s', m, n, max);
      t := Prefixed(s, u, n, max, true);
    }
  }

  lemma Prefixed(s: State, u: seq<State>, n: nat, max: nat, quiet: bool) returns (t: seq<State>)
    requires IsPath(u, n, max, quiet) && StepOf(s, u[0], n, max, quiet)
    ensures t == [s] + u && IsPath(t, n, max, quiet)
  {
    t := [s] + u;
    forall k | 0 <= k < |t| - 1
      ensures StepOf(t[k], t[k + 1], n, max, quiet)
    {
      assert k > 0 ==> StepOf(u[k - 1], u[k], n, max, quiet);
    }
  }

  lemma QuietIsPath(t: seq<State>, n: nat, max: nat)
    requires IsPath(t, n, max, true)
    ensures IsPath(t, n, max, false)
  {
    forall k | 0 <= k < |t| - 1
      ensures StepOf(t[k], t[k + 1], n, max, false)
    {
      assert StepOf(t[k], t[k + 1], n, max, true);
    }
  }

  /** A spurious wakeup makes up for a notification that main missed. */
  lemma WayThroughSpuriousWakeup(s: State, m: Matrix, n: nat, max: nat) returns (t: seq<State>)
    requires Inv(s, m, n, max) && n > 0 && !SomeBehind(s)
    ensures IsPath(t, n, max, false) && t[0] == s && Done(t[|t| - 1])
  {
    if !MainMissed(s) {
      t := WayToTheEnd(s, m, n, max);
      QuietIsPath(t, n, max);
    } else {
      var s1 := s.(main := Waiting);
      assert s.main.Sleeping? ==> SleepStep(s, s1);
      var s2 := s.(main := Checking);
      assert SpuriousStep(s1, s2);
      if s.main.Sleeping? {
        NextKeepsInv(s, s1, m, n, max);
      }
      NextKeepsInv(s1, s2, m, n, max);
      assert !SomeBehind(s2);
      t := WayToTheEnd(s2, m, n, max);
      QuietIsPath(t, n, max);
      t := Prefixed(s1, t, n, max, false);
      if s.main.Sleeping? {
        t := Prefixed(s, t, n, max, false);
      }
    }
  }

  // ----- exactly when

  /** Every run can still get to the end if and only if no release so far has missed a worker. */
  lemma FinishesExactly(t: seq<State>, m: Matrix, n: nat, max: nat)
    requires IsRun(t, m, n, max) && max > 0
    ensures CanFinish(t[|t| - 1], n, max, false) <==>
            forall k :: 0 <= k < |t| - 1 ==> !MissingRelease(t[k], t[k + 1])
  {
    var s := t[|t| - 1];
    RunKeepsInv(t, m, n, max);
    BehindExactly(t, m, n, max);
    if SomeBehind(s) {
      forall u | IsPath(u, n, max, false) && u[0] == s
        ensures !Done(u[|u| - 1])
      {
        StuckForGood(u, m, n, max, false);
      }
    } else {
      var _ := WayThroughSpuriousWakeup(s, m, n, max);
    }
  }

  /** Without spurious wakeups it can if and only if, besides, main has not missed its last notification. */
  lemma FinishesQuietlyExactly(t: seq<State>, m: Matrix, n: nat, max: nat)
    requires IsRun(t, m, n, max) && max > 0
    ensures CanFinish(t[|t| - 1], n, max, true) <==>
            !MainMissed(t[|t| - 1]) && forall k :: 0 <= k < |t| - 1 ==> !MissingRelease(t[k], t[k + 1])
  {
    var s := t[|t| - 1];
    RunKeepsInv(t, m, n, max);
    BehindExactly(t, m, n, max);
    if SomeBehind(s) || MainMissed(s) {
      forall u | IsPath(u, n, max, true) && u[0] == s
        ensures !Done(u[|u| - 1])
      {
        StuckForGood(u, m, n, max, true);
      }
    } else {
      var _ := WayToTheEnd(s, m, n, max);
    }
  }

  // ----- getting stuck, at every size

  /** All workers are in their first phase, with `r` steps or more before them. */
  ghost predicate FirstPhase(s: State, n: nat, r: nat) {
    && s.loop == 0 && (s.main.Checking? || s.main.Sleeping?) && |s.workers| == n
    && forall w :: 0 <= w < n ==> s.workers[w].phase == 1 && !s.workers[w].pc.Woken? && Rank(s.workers[w], n) >= r
  }

  ghost predicate AllAt(s: State, n: nat, r: nat) {
    |s.workers| == n && forall w :: 0 <= w < n ==> Rank(s.workers[w], n) == r
  }

  lemma Extended(t: seq<State>, s': State, m: Matrix, n: nat, max: nat) returns (u: seq<State>)
    requires IsRun(t, m, n, max) && Next(t[|t| - 1], s', n, max)
    ensures u == t + [s'] && IsRun(u, m, n, max)
  {
    u := t + [s'];
    forall k | 0 <= k < |u| - 1
      ensures Next(u[k], u[k + 1], n, max)
    {
      assert k < |t| - 1 ==> Next(t[k], t[k + 1], n, max);
    }
  }

  ghost predicate NoRelease(t: seq<State>) {
    forall k :: 0 <= k < |t| ==> t[k].loop == 0
  }

  lemma StepOnAbove(s: State, m: Matrix, n: nat, max: nat, r: nat, w: nat) returns (s': State)
    requires Inv(s, m, n, max) && FirstPhase(s, n, r) && 1 <= r <= 2 && w < n && Rank(s.workers[w], n) > r
    ensures Next(s, s', n, max) && FirstPhase(s', n, r) && s'.main == s.main
    ensures Work(s'.workers, n) < Work(s.workers, n)
  {
    assert WorkerOk(s.workers[w], n, s.loop, max);
    s' := WorkerMoves(s, m, n, max, w);
    StaysAbove(s.workers[w], n, s.loop, max, r);
  }

  lemma StaysAbove(x: Worker, n: nat, loop: nat, max: nat, r: nat)
    requires WorkerOk(x, n, loop, max) && x.phase == 1 && !x.pc.Woken? && 1 <= r <= 2 && Rank(x, n) > r
    ensures var y := Stepped(x, n, max); y.phase == 1 && !y.pc.Woken? && Rank(y, n) >= r
  {
    var y := Stepped(x, n, max);
    if y.pc.Sorting? {
      SortingRanks(y.pc.i, y.pc.c, n);
    }
  }

  /** The workers get to where exactly `r` steps are before each, and main does nothing. */
  lemma {:induction false} DriveTo(t: seq<State>, m: Matrix, n: nat, max: nat, r: nat) returns (u: seq<State>)
    requires IsRun(t, m, n, max) && max > 0 && 1 <= r <= 2 && FirstPhase(t[|t| - 1], n, r) && NoRelease(t)
    ensures IsRun(u, m, n, max) && FirstPhase(u[|u| - 1], n, r) && u[|u| - 1].main == t[|t| - 1].main && NoRelease(u)
    ensures AllAt(u[|u| - 1], n, r)
    decreases WorkLeft(t[|t| - 1], n)
  {
    var s := t[|t| - 1];
    RunKeepsInv(t, m, n, max);
    if w :| 0 <= w < n && Rank(s.workers[w], n) > r {
      var s' := StepOnAbove(s, m, n, max, r, w);
      NextKeepsInv(s, s', m, n, max);
      WorkIsNat(s.workers, n, s.loop, max);
      WorkIsNat(s'.workers, n, s'.loop, max);
      var t' := Extended(t, s', m, n, max);
      u := DriveTo(t', m, n, max, r);
    } else {
      u := t;
    }
  }

  /** The first state, and that its workers have most of their phase before them. */
  lemma FirstState(m: Matrix, n: nat, max: nat) returns (t: seq<State>)
    requires Square(m, n) && n > 0
    ensures IsRun(t, m, n, max) && FirstPhase(t[|t| - 1], n, 2) && NoRelease(t)
    ensures t[|t| - 1].main.Checking? && t[|t| - 1].count == 0
  {
    var s := State(m, seq(n, _ => Worker(1, Begin(n))), 0, 0, Checking);
    t := [s];
    if n > 1 {
      SortingRanks(n - 1, 0, n);
    }
  }

  /** The pc of a worker of the first phase, by the steps before it. */
  lemma RankSays(x: Worker, n: nat, loop: nat, max: nat)
    requires WorkerOk(x, n, loop, max) && !x.pc.Woken?
    ensures Rank(x, n) == 2 ==> x.pc.Notifying?
    ensures Rank(x, n) == 1 ==> x.pc.Locking?
  {
    if x.pc.Sorting? {
      SortingRanks(x.pc.i, x.pc.c, n);
    }
  }

  /** Every size has a run whose release misses all workers, and which then cannot get to the end. */
  lemma ReleaseCanMiss(m: Matrix, n: nat, max: nat) returns (t: seq<State>)
    requires Square(m, n) && n > 0 && max > 0
    ensures IsRun(t, m, n, max) && !CanFinish(t[|t| - 1], n, max, false)
  {
    t := FirstState(m, n, max);
    t := DriveTo(t, m, n, max, 2);
    RunKeepsInv(t, m, n, max);
    var s := t[|t| - 1];
    forall w | 0 <= w < n
      ensures s.workers[w].pc.Notifying? && Finished(s.workers[w]) == 1
    {
      assert WorkerOk(s.workers[w], n, s.loop, max);
      RankSays(s.workers[w], n, s.loop, max);
    }
    TotalIs(s.workers, 1);
    var s1 := s.(main := Passed);
    assert CheckStep(s, s1, n);
    t := Extended(t, s1, m, n, max);
    var s2 := s1.(workers := seq(|s.workers|, w requires 0 <= w < |s.workers| => Wake(s.workers[w])),
                  loop := 1, main := if 1 < max then Checking else Joining);
    assert ReleaseStep(s1, s2, max);
    t := Extended(t, s2, m, n, max);
    assert !s1.workers[0].pc.Blocked? && MissingRelease(t[|t| - 2], t[|t| - 1]);
    FinishesExactly(t, m, n, max);
  }

  /**
   Every size has a run without any release in which main misses the last notification: only a spurious wakeup helps.
   */
  lemma MainCanMiss(m: Matrix, n: nat, max: nat) returns (t: seq<State>)
    requires Square(m, n) && n > 0 && max > 0
    ensures IsRun(t, m, n, max) && NoRelease(t)
    ensures !CanFinish(t[|t| - 1], n, max, true) && CanFinish(t[|t| - 1], n, max, false)
  {
    t := FirstState(m, n, max);
    var s := t[|t| - 1].(main := Sleeping);
    assert CheckStep(t[|t| - 1], s, n);
    t := Extended(t, s, m, n, max);
    t := DriveTo(t, m, n, max, 1);
    RunKeepsInv(t, m, n, max);
    s := t[|t| - 1];
    forall w | 0 <= w < n
      ensures s.workers[w].pc.Locking?
    {
      assert WorkerOk(s.workers[w], n, s.loop, max);
      RankSays(s.workers[w], n, s.loop, max);
    }
    FinishesQuietlyExactly(t, m, n, max);
    FinishesExactly(t, m, n, max);
  }
}
