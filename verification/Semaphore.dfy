/**
 A counting semaphore made of a mutex, a condition variable and a signed counter, with timeouts
 (SocketExams/RJCommon/RJSemaphore.cpp, the branches without Windows). Each step is a stretch of code
 under the mutex, or the expiry of a timeout; a release of `n` is `n` steps. A signal wakes one
 blocked thread, if there is one, and nothing else wakes a blocked thread but its timeout.
 */
module Semaphore {
  import opened Common

  type Thread = nat

  /**
   `blocked` threads wait on the condition variable, `timed` ones among them with a timeout;
   `signalled` ones have been woken and `expired` ones have timed out, and both have still to take the
   mutex and leave `Wait`. The rest counts what has happened: `released` increments of the counter by
   releases, `won` successful waits, `wasted` signals that found nobody blocked, and `regained`
   timeouts that left `Wait` when the counter was not negative.
   */
  datatype Sem = Sem(
    count: int, blocked: set<Thread>, timed: set<Thread>, signalled: set<Thread>, expired: set<Thread>,
    init: nat, released: nat, won: nat, wasted: nat, regained: nat)

  function New(init: nat): (s: Sem) {
    Sem(init, {}, {}, {}, {}, init, 0, 0, 0, 0)
  }

  predicate Inside(s: Sem, t: Thread) {
    t in s.blocked || t in s.signalled || t in s.expired
  }

  // ----- the steps

  datatype Step =
    | Enter(t: Thread, timed: bool)
    | ReleaseOne(t: Thread)
    | Wake(t: Thread)
    | Expire(t: Thread)
    | GiveUp(t: Thread)

  predicate Enabled(s: Sem, step: Step) {
    match step
    case Enter(t, _) => !Inside(s, t)
    case ReleaseOne(t) => Signals(s) && s.blocked != {} ==> t in s.blocked
    case Wake(t) => t in s.signalled
    case Expire(t) => t in s.blocked && t in s.timed
    case GiveUp(t) => t in s.expired
  }

  /** Whether a release signals the condition variable. */
  predicate Signals(s: Sem) {
    s.count + 1 <= 0
  }

  /** `Wait` up to the condition variable (lines 111-121). */
  function Entered(s: Sem, t: Thread, timed: bool): (s': Sem) {
    if s.count - 1 >= 0 then s.(count := s.count - 1, won := s.won + 1)
    else s.(count := s.count - 1, blocked := s.blocked + {t}, timed := if timed then s.timed + {t} else s.timed - {t})
  }

  /** One turn of the loop of `Release` or `ReleaseAll` (lines 51-53 and 76-83); a signal wakes `t`. */
  function ReleasedOne(s: Sem, t: Thread): (s': Sem) {
    var s1 := s.(count := s.count + 1, released := s.released + 1);
    if !Signals(s) then s1
    else if t in s.blocked then s1.(blocked := s.blocked - {t}, signalled := s.signalled + {t})
    else s1.(wasted := s.wasted + 1)
  }

  /** A signalled thread leaves `Wait` with success (lines 145-147). */
  function Woken(s: Sem, t: Thread): (s': Sem) {
    s.(signalled := s.signalled - {t}, won := s.won + 1)
  }

  /** The timeout of a blocked thread passes. */
  function Expired(s: Sem, t: Thread): (s': Sem) {
    s.(blocked := s.blocked - {t}, expired := s.expired + {t})
  }

  /** A timed-out thread leaves `Wait` (lines 139-148). */
  function GivenUp(s: Sem, t: Thread): (s': Sem) {
    s.(count := s.count + 1, expired := s.expired - {t}, regained := if s.count >= 0 then s.regained + 1
        else s.regained)
  }

  function Do(s: Sem, step: Step): (s': Sem) {
    match step
    case Enter(t, timed) => Entered(s, t, timed)
    case ReleaseOne(t) => ReleasedOne(s, t)
    case Wake(t) => Woken(s, t)
    case Expire(t) => Expired(s, t)
    case GiveUp(t) => GivenUp(s, t)
  }

  ghost predicate Next(s: Sem, step: Step, s': Sem) {
    Enabled(s, step) && s' == Do(s, step)
  }

  ghost predicate IsRun(ss: seq<Sem>, steps: seq<Step>, init: nat) {
    && |ss| == |steps| + 1 && ss[0] == New(init)
    && forall i :: 0 <= i < |steps| ==> Next(ss[i], steps[i], ss[i + 1])
  }

  // ----- what every step keeps

  /** The books: where every unit of the counter has gone. */
  ghost predicate Balanced(s: Sem) {
    && s.count == s.init + s.released - s.won - |s.blocked| - |s.signalled| - |s.expired|
    && |s.blocked| + |s.expired| == Max(0, -s.count) + s.wasted - s.regained
    && s.wasted >= s.regained
    && s.blocked !! s.signalled && s.blocked !! s.expired && s.signalled !! s.expired
  }

  /** Balanced books leave no room for more successes than the initial count and the releases. */
  lemma NoMoreThanReleased(s: Sem)
    requires Balanced(s)
    ensures s.won + |s.signalled| <= s.init + s.released
  {
  }

  lemma EnterKeepsBalance(s: Sem, t: Thread, timed: bool)
    requires Balanced(s) && !Inside(s, t)
    ensures Balanced(Entered(s, t, timed))
  {
  }

  lemma ReleaseKeepsBalance(s: Sem, t: Thread)
    requires Balanced(s) && Enabled(s, ReleaseOne(t))
    ensures Balanced(ReleasedOne(s, t))
  {
  }

  lemma GiveUpKeepsBalance(s: Sem, t: Thread)
    requires Balanced(s) && t in s.expired
    ensures Balanced(GivenUp(s, t))
  {
    assert |s.expired - {t}| == |s.expired| - 1;
  }

  lemma WakeKeepsBalance(s: Sem, t: Thread)
    requires Balanced(s) && t in s.signalled
    ensures Balanced(Woken(s, t))
  {
    assert |s.signalled - {t}| == |s.signalled| - 1;
  }

  lemma ExpireKeepsBalance(s: Sem, t: Thread)
    requires Balanced(s) && t in s.blocked
    ensures Balanced(Expired(s, t))
  {
    assert |s.blocked - {t}| == |s.blocked| - 1;
    assert t !in s.expired && |s.expired + {t}| == |s.expired| + 1;
  }

  lemma NextKeepsBalance(s: Sem, step: Step, s': Sem)
    requires Balanced(s) && Next(s, step, s')
    ensures Balanced(s') && s'.init == s.init
  {
    match step
    case Enter(t, timed) => EnterKeepsBalance(s, t, timed);
    case ReleaseOne(t) => ReleaseKeepsBalance(s, t);
    case Wake(t) => WakeKeepsBalance(s, t);
    case Expire(t) => ExpireKeepsBalance(s, t);
    case GiveUp(t) => GiveUpKeepsBalance(s, t);
  }

  lemma {:induction false} RunBalances(ss: seq<Sem>, steps: seq<Step>, init: nat, i: nat)
    requires IsRun(ss, steps, init) && i <= |steps|
    ensures Balanced(ss[i]) && ss[i].init == init
  {
    if i > 0 {
      RunBalances(ss, steps, init, i - 1);
      NextKeepsBalance(ss[i - 1], steps[i - 1], ss[i]);
    }
  }

  /**
   In every interleaving the counter is the initial count plus releases minus successful waits minus
   calls still inside `Wait`, and no more waits succeed or have been signalled than the initial count
   and the releases allow.
   */
  lemma CounterIsExact(ss: seq<Sem>, steps: seq<Step>, init: nat, i: nat)
    requires IsRun(ss, steps, init) && i <= |steps|
    ensures var s := ss[i];
            && s.count == init + s.released - s.won - |s.blocked + s.signalled + s.expired|
            && s.won + |s.signalled| <= init + s.released
  {
    RunBalances(ss, steps, init, i);
    var s := ss[i];
    assert |s.blocked + s.signalled| == |s.blocked| + |s.signalled|;
    assert |s.blocked + s.signalled + s.expired| == |s.blocked + s.signalled| + |s.expired|;
  }

  // ----- runs without timed waits

  ghost predicate NoTimedWait(steps: seq<Step>) {
    forall i :: 0 <= i < |steps| ==> steps[i].Enter? ==> !steps[i].timed
  }

  lemma {:induction false} NobodyExpires(ss: seq<Sem>, steps: seq<Step>, init: nat, i: nat)
    requires IsRun(ss, steps, init) && NoTimedWait(steps) && i <= |steps|
    ensures ss[i].timed * ss[i].blocked == {} && ss[i].expired == {} && ss[i].wasted == 0 && ss[i].regained == 0
  {
    if i > 0 {
      NobodyExpires(ss, steps, init, i - 1);
      RunBalances(ss, steps, init, i - 1);
      var s, step := ss[i - 1], steps[i - 1];
      assert Next(s, step, ss[i]);
      if step.ReleaseOne? && Signals(s) {
        assert |s.blocked| > 0;
      }
    }
  }

  /** Without timed waits the blocked threads number exactly `max(0, -count)`. */
  lemma BlockedExactly(ss: seq<Sem>, steps: seq<Step>, init: nat, i: nat)
    requires IsRun(ss, steps, init) && NoTimedWait(steps) && i <= |steps|
    ensures |ss[i].blocked| == Max(0, -ss[i].count)
  {
    RunBalances(ss, steps, init, i);
    NobodyExpires(ss, steps, init, i);
  }

  // ----- runs with timed waits

  /** A release signals the condition variable and nobody is blocked on it. */
  predicate Wasting(s: Sem, step: Step) {
    step.ReleaseOne? && Signals(s) && s.blocked == {}
  }

  /** The threads that wait or have given up waiting are those the counter speaks of: no wakeup is missing. */
  predicate Even(s: Sem) {
    |s.blocked| + |s.expired| == Max(0, -s.count)
  }

  lemma {:induction false} WastedStays(ss: seq<Sem>, steps: seq<Step>, init: nat, i: nat)
    requires IsRun(ss, steps, init) && i <= |steps| && forall k :: 0 <= k < i ==> !Wasting(ss[k], steps[k])
    ensures ss[i].wasted == 0
  {
    if i > 0 {
      WastedStays(ss, steps, init, i - 1);
      assert Next(ss[i - 1], steps[i - 1], ss[i]);
    }
  }

  lemma WasteIsSeen(ss: seq<Sem>, steps: seq<Step>, init: nat, k: nat)
    requires IsRun(ss, steps, init) && k < |steps| && Even(ss[k]) && Wasting(ss[k], steps[k])
    ensures !Even(ss[k + 1])
  {
    assert Next(ss[k], steps[k], ss[k + 1]);
  }

  /** A run has been even all along if and only if no release has signalled when nobody was blocked. */
  lemma EvenExactly(ss: seq<Sem>, steps: seq<Step>, init: nat, i: nat)
    requires IsRun(ss, steps, init) && i <= |steps|
    ensures (forall k :: 0 <= k <= i ==> Even(ss[k])) <==> (forall k :: 0 <= k < i ==> !Wasting(ss[k], steps[k]))
  {
    if forall k :: 0 <= k < i ==> !Wasting(ss[k], steps[k]) {
      forall k | 0 <= k <= i
        ensures Even(ss[k])
      {
        WastedStays(ss, steps, init, k);
        RunBalances(ss, steps, init, k);
      }
    } else {
      var k :| 0 <= k < i && Wasting(ss[k], steps[k]);
      if Even(ss[k]) {
        WasteIsSeen(ss, steps, init, k);
      }
    }
  }

  /** That takes a thread that has timed out and has not yet left `Wait`. */
  lemma WasteNeedsTimeout(ss: seq<Sem>, steps: seq<Step>, init: nat, i: nat)
    requires IsRun(ss, steps, init) && i < |steps| && Wasting(ss[i], steps[i])
    ensures ss[i].expired != {}
  {
    RunBalances(ss, steps, init, i);
  }

  /**
   So if no release comes between a timeout and its thread's return from `Wait`, no wakeup is ever
   lost: in every state whoever is blocked has a negative counter to show for it.
   */
  lemma NoLostWakeup(ss: seq<Sem>, steps: seq<Step>, init: nat, i: nat)
    requires IsRun(ss, steps, init) && i <= |steps|
    requires forall k :: 0 <= k < i ==> steps[k].ReleaseOne? ==> ss[k].expired == {}
    ensures Even(ss[i]) && (ss[i].blocked != {} ==> ss[i].count < 0)
  {
    forall k | 0 <= k < i
      ensures !Wasting(ss[k], steps[k])
    {
      if Wasting(ss[k], steps[k]) {
        WasteNeedsTimeout(ss, steps, init, k);
      }
    }
    EvenExactly(ss, steps, init, i);
    if ss[i].blocked != {} {
      assert |ss[i].blocked| > 0;
    }
  }

  /** Whoever is blocked has a negative counter to show for it. */
  predicate NoneForgotten(s: Sem) {
    s.blocked != {} ==> s.count < 0
  }

  /** A step that takes the counter to zero and leaves a thread blocked. */
  predicate Forgets(s: Sem, step: Step) {
    s.count == -1 && ((step.GiveUp? && s.blocked != {}) || (step.ReleaseOne? && |s.blocked| >= 2))
  }

  lemma NextForgets(s: Sem, step: Step, s': Sem)
    requires Balanced(s) && NoneForgotten(s) && Next(s, step, s')
    ensures NoneForgotten(s') <==> !Forgets(s, step)
  {
    match step
    case ReleaseOne(t) =>
      if t in s.blocked {
        assert |s.blocked - {t}| == |s.blocked| - 1;
      }
    case _ =>
  }

  lemma {:induction false} NoneForgottenUpTo(ss: seq<Sem>, steps: seq<Step>, init: nat, i: nat)
    requires IsRun(ss, steps, init) && i <= |steps| && forall k :: 0 <= k < i ==> !Forgets(ss[k], steps[k])
    ensures NoneForgotten(ss[i])
  {
    if i > 0 {
      NoneForgottenUpTo(ss, steps, init, i - 1);
      RunBalances(ss, steps, init, i - 1);
      assert Next(ss[i - 1], steps[i - 1], ss[i]);
      NextForgets(ss[i - 1], steps[i - 1], ss[i]);
    }
  }

  /**
   All along a run nobody is blocked at a counter that is not negative if and only if no thread gives
   up at counter -1 while another is blocked, and no release comes at counter -1 while two are.
   */
  lemma NoneForgottenExactly(ss: seq<Sem>, steps: seq<Step>, init: nat, i: nat)
    requires IsRun(ss, steps, init) && i <= |steps|
    ensures (forall k :: 0 <= k <= i ==> NoneForgotten(ss[k])) <==> (forall k :: 0 <= k < i ==>
              !Forgets(ss[k], steps[k]))
  {
    if forall k :: 0 <= k < i ==> !Forgets(ss[k], steps[k]) {
      forall k | 0 <= k <= i
        ensures NoneForgotten(ss[k])
      {
        NoneForgottenUpTo(ss, steps, init, k);
      }
    } else {
      var k :| 0 <= k < i && Forgets(ss[k], steps[k]);
      RunBalances(ss, steps, init, k);
      assert Next(ss[k], steps[k], ss[k + 1]);
      if NoneForgotten(ss[k]) {
        NextForgets(ss[k], steps[k], ss[k + 1]);
      }
    }
  }

  /** Such a step takes an earlier release that signalled when nobody was blocked. */
  lemma ForgettingNeedsWaste(ss: seq<Sem>, steps: seq<Step>, init: nat, i: nat)
    requires IsRun(ss, steps, init) && i < |steps| && Forgets(ss[i], steps[i])
    ensures exists k :: 0 <= k < i && Wasting(ss[k], steps[k])
  {
    RunBalances(ss, steps, init, i);
    assert Next(ss[i], steps[i], ss[i + 1]);
    var s := ss[i];
    assert s.blocked != {} ==> |s.blocked| > 0;
    assert s.expired != {} ==> |s.expired| > 0;
    if forall k :: 0 <= k < i ==> !Wasting(ss[k], steps[k]) {
      WastedStays(ss, steps, init, i);
    }
  }

  /** The state after `i` steps of the run below. */
  function LostState(i: nat): (s: Sem) {
    match i
    case 0 => New(0)
    case 1 => Sem(-1, {1}, {1}, {}, {}, 0, 0, 0, 0, 0)
    case 2 => Sem(-1, {}, {1}, {}, {1}, 0, 0, 0, 0, 0)
    case 3 => Sem(0, {}, {1}, {}, {1}, 0, 1, 0, 1, 0)
    case 4 => Sem(-1, {2}, {1}, {}, {1}, 0, 1, 0, 1, 0)
    case 5 => Sem(0, {2}, {1}, {}, {}, 0, 1, 0, 1, 0)
    case _ => Sem(1, {2}, {1}, {}, {}, 0, 2, 0, 1, 0)
  }

  /** A release comes between a timeout and its thread's return from `Wait`. */
  function LostStep(i: nat): (step: Step) {
    match i
    case 0 => Enter(1, true)
    case 1 => Expire(1)
    case 2 => ReleaseOne(1)
    case 3 => Enter(2, false)
    case 4 => GiveUp(1)
    case _ => ReleaseOne(2)
  }

  lemma LostNext(i: nat)
    requires i < 6
    ensures Next(LostState(i), LostStep(i), LostState(i + 1))
  {
    match i
    case 0 => assert {} + {1} == {1};
    case 1 => assert {1} - {1} == {};
    case 2 =>
    case 3 => assert {} + {2} == {2} && {1} - {2} == {1};
    case 4 => assert {1} - {1} == {};
    case _ =>
  }

  /** A wakeup can be lost: after two releases and no successful wait a thread without a timeout is still blocked. */
  lemma WakeupCanBeLost() returns (ss: seq<Sem>, steps: seq<Step>)
    ensures IsRun(ss, steps, 0)
    ensures var s := ss[|steps|];
            && s.blocked == {2} && 2 !in s.timed && s.released == 2
            && s.won == 0 && s.count == 1 && s.expired == {}
  {
    ss, steps := seq(7, i requires i >= 0 => LostState(i)), seq(6, i requires i >= 0 => LostStep(i));
    forall i | 0 <= i < 6
      ensures Next(ss[i], steps[i], ss[i + 1])
    {
      LostNext(i);
    }
  }

  // ----- a whole release

  /** `n` turns of the release loop. */
  ghost predicate Released(s: Sem, n: nat, s': Sem)
    decreases n
  {
    if n == 0 then s' == s
    else exists m, t :: Released(s, n - 1, m) && Next(m, ReleaseOne(t), s')
  }

  /** What a release of `n` does when no timeout is under way. */
  ghost predicate Wakes(s: Sem, n: nat, s': Sem) {
    && Balanced(s') && s'.expired == {} && s'.wasted == s'.regained
    && s'.count == s.count + n && s'.won == s.won
    && s'.blocked <= s.blocked && s'.signalled == s.signalled + (s.blocked - s'.blocked)
    && |s'.blocked| == Max(0, |s.blocked| - n)
  }

  lemma ReleaseWakesOne(s: Sem, t: Thread, s': Sem)
    requires Balanced(s) && s.expired == {} && s.wasted == s.regained && Next(s, ReleaseOne(t), s')
    ensures Wakes(s, 1, s')
  {
    ReleaseKeepsBalance(s, t);
  }

  lemma InTwoSteps(u: set<Thread>, a: set<Thread>, b: set<Thread>, c: set<Thread>)
    requires c <= b <= a
    ensures u + (a - b) + (b - c) == u + (a - c)
  {
  }

  lemma WakesThen(s: Sem, n: nat, m: Sem, s': Sem)
    requires Wakes(s, n, m) && Wakes(m, 1, s')
    ensures Wakes(s, n + 1, s')
  {
    InTwoSteps(s.signalled, s.blocked, m.blocked, s'.blocked);
  }

  /**
   A release of `n` adds `n` to the counter and, when no timeout is under way, wakes exactly `min(n, blocked)` threads.
   */
  lemma {:induction false} ReleaseWakes(s: Sem, n: nat, s': Sem)
    requires Balanced(s) && s.expired == {} && s.wasted == s.regained && Released(s, n, s')
    ensures Wakes(s, n, s')
  {
    if n > 0 {
      var n' := n - 1;
      var m, t :| Released(s, n', m) && Next(m, ReleaseOne(t), s');
      ReleaseWakes(s, n', m);
      OneReleaseMore(s, n, n', m, t, s');
    }
  }

  lemma OneReleaseMore(s: Sem, n: nat, n': nat, m: Sem, t: Thread, s': Sem)
    requires n == n' + 1 && Wakes(s, n', m) && Next(m, ReleaseOne(t), s')
    ensures Wakes(s, n, s')
  {
    ReleaseWakesOne(m, t, s');
    WakesThen(s, n', m, s');
  }

  // ----- the object

  /** `RJ_S_OK` and `RJ_E_TIMEOUT`. */
  datatype Result = Success | TimedOut

  /** The counter, and who is where; a release picks the threads it wakes. */
  class RJSemaphore {
    var eventCount: int
    ghost var sem: Sem

    ghost predicate Tied()
      reads this
    {
      sem.count == eventCount
    }

    constructor (init: nat)
      ensures Tied() && sem == New(init)
    {
      eventCount := init;
      sem := New(init);
    }

    /** `pthread_cond_signal`: wakes a blocked thread, if there is one. */
    ghost method Signal(s: Sem)
      requires s.count == sem.count - 1 && Signals(s) && sem == s.(count := s.count + 1, released := s.released + 1)
      modifies this`sem
      ensures exists t :: Next(s, ReleaseOne(t), sem)
    {
      ghost var t: Thread := 0;
      if s.blocked != {} {
        t :| t in s.blocked;
      }
      sem := ReleasedOne(s, t);
      assert Next(s, ReleaseOne(t), sem);
    }

    /** The body of the release loops (lines 51-53 and 76-82). */
    method CountUp()
      requires Tied()
      modifies this
      ensures Tied() && exists t :: Next(old(sem), ReleaseOne(t), sem)
    {
      ghost var s := sem;
      eventCount := eventCount + 1;
      sem := sem.(count := sem.count + 1, released := sem.released + 1);
      if eventCount <= 0 {
        Signal(s);
      } else {
        assert Next(s, ReleaseOne(0), sem);
      }
    }

    /** `Release` (lines 63-90). */
    method Release(count: int)
      requires Tied()
      modifies this
      ensures Tied() && Released(old(sem), if count > 0 then count else 0, sem)
    {
      ghost var done: nat := 0;
      var left := count;
      while left > 0
        invariant Tied() && Released(old(sem), done, sem) && done == if count > 0 then count - left else 0
        invariant count > 0 ==> left >= 0
      {
        ghost var m := sem;
        CountUp();
        left, done := left - 1, done + 1;
        assert Released(old(sem), done - 1, m);
      }
    }

    /** `ReleaseAll` (lines 37-61). */
    method ReleaseAll()
      requires Tied()
      modifies this
      ensures Tied() && Released(old(sem), Max(0, -old(eventCount)), sem)
    {
      ghost var done: nat := 0;
      while eventCount < 0
        invariant Tied() && Released(old(sem), done, sem) && eventCount == old(eventCount) + done
        invariant done <= Max(0, -old(eventCount))
      {
        ghost var m := sem;
        CountUp();
        done := done + 1;
        assert Released(old(sem), done - 1, m);
      }
    }

    /** `Wait` up to the condition variable (lines 111-121). */
    method Enter(ghost t: Thread, ghost timed: bool) returns (success: bool)
      requires Tied() && !Inside(sem, t)
      modifies this
      ensures Tied() && Next(old(sem), Step.Enter(t, timed), sem)
      ensures success == (t !in sem.blocked)
    {
      eventCount := eventCount - 1;
      sem := Entered(sem, t, timed);
      return eventCount >= 0;
    }

    /** `Wait` after the condition variable (lines 139-149); `timedOut` is what the wait returned. */
    method Leave(ghost t: Thread, timedOut: bool) returns (result: Result)
      requires Tied() && if timedOut then t in sem.expired else t in sem.signalled
      modifies this
      ensures Tied() && Next(old(sem), if timedOut then GiveUp(t) else Wake(t), sem)
      ensures sem.won == old(sem.won) + (if result == Success then 1 else 0)
    {
      result := if timedOut then TimedOut else Success;
      if timedOut {
        eventCount := eventCount + 1;
        sem := GivenUp(sem, t);
      } else {
        sem := Woken(sem, t);
      }
    }
  }

  /** `ReleaseAll` wakes every blocked thread, when no timeout is under way. */
  lemma ReleaseAllWakesAll(s: Sem, s': Sem)
    requires Balanced(s) && s.expired == {} && s.wasted == s.regained && Released(s, Max(0, -s.count), s')
    ensures s'.blocked == {} && s'.signalled == s.signalled + s.blocked && s'.count == Max(0, s.count)
  {
    ReleaseWakes(s, Max(0, -s.count), s');
  }
}
