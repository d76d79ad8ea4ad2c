/**
 Timeouts over whole runs of a uSockets loop (SocketExams/uSockets/src/socket.c, lines 49-56, with
 loop.c, lines 86-105): among calls, ready polls, sweeps of any context and freeing, in any order, a
 timeout of a socket that stays open and is not set anew fires once.
 */
module USocketTimers {
  import opened USocketLists
  import opened USocketLoop
  import opened USocketEvents
  import opened USocketSweep
  import opened USocketDispatch

  predicate Open(f: Full, x: SocketId) {
    x in f.st.socks && x !in f.sh.closed
  }

  /** A callback, or one it leads to, sets the timeout of `x`. */
  predicate Resets(acts: seq<Action>, x: SocketId) {
    acts != [] && (ResetsOne(acts[0], x) || Resets(acts[1..], x))
  }

  predicate ResetsOne(a: Action, x: SocketId) {
    (a.SetTimeout? && a.s == x) || (a.Close? && Resets(a.onClose, x))
  }

  ghost predicate NeverReset(script: nat -> seq<Action>, x: SocketId) {
    forall i :: !Resets(script(i), x)
  }

  ghost predicate PollResets(e: Ready, x: SocketId) {
    || Resets(e.onWritable, x) || Resets(e.onClose, x)
    || (e.recv.Data? && Resets(e.recv.onData, x)) || (e.recv.EndOfStream? && Resets(e.recv.onEnd, x))
  }

  /** No callback of `op` sets the timeout of `x`. */
  ghost predicate LeavesTimer(op: Op, x: SocketId) {
    match op
    case Calls(acts) => !Resets(acts, x)
    case Poll(_, e) => !PollResets(e, x)
    case Sweep(_, script) => NeverReset(script, x)
    case Free => true
  }

  // ----- what does not set a timer leaves it alone

  /** `x` stays in memory with its timeout and context, closed or not. */
  ghost predicate Kept(f: Full, f': Full, x: SocketId) {
    x in f.st.socks ==>
      && x in f'.st.socks && f'.st.socks[x].timeout == f.st.socks[x].timeout
      && f'.st.socks[x].context == f.st.socks[x].context
  }

  lemma KeptTrans(f: Full, f': Full, f'': Full, x: SocketId)
    requires Kept(f, f', x) && Kept(f', f'', x)
    ensures Kept(f, f'', x)
  {
  }

  lemma CloseOneKept(f: Full, s: SocketId, x: SocketId)
    requires CanClose(f, s)
    ensures Kept(f, CloseOne(f, s), x)
  {
    if x in f.st.socks {
      CloseKeepsRecords(f.st, s, x);
    }
  }

  lemma OpenOneKept(f: Full, c: ContextId, x: SocketId)
    requires Good(f) && c in f.st.ctxs
    ensures Kept(f, OpenOne(f, c), x)
  {
    if x in f.st.socks {
      assert Located(f.st, f.sh, x);
      LinkKeepsRecords(f.st, c, x);
    }
  }

  lemma FieldsKept(f: Full, a: Action, x: SocketId)
    requires (a.Write? || a.Shutdown? || a.SetTimeout?) && !ResetsOne(a, x)
    ensures Kept(f, Exec(f, a), x)
  {
  }

  lemma {:induction false} ExecKept(f: Full, a: Action, x: SocketId)
    requires Good(f) && !ResetsOne(a, x)
    ensures Kept(f, Exec(f, a), x)
    decreases a
  {
    if a.Close? {
      if CanClose(f, a.s) {
        var f' := CloseOne(f, a.s);
        CloseOneKept(f, a.s, x);
        CloseOneKeepsGood(f, a.s);
        RunKept(f', a.onClose, x);
        KeptTrans(f, f', RunActions(f', a.onClose), x);
      }
    } else if a.Open? {
      if a.c in f.st.ctxs {
        OpenOneKept(f, a.c, x);
      }
    } else {
      FieldsKept(f, a, x);
    }
  }

  /** A callback that does not set a timeout leaves it running, whatever it closes. */
  lemma {:induction false} RunKept(f: Full, acts: seq<Action>, x: SocketId)
    requires Good(f) && !Resets(acts, x)
    ensures Kept(f, RunActions(f, acts), x)
    decreases acts
  {
    if acts != [] {
      var f' := Exec(f, acts[0]);
      ExecKept(f, acts[0], x);
      ExecKeepsGood(f, acts[0]);
      RunKept(f', acts[1..], x);
      KeptTrans(f, f', RunActions(f', acts[1..]), x);
    }
  }

  lemma RoundEndsKept(g: Full, s: SocketId, short: bool, x: SocketId)
    ensures Kept(g, RoundEnds(g, s, short), x)
  {
  }

  lemma WritableKept(f: Full, s: SocketId, acts: seq<Action>, x: SocketId)
    requires Good(f) && !Resets(acts, x)
    ensures Kept(f, WritableRound(f, s, acts), x)
  {
    var f0 := f.(lastWriteFailed := false);
    FlagKeepsGood(f, false);
    RunKept(f0, acts, x);
    RoundEndsKept(RunActions(f0, acts), s, ShortIn(f0, acts) != {}, x);
    KeptTrans(f0, RunActions(f0, acts), WritableRound(f, s, acts), x);
  }

  lemma StopReadingKept(f: Full, s: SocketId, x: SocketId)
    requires Good(f) && s in f.st.socks
    ensures var f' := SetSocket(f, s, f.st.socks[s].(readable := false)); Good(f') && Kept(f, f', x)
  {
    assert PollOk(f.st.socks[s], s in f.pending);
    SetSocketKeepsGood(f, s, f.st.socks[s].(readable := false), f.pending);
  }

  lemma ReadKept(f: Full, s: SocketId, e: Ready, x: SocketId)
    requires Good(f) && s in f.st.socks && !PollResets(e, x)
    ensures Kept(f, ReadRound(f, s, e.recv, e.onClose), x)
  {
    ExecKept(f, Close(s, e.onClose), x);
    match e.recv
    case Data(onData) => RunKept(f, onData, x);
    case EndOfStream(onEnd) =>
      StopReadingKept(f, s, x);
      var f' := SetSocket(f, s, f.st.socks[s].(readable := false));
      RunKept(f', onEnd, x);
      KeptTrans(f, f', RunActions(f', onEnd), x);
    case _ =>
  }

  lemma DispatchKept(f: Full, s: SocketId, e: Ready, x: SocketId)
    requires Good(f) && s in f.st.socks && !PollResets(e, x)
    ensures Kept(f, Dispatch(f, s, e), x)
  {
    if e.error {
      ExecKept(f, Close(s, e.onClose), x);
    } else if e.writable {
      WritableKeepsGood(f, s, e.onWritable);
      WritableKept(f, s, e.onWritable, x);
      var f1 := WritableRound(f, s, e.onWritable);
      if s in f1.st.socks && !IsClosed(f1.st, s) && e.readable {
        ReadKept(f1, s, e, x);
        KeptTrans(f, f1, ReadRound(f1, s, e.recv, e.onClose), x);
      }
    } else if e.readable {
      ReadKept(f, s, e, x);
    }
  }

  // ----- a sweep

  /** A sweep counts `x` down exactly if it visits it, and fires exactly if it visits it at one. */
  ghost predicate CountsDown(f: Full, r: Swept, x: SocketId)
    requires x in f.st.socks
  {
    var t := f.st.socks[x].timeout;
    && x in r.f.st.socks && r.f.st.socks[x].context == f.st.socks[x].context
    && r.f.st.socks[x].timeout == (if x in r.visited then Tick(t) else t)
    && (x in r.fired <==> x in r.visited && t == 1)
  }

  lemma VisitKept(f: Full, c: ContextId, s: SocketId, acts: seq<Action>, x: SocketId)
    requires Good(f) && c in f.st.ctxs && f.st.ctxs[c].cursor == Sock(s) && s in f.st.socks && x in f.st.socks
    requires f.st.socks[s].timeout == 1 ==> !Resets(acts, x)
    ensures var f' := Visit(f, c, s, acts); var t := f.st.socks[x].timeout;
            && x in f'.st.socks && f'.st.socks[x].context == f.st.socks[x].context
            && f'.st.socks[x].timeout == if x == s then Tick(t) else t
  {
    CursorSocket(f, c);
    CountedKeepsGood(f, s);
    if f.st.socks[s].timeout == 1 {
      RunKept(Counted(f, s), acts, x);
    }
  }

  lemma VisitThenSweep(f: Full, f': Full, s: SocketId, r: Swept, x: SocketId, q: Swept)
    requires x in f.st.socks && x in f'.st.socks && f'.st.socks[x].context == f.st.socks[x].context && s in f.st.socks
    requires var t := f.st.socks[x].timeout; f'.st.socks[x].timeout == if x == s then Tick(t) else t
    requires CountsDown(f', r, x) && (x == s ==> x !in r.visited)
    requires var fires := f.st.socks[s].timeout == 1;
             q == Swept(r.f, [s] + r.visited, if fires then [s] + r.fired else r.fired)
    ensures CountsDown(f, q, x)
  {
  }

  lemma {:induction false} SweepCountsDown(f: Full, c: ContextId, script: nat -> seq<Action>, i: nat, x: SocketId)
    requires Good(f) && c in f.st.ctxs && x in f.st.socks && NeverReset(script, x)
    ensures CountsDown(f, SweepFrom(f, c, script, i), x)
    decreases if c in f.sh.left then f.sh.left[c] else 0
  {
    var cursor := f.st.ctxs[c].cursor;
    if cursor.Sock? {
      var s := cursor.s;
      VisitStep(f, c, s, script(i));
      VisitKept(f, c, s, script(i), x);
      var f' := Visit(f, c, s, script(i));
      var j := if f.st.socks[s].timeout == 1 then i + 1 else i;
      SweepCountsDown(f', c, script, j, x);
      NotAgain(f, f', c, script, j, s);
      VisitThenSweep(f, f', s, SweepFrom(f', c, script, j), x, SweepFrom(f, c, script, i));
    }
  }

  lemma NotAgain(f: Full, f': Full, c: ContextId, script: nat -> seq<Action>, j: nat, s: SocketId)
    requires Good(f') && c in f'.st.ctxs
    requires c in f.sh.list && c in f.sh.left && f.sh.left[c] <= |f.sh.list[c]|
    requires c in f'.sh.list && c in f'.sh.left && f'.sh.left[c] <= |f'.sh.list[c]|
    requires Passed(f.sh.list[c], f.sh.left[c], f'.sh.list[c], f'.sh.left[c], s)
    ensures s !in SweepFrom(f', c, script, j).visited
  {
    SweepFromDone(f', c, script, j);
  }

  /** No callback of the sweep sets the timeout of `x` before the sweep gets to `x`. */
  ghost predicate QuietUntil(f: Full, c: ContextId, script: nat -> seq<Action>, i: nat, x: SocketId)
    requires Good(f) && c in f.st.ctxs
    decreases if c in f.sh.left then f.sh.left[c] else 0
  {
    var cursor := f.st.ctxs[c].cursor;
    if !cursor.Sock? || cursor.s == x then true
    else
      VisitStep(f, c, cursor.s, script(i));
      var f' := Visit(f, c, cursor.s, script(i));
      if f.st.socks[cursor.s].timeout == 1 then !Resets(script(i), x) && QuietUntil(f', c, script, i + 1, x)
      else QuietUntil(f', c, script, i, x)
  }

  lemma {:induction false} FiredIsVisited(f: Full, c: ContextId, script: nat -> seq<Action>, i: nat, x: SocketId)
    requires Good(f) && c in f.st.ctxs && x in SweepFrom(f, c, script, i).fired
    ensures x in SweepFrom(f, c, script, i).visited
    decreases if c in f.sh.left then f.sh.left[c] else 0
  {
    var cursor := f.st.ctxs[c].cursor;
    if cursor.Sock? {
      VisitStep(f, c, cursor.s, script(i));
      if cursor.s != x {
        var j := if f.st.socks[cursor.s].timeout == 1 then i + 1 else i;
        FiredIsVisited(Visit(f, c, cursor.s, script(i)), c, script, j, x);
      }
    }
  }

  /** Such a sweep fires at `x` exactly if it gets to it and one sweep was left, whatever its callback then does. */
  lemma {:induction false} SweepFires(f: Full, c: ContextId, script: nat -> seq<Action>, i: nat, x: SocketId)
    requires Good(f) && c in f.st.ctxs && x in f.st.socks && QuietUntil(f, c, script, i, x)
    ensures var r := SweepFrom(f, c, script, i); x in r.fired <==> x in r.visited && f.st.socks[x].timeout == 1
    decreases if c in f.sh.left then f.sh.left[c] else 0
  {
    var cursor := f.st.ctxs[c].cursor;
    if cursor.Sock? {
      var s := cursor.s;
      VisitStep(f, c, s, script(i));
      var f' := Visit(f, c, s, script(i));
      var j := if f.st.socks[s].timeout == 1 then i + 1 else i;
      if s == x {
        NotAgain(f, f', c, script, j, s);
        if x in SweepFrom(f', c, script, j).fired {
          FiredIsVisited(f', c, script, j, x);
        }
      } else {
        VisitKept(f, c, s, script(i), x);
        SweepFires(f', c, script, j, x);
      }
    }
  }

  // ----- one operation

  /** Nothing in `op` sets the timeout of `x` before a sweep gets to `x`; other operations may do what they like. */
  ghost predicate QuietOp(f: Full, op: Op, x: SocketId) {
    if op.Sweep? && Good(f) && op.c in f.st.ctxs then
      StartKeepsGood(f, op.c);
      QuietUntil(Start(f, op.c), op.c, op.script, 0, x)
    else true
  }

  /** Whether `op` is a sweep of the context of `x`. */
  predicate SweepsOver(f: Full, op: Op, x: SocketId) {
    op.Sweep? && x in f.st.socks && op.c == f.st.socks[x].context
  }

  /** Whether `op` is a sweep that gets to `x`. */
  ghost predicate GetsTo(f: Full, op: Op, x: SocketId)
    requires Good(f)
  {
    op.Sweep? && op.c in f.st.ctxs && x in SweepContext(f, op.c, op.script).visited
  }

  /** Whether `op` calls back because of the timeout of `x`. */
  ghost predicate Fires(f: Full, op: Op, x: SocketId)
    requires Good(f)
  {
    op.Sweep? && op.c in f.st.ctxs && x in SweepContext(f, op.c, op.script).fired
  }

  lemma ListedInContext(f: Full, x: SocketId)
    requires Good(f) && Open(f, x)
    ensures var c := f.st.socks[x].context; c in f.st.ctxs && c in f.sh.list && x in f.sh.list[c]
    ensures forall d :: d in f.st.ctxs && d != f.st.socks[x].context ==> d in f.sh.list && x !in f.sh.list[d]
  {
    assert Located(f.st, f.sh, x);
    forall d | d in f.st.ctxs && d != f.st.socks[x].context
      ensures d in f.sh.list && x !in f.sh.list[d]
    {
      if x in f.sh.list[d] {
        ListedIsOld(f, d, x);
      }
    }
  }

  /** Which sweeps get to an open socket. */
  lemma SweepGetsTo(f: Full, c: ContextId, script: nat -> seq<Action>, x: SocketId)
    requires Good(f) && Open(f, x) && c in f.st.ctxs
    ensures var r := SweepContext(f, c, script);
            && (x in r.visited ==> c == f.st.socks[x].context)
            && (Open(r.f, x) && c == f.st.socks[x].context ==> x in r.visited)
  {
    ListedInContext(f, x);
    SweepVisitsExactlyOnce(f, c, script);
    var r := SweepContext(f, c, script);
    if Open(r.f, x) {
      ListedInContext(r.f, x);
    }
  }

  lemma SweepTimer(f: Full, c: ContextId, script: nat -> seq<Action>, x: SocketId)
    requires Good(f) && x in f.st.socks && c in f.st.ctxs && NeverReset(script, x)
    ensures CountsDown(f, SweepContext(f, c, script), x)
  {
    StartKeepsGood(f, c);
    SweepCountsDown(Start(f, c), c, script, 0, x);
  }

  /** What firing takes. */
  lemma OpFires(f: Full, op: Op, x: SocketId)
    requires Good(f) && Open(f, x) && QuietOp(f, op, x)
    ensures Fires(f, op, x) <==> GetsTo(f, op, x) && f.st.socks[x].timeout == 1
    ensures GetsTo(f, op, x) ==> SweepsOver(f, op, x)
    ensures SweepsOver(f, op, x) && Open(StepOp(f, op), x) ==> GetsTo(f, op, x)
  {
    ListedInContext(f, x);
    if op.Sweep? && op.c in f.st.ctxs {
      StartKeepsGood(f, op.c);
      SweepFires(Start(f, op.c), op.c, op.script, 0, x);
      SweepGetsTo(f, op.c, op.script, x);
    }
  }

  /** What any operation that does not set the timer of `x` and leaves it open does to it. */
  lemma OpTicks(f: Full, op: Op, x: SocketId)
    requires Good(f) && Open(f, x) && LeavesTimer(op, x) && Open(StepOp(f, op), x)
    ensures var a, b := f.st.socks[x], StepOp(f, op).st.socks[x];
            && b.context == a.context
            && b.timeout == if SweepsOver(f, op, x) then Tick(a.timeout) else a.timeout
  {
    match op
    case Calls(acts) => RunKept(f, acts, x);
    case Poll(s, e) =>
      if s in f.st.socks {
        DispatchKept(f, s, e, x);
      }
    case Sweep(c, script) =>
      ListedInContext(f, x);
      if c in f.st.ctxs {
        SweepTimer(f, c, script, x);
        SweepGetsTo(f, c, script, x);
      }
    case Free =>
  }

  // ----- every run

  /** How many of the operations from `i` up to but not including `j` are sweeps of context `c`. */
  function SweepsOf(ops: seq<Op>, c: ContextId, i: nat, j: nat): (n: nat)
    requires i <= j <= |ops|
  {
    if i == j then 0 else SweepsOf(ops, c, i, j - 1) + if ops[j - 1].Sweep? && ops[j - 1].c == c then 1 else 0
  }

  /** As long as the socket stays open and its timeout is not set anew, a timer counts the sweeps of its context. */
  lemma {:induction false} TimerCountsSweeps(fs: seq<Full>, ops: seq<Op>, contexts: set<ContextId>, i: nat, j: nat,
      x: SocketId)
    requires IsRun(fs, ops, contexts) && i <= j <= |ops| && Open(fs[i], x) && Open(fs[j], x)
    requires forall k :: i <= k <= j ==> Open(fs[k], x)
    requires forall k :: i <= k < j ==> LeavesTimer(ops[k], x)
    ensures fs[j].st.socks[x].context == fs[i].st.socks[x].context
    ensures var t, n := fs[i].st.socks[x].timeout, SweepsOf(ops, fs[i].st.socks[x].context, i, j);
            fs[j].st.socks[x].timeout == if n < t then t - n else 0
  {
    if i < j {
      assert Open(fs[j - 1], x);
      TimerCountsSweeps(fs, ops, contexts, i, j - 1, x);
      TimerStep(fs, ops, contexts, j - 1, x);
    }
  }

  lemma TimerStep(fs: seq<Full>, ops: seq<Op>, contexts: set<ContextId>, k: nat, x: SocketId)
    requires IsRun(fs, ops, contexts) && k < |ops| && Open(fs[k], x) && Open(fs[k + 1], x) && LeavesTimer(ops[k], x)
    ensures var a, b := fs[k].st.socks[x], fs[k + 1].st.socks[x];
            && b.context == a.context
            && b.timeout == if ops[k].Sweep? && ops[k].c == a.context then Tick(a.timeout) else a.timeout
  {
    RunStaysGood(fs, ops, contexts, k);
    OpTicks(fs[k], ops[k], x);
  }

  /**
   So it fires in exactly one operation: the sweep of its context that uses the timeout up, if that
   sweep gets to the socket before a callback of another socket closes it or sets its timeout. What the
   socket's own callback does then, closing it or setting its timeout again, does not matter.
   */
  lemma FiresExactlyAt(fs: seq<Full>, ops: seq<Op>, contexts: set<ContextId>, i: nat, j: nat, x: SocketId)
    requires IsRun(fs, ops, contexts) && i <= j < |ops| && Open(fs[i], x) && Open(fs[j], x)
    requires forall k :: i <= k <= j ==> Open(fs[k], x)
    requires QuietOp(fs[j], ops[j], x) && forall k :: i <= k < j ==> LeavesTimer(ops[k], x)
    ensures Good(fs[j])
    ensures var c := fs[i].st.socks[x].context;
            Fires(fs[j], ops[j], x) <==>
            GetsTo(fs[j], ops[j], x) && SweepsOf(ops, c, i, j + 1) == fs[i].st.socks[x].timeout
    ensures GetsTo(fs[j], ops[j], x) ==> ops[j].Sweep? && ops[j].c == fs[i].st.socks[x].context
    ensures ops[j].Sweep? && ops[j].c == fs[i].st.socks[x].context && Open(fs[j + 1], x) ==> GetsTo(fs[j], ops[j], x)
  {
    RunStaysGood(fs, ops, contexts, j);
    TimerCountsSweeps(fs, ops, contexts, i, j, x);
    OpFires(fs[j], ops[j], x);
  }

  /**
   In every run: from any state in which the counter of `x` is that of a timeout of 1 to 262141
   seconds, and as long as `x` stays open and its timeout is not set anew, operation `j` fires exactly
   when it is the max(1, floor((s + 2) / 4))-th sweep of its context since and gets to `x`.
   */
  lemma TimeoutFires(fs: seq<Full>, ops: seq<Op>, contexts: set<ContextId>, i: nat, j: nat, x: SocketId, seconds: nat)
    requires IsRun(fs, ops, contexts) && i <= j < |ops| && Open(fs[i], x) && Open(fs[j], x)
    requires forall k :: i <= k <= j ==> Open(fs[k], x)
    requires 1 <= seconds <= 262141 && fs[i].st.socks[x].timeout == TimeoutSweeps(seconds)
    requires QuietOp(fs[j], ops[j], x) && forall k :: i <= k < j ==> LeavesTimer(ops[k], x)
    ensures Good(fs[j])
    ensures var c, n := fs[i].st.socks[x].context, (seconds + 2) / 4;
            Fires(fs[j], ops[j], x) <==>
            GetsTo(fs[j], ops[j], x) && SweepsOf(ops, c, i, j + 1) == if n == 0 then 1 else n
    ensures ops[j].Sweep? && ops[j].c == fs[i].st.socks[x].context && Open(fs[j + 1], x) ==> GetsTo(fs[j], ops[j], x)
  {
    SweepsForTimeout(seconds);
    FiresExactlyAt(fs, ops, contexts, i, j, x);
  }

  /** A callback that ends with setting the timeout of an open socket leaves it at that many sweeps. */
  lemma {:induction false} LastCallSetsTimer(f: Full, acts: seq<Action>, x: SocketId, seconds: nat)
    requires x in RunActions(f, acts).st.socks
    ensures var f' := RunActions(f, acts + [SetTimeout(x, seconds)]);
            x in f'.st.socks && f'.st.socks[x].timeout == TimeoutSweeps(seconds)
    decreases acts
  {
    var last := [SetTimeout(x, seconds)];
    if acts == [] {
      assert acts + last == last && last[1..] == [];
      assert RunActions(Exec(f, last[0]), last[1..]) == Exec(f, last[0]);
    } else {
      assert (acts + last)[1..] == acts[1..] + last;
      LastCallSetsTimer(Exec(f, acts[0]), acts[1..], x, seconds);
    }
  }

  // ----- the clock

  /**
   In every run in which the sweeps of the context of `x` come every 4 seconds, the first of them `d`
   seconds (0 < d <= 4) after time `t0` of state `i`, a timeout of `seconds` that fires does so more
   than `seconds - 5` and at most `seconds + 3` seconds after `t0`. `times[k]` is when operation `k` is.
   */
  lemma FiresInTime(fs: seq<Full>, ops: seq<Op>, contexts: set<ContextId>, i: nat, j: nat, x: SocketId, seconds: nat,
      times: seq<real>, t0: real, d: real)
    requires IsRun(fs, ops, contexts) && i <= j < |ops| && Open(fs[i], x) && Open(fs[j], x)
    requires forall k :: i <= k <= j ==> Open(fs[k], x)
    requires 1 <= seconds <= 262141 && fs[i].st.socks[x].timeout == TimeoutSweeps(seconds)
    requires QuietOp(fs[j], ops[j], x) && forall k :: i <= k < j ==> LeavesTimer(ops[k], x)
    requires |times| == |ops| && 0.0 < d <= 4.0 && EveryFourSeconds(ops, times, fs[i].st.socks[x].context, i, t0, d)
    ensures Good(fs[j])
    ensures Fires(fs[j], ops[j], x) ==> seconds as real - 5.0 < times[j] - t0 <= seconds as real + 3.0
  {
    FiresExactlyAt(fs, ops, contexts, i, j, x);
    ElapsedTime(seconds, d);
  }

  /** From operation `i` on the sweeps of context `c` come at `t0 + d`, `t0 + d + 4` and so on. */
  ghost predicate EveryFourSeconds(ops: seq<Op>, times: seq<real>, c: ContextId, i: nat, t0: real, d: real)
    requires |times| == |ops|
  {
    forall k :: i <= k < |ops| && ops[k].Sweep? && ops[k].c == c ==>
                  times[k] == t0 + d + 4.0 * (SweepsOf(ops, c, i, k + 1) - 1) as real
  }

  // ----- a whole sweep

  /** The socket is visited in one of the first `k` turns. */
  ghost predicate SeenBy(rs: seq<Swept>, x: SocketId, k: nat)
    requires k <= |rs|
  {
    exists i :: 0 <= i < k && x in rs[i].visited
  }

  /** Its timeout fires in one of the first `k` turns. */
  ghost predicate FiredBy(rs: seq<Swept>, x: SocketId, k: nat)
    requires k <= |rs|
  {
    exists i :: 0 <= i < k && x in rs[i].fired
  }

  lemma OneTurnMore(rs: seq<Swept>, x: SocketId, k: nat)
    requires 0 < k <= |rs|
    ensures SeenBy(rs, x, k) <==> SeenBy(rs, x, k - 1) || x in rs[k - 1].visited
    ensures FiredBy(rs, x, k) <==> FiredBy(rs, x, k - 1) || x in rs[k - 1].fired
  {
  }

  /** What one turn of the outer loop does to the timer of `x`. */
  ghost predicate TurnOk(f: Full, r: Swept, f': Full, x: SocketId) {
    x in f.st.socks ==>
      var a := f.st.socks[x];
      && x in f'.st.socks && f'.st.socks[x].context == a.context
      && f'.st.socks[x].timeout == (if x in r.visited then Tick(a.timeout) else a.timeout)
      && (x in r.fired <==> x in r.visited && a.timeout == 1)
  }

  ghost predicate Turns(fs: seq<Full>, rs: seq<Swept>, x: SocketId) {
    && |fs| == |rs| + 1 && (forall k :: 0 <= k < |rs| ==> TurnOk(fs[k], rs[k], fs[k + 1], x))
    && forall i, j :: 0 <= i < j < |rs| && x in rs[i].visited ==> x !in rs[j].visited
  }

  lemma TurnTimer(f: Full, c: ContextId, script: nat -> seq<Action>, r: Swept, f': Full, x: SocketId)
    requires LoopStep(f, c, script, r, f') && NeverReset(script, x)
    ensures TurnOk(f, r, f', x)
  {
    if x in f.st.socks {
      SweepTimer(f, c, script, x);
    }
  }

  lemma LoopTurns(fs: seq<Full>, cs: seq<ContextId>, scripts: ContextId -> nat -> seq<Action>, rs: seq<Swept>,
      x: SocketId)
    requires LoopSweep(fs, cs, scripts, rs) && forall c :: NeverReset(scripts(c), x)
    ensures Turns(fs, rs, x)
  {
    WholeSweepNeverTwice(fs, cs, scripts, rs);
    forall k | 0 <= k < |rs|
      ensures TurnOk(fs[k], rs[k], fs[k + 1], x)
    {
      TurnTimer(fs[k], cs[k], scripts(cs[k]), rs[k], fs[k + 1], x);
    }
  }

  lemma {:induction false} WholeSweepTimer(fs: seq<Full>, rs: seq<Swept>, x: SocketId, k: nat)
    requires Turns(fs, rs, x) && k <= |rs| && x in fs[0].st.socks
    ensures var t := fs[0].st.socks[x].timeout;
            && x in fs[k].st.socks && fs[k].st.socks[x].context == fs[0].st.socks[x].context
            && fs[k].st.socks[x].timeout == (if SeenBy(rs, x, k) then Tick(t) else t)
            && (FiredBy(rs, x, k) <==> SeenBy(rs, x, k) && t == 1)
  {
    if k > 0 {
      WholeSweepTimer(fs, rs, x, k - 1);
      assert TurnOk(fs[k - 1], rs[k - 1], fs[k], x);
      OneTurnMore(rs, x, k);
    }
  }

  /**
   A whole sweep in which no callback sets the timeout of `x` counts it down by one exactly if it gets
   to `x`, and then fires exactly when one sweep was left. It gets to `x` if `x` is open before and
   after and its context is swept.
   */
  lemma WholeSweepTicks(fs: seq<Full>, cs: seq<ContextId>, scripts: ContextId -> nat -> seq<Action>, rs: seq<Swept>,
      x: SocketId)
    requires LoopSweep(fs, cs, scripts, rs) && x in fs[0].st.socks && forall c :: NeverReset(scripts(c), x)
    ensures var t, n := fs[0].st.socks[x].timeout, |cs|;
            && x in fs[n].st.socks && fs[n].st.socks[x].timeout == (if SeenBy(rs, x, n) then Tick(t) else t)
            && (FiredBy(rs, x, n) <==> SeenBy(rs, x, n) && t == 1)
            && (Open(fs[0], x) && Open(fs[n], x) && fs[0].st.socks[x].context in cs ==> SeenBy(rs, x, n))
  {
    var n := |cs|;
    LoopTurns(fs, cs, scripts, rs, x);
    WholeSweepTimer(fs, rs, x, n);
    if Open(fs[0], x) && Open(fs[n], x) && fs[0].st.socks[x].context in cs {
      EndsGood(fs, cs, scripts, rs);
      ListedInContext(fs[0], x);
      ListedInContext(fs[n], x);
      var i :| 0 <= i < n && cs[i] == fs[0].st.socks[x].context;
      WholeSweepVisits(fs, cs, scripts, rs, i, x);
    }
  }

  lemma EndsGood(fs: seq<Full>, cs: seq<ContextId>, scripts: ContextId -> nat -> seq<Action>, rs: seq<Swept>)
    requires LoopSweep(fs, cs, scripts, rs) && cs != []
    ensures Good(fs[0]) && Good(fs[|cs|])
  {
    var l := |cs| - 1;
    assert LoopStep(fs[0], cs[0], scripts(cs[0]), rs[0], fs[1]);
    assert LoopStep(fs[l], cs[l], scripts(cs[l]), rs[l], fs[l + 1]);
    SweepVisitsExactlyOnce(fs[l], cs[l], scripts(cs[l]));
  }
}
