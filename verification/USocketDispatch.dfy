/**
 Dispatching a ready socket, freeing closed ones (SocketExams/uSockets/src/loop.c, lines 115-126 and
 189-236), and what holds over every run of the loop.
 */
module USocketDispatch {
  import opened USocketLists
  import opened USocketLoop
  import opened USocketEvents
  import opened USocketSweep

  // ----- freeing

  function FreedEntries(l: seq<SocketId>): (r: seq<Entry>)
    ensures |r| == |l| && forall i :: 0 <= i < |l| ==> r[i] == Freed(l[i])
  {
    if l == [] then [] else [Freed(l[0])] + FreedEntries(l[1..])
  }

  /** `us_internal_free_closed_sockets` (loop.c, lines 115-126). */
  function FreeAll(f: Full): (f': Full) {
    f.(st := State(f.st.socks - (set s | s in f.sh.closed), f.st.ctxs, Null, f.st.nextId),
       sh := f.sh.(closed := []), log := f.log + FreedEntries(f.sh.closed))
  }

  lemma FreeKeepsLog(f: Full)
    requires Good(f)
    ensures LogOk(FreeAll(f).log)
  {
    var e := FreedEntries(f.sh.closed);
    forall i, j | 0 <= i < j < |f.log + e|
      ensures MayFollow((f.log + e)[i], (f.log + e)[j])
    {
      if j >= |f.log| {
        var s := f.sh.closed[j - |f.log|];
        assert (f.log + e)[j] == Freed(s);
        ClosedMembers(f.st.socks, f.sh.closed, s);
        assert s in f.st.socks;
        assert Freed(s) !in f.log;
        assert i < |f.log| ==> f.log[i] in f.log;
      }
    }
  }

  lemma FreeKeepsTied(f: Full)
    requires Good(f)
    ensures var f' := FreeAll(f); Tied(f'.log, f'.st, f'.sh)
  {
    var f', e := FreeAll(f), FreedEntries(f.sh.closed);
    forall s: SocketId
      ensures OnClose(s) in f'.log <==> s < f'.st.nextId && (s !in f'.st.socks || s in f'.sh.closed)
      ensures Freed(s) in f'.log <==> s < f'.st.nextId && s !in f'.st.socks
    {
      assert OnClose(s) in f'.log <==> OnClose(s) in f.log;
      if s in f.sh.closed {
        ClosedMembers(f.st.socks, f.sh.closed, s);
        assert Located(f.st, f.sh, s);
        var i :| 0 <= i < |f.sh.closed| && f.sh.closed[i] == s;
        assert e[i] == Freed(s);
      }
      assert Freed(s) in e ==> s in f.sh.closed;
      assert Freed(s) in f'.log <==> Freed(s) in f.log || Freed(s) in e;
    }
  }

  /** Freeing the closed sockets keeps the loop in order. */
  lemma FreeKeepsGood(f: Full)
    requires Good(f)
    ensures Good(FreeAll(f))
  {
    FreeRefines(f.st, f.sh, FreeAll(f).st);
    FreeKeepsLog(f);
    FreeKeepsTied(f);
  }

  /** Every socket ever linked is in exactly one place: one context's list, the closed list, or freed. */
  lemma ExactlyOnePlace(f: Full, s: SocketId)
    requires Good(f) && s < f.st.nextId
    ensures (s in f.sh.closed) == (s in f.st.socks && IsClosed(f.st, s))
    ensures s in f.st.socks ==>
              f.st.socks[s].context in f.sh.list && (s in f.sh.list[f.st.socks[s].context] <==> s !in f.sh.closed)
    ensures forall c :: c in f.sh.list && s in f.sh.list[c] ==> s in f.st.socks && f.st.socks[s].context == c
    ensures Freed(s) in f.log <==> s !in f.st.socks
    ensures OnClose(s) in f.log <==> s !in f.st.socks || s in f.sh.closed
  {
    if s in f.sh.closed {
      ClosedMembers(f.st.socks, f.sh.closed, s);
    }
    if s in f.st.socks {
      IsClosedExactly(f.st, f.sh, s);
      assert Located(f.st, f.sh, s);
    }
    forall c | c in f.sh.list && s in f.sh.list[c]
      ensures s in f.st.socks && f.st.socks[s].context == c
    {
      ListedIsOld(f, c, s);
    }
  }

  // ----- dispatching

  /** What `bsd_recv` finds, and what the callback it leads to does. */
  datatype Recv = Data(onData: seq<Action>) | EndOfStream(onEnd: seq<Action>) | WouldBlock | RecvError

  /** A ready poll: an error, or the events that are ready and what the callbacks do. */
  datatype Ready = Ready(error: bool, writable: bool, readable: bool, onWritable: seq<Action>, recv: Recv,
      onClose: seq<Action>)

  /**
   Lines 206-213: after `on_writable`, stop polling for WRITABLE unless the flag says that a write
   failed. The write that `s` owes is made good by a round in which no write fell short, whatever the
   flag says.
   */
  function RoundEnds(g: Full, s: SocketId, short: bool): (f': Full) {
    if s !in g.st.socks || IsClosed(g.st, s) then g
    else
      var g1 := g.(pending := if short then g.pending else g.pending - {s});
      if !g.lastWriteFailed || g.st.socks[s].shutDown then SetSocket(g1, s, g.st.socks[s].(writable := false)) else g1
  }

  /** Lines 200-214: the `on_writable` round. */
  function WritableRound(f: Full, s: SocketId, acts: seq<Action>): (f': Full) {
    var f0 := f.(lastWriteFailed := false);
    RoundEnds(RunActions(f0, acts), s, ShortIn(f0, acts) != {})
  }

  /** Lines 216-231. */
  function ReadRound(f: Full, s: SocketId, recv: Recv, onClose: seq<Action>): (f': Full)
    requires s in f.st.socks
  {
    match recv
    case Data(onData) => RunActions(f, onData)
    case EndOfStream(onEnd) =>
      if f.st.socks[s].shutDown then Exec(f, Close(s, onClose))
      else RunActions(SetSocket(f, s, f.st.socks[s].(readable := false)), onEnd)
    case WouldBlock => f
    case RecvError => Exec(f, Close(s, onClose))
  }

  /** The SOCKET and SOCKET_SHUT_DOWN cases of `us_internal_dispatch_ready_poll` (lines 189-236). */
  function Dispatch(f: Full, s: SocketId, e: Ready): (f': Full)
    requires s in f.st.socks
  {
    if e.error then Exec(f, Close(s, e.onClose))
    else
      var f1 := if e.writable then WritableRound(f, s, e.onWritable) else f;
      if s !in f1.st.socks || (e.writable && IsClosed(f1.st, s)) || !e.readable then f1
      else ReadRound(f1, s, e.recv, e.onClose)
  }

  /** A new value of the flag. */
  lemma FlagKeepsGood(f: Full, b: bool)
    requires Good(f)
    ensures Good(f.(lastWriteFailed := b))
  {
  }

  lemma StopWriting(g: Full, s: SocketId, pending: set<SocketId>)
    requires Good(g) && s in g.st.socks && pending <= g.pending && g.pending - {s} <= pending
    requires s in pending ==> g.st.socks[s].shutDown
    ensures Good(SetSocket(g, s, g.st.socks[s].(writable := false)).(pending := pending))
  {
    FieldsKeepRepr(g.st, g.sh, g.st.socks[s := g.st.socks[s].(writable := false)]);
  }

  lemma RoundEndsKeepsGood(g: Full, s: SocketId, short: bool)
    requires Good(g) && g.lastWriteFailed == short
    ensures Good(RoundEnds(g, s, short))
  {
    if s in g.st.socks && !IsClosed(g.st, s) {
      if !short || g.st.socks[s].shutDown {
        StopWriting(g, s, if short then g.pending else g.pending - {s});
      } else {
        assert g.(pending := g.pending) == g;
      }
    }
  }

  /** The round is sound because the flag follows the writes. */
  lemma WritableKeepsGood(f: Full, s: SocketId, acts: seq<Action>)
    requires Good(f)
    ensures Good(WritableRound(f, s, acts))
  {
    var f0 := f.(lastWriteFailed := false);
    FlagKeepsGood(f, false);
    RunKeepsGood(f0, acts);
    FlagFollowsWrites(f0, acts);
    RoundEndsKeepsGood(RunActions(f0, acts), s, ShortIn(f0, acts) != {});
  }

  lemma ReadKeepsGood(f: Full, s: SocketId, recv: Recv, onClose: seq<Action>)
    requires Good(f) && s in f.st.socks
    ensures Good(ReadRound(f, s, recv, onClose))
  {
    match recv
    case Data(onData) => RunKeepsGood(f, onData);
    case EndOfStream(onEnd) =>
      if f.st.socks[s].shutDown {
        ExecKeepsGood(f, Close(s, onClose));
      } else {
        assert PollOk(f.st.socks[s], s in f.pending);
        SetSocketKeepsGood(f, s, f.st.socks[s].(readable := false), f.pending);
        RunKeepsGood(SetSocket(f, s, f.st.socks[s].(readable := false)), onEnd);
      }
    case WouldBlock =>
    case RecvError => ExecKeepsGood(f, Close(s, onClose));
  }

  /** Dispatching a ready poll keeps the loop in order: no owed write is forgotten. */
  lemma DispatchKeepsGood(f: Full, s: SocketId, e: Ready)
    requires Good(f) && s in f.st.socks
    ensures Good(Dispatch(f, s, e))
  {
    if e.error {
      ExecKeepsGood(f, Close(s, e.onClose));
    } else {
      if e.writable {
        WritableKeepsGood(f, s, e.onWritable);
      }
      var f1 := if e.writable then WritableRound(f, s, e.onWritable) else f;
      if !(s !in f1.st.socks || (e.writable && IsClosed(f1.st, s)) || !e.readable) {
        ReadKeepsGood(f1, s, e.recv, e.onClose);
      }
    }
  }

  // ----- every run

  /** What the loop does next: calls from outside callbacks, a ready poll, a context's sweep, or freeing. */
  datatype Op =
    | Calls(acts: seq<Action>)
    | Poll(s: SocketId, e: Ready)
    | Sweep(c: ContextId, script: nat -> seq<Action>)
    | Free

  ghost function StepOp(f: Full, op: Op): (f': Full)
    requires Good(f)
  {
    match op
    case Calls(acts) => RunActions(f, acts)
    case Poll(s, e) => if s in f.st.socks then Dispatch(f, s, e) else f
    case Sweep(c, script) => if c in f.st.ctxs then SweepContext(f, c, script).f else f
    case Free => FreeAll(f)
  }

  lemma StepKeepsGood(f: Full, op: Op)
    requires Good(f)
    ensures Good(StepOp(f, op))
  {
    match op
    case Calls(acts) => RunKeepsGood(f, acts);
    case Poll(s, e) =>
      if s in f.st.socks {
        DispatchKeepsGood(f, s, e);
      }
    case Sweep(c, script) =>
      if c in f.st.ctxs {
        SweepVisitsExactlyOnce(f, c, script);
      }
    case Free => FreeKeepsGood(f);
  }

  /** A loop with empty contexts. */
  function Init(contexts: set<ContextId>): (f: Full) {
    Full(State(map[], map c | c in contexts :: Context(Null, Null), Null, 0), false,
         Shape(map c | c in contexts :: [], map c | c in contexts :: 0, []), [], {})
  }

  lemma InitGood(contexts: set<ContextId>)
    ensures Good(Init(contexts))
  {
    var f := Init(contexts);
    forall c | c in f.st.ctxs
      ensures CtxOk(f.st, f.sh, c)
    {
    }
  }

  /** `fs` are the states of a run of the operations `ops` from the empty loop. */
  ghost predicate IsRun(fs: seq<Full>, ops: seq<Op>, contexts: set<ContextId>) {
    && |fs| == |ops| + 1 && fs[0] == Init(contexts)
    && forall i :: 0 <= i < |ops| ==> Good(fs[i]) ==> fs[i + 1] == StepOp(fs[i], ops[i])
  }

  /** Every state of every run is in order. */
  lemma {:induction false} RunStaysGood(fs: seq<Full>, ops: seq<Op>, contexts: set<ContextId>, i: nat)
    requires IsRun(fs, ops, contexts) && i <= |ops|
    ensures Good(fs[i])
  {
    if i == 0 {
      InitGood(contexts);
    } else {
      RunStaysGood(fs, ops, contexts, i - 1);
      StepKeepsGood(fs[i - 1], ops[i - 1]);
    }
  }

  /**
   In every state of every run a socket ever linked is in exactly one of one context's list, the closed list, freed.
   */
  lemma OnePlaceInEveryRun(fs: seq<Full>, ops: seq<Op>, contexts: set<ContextId>, i: nat, s: SocketId)
    requires IsRun(fs, ops, contexts) && i <= |ops| && s < fs[i].st.nextId
    ensures var f := fs[i];
            && (s in f.sh.closed <==> s in f.st.socks && IsClosed(f.st, s))
            && (s in f.st.socks && s !in f.sh.closed <==> exists c :: c in f.sh.list && s in f.sh.list[c])
            && (forall c, d :: c in f.sh.list && d in f.sh.list && s in f.sh.list[c] && s in f.sh.list[d] ==> c == d)
            && (Freed(s) in f.log <==> s !in f.st.socks)
            && (OnClose(s) in f.log <==> s !in f.st.socks || s in f.sh.closed)
  {
    RunStaysGood(fs, ops, contexts, i);
    ExactlyOnePlace(fs[i], s);
    var f := fs[i];
    if s in f.st.socks && s !in f.sh.closed {
      var c := f.st.socks[s].context;
      assert c in f.sh.list && s in f.sh.list[c];
    }
  }

  /** In every run no visit follows the socket's close, `on_close` runs once at most, and so does the freeing. */
  lemma OnceInEveryRun(fs: seq<Full>, ops: seq<Op>, contexts: set<ContextId>, i: nat, s: SocketId, j: nat, k: nat)
    requires IsRun(fs, ops, contexts) && i <= |ops| && j < k < |fs[i].log|
    ensures var log := fs[i].log;
            && (log[j] == OnClose(s) ==> log[k] != Visited(s) && log[k] != OnClose(s))
            && (log[j] == Freed(s) ==> log[k] != Visited(s) && log[k] != OnClose(s) && log[k] != Freed(s))
  {
    RunStaysGood(fs, ops, contexts, i);
    LogMeaning(fs[i], s, j, k);
  }

  // ----- a socket linked during a sweep and visited by it

  /** When the only socket of context `c` times out and its callback links a new socket into context `d`. */
  lemma LinkedByTimeout(f: Full, c: ContextId, d: ContextId, x: SocketId, script: nat -> seq<Action>)
    requires Good(f) && c in f.st.ctxs && d in f.st.ctxs && c != d && c in f.sh.list && f.sh.list[c] == [x]
    requires x in f.st.socks && f.st.socks[x].timeout == 1 && script(0) == [Open(d)]
    ensures var f' := SweepContext(f, c, script).f;
            && Good(f') && d in f'.st.ctxs && d in f.sh.list && d in f'.sh.list
            && f'.sh.list[d] == [f.st.nextId] + f.sh.list[d]
  {
    SweepVisitsExactlyOnce(f, c, script);
    StartKeepsGood(f, c);
    var f0 := Start(f, c);
    CursorSocket(f0, c);
    VisitStep(f0, c, x, script(0));
    var f1 := Visit(f0, c, x, script(0));
    CursorSocket(f1, c);
    assert SweepFrom(f1, c, script, 1).f == f1;
    assert SweepContext(f, c, script).f == f1;
    CountedKeepsGood(f0, x);
    OpensOne(Counted(f0, x), d);
  }

  lemma OpensOne(f: Full, d: ContextId)
    requires d in f.st.ctxs
    ensures RunActions(f, [Open(d)]) == OpenOne(f, d)
  {
    var acts := [Open(d)];
    assert acts[1..] == [];
    assert RunActions(f, acts) == RunActions(Exec(f, acts[0]), acts[1..]);
  }

  lemma FirstIsVisited(f: Full, d: ContextId, s: SocketId, script: nat -> seq<Action>)
    requires Good(f) && d in f.st.ctxs && d in f.sh.list && f.sh.list[d] != [] && f.sh.list[d][0] == s
    ensures s in SweepContext(f, d, script).visited
  {
    StartKeepsGood(f, d);
    CursorSocket(Start(f, d), d);
    VisitStep(Start(f, d), d, s, script(0));
  }

  /** Any operations make a run. */
  lemma {:induction false} RunOf(ops: seq<Op>, contexts: set<ContextId>) returns (fs: seq<Full>)
    ensures IsRun(fs, ops, contexts)
  {
    if ops == [] {
      fs := [Init(contexts)];
    } else {
      var n := |ops| - 1;
      var front := RunOf(ops[..n], contexts);
      RunStaysGood(front, ops[..n], contexts, n);
      fs := front + [StepOp(front[n], ops[n])];
      forall i | 0 <= i < |ops| && Good(fs[i])
        ensures fs[i + 1] == StepOp(fs[i], ops[i])
      {
        assert i < n ==> front[i + 1] == StepOp(front[i], ops[..n][i]);
      }
    }
  }

  /** A run of the loop with contexts 1 and 2 in which the sweep of 2 visits a socket that the sweep of 1 has linked. */
  lemma LinkedMeanwhileVisited(script: nat -> seq<Action>) returns (fs: seq<Full>, ops: seq<Op>)
    requires script(0) == [Open(2)]
    ensures ops == [Calls([Open(1), SetTimeout(0, 1)]), Sweep(1, script), Sweep(2, script)]
    ensures IsRun(fs, ops, {1, 2}) && Good(fs[2]) && 2 in fs[2].st.ctxs
    ensures fs[1].st.nextId in SweepContext(fs[2], 2, script).visited
  {
    ops := [Calls([Open(1), SetTimeout(0, 1)]), Sweep(1, script), Sweep(2, script)];
    fs := RunOf(ops, {1, 2});
    RunStaysGood(fs, ops, {1, 2}, 0);
    RunStaysGood(fs, ops, {1, 2}, 1);
    RunStaysGood(fs, ops, {1, 2}, 2);
    OpensWithTimeout(fs[0]);
    assert fs[1] == StepOp(fs[0], ops[0]) && fs[2] == StepOp(fs[1], ops[1]);
    SecondTurn(fs[1], fs[2], script);
  }

  lemma SecondTurn(f1: Full, f2: Full, script: nat -> seq<Action>)
    requires Good(f1) && f1.st.ctxs.Keys == {1, 2} && 1 in f1.sh.list && f1.sh.list[1] == [0]
    requires 0 in f1.st.socks && f1.st.socks[0].timeout == 1 && script(0) == [Open(2)]
    requires f2 == StepOp(f1, Sweep(1, script))
    ensures Good(f2) && 2 in f2.st.ctxs && f1.st.nextId in SweepContext(f2, 2, script).visited
  {
    assert 1 in f1.st.ctxs && 2 in f1.st.ctxs;
    LinkedByTimeout(f1, 1, 2, 0, script);
    FirstIsVisited(f2, 2, f1.st.nextId, script);
  }

  lemma OpensWithTimeout(f: Full)
    requires f == Init({1, 2})
    ensures var f' := RunActions(f, [Open(1), SetTimeout(0, 1)]);
            && f'.st.ctxs.Keys == {1, 2} && 1 in f'.sh.list && f'.sh.list[1] == [0] && 0 in f'.st.socks
            && f'.st.socks[0].timeout == 1
  {
    var acts := [Open(1), SetTimeout(0, 1)];
    var f1 := Exec(f, acts[0]);
    assert f1 == OpenOne(f, 1);
    var f2 := Exec(f1, acts[1]);
    assert acts[1..] == [SetTimeout(0, 1)] && acts[1..][1..] == [];
    assert RunActions(f, acts) == RunActions(f1, acts[1..]) == RunActions(f2, []) == f2;
    SweepsForTimeout(1);
  }

  /** In every state of every run the sockets that the loop holds to owe a write poll for it. */
  lemma PendingPolls(fs: seq<Full>, ops: seq<Op>, contexts: set<ContextId>, i: nat, s: SocketId)
    requires IsRun(fs, ops, contexts) && i <= |ops| && s in fs[i].st.socks
    ensures s in fs[i].pending && !fs[i].st.socks[s].shutDown && !IsClosed(fs[i].st, s) ==> fs[i].st.socks[s].writable
    ensures fs[i].st.socks[s].shutDown ==> !fs[i].st.socks[s].writable
  {
    RunStaysGood(fs, ops, contexts, i);
    assert PollOk(fs[i].st.socks[s], s in fs[i].pending);
  }

  /** The log and the numbers grow, and `s` stays shut down as long as it is in memory. */
  ghost predicate Later(f: Full, f': Full, s: SocketId) {
    && f.log <= f'.log && f.st.nextId <= f'.st.nextId
    && (s in f.st.socks && s in f'.st.socks && f.st.socks[s].shutDown ==> f'.st.socks[s].shutDown)
  }

  lemma ContinuesLater(f: Full, f': Full, s: SocketId)
    requires Continues(f, f')
    ensures Later(f, f', s) && (s in f.st.socks ==> s in f'.st.socks)
  {
  }

  lemma WritableLater(f: Full, s: SocketId, acts: seq<Action>, x: SocketId)
    requires Good(f)
    ensures Later(f, WritableRound(f, s, acts), x) && (x in f.st.socks ==> x in WritableRound(f, s, acts).st.socks)
  {
    var f0 := f.(lastWriteFailed := false);
    FlagKeepsGood(f, false);
    RunKeepsGood(f0, acts);
    ContinuesLater(f0, RunActions(f0, acts), x);
    RoundEndsLater(RunActions(f0, acts), s, ShortIn(f0, acts) != {}, x);
    LaterTrans(f0, RunActions(f0, acts), WritableRound(f, s, acts), x);
  }

  lemma RoundEndsLater(g: Full, s: SocketId, short: bool, x: SocketId)
    ensures Later(g, RoundEnds(g, s, short), x) && RoundEnds(g, s, short).st.socks.Keys == g.st.socks.Keys
  {
  }

  lemma CloseLater(f: Full, s: SocketId, onClose: seq<Action>, x: SocketId)
    requires Good(f)
    ensures Later(f, Exec(f, Close(s, onClose)), x)
  {
    ExecKeepsGood(f, Close(s, onClose));
    ContinuesLater(f, Exec(f, Close(s, onClose)), x);
  }

  lemma CallsLater(f: Full, acts: seq<Action>, x: SocketId)
    requires Good(f)
    ensures Later(f, RunActions(f, acts), x)
  {
    RunKeepsGood(f, acts);
    ContinuesLater(f, RunActions(f, acts), x);
  }

  lemma ReadLater(f: Full, s: SocketId, recv: Recv, onClose: seq<Action>, x: SocketId)
    requires Good(f) && s in f.st.socks
    ensures Later(f, ReadRound(f, s, recv, onClose), x)
  {
    CloseLater(f, s, onClose, x);
    match recv
    case Data(onData) => CallsLater(f, onData, x);
    case EndOfStream(onEnd) =>
      assert PollOk(f.st.socks[s], s in f.pending);
      SetSocketKeepsGood(f, s, f.st.socks[s].(readable := false), f.pending);
      CallsLater(SetSocket(f, s, f.st.socks[s].(readable := false)), onEnd, x);
    case _ =>
  }

  lemma LaterTrans(f: Full, f': Full, f'': Full, s: SocketId)
    requires Later(f, f', s) && Later(f', f'', s) && (s in f.st.socks ==> s in f'.st.socks)
    ensures Later(f, f'', s)
  {
  }

  lemma DispatchLater(f: Full, s: SocketId, e: Ready, x: SocketId)
    requires Good(f) && s in f.st.socks
    ensures Later(f, Dispatch(f, s, e), x)
  {
    if e.error {
      CloseLater(f, s, e.onClose, x);
    } else if e.writable {
      WritableKeepsGood(f, s, e.onWritable);
      WritableLater(f, s, e.onWritable, x);
      var f1 := WritableRound(f, s, e.onWritable);
      if s in f1.st.socks && !IsClosed(f1.st, s) && e.readable {
        ReadLater(f1, s, e.recv, e.onClose, x);
        LaterTrans(f, f1, ReadRound(f1, s, e.recv, e.onClose), x);
      }
    } else if e.readable {
      ReadLater(f, s, e.recv, e.onClose, x);
    }
  }

  lemma StepLater(f: Full, op: Op, x: SocketId)
    requires Good(f)
    ensures Later(f, StepOp(f, op), x)
  {
    match op
    case Calls(acts) => CallsLater(f, acts, x);
    case Poll(s, e) =>
      if s in f.st.socks {
        DispatchLater(f, s, e, x);
      }
    case Sweep(c, script) =>
      if c in f.st.ctxs {
        SweepVisitsExactlyOnce(f, c, script);
      }
    case Free =>
  }

  /** A freed socket's number is not used again. */
  lemma {:induction false} FreedStaysFreed(fs: seq<Full>, ops: seq<Op>, contexts: set<ContextId>, i: nat, j: nat,
      s: SocketId)
    requires IsRun(fs, ops, contexts) && i <= j <= |ops| && s < fs[i].st.nextId && s !in fs[i].st.socks
    ensures s !in fs[j].st.socks && Freed(s) in fs[j].log
  {
    RunStaysGood(fs, ops, contexts, i);
    RunStaysGood(fs, ops, contexts, j);
    if i < j {
      FreedStaysFreed(fs, ops, contexts, i, j - 1, s);
      RunStaysGood(fs, ops, contexts, j - 1);
      StepLater(fs[j - 1], ops[j - 1], s);
    }
  }

  /** Once shut down, a socket never polls for WRITABLE again. */
  lemma {:induction false} ShutDownForever(fs: seq<Full>, ops: seq<Op>, contexts: set<ContextId>, i: nat, j: nat,
      s: SocketId)
    requires IsRun(fs, ops, contexts) && i <= j <= |ops|
    requires s in fs[i].st.socks && fs[i].st.socks[s].shutDown && s in fs[j].st.socks
    ensures fs[j].st.socks[s].shutDown && !fs[j].st.socks[s].writable
  {
    RunStaysGood(fs, ops, contexts, j);
    assert PollOk(fs[j].st.socks[s], s in fs[j].pending);
    if i < j {
      RunStaysGood(fs, ops, contexts, j - 1);
      BornStays(fs, ops, contexts, i, j - 1, s);
      if s !in fs[j - 1].st.socks {
        FreedStaysFreed(fs, ops, contexts, j - 1, j, s);
      } else {
        ShutDownForever(fs, ops, contexts, i, j - 1, s);
        StepLater(fs[j - 1], ops[j - 1], s);
      }
    }
  }

  /** A socket once in memory has a number below the next one for good. */
  lemma {:induction false} BornStays(fs: seq<Full>, ops: seq<Op>, contexts: set<ContextId>, i: nat, j: nat, s: SocketId)
    requires IsRun(fs, ops, contexts) && i <= j <= |ops| && s in fs[i].st.socks
    ensures s < fs[j].st.nextId
  {
    RunStaysGood(fs, ops, contexts, j);
    if i == j {
      assert Located(fs[j].st, fs[j].sh, s);
    } else {
      BornStays(fs, ops, contexts, i, j - 1, s);
      RunStaysGood(fs, ops, contexts, j - 1);
      StepLater(fs[j - 1], ops[j - 1], s);
    }
  }
}
