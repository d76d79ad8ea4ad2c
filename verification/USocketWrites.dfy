/**
 Write interest over whole runs of a uSockets loop (SocketExams/uSockets/src/socket.c, lines 26-39 and
 91-100, with loop.c, lines 200-231). Which sockets owe a write is read off the writes the callbacks
 make and what the kernel takes of them; the loop's flag and poll events do not enter.
 */
module USocketWrites {
  import opened USocketLists
  import opened USocketLoop
  import opened USocketEvents
  import opened USocketSweep
  import opened USocketDispatch

  // ----- the writes of one operation

  /** The writes that fall short in the reading part of a ready poll. */
  function ShortRead(f: Full, s: SocketId, recv: Recv, onClose: seq<Action>): (r: set<SocketId>)
    requires s in f.st.socks
  {
    match recv
    case Data(onData) => ShortIn(f, onData)
    case EndOfStream(onEnd) =>
      if f.st.socks[s].shutDown then ShortOne(f, Close(s, onClose))
      else ShortIn(SetSocket(f, s, f.st.socks[s].(readable := false)), onEnd)
    case WouldBlock => {}
    case RecvError => ShortOne(f, Close(s, onClose))
  }

  /** Whether the poll is an `on_writable` round in which no write falls short and which leaves `s` open. */
  predicate CleanRound(f: Full, s: SocketId, e: Ready) {
    var f0 := f.(lastWriteFailed := false);
    var g := RunActions(f0, e.onWritable);
    !e.error && e.writable && ShortIn(f0, e.onWritable) == {} && s in g.st.socks && !IsClosed(g.st, s)
  }

  function ShortPoll(f: Full, s: SocketId, e: Ready): (r: set<SocketId>)
    requires s in f.st.socks
  {
    if e.error then ShortOne(f, Close(s, e.onClose))
    else
      var f1 := if e.writable then WritableRound(f, s, e.onWritable) else f;
      (if e.writable then ShortIn(f.(lastWriteFailed := false), e.onWritable) else {}) +
      (if s !in f1.st.socks || (e.writable && IsClosed(f1.st, s)) || !e.readable then {}
       else ShortRead(f1, s, e.recv, e.onClose))
  }

  /** The writes that fall short in the callbacks of a sweep. */
  ghost function ShortSweep(f: Full, c: ContextId, script: nat -> seq<Action>, i: nat): (r: set<SocketId>)
    requires Good(f) && c in f.st.ctxs
    decreases if c in f.sh.left then f.sh.left[c] else 0
  {
    var cursor := f.st.ctxs[c].cursor;
    if !cursor.Sock? then {}
    else
      VisitStep(f, c, cursor.s, script(i));
      var f' := Visit(f, c, cursor.s, script(i));
      if f.st.socks[cursor.s].timeout == 1 then
        ShortIn(Counted(f, cursor.s), script(i)) + ShortSweep(f', c, script, i + 1)
      else ShortSweep(f', c, script, i)
  }

  /** The sockets on which some write of the operation falls short. */
  ghost function ShortOp(f: Full, op: Op): (r: set<SocketId>)
    requires Good(f)
  {
    match op
    case Calls(acts) => ShortIn(f, acts)
    case Poll(s, e) => if s in f.st.socks then ShortPoll(f, s, e) else {}
    case Sweep(c, script) =>
      if c in f.st.ctxs then
        StartKeepsGood(f, c);
        ShortSweep(Start(f, c), c, script, 0)
      else {}
    case Free => {}
  }

  /** The sockets that owe a write no longer: that of a clean round. */
  ghost function Cleared(f: Full, op: Op): (r: set<SocketId>) {
    if op.Poll? && op.s in f.st.socks && CleanRound(f, op.s, op.e) then {op.s} else {}
  }

  // ----- the loop keeps count of them

  lemma RoundFollowsWrites(f: Full, s: SocketId, e: Ready)
    requires !e.error && e.writable
    ensures WritableRound(f, s, e.onWritable).pending ==
            (f.pending - (if CleanRound(f, s, e) then {s}
                else {})) + ShortIn(f.(lastWriteFailed := false), e.onWritable)
  {
    var f0 := f.(lastWriteFailed := false);
    FlagFollowsWrites(f0, e.onWritable);
    assert RunActions(f0, e.onWritable).pending == f.pending + ShortIn(f0, e.onWritable);
  }

  lemma ReadFollowsWrites(f: Full, s: SocketId, recv: Recv, onClose: seq<Action>)
    requires s in f.st.socks
    ensures ReadRound(f, s, recv, onClose).pending == f.pending + ShortRead(f, s, recv, onClose)
  {
    CallFollowsWrites(f, Close(s, onClose));
    match recv
    case Data(onData) => FlagFollowsWrites(f, onData);
    case EndOfStream(onEnd) => FlagFollowsWrites(SetSocket(f, s, f.st.socks[s].(readable := false)), onEnd);
    case _ =>
  }

  lemma PollFollowsWrites(f: Full, s: SocketId, e: Ready)
    requires s in f.st.socks
    ensures Dispatch(f, s, e).pending == (f.pending - (if CleanRound(f, s, e) then {s} else {})) + ShortPoll(f, s, e)
  {
    if e.error {
      CallFollowsWrites(f, Close(s, e.onClose));
    } else {
      if e.writable {
        RoundFollowsWrites(f, s, e);
      }
      var f1 := if e.writable then WritableRound(f, s, e.onWritable) else f;
      if !(s !in f1.st.socks || (e.writable && IsClosed(f1.st, s)) || !e.readable) {
        ReadFollowsWrites(f1, s, e.recv, e.onClose);
      }
    }
  }

  lemma VisitFollowsWrites(f: Full, c: ContextId, s: SocketId, acts: seq<Action>)
    requires c in f.st.ctxs && s in f.st.socks
    ensures Visit(f, c, s, acts).pending ==
            f.pending + if f.st.socks[s].timeout == 1 then ShortIn(Counted(f, s), acts) else {}
  {
    FlagFollowsWrites(Counted(f, s), acts);
  }

  lemma UnionAssoc(a: set<SocketId>, b: set<SocketId>, c: set<SocketId>)
    ensures (a + b) + c == a + (b + c) && a + {} == a
  {
  }

  lemma {:induction false} SweepFollowsWrites(f: Full, c: ContextId, script: nat -> seq<Action>, i: nat)
    requires Good(f) && c in f.st.ctxs
    ensures SweepFrom(f, c, script, i).f.pending == f.pending + ShortSweep(f, c, script, i)
    decreases if c in f.sh.left then f.sh.left[c] else 0
  {
    var cursor := f.st.ctxs[c].cursor;
    if cursor.Sock? {
      var s := cursor.s;
      VisitStep(f, c, s, script(i));
      VisitFollowsWrites(f, c, s, script(i));
      var f', fires := Visit(f, c, s, script(i)), f.st.socks[s].timeout == 1;
      SweepFollowsWrites(f', c, script, if fires then i + 1 else i);
      var short := if fires then ShortIn(Counted(f, s), script(i)) else {};
      UnionAssoc(f.pending, short, ShortSweep(f', c, script, if fires then i + 1 else i));
    }
  }

  lemma OpFollowsWrites(f: Full, op: Op)
    requires Good(f)
    ensures StepOp(f, op).pending == (f.pending - Cleared(f, op)) + ShortOp(f, op)
  {
    match op
    case Calls(acts) => FlagFollowsWrites(f, acts);
    case Poll(s, e) =>
      if s in f.st.socks {
        PollFollowsWrites(f, s, e);
      }
    case Sweep(c, script) =>
      if c in f.st.ctxs {
        StartKeepsGood(f, c);
        SweepFollowsWrites(Start(f, c), c, script, 0);
      }
    case Free =>
  }

  // ----- every run

  /** The sockets with a short write, and no clean `on_writable` round of theirs since, after `i` operations. */
  ghost function Owing(fs: seq<Full>, ops: seq<Op>, contexts: set<ContextId>, i: nat): (r: set<SocketId>)
    requires IsRun(fs, ops, contexts) && i <= |ops|
  {
    if i == 0 then {}
    else
      RunStaysGood(fs, ops, contexts, i - 1);
      (Owing(fs, ops, contexts, i - 1) - Cleared(fs[i - 1], ops[i - 1])) + ShortOp(fs[i - 1], ops[i - 1])
  }

  lemma {:induction false} PendingIsOwing(fs: seq<Full>, ops: seq<Op>, contexts: set<ContextId>, i: nat)
    requires IsRun(fs, ops, contexts) && i <= |ops|
    ensures fs[i].pending == Owing(fs, ops, contexts, i)
  {
    if i > 0 {
      var k := i - 1;
      PendingIsOwing(fs, ops, contexts, k);
      OwingStep(fs, ops, contexts, i, k);
    }
  }

  lemma OwingStep(fs: seq<Full>, ops: seq<Op>, contexts: set<ContextId>, i: nat, k: nat)
    requires IsRun(fs, ops, contexts) && i == k + 1 <= |ops| && fs[k].pending == Owing(fs, ops, contexts, k)
    ensures fs[i].pending == Owing(fs, ops, contexts, i)
  {
    RunStaysGood(fs, ops, contexts, k);
    assert fs[i] == StepOp(fs[k], ops[k]);
    OpFollowsWrites(fs[k], ops[k]);
  }

  /**
   In every state of every run: a socket with a short write and no clean `on_writable` round since
   polls for WRITABLE unless it is shut down or closed, and one that is shut down does not.
   */
  lemma WriteInterestNeverLost(fs: seq<Full>, ops: seq<Op>, contexts: set<ContextId>, i: nat, s: SocketId)
    requires IsRun(fs, ops, contexts) && i <= |ops| && s in fs[i].st.socks
    ensures s in Owing(fs, ops, contexts, i) && !fs[i].st.socks[s].shutDown && !IsClosed(fs[i].st, s) ==>
              fs[i].st.socks[s].writable
    ensures fs[i].st.socks[s].shutDown ==> !fs[i].st.socks[s].writable
  {
    PendingIsOwing(fs, ops, contexts, i);
    PendingPolls(fs, ops, contexts, i, s);
  }
}
