/**
 The operations of uSockets that run user callbacks: closing a socket, sweeping the timers and
 dispatching a ready poll (SocketExams/uSockets/src/socket.c and loop.c). A callback is any finite
 list of calls back into the library, nested `on_close` callbacks included.
 */
module USocketEvents {
  import opened USocketLists
  import opened USocketLoop

  /** A call that a callback makes. A write tells how many bytes the kernel took, or -1. */
  datatype Action =
    | Close(s: SocketId, onClose: seq<Action>)
    | Open(c: ContextId)
    | SetTimeout(s: SocketId, seconds: nat)
    | Write(s: SocketId, length: nat, written: int)
    | Shutdown(s: SocketId)

  const GRANULARITY := 4

  /** `us_socket_timeout` (socket.c, lines 49-56): sweeps for a timeout in seconds, as an unsigned short. */
  function TimeoutSweeps(seconds: nat): (n: nat) {
    if seconds == 0 then 0
    else
      var n := (0.5 + seconds as real / GRANULARITY as real).Floor % 0x1_0000;
      if n == 0 then 1 else n
  }

  // ----- how a callback changes the state

  ghost predicate ContextEvolves(st: State, sh: Shape, st': State, sh': Shape, c: ContextId) {
    && c in sh.list && c in sh.left && c in sh'.list && c in sh'.left
    && sh.left[c] <= |sh.list[c]| && sh'.left[c] <= |sh'.list[c]|
    && CtxEvolves(st.nextId, sh.list[c], sh.left[c], sh'.list[c], sh'.left[c])
  }

  ghost predicate Evolves(st: State, sh: Shape, st': State, sh': Shape) {
    && st'.ctxs.Keys == st.ctxs.Keys && st.nextId <= st'.nextId
    && (forall s :: s in st.socks ==> s in st'.socks && st'.socks[s].context == st.socks[s].context)
    && (forall s :: s in st.socks && st.socks[s].shutDown ==> st'.socks[s].shutDown)
    && (forall c :: c in st.ctxs ==> ContextEvolves(st, sh, st', sh', c))
  }

  lemma EvolvesRefl(st: State, sh: Shape)
    requires Repr(st, sh)
    ensures Evolves(st, sh, st, sh)
  {
    forall c | c in st.ctxs
      ensures ContextEvolves(st, sh, st, sh, c)
    {
      assert CtxOk(st, sh, c);
    }
  }

  lemma EvolvesTrans(st: State, sh: Shape, st': State, sh': Shape, st'': State, sh'': Shape)
    requires Repr(st, sh) && Evolves(st, sh, st', sh') && Evolves(st', sh', st'', sh'')
    ensures Evolves(st, sh, st'', sh'')
  {
    forall c | c in st.ctxs
      ensures ContextEvolves(st, sh, st'', sh'', c)
    {
      assert ContextEvolves(st, sh, st', sh', c) && ContextEvolves(st', sh', st'', sh'', c);
      forall x | x in sh.list[c]
        ensures x < st.nextId
      {
        assert CtxOk(st, sh, c);
        ChainMembers(st.socks, c, sh.list[c], x);
        assert Located(st, sh, x);
      }
      CtxEvolvesTrans(st.nextId, st'.nextId, sh.list[c], sh.left[c], sh'.list[c], sh'.left[c], sh''.list[c],
          sh''.left[c]);
    }
  }

  lemma LinkContextEvolves(st: State, sh: Shape, c: ContextId, d: ContextId)
    requires Repr(st, sh) && c in st.ctxs && d in st.ctxs
    ensures ContextEvolves(st, sh, LinkNew(st, c), Prepended(sh, c, st.nextId), d)
  {
    assert CtxOk(st, sh, d);
    ListsBelowNext(st, sh, d);
    PrependEvolves(st.nextId, sh.list[d], sh.left[d], st.nextId);
  }

  lemma LinkKeepsRecords(st: State, c: ContextId, x: SocketId)
    requires c in st.ctxs && x in st.socks && x != st.nextId
    ensures var st' := LinkNew(st, c);
            x in st'.socks && st'.socks[x] == st.socks[x].(prev := st'.socks[x].prev)
  {
  }

  lemma LinkEvolves(st: State, sh: Shape, c: ContextId)
    requires Repr(st, sh) && c in st.ctxs
    ensures Evolves(st, sh, LinkNew(st, c), Prepended(sh, c, st.nextId))
  {
    var st', sh' := LinkNew(st, c), Prepended(sh, c, st.nextId);
    forall x | x in st.socks
      ensures x in st'.socks && st'.socks[x].context == st.socks[x].context &&
                st'.socks[x].shutDown == st.socks[x].shutDown
    {
      assert Located(st, sh, x);
      LinkKeepsRecords(st, c, x);
    }
    forall d | d in st.ctxs
      ensures ContextEvolves(st, sh, st', sh', d)
    {
      LinkContextEvolves(st, sh, c, d);
    }
  }

  lemma CloseContextEvolves(st: State, sh: Shape, st': State, c: ContextId, k: nat, d: ContextId)
    requires Repr(st, sh) && c in st.ctxs && k < |sh.list[c]| && sh.left[c] <= |sh.list[c]| && d in st.ctxs
    ensures ContextEvolves(st, sh, st', Moved(sh, c, k), d)
  {
    assert CtxOk(st, sh, d);
    if d == c {
      DropEvolves(st.nextId, sh.list[c], sh.left[c], k);
    }
  }

  lemma CloseKeepsAll(st: State, s: SocketId)
    requires s in st.socks && st.socks[s].context in st.ctxs
    ensures var st' := CloseOpen(st, s);
            forall x :: x in st.socks ==>
              x in st'.socks && st'.socks[x].context == st.socks[x].context &&
                  st'.socks[x].shutDown == st.socks[x].shutDown
  {
    forall x | x in st.socks
      ensures var st' := CloseOpen(st, s);
              x in st'.socks && st'.socks[x].context == st.socks[x].context &&
                  st'.socks[x].shutDown == st.socks[x].shutDown
    {
      CloseKeepsRecords(st, s, x);
    }
  }

  lemma CloseEvolves(st: State, sh: Shape, c: ContextId, k: nat)
    requires Repr(st, sh) && c in st.ctxs && k < |sh.list[c]|
    ensures var s := sh.list[c][k];
            s in st.socks && st.socks[s].context == c && Evolves(st, sh, CloseOpen(st, s), Moved(sh, c, k))
  {
    var s := sh.list[c][k];
    assert CtxOk(st, sh, c);
    ChainMembers(st.socks, c, sh.list[c], s);
    CloseKeepsAll(st, s);
    EvolvesByParts(st, sh, CloseOpen(st, s), c, k);
  }

  lemma EvolvesByParts(st: State, sh: Shape, st': State, c: ContextId, k: nat)
    requires Repr(st, sh) && c in st.ctxs && k < |sh.list[c]| && sh.left[c] <= |sh.list[c]|
    requires st'.ctxs.Keys == st.ctxs.Keys && st'.nextId == st.nextId
    requires forall x :: x in st.socks ==>
               x in st'.socks && st'.socks[x].context == st.socks[x].context &&
                   st'.socks[x].shutDown == st.socks[x].shutDown
    ensures Evolves(st, sh, st', Moved(sh, c, k))
  {
    forall d | d in st.ctxs
      ensures ContextEvolves(st, sh, st', Moved(sh, c, k), d)
    {
      CloseContextEvolves(st, sh, st', c, k, d);
    }
  }

  /** A record changed in its timeout or poll fields only. */
  predicate SameButPoll(a: Socket, b: Socket) {
    SameLinks(a, b) && (a.shutDown ==> b.shutDown)
  }

  /** Changing timeouts and poll fields changes no list. */
  lemma FieldsKeepRepr(st: State, sh: Shape, socks': Sockets)
    requires Repr(st, sh) && socks'.Keys == st.socks.Keys
    requires forall s :: s in st.socks ==> SameButPoll(st.socks[s], socks'[s])
    ensures Repr(st.(socks := socks'), sh) && Evolves(st, sh, st.(socks := socks'), sh)
  {
    var st' := st.(socks := socks');
    EvolvesRefl(st, sh);
    forall c | c in st.ctxs
      ensures CtxOk(st', sh, c) && ContextEvolves(st, sh, st', sh, c)
    {
      assert CtxOk(st, sh, c) && ContextEvolves(st, sh, st, sh, c);
      ChainFrame(st.socks, socks', c, sh.list[c]);
    }
    ClosedChainFrame(st.socks, socks', sh.closed);
    forall s | s in socks'
      ensures Located(st', sh, s)
    {
      assert Located(st, sh, s);
    }
  }

  // ----- poll interest

  /** A socket that is shut down does not poll for WRITABLE; an open one owing a write does. */
  predicate PollOk(x: Socket, pending: bool) {
    && (x.shutDown ==> !x.writable)
    && (pending && !x.shutDown && x.prev != Ctx(x.context) ==> x.writable)
  }

  ghost predicate PollsOk(socks: Sockets, pending: set<SocketId>) {
    forall s :: s in socks ==> PollOk(socks[s], s in pending)
  }

  lemma LinkKeepsPolls(st: State, sh: Shape, c: ContextId, pending: set<SocketId>)
    requires Repr(st, sh) && c in st.ctxs && PollsOk(st.socks, pending) && st.nextId !in pending
    ensures PollsOk(LinkNew(st, c).socks, pending)
  {
    var st' := LinkNew(st, c);
    forall x | x in st'.socks
      ensures PollOk(st'.socks[x], x in pending)
    {
      if x in st.socks {
        assert Located(st, sh, x);
        IsClosedExactly(st, sh, x);
        LinkRefinesPrepend(st, sh, c);
        IsClosedExactly(st', Prepended(sh, c, st.nextId), x);
        LinkKeepsRecords(st, c, x);
      }
    }
  }

  lemma CloseKeepsPolls(st: State, sh: Shape, c: ContextId, k: nat, pending: set<SocketId>)
    requires Repr(st, sh) && c in st.ctxs && k < |sh.list[c]| && PollsOk(st.socks, pending)
    ensures var s := sh.list[c][k];
            s in st.socks && st.socks[s].context == c && PollsOk(CloseOpen(st, s).socks, pending)
  {
    var s := sh.list[c][k];
    CloseRefinesMove(st, sh, c, k);
    var st' := CloseOpen(st, s);
    forall x | x in st'.socks
      ensures PollOk(st'.socks[x], x in pending)
    {
      IsClosedExactly(st, sh, x);
      IsClosedExactly(st', Moved(sh, c, k), x);
      CloseKeepsRecords(st, s, x);
    }
  }

  // ----- the log

  lemma CloseKeepsLog(log: seq<Entry>, st: State, sh: Shape, c: ContextId, k: nat)
    requires Repr(st, sh) && c in st.ctxs && k < |sh.list[c]| && LogOk(log) && Tied(log, st, sh)
    ensures var s := sh.list[c][k];
            && s in st.socks && st.socks[s].context == c
            && LogOk(log + [OnClose(s)]) && Tied(log + [OnClose(s)], CloseOpen(st, s), Moved(sh, c, k))
  {
    var s := sh.list[c][k];
    CloseRefinesMove(st, sh, c, k);
    assert Located(st, sh, s);
    assert OnClose(s) !in log && Freed(s) !in log;
    LogGrows(log, OnClose(s));
    var st', sh', log' := CloseOpen(st, s), Moved(sh, c, k), log + [OnClose(s)];
    forall x: SocketId
      ensures OnClose(x) in log' <==> x < st'.nextId && (x !in st'.socks || x in sh'.closed)
      ensures Freed(x) in log' <==> x < st'.nextId && x !in st'.socks
    {
      assert OnClose(x) in log' <==> OnClose(x) in log || x == s;
      assert Freed(x) in log' <==> Freed(x) in log;
    }
  }

  lemma LinkKeepsLog(log: seq<Entry>, st: State, sh: Shape, c: ContextId)
    requires Repr(st, sh) && c in st.ctxs && Tied(log, st, sh)
    ensures Tied(log, LinkNew(st, c), Prepended(sh, c, st.nextId))
  {
    var st', sh' := LinkNew(st, c), Prepended(sh, c, st.nextId);
    if st.nextId in sh.closed {
      ClosedNotListed(st, sh, c, st.nextId);
    }
    forall x: SocketId
      ensures OnClose(x) in log <==> x < st'.nextId && (x !in st'.socks || x in sh'.closed)
      ensures Freed(x) in log <==> x < st'.nextId && x !in st'.socks
    {
      assert OnClose(x) in log <==> x < st.nextId && (x !in st.socks || x in sh.closed);
    }
  }

  lemma VisitKeepsLog(log: seq<Entry>, st: State, sh: Shape, s: SocketId)
    requires Repr(st, sh) && LogOk(log) && Tied(log, st, sh) && s in st.socks && s !in sh.closed
    ensures LogOk(log + [Visited(s)]) && Tied(log + [Visited(s)], st, sh)
  {
    assert Located(st, sh, s);
    assert OnClose(s) !in log && Freed(s) !in log;
    LogGrows(log, Visited(s));
    forall x: SocketId
      ensures OnClose(x) in log + [Visited(s)] <==> OnClose(x) in log
      ensures Freed(x) in log + [Visited(s)] <==> Freed(x) in log
    {
    }
  }

  // ----- the loop and its callbacks

  /** The loop with, beside its structures, the lists they stand for, the log, and the sockets owing a write. */
  datatype Full = Full(st: State, lastWriteFailed: bool, sh: Shape, log: seq<Entry>, pending: set<SocketId>)

  ghost predicate Good(f: Full) {
    && Repr(f.st, f.sh) && LogOk(f.log) && Tied(f.log, f.st, f.sh)
    && PollsOk(f.st.socks, f.pending) && forall s :: s in f.pending ==> s < f.st.nextId
  }

  /** What a callback may do: the lists evolve; the log, the flag and the owed writes only grow. */
  ghost predicate Continues(f: Full, f': Full) {
    && Evolves(f.st, f.sh, f'.st, f'.sh)
    && f.log <= f'.log && (f.lastWriteFailed ==> f'.lastWriteFailed) && f.pending <= f'.pending
  }

  /** A new socket in context `c`. */
  function OpenOne(f: Full, c: ContextId): (f': Full)
    requires c in f.st.ctxs
  {
    f.(st := LinkNew(f.st, c), sh := if c in f.sh.list then Prepended(f.sh, c, f.st.nextId) else f.sh)
  }

  /** A socket that can be closed. */
  predicate CanClose(f: Full, s: SocketId) {
    s in f.st.socks && !IsClosed(f.st, s) && f.st.socks[s].context in f.st.ctxs
  }

  function CloseOne(f: Full, s: SocketId): (f': Full)
    requires CanClose(f, s)
  {
    f.(st := CloseOpen(f.st, s), sh := MovedSocket(f.sh, f.st.socks[s].context, s), log := f.log + [OnClose(s)])
  }

  function SetSocket(f: Full, s: SocketId, x: Socket): (f': Full) {
    f.(st := f.st.(socks := f.st.socks[s := x]))
  }

  /** `us_socket_write` when the kernel takes `written` bytes (socket.c, lines 26-39). */
  function WriteOne(f: Full, s: SocketId, length: nat, written: int): (f': Full)
    requires s in f.st.socks
  {
    var x := f.st.socks[s];
    if IsClosed(f.st, s) || x.shutDown || written == length then f
    else SetSocket(f, s, x.(readable := true, writable := true)).(lastWriteFailed := true, pending := f.pending + {s})
  }

  /** `us_socket_shutdown` (socket.c, lines 91-100). */
  function ShutdownOne(f: Full, s: SocketId): (f': Full)
    requires s in f.st.socks
  {
    var x := f.st.socks[s];
    if IsClosed(f.st, s) || x.shutDown then f else SetSocket(f, s, x.(shutDown := true, writable := false))
  }

  /** A call made by a callback; calls on sockets that are not in memory are not modelled. */
  function Exec(f: Full, a: Action): (f': Full)
    decreases a
  {
    match a
    case Close(s, onClose) => if CanClose(f, s) then RunActions(CloseOne(f, s), onClose) else f
    case Open(c) => if c in f.st.ctxs then OpenOne(f, c) else f
    case SetTimeout(s, seconds) =>
      if s in f.st.socks then SetSocket(f, s, f.st.socks[s].(timeout := TimeoutSweeps(seconds))) else f
    case Write(s, length, written) => if s in f.st.socks then WriteOne(f, s, length, written) else f
    case Shutdown(s) => if s in f.st.socks then ShutdownOne(f, s) else f
  }

  function RunActions(f: Full, acts: seq<Action>): (f': Full)
    decreases acts
  {
    if acts == [] then f else RunActions(Exec(f, acts[0]), acts[1..])
  }

  // ----- failed writes

  /** The open sockets that take a write only in part, in the call or in the callback it leads to. */
  function ShortOne(f: Full, a: Action): (r: set<SocketId>)
    decreases a
  {
    match a
    case Write(s, length, written) =>
      if s in f.st.socks && !IsClosed(f.st, s) && !f.st.socks[s].shutDown && written != length then {s} else {}
    case Close(s, onClose) => if CanClose(f, s) then ShortIn(CloseOne(f, s), onClose) else {}
    case _ => {}
  }

  /** The sockets on which some write that the callback makes falls short. */
  function ShortIn(f: Full, acts: seq<Action>): (r: set<SocketId>)
    decreases acts
  {
    if acts == [] then {} else ShortOne(f, acts[0]) + ShortIn(Exec(f, acts[0]), acts[1..])
  }

  lemma {:induction false} CallFollowsWrites(f: Full, a: Action)
    ensures Exec(f, a).lastWriteFailed <==> f.lastWriteFailed || ShortOne(f, a) != {}
    ensures Exec(f, a).pending == f.pending + ShortOne(f, a)
    decreases a
  {
    if a.Close? && CanClose(f, a.s) {
      FlagFollowsWrites(CloseOne(f, a.s), a.onClose);
    }
  }

  /**
   After a callback `last_write_failed` is set exactly if it was before or some write fell short, and
   the sockets that owe a write are those that did before and those whose write fell short.
   */
  lemma {:induction false} FlagFollowsWrites(f: Full, acts: seq<Action>)
    ensures RunActions(f, acts).lastWriteFailed <==> f.lastWriteFailed || ShortIn(f, acts) != {}
    ensures RunActions(f, acts).pending == f.pending + ShortIn(f, acts)
    decreases acts
  {
    if acts != [] {
      CallFollowsWrites(f, acts[0]);
      FlagFollowsWrites(Exec(f, acts[0]), acts[1..]);
    }
  }

  // ----- every call keeps the loop in order

  lemma ContinuesRefl(f: Full)
    requires Good(f)
    ensures Continues(f, f)
  {
    EvolvesRefl(f.st, f.sh);
  }

  lemma ContinuesTrans(f: Full, f': Full, f'': Full)
    requires Good(f) && Continues(f, f') && Continues(f', f'')
    ensures Continues(f, f'')
  {
    EvolvesTrans(f.st, f.sh, f'.st, f'.sh, f''.st, f''.sh);
  }

  lemma OpenKeepsGood(f: Full, c: ContextId)
    requires Good(f) && c in f.st.ctxs
    ensures Good(OpenOne(f, c)) && Continues(f, OpenOne(f, c))
  {
    assert CtxOk(f.st, f.sh, c);
    LinkRefinesPrepend(f.st, f.sh, c);
    LinkEvolves(f.st, f.sh, c);
    LinkKeepsLog(f.log, f.st, f.sh, c);
    LinkKeepsPolls(f.st, f.sh, c, f.pending);
  }

  lemma CloseOneKeepsGood(f: Full, s: SocketId)
    requires Good(f) && CanClose(f, s)
    ensures Good(CloseOne(f, s)) && Continues(f, CloseOne(f, s))
  {
    var c := f.st.socks[s].context;
    IsClosedExactly(f.st, f.sh, s);
    assert CtxOk(f.st, f.sh, c);
    var k := IndexOf(f.sh.list[c], s);
    CloseRefinesMove(f.st, f.sh, c, k);
    CloseEvolves(f.st, f.sh, c, k);
    CloseKeepsLog(f.log, f.st, f.sh, c, k);
    CloseKeepsPolls(f.st, f.sh, c, k, f.pending);
  }

  lemma SetSocketKeepsGood(f: Full, s: SocketId, x: Socket, pending: set<SocketId>)
    requires Good(f) && s in f.st.socks && SameButPoll(f.st.socks[s], x)
    requires PollOk(x, s in pending) && (pending == f.pending || pending == f.pending + {s})
    ensures var f' := SetSocket(f, s, x).(pending := pending); Good(f') && Continues(f, f')
  {
    FieldsKeepRepr(f.st, f.sh, f.st.socks[s := x]);
    assert Located(f.st, f.sh, s);
  }

  lemma WriteKeepsGood(f: Full, s: SocketId, length: nat, written: int)
    requires Good(f) && s in f.st.socks
    ensures var f' := WriteOne(f, s, length, written); Good(f') && Continues(f, f')
  {
    var x := f.st.socks[s];
    ContinuesRefl(f);
    if !(IsClosed(f.st, s) || x.shutDown || written == length) {
      SetSocketKeepsGood(f, s, x.(readable := true, writable := true), f.pending + {s});
    }
  }

  lemma ShutdownKeepsGood(f: Full, s: SocketId)
    requires Good(f) && s in f.st.socks
    ensures var f' := ShutdownOne(f, s); Good(f') && Continues(f, f')
  {
    var x := f.st.socks[s];
    ContinuesRefl(f);
    if !(IsClosed(f.st, s) || x.shutDown) {
      SetSocketKeepsGood(f, s, x.(shutDown := true, writable := false), f.pending);
    }
  }

  lemma TimeoutKeepsGood(f: Full, s: SocketId, t: nat)
    requires Good(f) && s in f.st.socks
    ensures var f' := SetSocket(f, s, f.st.socks[s].(timeout := t)); Good(f') && Continues(f, f')
  {
    assert PollOk(f.st.socks[s], s in f.pending);
    SetSocketKeepsGood(f, s, f.st.socks[s].(timeout := t), f.pending);
  }

  lemma WriteCallKeepsGood(f: Full, a: Action)
    requires Good(f) && a.Write?
    ensures Good(Exec(f, a)) && Continues(f, Exec(f, a))
  {
    if a.s in f.st.socks {
      assert Exec(f, a) == WriteOne(f, a.s, a.length, a.written);
      WriteKeepsGood(f, a.s, a.length, a.written);
    } else {
      ContinuesRefl(f);
    }
  }

  lemma ShutdownCallKeepsGood(f: Full, a: Action)
    requires Good(f) && a.Shutdown?
    ensures Good(Exec(f, a)) && Continues(f, Exec(f, a))
  {
    if a.s in f.st.socks {
      assert Exec(f, a) == ShutdownOne(f, a.s);
      ShutdownKeepsGood(f, a.s);
    } else {
      ContinuesRefl(f);
    }
  }

  lemma TimeoutCallKeepsGood(f: Full, a: Action)
    requires Good(f) && a.SetTimeout?
    ensures Good(Exec(f, a)) && Continues(f, Exec(f, a))
  {
    if a.s in f.st.socks {
      assert Exec(f, a) == SetSocket(f, a.s, f.st.socks[a.s].(timeout := TimeoutSweeps(a.seconds)));
      TimeoutKeepsGood(f, a.s, TimeoutSweeps(a.seconds));
    } else {
      ContinuesRefl(f);
    }
  }

  lemma OpenCallKeepsGood(f: Full, a: Action)
    requires Good(f) && a.Open?
    ensures Good(Exec(f, a)) && Continues(f, Exec(f, a))
  {
    if a.c in f.st.ctxs {
      OpenKeepsGood(f, a.c);
    } else {
      ContinuesRefl(f);
    }
  }

  lemma CloseCallKeepsGood(f: Full, a: Action, f': Full)
    requires Good(f) && a.Close? && CanClose(f, a.s) && f' == CloseOne(f, a.s)
    requires Good(f') ==> Good(RunActions(f', a.onClose)) && Continues(f', RunActions(f', a.onClose))
    ensures Good(Exec(f, a)) && Continues(f, Exec(f, a))
  {
    CloseOneKeepsGood(f, a.s);
    ContinuesTrans(f, f', RunActions(f', a.onClose));
  }

  /** Every call a callback can make, nested callbacks included, keeps the loop in order. */
  lemma {:induction false} ExecKeepsGood(f: Full, a: Action)
    requires Good(f)
    ensures Good(Exec(f, a)) && Continues(f, Exec(f, a))
    decreases a
  {
    if a.Close? {
      if CanClose(f, a.s) {
        var f' := CloseOne(f, a.s);
        if Good(f') {
          RunKeepsGood(f', a.onClose);
        }
        CloseCallKeepsGood(f, a, f');
      } else {
        ContinuesRefl(f);
      }
    } else if a.Open? {
      OpenCallKeepsGood(f, a);
    } else if a.Write? {
      WriteCallKeepsGood(f, a);
    } else if a.Shutdown? {
      ShutdownCallKeepsGood(f, a);
    } else {
      TimeoutCallKeepsGood(f, a);
    }
  }

  lemma {:induction false} RunKeepsGood(f: Full, acts: seq<Action>)
    requires Good(f)
    ensures Good(RunActions(f, acts)) && Continues(f, RunActions(f, acts))
    decreases acts
  {
    if acts == [] {
      ContinuesRefl(f);
    } else {
      ExecKeepsGood(f, acts[0]);
      RunKeepsGood(Exec(f, acts[0]), acts[1..]);
      ContinuesTrans(f, Exec(f, acts[0]), RunActions(f, acts));
    }
  }

  lemma ClosedAfterClose(f: Full, s: SocketId)
    requires Good(f) && CanClose(f, s)
    ensures CloseOne(f, s).sh.closed == [s] + f.sh.closed
  {
    IsClosedExactly(f.st, f.sh, s);
    assert CtxOk(f.st, f.sh, f.st.socks[s].context);
  }
}
