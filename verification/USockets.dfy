/**
 uSockets' loop as the code runs it (SocketExams/uSockets/src/context.c, socket.c and loop.c): fields
 updated in place and pointers followed one by one. Each method is tied to the function of the state
 that the other modules reason about; the ghost fields say which lists the pointers stand for.
 */
module USockets {
  import opened USocketLists
  import opened USocketLoop
  import opened USocketEvents
  import opened USocketSweep
  import opened USocketDispatch
  import opened USocketPolls

  class Loop {
    var socks: Sockets
    var ctxs: map<ContextId, Context>
    var closedHead: Ptr
    var nextId: SocketId
    var lastWriteFailed: bool
    ghost var sh: Shape
    ghost var log: seq<Entry>
    ghost var pending: set<SocketId>

    ghost function Now(): (f: Full)
      reads this
    {
      Full(State(socks, ctxs, closedHead, nextId), lastWriteFailed, sh, log, pending)
    }

    constructor (contexts: set<ContextId>)
      ensures Now() == Init(contexts)
    {
      socks := map[];
      ctxs := map c | c in contexts :: Context(Null, Null);
      closedHead := Null;
      nextId := 0;
      lastWriteFailed := false;
      sh := Init(contexts).sh;
      log := [];
      pending := {};
    }

    /** `us_internal_socket_context_link` (context.c, lines 145-154). */
    method Link(c: ContextId, s: SocketId)
      requires c in ctxs && s in socks
      modifies this`socks, this`ctxs
      ensures socks == Attach(old(socks), s, c, old(ctxs)[c].head)
      ensures ctxs == old(ctxs)[c := old(ctxs)[c].(head := Sock(s))]
    {
      var head := ctxs[c].head;
      socks := socks[s := socks[s].(context := c, timeout := 0)];
      socks := socks[s := socks[s].(next := head, prev := Null)];
      if head.Sock? && head.s in socks {
        socks := socks[head.s := socks[head.s].(prev := Sock(s))];
      }
      ctxs := ctxs[c := ctxs[c].(head := Sock(s))];
    }

    /** A new socket in context `c` (loop.c, lines 168-181). */
    method OpenSocket(c: ContextId) returns (s: SocketId)
      requires c in ctxs
      modifies this
      ensures s == old(nextId) && Now() == OpenOne(old(Now()), c)
    {
      sh := if c in sh.list then Prepended(sh, c, nextId) else sh;
      s := nextId;
      nextId := s + 1;
      socks := socks[s := Socket(c, Null, Null, 0, false, true, false)];
      Link(c, s);
    }

    /** `us_internal_socket_context_unlink` (context.c, lines 123-141). */
    method Unlink(s: SocketId)
      requires s in socks && socks[s].context in ctxs
      modifies this`socks, this`ctxs
      ensures socks == Bypass(old(socks), s)
      ensures var x := old(socks)[s]; var ctx := old(ctxs)[x.context];
              ctxs == old(ctxs)[x.context := Context(if x.prev == x.next then Null
                  else if x.prev.Sock? then ctx.head else x.next,
                                                     if ctx.cursor == Sock(s) then x.next else ctx.cursor)]
    {
      var x := socks[s];
      var c := x.context;
      if ctxs[c].cursor == Sock(s) {
        ctxs := ctxs[c := ctxs[c].(cursor := x.next)];
      }
      if x.prev == x.next {
        ctxs := ctxs[c := ctxs[c].(head := Null)];
      } else if !x.prev.Sock? {
        ctxs := ctxs[c := ctxs[c].(head := x.next)];
      }
      if x.prev.Sock? && x.prev.s in socks {
        socks := socks[x.prev.s := socks[x.prev.s].(next := x.next)];
      }
      if x.next.Sock? && x.next.s in socks {
        socks := socks[x.next.s := socks[x.next.s].(prev := x.prev)];
      }
    }

    /** `us_socket_close` up to its callback (socket.c, lines 67-80). */
    method CloseFirst(s: SocketId)
      requires CanClose(Now(), s)
      modifies this
      ensures Now() == CloseOne(old(Now()), s)
    {
      var c := socks[s].context;
      Unlink(s);
      socks := socks[s := socks[s].(next := closedHead, prev := Ctx(c))];
      closedHead := Sock(s);
      sh := MovedSocket(sh, c, s);
      log := log + [OnClose(s)];
    }

    /** `us_socket_close` (socket.c, lines 66-85); `onClose` is what the `on_close` callback does. */
    method CloseSocket(s: SocketId, onClose: seq<Action>)
      modifies this
      ensures Now() == Exec(old(Now()), Close(s, onClose))
      decreases onClose, 1
    {
      if s in socks && socks[s].prev != Ctx(socks[s].context) && socks[s].context in ctxs {
        CloseFirst(s);
        Run(onClose);
      }
    }

    /** `us_socket_timeout` (socket.c, lines 49-56). */
    method SetSocketTimeout(s: SocketId, seconds: nat)
      modifies this`socks
      ensures Now() == Exec(old(Now()), SetTimeout(s, seconds))
      ensures old(Good(Now())) ==> Good(Now())
      ensures s in socks && 1 <= seconds <= 262141 ==>
                var n := (seconds + 2) / 4; socks[s].timeout == if n == 0 then 1 else n
      ensures s in socks && seconds == 0 ==> socks[s].timeout == 0
    {
      if Good(Now()) {
        ExecKeepsGood(Now(), SetTimeout(s, seconds));
      }
      if seconds > 0 {
        SweepsForTimeout(seconds);
      }
      if s in socks {
        socks := socks[s := socks[s].(timeout := TimeoutSweeps(seconds))];
      }
    }

    /** `us_socket_write` when the kernel takes `written` bytes (socket.c, lines 26-39). */
    method WriteSocket(s: SocketId, length: nat, written: int) returns (r: int)
      modifies this
      ensures Now() == Exec(old(Now()), Write(s, length, written))
      ensures var takes := s in old(socks) && !IsClosed(old(Now()).st, s) && !old(socks)[s].shutDown;
              r == if takes && written > 0 then written else 0
      ensures old(Good(Now())) ==> Good(Now())
      ensures s in old(socks) && !IsClosed(old(Now()).st, s) && !old(socks)[s].shutDown && written != length ==>
                lastWriteFailed && s in socks && socks[s].writable && socks[s].readable
    {
      if Good(Now()) {
        ExecKeepsGood(Now(), Write(s, length, written));
      }
      if s !in socks || socks[s].prev == Ctx(socks[s].context) || socks[s].shutDown {
        return 0;
      }
      if written != length {
        lastWriteFailed := true;
        socks := socks[s := socks[s].(readable := true, writable := true)];
        pending := pending + {s};
      }
      return if written < 0 then 0 else written;
    }

    /** `us_socket_shutdown` (socket.c, lines 91-100). */
    method ShutdownSocket(s: SocketId)
      modifies this`socks
      ensures Now() == Exec(old(Now()), Shutdown(s))
      ensures old(Good(Now())) ==> Good(Now())
      ensures old(Good(Now())) && s in socks && !IsClosed(Now().st, s) ==>
                && socks[s].shutDown && !socks[s].writable
                && s in old(socks) && socks[s].readable == old(socks)[s].readable
    {
      if Good(Now()) {
        ExecKeepsGood(Now(), Shutdown(s));
        assert s in socks ==> PollOk(socks[s], s in pending);
      }
      if s in socks && socks[s].prev != Ctx(socks[s].context) && !socks[s].shutDown {
        socks := socks[s := socks[s].(shutDown := true, writable := false)];
      }
    }

    /** A callback. */
    method Run(acts: seq<Action>)
      modifies this
      ensures Now() == RunActions(old(Now()), acts)
      decreases acts, 0
    {
      if acts != [] {
        match acts[0] {
        case Close(s, onClose) => CloseSocket(s, onClose);
        case Open(c) =>
          if c in ctxs {
            var _ := OpenSocket(c);
          }
        case SetTimeout(s, seconds) => SetSocketTimeout(s, seconds);
        case Write(s, length, written) => var _ := WriteSocket(s, length, written);
        case Shutdown(s) => ShutdownSocket(s);
        }
        Run(acts[1..]);
      }
    }

    /** The body of the inner loop of the timer sweep (loop.c, lines 88-102). */
    method VisitSocket(c: ContextId, s: SocketId, acts: seq<Action>) returns (fires: bool)
      requires c in ctxs && s in socks
      modifies this
      ensures fires == (old(socks)[s].timeout == 1) && Now() == Visit(old(Now()), c, s, acts)
    {
      var t := socks[s].timeout;
      fires := t == 1;
      socks := socks[s := socks[s].(timeout := if t == 0 then 0 else t - 1)];
      log := log + [Visited(s)];
      if fires {
        Run(acts);
      }
      if c in ctxs && s in socks && ctxs[c].cursor == Sock(s) {
        ctxs := ctxs[c := ctxs[c].(cursor := socks[s].next)];
        sh := Advanced(sh, c);
      }
    }

    /** `context->iterator = context->head` (loop.c, line 86). */
    method StartSweep(c: ContextId)
      requires Good(Now()) && c in ctxs
      modifies this`ctxs, this`sh
      ensures c in old(sh.list) && Now() == Start(old(Now()), c)
      ensures Good(Now()) && c in ctxs
    {
      StartKeepsGood(Now(), c);
      ctxs := ctxs[c := ctxs[c].(cursor := ctxs[c].head)];
      sh := sh.(left := sh.left[c := |sh.list[c]|]);
    }

    /** One turn of the inner loop; `i` callbacks have run before it. */
    method SweepOne(c: ContextId, script: nat -> seq<Action>, i: nat) returns (s: SocketId, fires: bool)
      requires Good(Now()) && c in ctxs && ctxs[c].cursor.Sock?
      modifies this
      ensures Sock(s) == old(ctxs)[c].cursor && s in old(socks) && fires == (old(socks)[s].timeout == 1)
      ensures Now() == NextVisit(old(Now()), c, script, i)
    {
      s := ctxs[c].cursor.s;
      NextVisitKeepsGood(Now(), c, script, i);
      fires := VisitSocket(c, s, script(i));
    }

    /** The inner loop of the timer sweep from where it stands (loop.c, lines 86-105). */
    method SweepRest(c: ContextId, script: nat -> seq<Action>) returns (visited: seq<SocketId>, fired: seq<SocketId>)
      requires Good(Now()) && c in ctxs
      modifies this
      ensures Swept(Now(), visited, fired) == SweepFrom(old(Now()), c, script, 0)
    {
      visited, fired := [], [];
      ghost var f := Now();
      ghost var whole := SweepFrom(f, c, script, 0);
      UptoStarts(f, c, script);
      while ctxs[c].cursor.Sock?
        invariant f == Now() && Upto(whole, f, c, script, visited, fired)
        decreases Left(f, c)
      {
        UptoStep(whole, f, c, script, visited, fired);
        f := NextVisit(f, c, script, |fired|);
        var s, fires := SweepOne(c, script, |fired|);
        visited := visited + [s];
        if fires {
          fired := fired + [s];
        }
      }
      UptoEnds(whole, f, c, script, visited, fired);
    }

    /** The sweep of one context: `script(i)` is what the i-th `on_socket_timeout` callback does. */
    method Sweep(c: ContextId, script: nat -> seq<Action>) returns (visited: seq<SocketId>, fired: seq<SocketId>)
      requires Good(Now()) && c in ctxs
      modifies this
      ensures Swept(Now(), visited, fired) == SweepContext(old(Now()), c, script)
    {
      StartSweep(c);
      visited, fired := SweepRest(c, script);
    }

    /** `us_internal_timer_sweep` (loop.c, lines 80-106): follows `next` from the first context on. */
    method SweepLoop(head: Ptr, next: map<ContextId, Ptr>, scripts: ContextId -> nat -> seq<Action>,
        ghost order: seq<ContextId>)
      returns (ghost fs: seq<Full>, ghost rs: seq<Swept>)
      requires InOrder(Now(), order) && ContextChain(head, next, order)
      modifies this
      ensures LoopSweep(fs, order, scripts, rs) && fs[0] == old(Now()) && fs[|order|] == Now()
    {
      var p := head;
      ghost var i := 0;
      fs, rs := [Now()], [];
      assert order[0..] == order;
      while p.Ctx?
        invariant i <= |order| && ContextChain(p, next, order[i..]) && InOrder(Now(), order)
        invariant LoopSweep(fs, order[..i], scripts, rs) && fs[0] == old(Now()) && fs[i] == Now()
        decreases |order| - i
      {
        ghost var f := Now();
        var visited, fired := Sweep(p.c, scripts(p.c));
        LoopOneMore(fs, order, scripts, rs, i, Swept(Now(), visited, fired));
        fs, rs := fs + [Now()], rs + [Swept(Now(), visited, fired)];
        p, i := next[p.c], i + 1;
      }
      assert order[..i] == order;
    }

    /** The loop of `us_internal_free_closed_sockets` (loop.c, lines 118-123). */
    method FreeChain(ghost closed: seq<SocketId>)
      requires NoDup(closed) && ClosedChain(socks, closed) && closedHead == PtrAt(closed, 0)
      modifies this`socks
      ensures socks == old(socks) - (set s | s in closed)
    {
      var p := closedHead;
      ghost var i := 0;
      while p.Sock?
        invariant i <= |closed| && p == PtrAt(closed, i)
        invariant socks == old(socks) - (set s | s in closed[..i])
        decreases |closed| - i
      {
        assert ClosedNodeOk(old(socks), closed, i);
        var next := socks[p.s].next;
        socks := socks - {p.s};
        assert closed[..i + 1] == closed[..i] + [p.s];
        p, i := next, i + 1;
      }
      assert closed[..i] == closed;
    }

    /** `us_internal_free_closed_sockets` (loop.c, lines 115-126). */
    method FreeClosed()
      requires Good(Now())
      modifies this
      ensures Now() == FreeAll(old(Now()))
      ensures closedHead == Null && sh.closed == []
      ensures socks == old(socks) - set s | s in old(sh.closed)
    {
      FreeChain(sh.closed);
      closedHead := Null;
      log := log + FreedEntries(sh.closed);
      sh := sh.(closed := []);
    }

    /** The `on_writable` round of a ready poll (loop.c, lines 200-214). */
    method Writable(s: SocketId, acts: seq<Action>)
      modifies this
      ensures Now() == WritableRound(old(Now()), s, acts)
      ensures old(Good(Now())) ==> Good(Now())
      ensures s in socks && !IsClosed(Now().st, s) && ShortIn(old(Now()).(lastWriteFailed := false), acts) == {} ==>
                !socks[s].writable
    {
      if Good(Now()) {
        WritableKeepsGood(Now(), s, acts);
      }
      FlagFollowsWrites(Now().(lastWriteFailed := false), acts);
      lastWriteFailed := false;
      ghost var short := ShortIn(Now(), acts) != {};
      Run(acts);
      if s in socks && socks[s].prev != Ctx(socks[s].context) {
        pending := if short then pending else pending - {s};
        if !lastWriteFailed || socks[s].shutDown {
          socks := socks[s := socks[s].(writable := false)];
        }
      }
    }

    /** The reading part of a ready poll (loop.c, lines 216-231). */
    method Readable(s: SocketId, recv: Recv, onClose: seq<Action>)
      requires s in socks
      modifies this
      ensures Now() == ReadRound(old(Now()), s, recv, onClose)
      ensures old(Good(Now())) ==> Good(Now())
      ensures recv.WouldBlock? ==> Now() == old(Now())
      ensures old(Good(Now())) && recv.RecvError? ==> s in socks && IsClosed(Now().st, s)
      ensures old(Good(Now())) && recv.EndOfStream? && old(socks)[s].shutDown ==> s in socks && IsClosed(Now().st, s)
    {
      if Good(Now()) {
        ReadKeepsGood(Now(), s, recv, onClose);
        CloseCloses(Now(), s, onClose);
      }
      match recv {
      case Data(onData) => Run(onData);
      case EndOfStream(onEnd) =>
        if socks[s].shutDown {
          CloseSocket(s, onClose);
        } else {
          socks := socks[s := socks[s].(readable := false)];
          Run(onEnd);
        }
      case WouldBlock =>
      case RecvError => CloseSocket(s, onClose);
      }
    }

    /** The SOCKET and SOCKET_SHUT_DOWN cases of `us_internal_dispatch_ready_poll` (loop.c, lines 189-236). */
    method DispatchPoll(s: SocketId, e: Ready)
      requires s in socks
      modifies this
      ensures Now() == Dispatch(old(Now()), s, e)
      ensures !e.error && !e.writable && (e.readable ==> e.recv.WouldBlock?) ==> Now() == old(Now())
      ensures old(Good(Now())) ==>
                && Good(Now())
                && ClosesJust(old(Now()), Now(),
                     CallbacksClose(old(Now()), s, e) + if LoopCloses(old(Now()), s, e) then {s} else {})
    {
      if Good(Now()) {
        DispatchKeepsGood(Now(), s, e);
        PollClosesExactly(Now(), s, e);
      }
      if e.error {
        CloseSocket(s, e.onClose);
        return;
      }
      if e.writable {
        Writable(s, e.onWritable);
        if s !in socks || socks[s].prev == Ctx(socks[s].context) {
          return;
        }
      }
      if e.readable {
        Readable(s, e.recv, e.onClose);
      }
    }
  }

  /** The sweep's visit of the socket it stands at, with the callback's number. */
  function NextVisit(f: Full, c: ContextId, script: nat -> seq<Action>, i: nat): (f': Full)
    requires Good(f) && c in f.st.ctxs && f.st.ctxs[c].cursor.Sock?
  {
    VisitStep(f, c, f.st.ctxs[c].cursor.s, script(i));
    Visit(f, c, f.st.ctxs[c].cursor.s, script(i))
  }

  lemma NextVisitKeepsGood(f: Full, c: ContextId, script: nat -> seq<Action>, i: nat)
    requires Good(f) && c in f.st.ctxs && f.st.ctxs[c].cursor.Sock?
    ensures f.st.ctxs[c].cursor.s in f.st.socks
    ensures var f' := NextVisit(f, c, script, i);
            Good(f') && c in f'.st.ctxs && c in f.sh.left && c in f'.sh.left && f'.sh.left[c] < f.sh.left[c]
  {
    VisitStep(f, c, f.st.ctxs[c].cursor.s, script(i));
  }

  lemma SweepUnfolds(f: Full, c: ContextId, script: nat -> seq<Action>, i: nat)
    requires Good(f) && c in f.st.ctxs && f.st.ctxs[c].cursor.Sock? && f.st.ctxs[c].cursor.s in f.st.socks
    requires var f' := NextVisit(f, c, script, i); Good(f') && c in f'.st.ctxs
    ensures var s := f.st.ctxs[c].cursor.s; var fires := f.st.socks[s].timeout == 1;
            var r := SweepFrom(NextVisit(f, c, script, i), c, script, if fires then i + 1 else i);
            SweepFrom(f, c, script, i) == Swept(r.f, [s] + r.visited, if fires then [s] + r.fired else r.fired)
  {
  }

  /** A sweep that continues after `visited` and `fired`. */
  function Follow(visited: seq<SocketId>, fired: seq<SocketId>, r: Swept): (q: Swept) {
    Swept(r.f, visited + r.visited, fired + r.fired)
  }

  /** One more socket visited. */
  lemma FollowOne(visited: seq<SocketId>, fired: seq<SocketId>, s: SocketId, fires: bool, r: Swept)
    ensures Follow(visited, fired, Swept(r.f, [s] + r.visited, if fires then [s] + r.fired else r.fired)) ==
            Follow(visited + [s], if fires then fired + [s] else fired, r)
  {
    assert visited + ([s] + r.visited) == (visited + [s]) + r.visited;
    assert fired + ([s] + r.fired) == (fired + [s]) + r.fired;
  }

  lemma FollowNothing(visited: seq<SocketId>, fired: seq<SocketId>, f: Full)
    ensures Follow(visited, fired, Swept(f, [], [])) == Swept(f, visited, fired)
  {
  }

  lemma SweepStops(f: Full, c: ContextId, script: nat -> seq<Action>, i: nat)
    requires InSweep(f, c) && !f.st.ctxs[c].cursor.Sock?
    ensures SweepFrom(f, c, script, i) == Swept(f, [], [])
  {
  }

  ghost predicate InSweep(f: Full, c: ContextId) {
    Good(f) && c in f.st.ctxs
  }

  /** How many sockets of the context's list the sweep has before it. */
  ghost function Left(f: Full, c: ContextId): (n: nat) {
    if c in f.sh.left then f.sh.left[c] else 0
  }

  /** The sweep `whole` is what `visited` and `fired` and the sweep from `f` on make. */
  ghost predicate Upto(whole: Swept, f: Full, c: ContextId, script: nat -> seq<Action>, visited: seq<SocketId>,
      fired: seq<SocketId>) {
    InSweep(f, c) && whole == Follow(visited, fired, SweepFrom(f, c, script, |fired|))
  }

  lemma UptoStarts(f: Full, c: ContextId, script: nat -> seq<Action>)
    requires InSweep(f, c)
    ensures Upto(SweepFrom(f, c, script, 0), f, c, script, [], [])
  {
    var r := SweepFrom(f, c, script, 0);
    assert [] + r.visited == r.visited && [] + r.fired == r.fired;
  }

  lemma UptoStep(whole: Swept, f: Full, c: ContextId, script: nat -> seq<Action>, visited: seq<SocketId>,
      fired: seq<SocketId>)
    requires Upto(whole, f, c, script, visited, fired) && f.st.ctxs[c].cursor.Sock?
    ensures f.st.ctxs[c].cursor.s in f.st.socks
    ensures var s := f.st.ctxs[c].cursor.s; var f' := NextVisit(f, c, script, |fired|);
            && Left(f', c) < Left(f, c)
            && Upto(whole, f', c, script, visited + [s], if f.st.socks[s].timeout == 1 then fired + [s] else fired)
  {
    NextVisitKeepsGood(f, c, script, |fired|);
    SweepUnfolds(f, c, script, |fired|);
    var s := f.st.ctxs[c].cursor.s;
    var fires := f.st.socks[s].timeout == 1;
    FollowOne(visited, fired, s, fires, SweepFrom(NextVisit(f, c, script, |fired|), c, script,
        if fires then |fired| + 1 else |fired|));
  }

  lemma UptoEnds(whole: Swept, f: Full, c: ContextId, script: nat -> seq<Action>, visited: seq<SocketId>,
      fired: seq<SocketId>)
    requires Upto(whole, f, c, script, visited, fired) && !f.st.ctxs[c].cursor.Sock?
    ensures whole == Swept(f, visited, fired)
  {
    SweepStops(f, c, script, |fired|);
    FollowNothing(visited, fired, f);
  }

  /** A closed socket stays closed whatever its `on_close` callback does. */
  lemma CloseCloses(f: Full, s: SocketId, onClose: seq<Action>)
    requires Good(f) && s in f.st.socks
    ensures var f' := Exec(f, Close(s, onClose)); Good(f') && s in f'.st.socks && IsClosed(f'.st, s)
  {
    ExecKeepsGood(f, Close(s, onClose));
    var f' := Exec(f, Close(s, onClose));
    assert Located(f.st, f.sh, s);
    IsClosedExactly(f.st, f.sh, s);
    if CanClose(f, s) {
      var f1 := CloseOne(f, s);
      CloseOneKeepsGood(f, s);
      ClosedAfterClose(f, s);
      RunKeepsGood(f1, onClose);
      StaysClosed(f1, f', s);
    }
  }

  lemma StaysClosed(f: Full, f': Full, s: SocketId)
    requires Good(f) && Good(f') && Continues(f, f') && s in f.sh.closed
    ensures s in f'.st.socks && IsClosed(f'.st, s)
  {
    ClosedMembers(f.st.socks, f.sh.closed, s);
    assert OnClose(s) in f.log;
    assert OnClose(s) in f'.log;
    IsClosedExactly(f'.st, f'.sh, s);
  }

  // ----- the contexts of the loop

  /** From `p` on the `next` pointers lead through the contexts `order`. */
  ghost predicate ContextChain(p: Ptr, next: map<ContextId, Ptr>, order: seq<ContextId>)
    decreases |order|
  {
    if order == [] then p == Null
    else p == Ctx(order[0]) && order[0] in next && ContextChain(next[order[0]], next, order[1..])
  }

  ghost predicate InOrder(f: Full, order: seq<ContextId>) {
    Good(f) && NoDup(order) && forall c :: c in order ==> c in f.st.ctxs
  }

  lemma LoopOneMore(fs: seq<Full>, order: seq<ContextId>, scripts: ContextId -> nat -> seq<Action>, rs: seq<Swept>,
      i: nat, r: Swept)
    requires i < |order| && LoopSweep(fs, order[..i], scripts, rs) && InOrder(fs[i], order)
    requires r == SweepContext(fs[i], order[i], scripts(order[i]))
    ensures LoopSweep(fs + [r.f], order[..i + 1], scripts, rs + [r]) && InOrder(r.f, order)
    ensures order[i..][1..] == order[i + 1..]
  {
    SweepKeepsOrder(fs[i], order, i, scripts(order[i]));
    assert LoopStep(fs[i], order[i], scripts(order[i]), r, r.f);
    LoopAppend(fs, order, scripts, rs, i, r);
  }

  lemma SweepKeepsOrder(f: Full, order: seq<ContextId>, i: nat, script: nat -> seq<Action>)
    requires i < |order| && InOrder(f, order)
    ensures order[i] in f.st.ctxs && InOrder(SweepContext(f, order[i], script).f, order)
  {
    SweepVisitsExactlyOnce(f, order[i], script);
  }

  lemma LoopAppend(fs: seq<Full>, order: seq<ContextId>, scripts: ContextId -> nat -> seq<Action>, rs: seq<Swept>,
      i: nat, r: Swept)
    requires i < |order| && LoopSweep(fs, order[..i], scripts, rs) && NoDup(order)
    requires LoopStep(fs[i], order[i], scripts(order[i]), r, r.f)
    ensures LoopSweep(fs + [r.f], order[..i + 1], scripts, rs + [r])
  {
    var fs', rs', cs := fs + [r.f], rs + [r], order[..i + 1];
    forall k | 0 <= k < |cs|
      ensures LoopStep(fs'[k], cs[k], scripts(cs[k]), rs'[k], fs'[k + 1])
    {
      assert k < i ==> LoopStep(fs[k], order[..i][k], scripts(order[..i][k]), rs[k], fs[k + 1]);
    }
  }
}
