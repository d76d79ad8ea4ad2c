/**
 What a call, a callback and a ready poll of uSockets do to the sockets
 (SocketExams/uSockets/src/socket.c, lines 26-100, and loop.c, lines 115-126, 168-181 and 189-236): which
 sockets are closed and which are not, and what each socket polls for.
 */
module USocketPolls {
  import opened USocketLists
  import opened USocketLoop
  import opened USocketEvents
  import opened USocketSweep
  import opened USocketDispatch
  import opened USocketWrites

  // ----- who is closed

  /** The sockets that the call closes, or the callback it leads to. */
  function ClosesOne(f: Full, a: Action): (r: set<SocketId>)
    decreases a
  {
    match a
    case Close(s, onClose) => if CanClose(f, s) then {s} + ClosesIn(CloseOne(f, s), onClose) else {}
    case _ => {}
  }

  /** The sockets that the callback closes. */
  function ClosesIn(f: Full, acts: seq<Action>): (r: set<SocketId>)
    decreases acts
  {
    if acts == [] then {} else ClosesOne(f, acts[0]) + ClosesIn(Exec(f, acts[0]), acts[1..])
  }

  /** `f'` has the closed sockets of `f` and those of `r`. */
  ghost predicate ClosesJust(f: Full, f': Full, r: set<SocketId>) {
    forall x :: x in f'.sh.closed <==> x in f.sh.closed || x in r
  }

  lemma OtherCallsCloseNone(f: Full, a: Action)
    requires !a.Close?
    ensures Exec(f, a).sh.closed == f.sh.closed
  {
  }

  lemma {:induction false} CallClosesExactly(f: Full, a: Action)
    requires Good(f)
    ensures ClosesJust(f, Exec(f, a), ClosesOne(f, a))
    decreases a
  {
    if a.Close? {
      if CanClose(f, a.s) {
        ClosedAfterClose(f, a.s);
        CloseOneKeepsGood(f, a.s);
        CallbackClosesExactly(CloseOne(f, a.s), a.onClose);
      }
    } else {
      OtherCallsCloseNone(f, a);
    }
  }

  /** After a callback just those sockets are closed that were before and those that it has closed. */
  lemma {:induction false} CallbackClosesExactly(f: Full, acts: seq<Action>)
    requires Good(f)
    ensures ClosesJust(f, RunActions(f, acts), ClosesIn(f, acts))
    decreases acts
  {
    if acts != [] {
      CallClosesExactly(f, acts[0]);
      ExecKeepsGood(f, acts[0]);
      CallbackClosesExactly(Exec(f, acts[0]), acts[1..]);
    }
  }

  /** The state in which the reading part of a ready poll begins. */
  function BeforeRead(f: Full, s: SocketId, e: Ready): (f1: Full) {
    if e.writable then WritableRound(f, s, e.onWritable) else f
  }

  /** The socket is read: no error, it is readable, and it has outlived `on_writable`. */
  predicate Reads(f: Full, s: SocketId, e: Ready) {
    var f1 := BeforeRead(f, s, e);
    !e.error && e.readable && s in f1.st.socks && (e.writable ==> f1.st.socks[s].prev != Ctx(f1.st.socks[s].context))
  }

  /** The loop itself closes the socket: on an error, a read error, or the end of the stream after a shutdown. */
  predicate LoopCloses(f: Full, s: SocketId, e: Ready) {
    var f1 := BeforeRead(f, s, e);
    e.error || (Reads(f, s, e) && (e.recv.RecvError? || (e.recv.EndOfStream? && f1.st.socks[s].shutDown)))
  }

  /** The sockets that `on_close` closes when the loop closes `s`. */
  function OnCloseCloses(f: Full, s: SocketId, onClose: seq<Action>): (r: set<SocketId>) {
    if CanClose(f, s) then ClosesIn(CloseOne(f, s), onClose) else {}
  }

  /** The sockets closed by calls of the callbacks that run. */
  function CallbacksClose(f: Full, s: SocketId, e: Ready): (r: set<SocketId>)
    requires s in f.st.socks
  {
    if e.error then OnCloseCloses(f, s, e.onClose)
    else
      var f1 := BeforeRead(f, s, e);
      (if e.writable then ClosesIn(f.(lastWriteFailed := false), e.onWritable) else {}) +
      (if !Reads(f, s, e) then {}
       else if LoopCloses(f, s, e) then OnCloseCloses(f1, s, e.onClose)
       else if e.recv.Data? then ClosesIn(f1, e.recv.onData)
       else if e.recv.EndOfStream? then ClosesIn(SetSocket(f1, s, f1.st.socks[s].(readable := false)), e.recv.onEnd)
       else {})
  }

  lemma ClosesByLoop(f: Full, s: SocketId, onClose: seq<Action>)
    requires Good(f) && s in f.st.socks
    ensures ClosesJust(f, Exec(f, Close(s, onClose)), OnCloseCloses(f, s, onClose) + {s})
  {
    CallClosesExactly(f, Close(s, onClose));
    IsClosedExactly(f.st, f.sh, s);
    assert Located(f.st, f.sh, s);
  }

  lemma WritableClosesExactly(f: Full, s: SocketId, acts: seq<Action>)
    requires Good(f)
    ensures ClosesJust(f, WritableRound(f, s, acts), ClosesIn(f.(lastWriteFailed := false), acts))
  {
    FlagKeepsGood(f, false);
    CallbackClosesExactly(f.(lastWriteFailed := false), acts);
  }

  lemma ReadClosesExactly(f: Full, s: SocketId, recv: Recv, onClose: seq<Action>)
    requires Good(f) && s in f.st.socks
    ensures var f' := ReadRound(f, s, recv, onClose);
            if recv.RecvError? || (recv.EndOfStream? && f.st.socks[s].shutDown) then
              ClosesJust(f, f', OnCloseCloses(f, s, onClose) + {s})
            else if recv.Data? then ClosesJust(f, f', ClosesIn(f, recv.onData))
            else if recv.EndOfStream? then
              ClosesJust(f, f', ClosesIn(SetSocket(f, s, f.st.socks[s].(readable := false)), recv.onEnd))
            else f' == f
  {
    ClosesByLoop(f, s, onClose);
    match recv
    case Data(onData) => CallbackClosesExactly(f, onData);
    case EndOfStream(onEnd) =>
      assert PollOk(f.st.socks[s], s in f.pending);
      SetSocketKeepsGood(f, s, f.st.socks[s].(readable := false), f.pending);
      CallbackClosesExactly(SetSocket(f, s, f.st.socks[s].(readable := false)), onEnd);
    case _ =>
  }

  lemma ClosesThen(f: Full, f1: Full, f2: Full, a: set<SocketId>, b: set<SocketId>)
    requires ClosesJust(f, f1, a) && ClosesJust(f1, f2, b)
    ensures ClosesJust(f, f2, a + b)
  {
  }

  lemma BeforeReadCloses(f: Full, s: SocketId, e: Ready)
    requires Good(f)
    ensures Good(BeforeRead(f, s, e))
    ensures ClosesJust(f, BeforeRead(f, s, e),
                       if e.writable then ClosesIn(f.(lastWriteFailed := false), e.onWritable) else {})
  {
    if e.writable {
      WritableKeepsGood(f, s, e.onWritable);
      WritableClosesExactly(f, s, e.onWritable);
    }
  }

  lemma DispatchParts(f: Full, s: SocketId, e: Ready)
    requires s in f.st.socks && !e.error
    ensures var f1 := BeforeRead(f, s, e);
            Dispatch(f, s, e) == if Reads(f, s, e) then ReadRound(f1, s, e.recv, e.onClose) else f1
  {
  }

  /**
   After a ready poll just those sockets are closed that were before, those that a callback that runs
   has closed, and the socket itself if there was an error, a read error, or the end of the stream
   after a shutdown.
   */
  lemma PollClosesExactly(f: Full, s: SocketId, e: Ready)
    requires Good(f) && s in f.st.socks
    ensures ClosesJust(f, Dispatch(f, s, e), CallbacksClose(f, s, e) + if LoopCloses(f, s, e) then {s} else {})
  {
    if e.error {
      ClosesByLoop(f, s, e.onClose);
    } else {
      BeforeReadCloses(f, s, e);
      DispatchParts(f, s, e);
      if Reads(f, s, e) {
        ReadPollCloses(f, s, e);
      }
    }
  }

  lemma ReadPollCloses(f: Full, s: SocketId, e: Ready)
    requires Good(f) && s in f.st.socks && Reads(f, s, e)
    ensures ClosesJust(f, ReadRound(BeforeRead(f, s, e), s, e.recv, e.onClose),
                       CallbacksClose(f, s, e) + if LoopCloses(f, s, e) then {s} else {})
  {
    BeforeReadCloses(f, s, e);
    ReadClosesExactly(BeforeRead(f, s, e), s, e.recv, e.onClose);
    AfterRead(f, s, e, if e.writable then ClosesIn(f.(lastWriteFailed := false), e.onWritable) else {});
  }

  lemma AfterRead(f: Full, s: SocketId, e: Ready, w: set<SocketId>)
    requires s in f.st.socks && Reads(f, s, e) && ClosesJust(f, BeforeRead(f, s, e), w)
    requires w == if e.writable then ClosesIn(f.(lastWriteFailed := false), e.onWritable) else {}
    requires var f1 := BeforeRead(f, s, e); var f' := ReadRound(f1, s, e.recv, e.onClose);
             if e.recv.RecvError? || (e.recv.EndOfStream? && f1.st.socks[s].shutDown) then
               ClosesJust(f1, f', OnCloseCloses(f1, s, e.onClose) + {s})
             else if e.recv.Data? then ClosesJust(f1, f', ClosesIn(f1, e.recv.onData))
             else if e.recv.EndOfStream? then
               ClosesJust(f1, f', ClosesIn(SetSocket(f1, s, f1.st.socks[s].(readable := false)), e.recv.onEnd))
             else f' == f1
    ensures ClosesJust(f, ReadRound(BeforeRead(f, s, e), s, e.recv, e.onClose),
                       CallbacksClose(f, s, e) + if LoopCloses(f, s, e) then {s} else {})
  {
  }

  /** So an open socket that no callback closes is closed by a ready poll if and only if the loop closes it. */
  lemma PollClosesOnlyItself(f: Full, s: SocketId, e: Ready, x: SocketId)
    requires Good(f) && s in f.st.socks && x !in f.sh.closed && x !in CallbacksClose(f, s, e)
    ensures x in Dispatch(f, s, e).sh.closed <==> x == s && LoopCloses(f, s, e)
  {
    PollClosesExactly(f, s, e);
  }

  /** A poll with nothing to do, and a read that would block, change nothing at all. */
  lemma NothingHappens(f: Full, s: SocketId, e: Ready)
    requires s in f.st.socks && !e.error && !e.writable && (e.readable ==> e.recv.WouldBlock?)
    ensures Dispatch(f, s, e) == f
  {
  }

  // ----- what a socket polls for

  /** What calls leave of a socket's polls and of the rest of its record. */
  ghost predicate PollsFollow(f: Full, f': Full, x: SocketId, short: set<SocketId>) {
    x in f.st.socks ==>
      && x in f'.st.socks && f'.st.socks[x].context == f.st.socks[x].context
      && (f.st.socks[x].shutDown ==> f'.st.socks[x].shutDown)
      && (f'.st.socks[x].readable <==> f.st.socks[x].readable || x in short)
      && (f'.st.socks[x].writable <==> !f'.st.socks[x].shutDown && (f.st.socks[x].writable || x in short))
  }

  lemma PollsThen(f: Full, f1: Full, f2: Full, x: SocketId, a: set<SocketId>, b: set<SocketId>)
    requires PollsFollow(f, f1, x, a) && PollsFollow(f1, f2, x, b)
    ensures PollsFollow(f, f2, x, a + b)
  {
  }

  lemma CloseOnePolls(f: Full, s: SocketId, x: SocketId)
    requires Good(f) && CanClose(f, s)
    ensures PollsFollow(f, CloseOne(f, s), x, {})
  {
    if x in f.st.socks {
      assert PollOk(f.st.socks[x], x in f.pending);
      CloseKeepsRecords(f.st, s, x);
    }
  }

  lemma OpenOnePolls(f: Full, c: ContextId, x: SocketId)
    requires Good(f) && c in f.st.ctxs
    ensures PollsFollow(f, OpenOne(f, c), x, {})
  {
    if x in f.st.socks {
      assert PollOk(f.st.socks[x], x in f.pending) && Located(f.st, f.sh, x);
      LinkKeepsRecords(f.st, c, x);
    }
  }

  lemma FieldsPolls(f: Full, a: Action, x: SocketId)
    requires Good(f) && (a.Write? || a.Shutdown? || a.SetTimeout?)
    ensures PollsFollow(f, Exec(f, a), x, ShortOne(f, a))
  {
    if x in f.st.socks {
      assert PollOk(f.st.socks[x], x in f.pending);
    }
  }

  lemma PollsThenMore(f: Full, f1: Full, f2: Full, x: SocketId, b: set<SocketId>)
    requires PollsFollow(f, f1, x, {}) && PollsFollow(f1, f2, x, b)
    ensures PollsFollow(f, f2, x, b)
  {
  }

  lemma {:induction false} CallPolls(f: Full, a: Action, x: SocketId)
    requires Good(f)
    ensures PollsFollow(f, Exec(f, a), x, ShortOne(f, a))
    decreases a
  {
    if a.Close? && CanClose(f, a.s) {
      var f1 := CloseOne(f, a.s);
      CloseOnePolls(f, a.s, x);
      CloseOneKeepsGood(f, a.s);
      CallbackPolls(f1, a.onClose, x);
      PollsThenMore(f, f1, RunActions(f1, a.onClose), x, ShortIn(f1, a.onClose));
    } else if a.Close? {
      NoPollsChange(f, x);
    } else {
      OwnCallPolls(f, a, x);
    }
  }

  lemma OwnCallPolls(f: Full, a: Action, x: SocketId)
    requires Good(f) && !a.Close?
    ensures PollsFollow(f, Exec(f, a), x, ShortOne(f, a))
  {
    if a.Open? {
      if a.c in f.st.ctxs {
        OpenOnePolls(f, a.c, x);
      } else {
        NoPollsChange(f, x);
      }
    } else {
      FieldsPolls(f, a, x);
    }
  }

  lemma NoPollsChange(f: Full, x: SocketId)
    requires Good(f)
    ensures PollsFollow(f, f, x, {})
  {
    if x in f.st.socks {
      assert PollOk(f.st.socks[x], x in f.pending);
    }
  }

  /**
   After a callback a socket polls for READABLE exactly if it did before or some write on it fell
   short, and for WRITABLE exactly under the same condition and if it is not shut down.
   */
  lemma {:induction false} CallbackPolls(f: Full, acts: seq<Action>, x: SocketId)
    requires Good(f)
    ensures PollsFollow(f, RunActions(f, acts), x, ShortIn(f, acts))
    decreases acts
  {
    if acts == [] {
      NoPollsChange(f, x);
    } else {
      var f1 := Exec(f, acts[0]);
      CallPolls(f, acts[0], x);
      ExecKeepsGood(f, acts[0]);
      CallbackPolls(f1, acts[1..], x);
      PollsThen(f, f1, RunActions(f1, acts[1..]), x, ShortOne(f, acts[0]), ShortIn(f1, acts[1..]));
    }
  }

  /** The end of an `on_writable` round takes WRITABLE from its own socket at most, and nothing else from anyone. */
  lemma RoundEndPolls(g: Full, s: SocketId, short: bool, x: SocketId)
    requires x in g.st.socks
    ensures var g' := RoundEnds(g, s, short);
            && x in g'.st.socks
            && g'.st.socks[x] ==
               if x == s && !IsClosed(g.st, s) && (!g.lastWriteFailed || g.st.socks[s].shutDown)
               then g.st.socks[x].(writable := false) else g.st.socks[x]
  {
  }

  /**
   At the end of the stream on a socket that is not shut down, `on_end` begins in the state there was,
   but for the socket's READABLE poll, which has ended.
   */
  lemma EndOfStreamStopsReading(f: Full, s: SocketId, onEnd: seq<Action>, onClose: seq<Action>)
    requires s in f.st.socks && !f.st.socks[s].shutDown
    ensures var g := ReadRound(f, s, EndOfStream([]), onClose);
            && ReadRound(f, s, EndOfStream(onEnd), onClose) == RunActions(g, onEnd)
            && s in g.st.socks && !g.st.socks[s].readable
            && g == f.(st := f.st.(socks := f.st.socks[s := g.st.socks[s]]))
            && g.st.socks[s] == f.st.socks[s].(readable := g.st.socks[s].readable)
  {
  }

  // ----- a sweep

  /** The sockets that the callbacks of a sweep close. */
  ghost function ClosesSweep(f: Full, c: ContextId, script: nat -> seq<Action>, i: nat): (r: set<SocketId>)
    requires Good(f) && c in f.st.ctxs
    decreases if c in f.sh.left then f.sh.left[c] else 0
  {
    var cursor := f.st.ctxs[c].cursor;
    if !cursor.Sock? then {}
    else
      VisitStep(f, c, cursor.s, script(i));
      var f' := Visit(f, c, cursor.s, script(i));
      if f.st.socks[cursor.s].timeout == 1 then
        ClosesIn(Counted(f, cursor.s), script(i)) + ClosesSweep(f', c, script, i + 1)
      else ClosesSweep(f', c, script, i)
  }

  /** Counting a timer down changes nothing but the timer, and notes the visit. */
  lemma CountedExactly(f: Full, s: SocketId)
    requires s in f.st.socks
    ensures var a, f' := f.st.socks[s], Counted(f, s);
            && s in f'.st.socks
            && f'.st.socks[s].timeout == (if a.timeout == 0 then 0 else a.timeout - 1)
            && f'.st.socks[s] == a.(timeout := f'.st.socks[s].timeout)
            && f'.st.socks == f.st.socks[s := f'.st.socks[s]] && f'.st.ctxs == f.st.ctxs && f'.sh == f.sh
            && f'.log == f.log + [Visited(s)] && f'.pending == f.pending && f'.lastWriteFailed == f.lastWriteFailed
  {
  }

  /** What one visit closes and what it leaves of the polls. */
  lemma VisitPolls(f: Full, c: ContextId, s: SocketId, acts: seq<Action>, x: SocketId)
    requires Good(f) && c in f.st.ctxs && f.st.ctxs[c].cursor == Sock(s) && s in f.st.socks
    ensures var f' := Visit(f, c, s, acts); var fires := f.st.socks[s].timeout == 1;
            && ClosesJust(f, f', if fires then ClosesIn(Counted(f, s), acts) else {})
            && PollsFollow(f, f', x, if fires then ShortIn(Counted(f, s), acts) else {})
  {
    CursorSocket(f, c);
    CountedKeepsGood(f, s);
    var f1 := Counted(f, s);
    CountedExactly(f, s);
    NoPollsChange(f, x);
    assert PollsFollow(f, f1, x, {});
    if f.st.socks[s].timeout == 1 {
      CallbackClosesExactly(f1, acts);
      CallbackPolls(f1, acts, x);
      PollsThenMore(f, f1, RunActions(f1, acts), x, ShortIn(f1, acts));
    }
  }

  lemma ClosesThenMore(f: Full, f1: Full, f2: Full, a: set<SocketId>, b: set<SocketId>, c: set<SocketId>)
    requires ClosesJust(f, f1, a) && ClosesJust(f1, f2, b) && c == a + b
    ensures ClosesJust(f, f2, c)
  {
  }

  lemma PollsThenAll(f: Full, f1: Full, f2: Full, x: SocketId, a: set<SocketId>, b: set<SocketId>, c: set<SocketId>)
    requires PollsFollow(f, f1, x, a) && PollsFollow(f1, f2, x, b) && c == a + b
    ensures PollsFollow(f, f2, x, c)
  {
  }

  /** A sweep closes just what its callbacks close, and changes polls only by the writes they make. */
  lemma {:induction false} SweepPolls(f: Full, c: ContextId, script: nat -> seq<Action>, i: nat, x: SocketId)
    requires Good(f) && c in f.st.ctxs
    ensures ClosesJust(f, SweepFrom(f, c, script, i).f, ClosesSweep(f, c, script, i))
    ensures PollsFollow(f, SweepFrom(f, c, script, i).f, x, ShortSweep(f, c, script, i))
    decreases if c in f.sh.left then f.sh.left[c] else 0
  {
    var cursor := f.st.ctxs[c].cursor;
    if cursor.Sock? {
      var s := cursor.s;
      VisitStep(f, c, s, script(i));
      var f', fires := Visit(f, c, s, script(i)), f.st.socks[s].timeout == 1;
      var j := if fires then i + 1 else i;
      VisitPolls(f, c, s, script(i), x);
      SweepPolls(f', c, script, j, x);
      SweepGoesOn(f, c, script, i, s, f', j);
      ClosesGoOn(f, c, script, i, s, f', j);
      ShortGoesOn(f, c, script, i, s, f', j);
      var f2 := SweepFrom(f', c, script, j).f;
      ClosesThenMore(f, f', f2, if fires then ClosesIn(Counted(f, s), script(i)) else {},
        ClosesSweep(f', c, script, j), ClosesSweep(f, c, script, i));
      PollsThenAll(f, f', f2, x, if fires then ShortIn(Counted(f, s), script(i)) else {},
        ShortSweep(f', c, script, j), ShortSweep(f, c, script, i));
    } else {
      NoPollsChange(f, x);
    }
  }

  lemma SweepGoesOn(f: Full, c: ContextId, script: nat -> seq<Action>, i: nat, s: SocketId, f': Full, j: nat)
    requires Good(f) && c in f.st.ctxs && f.st.ctxs[c].cursor == Sock(s) && s in f.st.socks
    requires f' == Visit(f, c, s, script(i)) && Good(f') && c in f'.st.ctxs
    requires j == if f.st.socks[s].timeout == 1 then i + 1 else i
    ensures SweepFrom(f, c, script, i).f == SweepFrom(f', c, script, j).f
  {
  }

  lemma ClosesGoOn(f: Full, c: ContextId, script: nat -> seq<Action>, i: nat, s: SocketId, f': Full, j: nat)
    requires Good(f) && c in f.st.ctxs && f.st.ctxs[c].cursor == Sock(s) && s in f.st.socks
    requires f' == Visit(f, c, s, script(i)) && Good(f') && c in f'.st.ctxs
    requires j == if f.st.socks[s].timeout == 1 then i + 1 else i
    ensures ClosesSweep(f, c, script, i) ==
            (if f.st.socks[s].timeout == 1 then ClosesIn(Counted(f, s), script(i))
                else {}) + ClosesSweep(f', c, script, j)
  {
  }

  lemma ShortGoesOn(f: Full, c: ContextId, script: nat -> seq<Action>, i: nat, s: SocketId, f': Full, j: nat)
    requires Good(f) && c in f.st.ctxs && f.st.ctxs[c].cursor == Sock(s) && s in f.st.socks
    requires f' == Visit(f, c, s, script(i)) && Good(f') && c in f'.st.ctxs
    requires j == if f.st.socks[s].timeout == 1 then i + 1 else i
    ensures ShortSweep(f, c, script, i) ==
            (if f.st.socks[s].timeout == 1 then ShortIn(Counted(f, s), script(i))
                else {}) + ShortSweep(f', c, script, j)
  {
  }

  // ----- single calls

  /** A call on a socket touches no other one, and no list. */
  lemma OthersUntouched(f: Full, a: Action, x: SocketId)
    requires a.Write? || a.Shutdown? || a.SetTimeout?
    ensures Exec(f, a).sh == f.sh && Exec(f, a).log == f.log && Exec(f, a).st.ctxs == f.st.ctxs
    ensures x != a.s && x in f.st.socks ==> x in Exec(f, a).st.socks && Exec(f, a).st.socks[x] == f.st.socks[x]
  {
  }

  /** A shutdown takes the WRITABLE poll of an open socket and leaves the rest of its record. */
  lemma ShutdownExactly(f: Full, s: SocketId)
    requires Good(f) && s in f.st.socks && s !in f.sh.closed
    ensures var a, b := f.st.socks[s], Exec(f, Shutdown(s)).st.socks;
            && s in b && b[s].shutDown && !b[s].writable && b[s].readable == a.readable
            && b[s].timeout == a.timeout && b[s].context == a.context && b[s].prev == a.prev && b[s].next == a.next
  {
    assert PollOk(f.st.socks[s], s in f.pending);
    IsClosedExactly(f.st, f.sh, s);
  }

  lemma NewRecord(st: State, sh: Shape, c: ContextId)
    requires Repr(st, sh) && c in st.ctxs
    ensures var s, socks := st.nextId, LinkNew(st, c).socks;
            && s !in st.socks && s in socks && socks[s].context == c && socks[s].timeout == 0
            && !socks[s].shutDown && socks[s].readable && !socks[s].writable
  {
    assert CtxOk(st, sh, c);
    ListsBelowNext(st, sh, c);
    forall x | x in st.socks
      ensures x < st.nextId
    {
      assert Located(st, sh, x);
    }
  }

  /** A new socket is the first of its context's list, has no timeout and polls for READABLE alone. */
  lemma NewSocket(f: Full, c: ContextId)
    requires Good(f) && c in f.st.ctxs
    ensures var s, f' := f.st.nextId, Exec(f, Open(c));
            && s !in f.st.socks && s in f'.st.socks && c in f'.sh.list && c in f.sh.list
            && f'.sh.list[c] == [s] + f.sh.list[c]
            && var x := f'.st.socks[s];
            x.context == c && x.timeout == 0 && !x.shutDown && x.readable && !x.writable
  {
    assert CtxOk(f.st, f.sh, c);
    NewRecord(f.st, f.sh, c);
    assert Exec(f, Open(c)) == OpenOne(f, c);
  }

  /** Freeing takes just the closed sockets out of memory, and leaves the others as they are. */
  lemma FreeFreesClosed(f: Full, x: SocketId)
    requires Good(f)
    ensures var f' := StepOp(f, Free);
            && f'.sh.closed == [] && f'.st.closedHead == Null && f'.sh.list == f.sh.list
            && (x in f'.st.socks <==> x in f.st.socks && x !in f.sh.closed)
            && (x in f'.st.socks ==> f'.st.socks[x] == f.st.socks[x] && !IsClosed(f'.st, x))
  {
    if x in f.st.socks {
      IsClosedExactly(f.st, f.sh, x);
    }
  }
}
