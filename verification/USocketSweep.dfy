/**
 The timer sweep of uSockets (SocketExams/uSockets/src/loop.c, lines 65-112): it follows the `next`
 pointers of each context's list while `on_socket_timeout` callbacks close sockets, link new ones
 and reset timeouts.
 */
module USocketSweep {
  import opened USocketLists
  import opened USocketLoop
  import opened USocketEvents

  /** `context->iterator = s->next`. */
  function Advance(f: Full, c: ContextId, s: SocketId): (f': Full)
    requires c in f.st.ctxs && s in f.st.socks
  {
    f.(st := f.st.(ctxs := f.st.ctxs[c := f.st.ctxs[c].(cursor := f.st.socks[s].next)]), sh := Advanced(f.sh, c))
  }

  /** `context->iterator = context->head`. */
  function Start(f: Full, c: ContextId): (f': Full)
    requires c in f.st.ctxs && c in f.sh.list
  {
    f.(st := f.st.(ctxs := f.st.ctxs[c := f.st.ctxs[c].(cursor := f.st.ctxs[c].head)]),
       sh := f.sh.(left := f.sh.left[c := |f.sh.list[c]|]))
  }

  function Tick(t: nat): (t': nat) {
    if t == 0 then 0 else t - 1
  }

  /** The countdown of line 91, before any callback. */
  function Counted(f: Full, s: SocketId): (f': Full)
    requires s in f.st.socks
  {
    SetSocket(f, s, f.st.socks[s].(timeout := Tick(f.st.socks[s].timeout))).(log := f.log + [Visited(s)])
  }

  /** The body of the inner loop (lines 88-102) at socket `s`; `acts` is what the callback does if it runs. */
  function Visit(f: Full, c: ContextId, s: SocketId, acts: seq<Action>): (f': Full)
    requires c in f.st.ctxs && s in f.st.socks
  {
    var f1 := Counted(f, s);
    MoveOn(if f.st.socks[s].timeout == 1 then RunActions(f1, acts) else f1, c, s)
  }

  // ----- one visit

  /** The socket the sweep stands at. */
  lemma CursorSocket(f: Full, c: ContextId)
    requires Good(f) && c in f.st.ctxs
    ensures c in f.sh.list && c in f.sh.left && f.sh.left[c] <= |f.sh.list[c]|
    ensures f.st.ctxs[c].cursor.Sock? <==> f.sh.left[c] > 0
    ensures !f.st.ctxs[c].cursor.Ctx?
    ensures f.sh.left[c] > 0 ==>
              var l := f.sh.list[c]; var s := l[|l| - f.sh.left[c]];
              f.st.ctxs[c].cursor == Sock(s) && s in f.st.socks && s !in f.sh.closed && f.st.socks[s].context == c
  {
    assert CtxOk(f.st, f.sh, c);
    var l, n := f.sh.list[c], f.sh.left[c];
    if n > 0 {
      ChainMembers(f.st.socks, c, l, l[|l| - n]);
      assert Located(f.st, f.sh, l[|l| - n]);
    }
  }

  lemma CountedKeepsGood(f: Full, s: SocketId)
    requires Good(f) && s in f.st.socks && s !in f.sh.closed
    ensures Good(Counted(f, s)) && Continues(f, Counted(f, s))
  {
    var t := Tick(f.st.socks[s].timeout);
    var f1 := SetSocket(f, s, f.st.socks[s].(timeout := t));
    TimeoutKeepsGood(f, s, t);
    VisitKeepsLog(f1.log, f1.st, f1.sh, s);
    assert Counted(f, s) == f1.(log := f1.log + [Visited(s)]);
  }

  /** Moving the sweep on by one socket changes no list. */
  lemma AdvanceKeepsRepr(f: Full, c: ContextId, s: SocketId)
    requires Good(f) && c in f.st.ctxs && f.st.ctxs[c].cursor == Sock(s) && s in f.st.socks
    ensures var f' := Advance(f, c, s);
            Repr(f'.st, f'.sh) && f.sh.left[c] > 0 && f'.sh.left[c] == f.sh.left[c] - 1
  {
    CursorSocket(f, c);
    var f' := Advance(f, c, s);
    var l, n := f.sh.list[c], f.sh.left[c];
    assert CtxOk(f.st, f.sh, c);
    assert NodeOk(f.st.socks, c, l, |l| - n);
    forall d | d in f'.st.ctxs
      ensures CtxOk(f'.st, f'.sh, d)
    {
      assert CtxOk(f.st, f.sh, d);
    }
    forall x | x in f'.st.socks
      ensures Located(f'.st, f'.sh, x)
    {
      assert Located(f.st, f.sh, x);
    }
  }

  lemma AdvanceKeepsGood(f: Full, c: ContextId, s: SocketId)
    requires Good(f) && c in f.st.ctxs && f.st.ctxs[c].cursor == Sock(s) && s in f.st.socks
    ensures Good(Advance(f, c, s))
    ensures f.sh.left[c] > 0 && Advance(f, c, s).sh == f.sh.(left := f.sh.left[c := f.sh.left[c] - 1])
  {
    AdvanceKeepsRepr(f, c, s);
  }

  lemma StartKeepsGood(f: Full, c: ContextId)
    requires Good(f) && c in f.st.ctxs
    ensures c in f.sh.list && Good(Start(f, c))
    ensures Start(f, c).sh == f.sh.(left := f.sh.left[c := |f.sh.list[c]|])
  {
    assert CtxOk(f.st, f.sh, c);
    var f' := Start(f, c);
    forall d | d in f'.st.ctxs
      ensures CtxOk(f'.st, f'.sh, d)
    {
      assert CtxOk(f.st, f.sh, d);
    }
    forall x | x in f'.st.socks
      ensures Located(f'.st, f'.sh, x)
    {
      assert Located(f.st, f.sh, x);
    }
  }

  /** Time goes on: contexts and sockets stay, closed sockets do not come back, the log grows. */
  ghost predicate Onward(f: Full, f': Full) {
    && f'.st.ctxs.Keys == f.st.ctxs.Keys && f.st.nextId <= f'.st.nextId && f.log <= f'.log
    && (forall s :: s in f.st.socks ==> s in f'.st.socks && f'.st.socks[s].context == f.st.socks[s].context)
    && (forall s :: s in f.st.socks && f.st.socks[s].shutDown ==> f'.st.socks[s].shutDown)
    && (forall d :: d in f.st.ctxs ==> NoneReturns(f, f', d))
  }

  /** What is in the list of `d` was in it before or is new. */
  ghost predicate NoneReturns(f: Full, f': Full, d: ContextId) {
    d in f.sh.list && d in f'.sh.list && forall x :: x in f'.sh.list[d] ==> x in f.sh.list[d] || x >= f.st.nextId
  }

  lemma ContinuesOnward(f: Full, f': Full)
    requires Continues(f, f')
    ensures Onward(f, f')
  {
    forall d | d in f.st.ctxs
      ensures NoneReturns(f, f', d)
    {
      assert ContextEvolves(f.st, f.sh, f'.st, f'.sh, d);
    }
  }

  lemma ListedIsOld(f: Full, c: ContextId, x: SocketId)
    requires Good(f) && c in f.st.ctxs && c in f.sh.list && x in f.sh.list[c]
    ensures x in f.st.socks && x < f.st.nextId && f.st.socks[x].context == c && x !in f.sh.closed
  {
    assert CtxOk(f.st, f.sh, c);
    ChainMembers(f.st.socks, c, f.sh.list[c], x);
    assert Located(f.st, f.sh, x);
  }

  lemma OnwardTrans(f: Full, f': Full, f'': Full)
    requires Onward(f, f') && Onward(f', f'')
    ensures Onward(f, f'')
  {
    forall d | d in f.st.ctxs
      ensures NoneReturns(f, f'', d)
    {
      assert NoneReturns(f, f', d) && NoneReturns(f', f'', d);
    }
  }

  lemma OnwardSameLists(f: Full, f': Full)
    requires Good(f) && f'.st.ctxs.Keys == f.st.ctxs.Keys && f'.st.nextId == f.st.nextId && f'.log == f.log
    requires f'.st.socks == f.st.socks && f'.sh.list == f.sh.list
    ensures Onward(f, f')
  {
    forall d | d in f.st.ctxs
      ensures NoneReturns(f, f', d)
    {
      assert CtxOk(f.st, f.sh, d);
    }
  }

  /** From `l` with `n` left to `l'` with `n'` left by a visit of `s`. */
  ghost predicate Passed(l: seq<SocketId>, n: nat, l': seq<SocketId>, n': nat, s: SocketId)
    requires n <= |l| && n' <= |l'|
  {
    && n' < n
    && (forall x :: InTail(l', n', x) ==> InTail(l, n, x) && x != s)
    && (forall x :: InTail(l, n, x) && x != s && x in l' ==> InTail(l', n', x))
  }

  lemma TailShortens(l: seq<SocketId>, n: nat, x: SocketId)
    requires NoDup(l) && 0 < n <= |l|
    ensures InTail(l, n - 1, x) <==> InTail(l, n, x) && x != l[|l| - n]
  {
    if InTail(l, n, x) && x != l[|l| - n] {
      var i :| |l| - n <= i < |l| && l[i] == x;
      assert |l| - (n - 1) <= i;
    }
  }

  lemma AdvancePasses(l: seq<SocketId>, n: nat, m: seq<SocketId>, k: nat, born: SocketId)
    requires NoDup(m) && 0 < n <= |l| && k <= |m| && CtxEvolves(born, l, n, m, k)
    requires l[|l| - n] in m
    ensures k > 0 && m[|m| - k] == l[|l| - n] && Passed(l, n, m, k - 1, l[|l| - n])
  {
    forall x
      ensures InTail(m, k - 1, x) <==> InTail(m, k, x) && x != m[|m| - k]
    {
      TailShortens(m, k, x);
    }
  }

  lemma ClosedPasses(l: seq<SocketId>, n: nat, m: seq<SocketId>, k: nat, born: SocketId)
    requires 0 < n <= |l| && k <= |m| && CtxEvolves(born, l, n, m, k)
    requires l[|l| - n] !in m
    ensures Passed(l, n, m, k, l[|l| - n])
  {
    forall x | InTail(m, k, x)
      ensures x != l[|l| - n]
    {
      var i :| |m| - k <= i < |m| && m[i] == x;
    }
  }

  /** After the callback the sweep stands at `s` exactly when `s` is still in the list. */
  ghost predicate Returned(f: Full, f2: Full, c: ContextId, s: SocketId) {
    && c in f.sh.list && c in f2.sh.list && c in f.sh.left && c in f2.sh.left && c in f2.st.ctxs
    && f.sh.left[c] <= |f.sh.list[c]| && f2.sh.left[c] <= |f2.sh.list[c]|
    && CtxEvolves(f.st.nextId, f.sh.list[c], f.sh.left[c], f2.sh.list[c], f2.sh.left[c])
    && f.sh.left[c] > 0 && f.sh.list[c][|f.sh.list[c]| - f.sh.left[c]] == s
    && (f2.st.ctxs[c].cursor == Sock(s) <==> s in f2.sh.list[c])
    && NoDup(f2.sh.list[c]) && (s in f2.sh.list[c] ==> s in f2.st.socks)
  }

  lemma AfterCallback(f: Full, f2: Full, c: ContextId, s: SocketId)
    requires Good(f) && Good(f2) && Continues(f, f2) && c in f.st.ctxs && f.st.ctxs[c].cursor == Sock(s)
    ensures Returned(f, f2, c, s)
  {
    CursorSocket(f, c);
    CursorSocket(f2, c);
    assert ContextEvolves(f.st, f.sh, f2.st, f2.sh, c);
    assert CtxOk(f2.st, f2.sh, c);
    if s in f2.sh.list[c] {
      ListedIsOld(f2, c, s);
    }
  }

  /** The end of the loop body: move on if the cursor still stands at `s`. */
  function MoveOn(f2: Full, c: ContextId, s: SocketId): (f': Full) {
    if c in f2.st.ctxs && s in f2.st.socks && f2.st.ctxs[c].cursor == Sock(s) then Advance(f2, c, s) else f2
  }

  lemma MoveOnKeepsGood(f2: Full, c: ContextId, s: SocketId)
    requires Good(f2) && c in f2.st.ctxs
    ensures var f' := MoveOn(f2, c, s);
            && Good(f') && f'.sh.list == f2.sh.list && f'.st.socks == f2.st.socks && f'.sh.closed == f2.sh.closed
            && f'.st.ctxs.Keys == f2.st.ctxs.Keys && f'.st.nextId == f2.st.nextId && f'.log == f2.log
  {
    if s in f2.st.socks && f2.st.ctxs[c].cursor == Sock(s) {
      AdvanceKeepsGood(f2, c, s);
    }
  }

  lemma MoveOnPasses(f: Full, f2: Full, c: ContextId, s: SocketId)
    requires Returned(f, f2, c, s)
    ensures var f' := MoveOn(f2, c, s);
            && c in f'.sh.list && c in f'.sh.left && f'.sh.left[c] <= |f'.sh.list[c]|
            && Passed(f.sh.list[c], f.sh.left[c], f'.sh.list[c], f'.sh.left[c], s)
  {
    var l, n, m, k := f.sh.list[c], f.sh.left[c], f2.sh.list[c], f2.sh.left[c];
    if s in m {
      AdvancePasses(l, n, m, k, f.st.nextId);
    } else {
      ClosedPasses(l, n, m, k, f.st.nextId);
    }
  }

  /** The state a visit has reached when it moves on. */
  function AfterCounting(f: Full, s: SocketId, acts: seq<Action>): (f2: Full)
    requires s in f.st.socks
  {
    if f.st.socks[s].timeout == 1 then RunActions(Counted(f, s), acts) else Counted(f, s)
  }

  lemma CountingKeepsGood(f: Full, s: SocketId, acts: seq<Action>)
    requires Good(f) && s in f.st.socks && s !in f.sh.closed
    ensures Good(AfterCounting(f, s, acts)) && Continues(f, AfterCounting(f, s, acts))
  {
    CountedKeepsGood(f, s);
    if f.st.socks[s].timeout == 1 {
      RunKeepsGood(Counted(f, s), acts);
      ContinuesTrans(f, Counted(f, s), RunActions(Counted(f, s), acts));
    }
  }

  lemma CountingLogs(f: Full, s: SocketId, acts: seq<Action>)
    requires Good(f) && s in f.st.socks && s !in f.sh.closed
    ensures Visited(s) in AfterCounting(f, s, acts).log
  {
    CountedKeepsGood(f, s);
    var f1 := Counted(f, s);
    assert f1.log[|f.log|] == Visited(s);
    if f.st.socks[s].timeout == 1 {
      RunKeepsGood(f1, acts);
      assert RunActions(f1, acts).log[|f.log|] == Visited(s);
    }
  }

  /** One visit keeps the loop in order, moves the sweep on, and lets no closed socket return. */
  lemma VisitStep(f: Full, c: ContextId, s: SocketId, acts: seq<Action>)
    requires Good(f) && c in f.st.ctxs && f.st.ctxs[c].cursor == Sock(s)
    ensures s in f.st.socks && c in f.sh.list && c in f.sh.left && f.sh.left[c] <= |f.sh.list[c]|
    ensures InTail(f.sh.list[c], f.sh.left[c], s)
    ensures var f' := Visit(f, c, s, acts);
            && Good(f') && Onward(f, f')
            && c in f'.sh.list && c in f'.sh.left && f'.sh.left[c] <= |f'.sh.list[c]|
            && Passed(f.sh.list[c], f.sh.left[c], f'.sh.list[c], f'.sh.left[c], s)
            && Visited(s) in f'.log
  {
    CursorSocket(f, c);
    var f2 := AfterCounting(f, s, acts);
    CountingKeepsGood(f, s, acts);
    CountingLogs(f, s, acts);
    AfterCallback(f, f2, c, s);
    MoveOnPasses(f, f2, c, s);
    MoveOnKeepsGood(f2, c, s);
    var f' := MoveOn(f2, c, s);
    assert Visit(f, c, s, acts) == f';
    ContinuesOnward(f, f2);
    OnwardSameLists(f2, f');
    OnwardTrans(f, f2, f');
  }

  // ----- a whole context

  datatype Swept = Swept(f: Full, visited: seq<SocketId>, fired: seq<SocketId>)

  /** The inner loop from the cursor on; `script(i)` is what the `i`-th callback from here does. */
  function SweepFrom(f: Full, c: ContextId, script: nat -> seq<Action>, i: nat): (r: Swept)
    requires Good(f) && c in f.st.ctxs
    decreases if c in f.sh.left then f.sh.left[c] else 0
  {
    var cursor := f.st.ctxs[c].cursor;
    if cursor.Sock? then
      VisitStep(f, c, cursor.s, script(i));
      var f' := Visit(f, c, cursor.s, script(i));
      var fires := f.st.socks[cursor.s].timeout == 1;
      var r := SweepFrom(f', c, script, if fires then i + 1 else i);
      Swept(r.f, [cursor.s] + r.visited, if fires then [cursor.s] + r.fired else r.fired)
    else Swept(f, [], [])
  }

  /** What a sweep of context `c` from `f`, with `n` sockets of its list `l` left, has done. */
  ghost predicate SweepDone(f: Full, c: ContextId, r: Swept)
    requires c in f.sh.list && c in f.sh.left && f.sh.left[c] <= |f.sh.list[c]|
  {
    && Good(r.f) && Onward(f, r.f) && c in r.f.sh.list && c in r.f.sh.left && r.f.sh.left[c] == 0
    && NoDup(r.visited)
    && (forall x :: x in r.visited ==> InTail(f.sh.list[c], f.sh.left[c], x) && Visited(x) in r.f.log)
    && (forall x :: InTail(f.sh.list[c], f.sh.left[c], x) && x in r.f.sh.list[c] ==> x in r.visited)
  }

  /** Visiting `s` and then `v` visits what has to be visited of the longer tail. */
  lemma VisitedMore(l: seq<SocketId>, n: nat, l': seq<SocketId>, n': nat, end: seq<SocketId>, s: SocketId,
      v: seq<SocketId>, born: SocketId)
    requires n <= |l| && n' <= |l'| && InTail(l, n, s) && Passed(l, n, l', n', s) && NoDup(v)
    requires forall x :: x in v ==> InTail(l', n', x)
    requires forall x :: InTail(l', n', x) && x in end ==> x in v
    requires forall x :: x in end ==> x in l' || x >= born
    requires forall x :: x in l ==> x < born
    ensures NoDup([s] + v)
    ensures forall x :: x in [s] + v ==> InTail(l, n, x)
    ensures forall x :: InTail(l, n, x) && x in end ==> x in [s] + v
  {
    forall x | InTail(l, n, x) && x in end
      ensures x in [s] + v
    {
      assert x in l;
    }
  }

  lemma SweepMore(f: Full, f': Full, c: ContextId, s: SocketId, r: Swept, fired: seq<SocketId>)
    requires Good(f) && Onward(f, f') && c in f.st.ctxs
    requires c in f.sh.list && c in f.sh.left && f.sh.left[c] <= |f.sh.list[c]|
    requires c in f'.sh.list && c in f'.sh.left && f'.sh.left[c] <= |f'.sh.list[c]|
    requires InTail(f.sh.list[c], f.sh.left[c], s)
    requires Passed(f.sh.list[c], f.sh.left[c], f'.sh.list[c], f'.sh.left[c], s)
    requires SweepDone(f', c, r) && Visited(s) in f'.log
    ensures SweepDone(f, c, Swept(r.f, [s] + r.visited, fired))
  {
    OnwardTrans(f, f', r.f);
    assert NoneReturns(f', r.f, c);
    forall x | x in f.sh.list[c]
      ensures x < f'.st.nextId
    {
      ListedIsOld(f, c, x);
    }
    VisitedMore(f.sh.list[c], f.sh.left[c], f'.sh.list[c], f'.sh.left[c], r.f.sh.list[c], s, r.visited, f'.st.nextId);
  }

  lemma {:induction false} SweepFromDone(f: Full, c: ContextId, script: nat -> seq<Action>, i: nat)
    requires Good(f) && c in f.st.ctxs
    ensures c in f.sh.list && c in f.sh.left && f.sh.left[c] <= |f.sh.list[c]|
    ensures SweepDone(f, c, SweepFrom(f, c, script, i))
    decreases if c in f.sh.left then f.sh.left[c] else 0
  {
    CursorSocket(f, c);
    var cursor := f.st.ctxs[c].cursor;
    if cursor.Sock? {
      VisitStep(f, c, cursor.s, script(i));
      var f' := Visit(f, c, cursor.s, script(i));
      var fires := f.st.socks[cursor.s].timeout == 1;
      var j := if fires then i + 1 else i;
      SweepFromDone(f', c, script, j);
      SweepMore(f, f', c, cursor.s, SweepFrom(f', c, script, j), SweepFrom(f, c, script, i).fired);
    } else {
      OnwardSameLists(f, f);
    }
  }

  /** The sweep of one context (lines 86-105). */
  function SweepContext(f: Full, c: ContextId, script: nat -> seq<Action>): (r: Swept)
    requires Good(f) && c in f.st.ctxs
  {
    StartKeepsGood(f, c);
    SweepFrom(Start(f, c), c, script, 0)
  }

  lemma TailIsAll(l: seq<SocketId>, s: SocketId)
    ensures InTail(l, |l|, s) <==> s in l
  {
    if s in l {
      var i :| 0 <= i < |l| && l[i] == s;
    }
  }

  /**
   No socket is visited twice and none that was not in the list at the start; every socket of the
   list at the start that is still in it at the end is visited; and every visit is in the log.
   */
  ghost predicate VisitsOnce(f: Full, c: ContextId, r: Swept) {
    && c in f.sh.list && c in r.f.sh.list && NoDup(r.visited)
    && (forall s :: s in r.visited ==> s in f.sh.list[c] && Visited(s) in r.f.log)
    && (forall s :: s in f.sh.list[c] && s in r.f.sh.list[c] ==> s in r.visited)
  }

  lemma DoneVisitsOnce(f: Full, c: ContextId, r: Swept)
    requires c in f.sh.list && c in f.sh.left && f.sh.left[c] == |f.sh.list[c]| && SweepDone(f, c, r)
    ensures VisitsOnce(f, c, r)
  {
    forall s
      ensures InTail(f.sh.list[c], |f.sh.list[c]|, s) <==> s in f.sh.list[c]
    {
      TailIsAll(f.sh.list[c], s);
    }
  }

  /**
   Whatever the callbacks do, the sweep of a context ends, visits exactly once every socket that
   stays, and never visits one that was linked after it began. The log of the loop, in which no visit
   follows the socket's close, stays in order.
   */
  lemma SweepVisitsExactlyOnce(f: Full, c: ContextId, script: nat -> seq<Action>)
    requires Good(f) && c in f.st.ctxs
    ensures var r := SweepContext(f, c, script);
            Good(r.f) && Onward(f, r.f) && VisitsOnce(f, c, r)
  {
    StartKeepsGood(f, c);
    var f0 := Start(f, c);
    OnwardSameLists(f, f0);
    SweepFromDone(f0, c, script, 0);
    var r := SweepContext(f, c, script);
    DoneVisitsOnce(f0, c, r);
    OnwardTrans(f, f0, r.f);
  }

  /** No visit follows a close, and no socket is closed or freed twice. */
  lemma LogMeaning(f: Full, s: SocketId, i: nat, j: nat)
    requires Good(f) && i < j < |f.log|
    ensures f.log[i] == OnClose(s) ==> f.log[j] != Visited(s) && f.log[j] != OnClose(s)
    ensures f.log[i] == Freed(s) ==> f.log[j] != Visited(s) && f.log[j] != OnClose(s) && f.log[j] != Freed(s)
  {
    assert MayFollow(f.log[i], f.log[j]);
  }

  // ----- the whole loop

  /** The outer loop (lines 80-106): `fs[i]` is the state before and `rs[i]` the sweep of context `cs[i]`. */
  ghost predicate LoopSweep(fs: seq<Full>, cs: seq<ContextId>, scripts: ContextId -> nat -> seq<Action>,
      rs: seq<Swept>) {
    && |fs| == |cs| + 1 && |rs| == |cs| && NoDup(cs)
    && forall i :: 0 <= i < |cs| ==> LoopStep(fs[i], cs[i], scripts(cs[i]), rs[i], fs[i + 1])
  }

  ghost predicate LoopStep(f: Full, c: ContextId, script: nat -> seq<Action>, r: Swept, f': Full) {
    Good(f) && c in f.st.ctxs && r == SweepContext(f, c, script) && f' == r.f
  }

  /** What the whole-loop argument needs of a state: the lists, who owns a socket, and what is new. */
  datatype Snap = Snap(list: map<ContextId, seq<SocketId>>, owner: map<SocketId, ContextId>, nextId: SocketId)

  function SnapOf(f: Full): (p: Snap) {
    Snap(f.sh.list, map s | s in f.st.socks :: f.st.socks[s].context, f.st.nextId)
  }

  /** The sockets of a list are old and owned by its context. */
  ghost predicate ListWf(p: Snap, d: ContextId) {
    d in p.list && forall x :: x in p.list[d] ==> x < p.nextId && x in p.owner && p.owner[x] == d
  }

  ghost predicate ListShrinks(p: Snap, p': Snap, d: ContextId) {
    d in p.list && d in p'.list && forall x :: x in p'.list[d] ==> x in p.list[d] || x >= p.nextId
  }

  /** Context `c` was swept between `p` and `p'`, visiting `v`. */
  ghost predicate SnapStep(p: Snap, c: ContextId, v: seq<SocketId>, p': Snap) {
    && c in p.list && p'.list.Keys == p.list.Keys && p.nextId <= p'.nextId
    && (forall d :: d in p.list ==> ListWf(p, d) && ListShrinks(p, p', d))
    && (forall x :: x in p.owner ==> x in p'.owner && p'.owner[x] == p.owner[x])
    && NoDup(v) && (forall x :: x in v ==> x in p.list[c])
    && (forall x :: x in p.list[c] && x in p'.list[c] ==> x in v)
  }

  lemma ListsAreWf(f: Full, d: ContextId)
    requires Good(f) && d in f.sh.list
    ensures ListWf(SnapOf(f), d)
  {
    forall x | x in f.sh.list[d]
      ensures x < f.st.nextId && x in f.st.socks && f.st.socks[x].context == d
    {
      ListedIsOld(f, d, x);
    }
  }

  lemma SweepIsSnapStep(f: Full, c: ContextId, r: Swept)
    requires Good(f) && c in f.st.ctxs && Onward(f, r.f) && VisitsOnce(f, c, r) && r.f.sh.list.Keys == f.sh.list.Keys
    ensures SnapStep(SnapOf(f), c, r.visited, SnapOf(r.f))
  {
    forall d | d in f.sh.list
      ensures ListWf(SnapOf(f), d) && ListShrinks(SnapOf(f), SnapOf(r.f), d)
    {
      ListsAreWf(f, d);
      assert NoneReturns(f, r.f, d);
    }
  }

  lemma StepIsSnapStep(f: Full, c: ContextId, script: nat -> seq<Action>, r: Swept, f': Full)
    requires LoopStep(f, c, script, r, f')
    ensures SnapStep(SnapOf(f), c, r.visited, SnapOf(f'))
  {
    SweepVisitsExactlyOnce(f, c, script);
    assert r.f.sh.list.Keys == f.sh.list.Keys;
    SweepIsSnapStep(f, c, r);
  }

  ghost predicate SnapSweep(ps: seq<Snap>, cs: seq<ContextId>, vs: seq<seq<SocketId>>) {
    && |ps| == |cs| + 1 && |vs| == |cs|
    && forall i :: 0 <= i < |cs| ==> SnapStep(ps[i], cs[i], vs[i], ps[i + 1])
  }

  /** Once out of a list a socket does not come back. */
  lemma {:induction false} StaysListed(ps: seq<Snap>, cs: seq<ContextId>, vs: seq<seq<SocketId>>, c: ContextId,
      s: SocketId, i: nat)
    requires SnapSweep(ps, cs, vs) && i <= |cs| && c in ps[0].list && s in ps[0].list[c]
    requires |cs| > 0 && c in ps[|cs|].list && s in ps[|cs|].list[c]
    ensures c in ps[i].list && s in ps[i].list[c] && s < ps[i].nextId
    decreases |cs| - i
  {
    KeysStay(ps, cs, vs, i);
    OldStays(ps, cs, vs, c, s, i);
    if i < |cs| {
      StaysListed(ps, cs, vs, c, s, i + 1);
      assert SnapStep(ps[i], cs[i], vs[i], ps[i + 1]);
      assert ListShrinks(ps[i], ps[i + 1], c);
    }
  }

  lemma {:induction false} KeysStay(ps: seq<Snap>, cs: seq<ContextId>, vs: seq<seq<SocketId>>, i: nat)
    requires SnapSweep(ps, cs, vs) && i <= |cs|
    ensures ps[i].list.Keys == ps[0].list.Keys && ps[0].nextId <= ps[i].nextId
  {
    if i > 0 {
      KeysStay(ps, cs, vs, i - 1);
      assert SnapStep(ps[i - 1], cs[i - 1], vs[i - 1], ps[i]);
    }
  }

  lemma OldStays(ps: seq<Snap>, cs: seq<ContextId>, vs: seq<seq<SocketId>>, c: ContextId, s: SocketId, i: nat)
    requires SnapSweep(ps, cs, vs) && i <= |cs| && c in ps[0].list && s in ps[0].list[c] && |cs| > 0
    ensures s < ps[i].nextId
  {
    KeysStay(ps, cs, vs, i);
    assert SnapStep(ps[0], cs[0], vs[0], ps[1]);
    assert ListWf(ps[0], c);
  }

  lemma {:induction false} OwnersStay(ps: seq<Snap>, cs: seq<ContextId>, vs: seq<seq<SocketId>>, i: nat, j: nat,
      s: SocketId)
    requires SnapSweep(ps, cs, vs) && i <= j <= |cs| && s in ps[i].owner
    ensures s in ps[j].owner && ps[j].owner[s] == ps[i].owner[s]
  {
    if i < j {
      OwnersStay(ps, cs, vs, i, j - 1, s);
      assert SnapStep(ps[j - 1], cs[j - 1], vs[j - 1], ps[j]);
    }
  }

  lemma LoopIsSnapSweep(fs: seq<Full>, cs: seq<ContextId>, scripts: ContextId -> nat -> seq<Action>, rs: seq<Swept>)
      returns (ps: seq<Snap>, vs: seq<seq<SocketId>>)
    requires LoopSweep(fs, cs, scripts, rs)
    ensures SnapSweep(ps, cs, vs)
    ensures forall i :: 0 <= i <= |cs| ==> ps[i] == SnapOf(fs[i])
    ensures forall i :: 0 <= i < |cs| ==> vs[i] == rs[i].visited
  {
    ps := seq(|fs|, i requires 0 <= i < |fs| => SnapOf(fs[i]));
    vs := seq(|rs|, i requires 0 <= i < |rs| => rs[i].visited);
    forall i | 0 <= i < |cs|
      ensures SnapStep(ps[i], cs[i], vs[i], ps[i + 1])
    {
      StepIsSnapStep(fs[i], cs[i], scripts(cs[i]), rs[i], fs[i + 1]);
    }
  }

  /** A socket that is in the list of a context before and after the whole sweep is visited in that context's turn. */
  lemma WholeSweepVisits(fs: seq<Full>, cs: seq<ContextId>, scripts: ContextId -> nat -> seq<Action>,
      rs: seq<Swept>, i: nat, s: SocketId)
    requires LoopSweep(fs, cs, scripts, rs) && i < |cs|
    requires cs[i] in fs[0].sh.list && s in fs[0].sh.list[cs[i]]
    requires cs[i] in fs[|cs|].sh.list && s in fs[|cs|].sh.list[cs[i]]
    ensures s in rs[i].visited
  {
    var ps, vs := LoopIsSnapSweep(fs, cs, scripts, rs);
    StaysListed(ps, cs, vs, cs[i], s, i);
    StaysListed(ps, cs, vs, cs[i], s, i + 1);
    assert SnapStep(ps[i], cs[i], vs[i], ps[i + 1]);
  }

  lemma NotInTwoTurns(ps: seq<Snap>, cs: seq<ContextId>, vs: seq<seq<SocketId>>, i: nat, j: nat, s: SocketId)
    requires SnapSweep(ps, cs, vs) && NoDup(cs) && i < j < |cs| && s in vs[i]
    ensures s !in vs[j]
  {
    assert SnapStep(ps[i], cs[i], vs[i], ps[i + 1]) && SnapStep(ps[j], cs[j], vs[j], ps[j + 1]);
    assert ListWf(ps[i], cs[i]) && ListWf(ps[j], cs[j]);
    OwnersStay(ps, cs, vs, i, j, s);
  }

  /** No socket is visited twice in a turn, nor in the turns of two contexts. */
  lemma WholeSweepNeverTwice(fs: seq<Full>, cs: seq<ContextId>, scripts: ContextId -> nat -> seq<Action>,
      rs: seq<Swept>)
    requires LoopSweep(fs, cs, scripts, rs)
    ensures forall k :: 0 <= k < |cs| ==> NoDup(rs[k].visited)
    ensures forall i, j, s :: 0 <= i < j < |cs| && s in rs[i].visited ==> s !in rs[j].visited
  {
    var ps, vs := LoopIsSnapSweep(fs, cs, scripts, rs);
    forall k | 0 <= k < |cs|
      ensures NoDup(rs[k].visited)
    {
      assert SnapStep(ps[k], cs[k], vs[k], ps[k + 1]);
    }
    forall i, j, s | 0 <= i < j < |cs| && s in rs[i].visited
      ensures s !in rs[j].visited
    {
      NotInTwoTurns(ps, cs, vs, i, j, s);
    }
  }

  lemma SnapsFrom(ps: seq<Snap>, cs: seq<ContextId>, vs: seq<seq<SocketId>>, i: nat)
    requires SnapSweep(ps, cs, vs) && i <= |cs|
    ensures SnapSweep(ps[i..], cs[i..], vs[i..])
  {
    forall k | 0 <= k < |cs| - i
      ensures SnapStep(ps[i..][k], cs[i..][k], vs[i..][k], ps[i..][k + 1])
    {
      assert SnapStep(ps[i + k], cs[i + k], vs[i + k], ps[i + k + 1]);
    }
  }

  /** A socket that turned up during turn `i` is not visited in the turns up to it. */
  lemma NotBeforeItsTurn(ps: seq<Snap>, cs: seq<ContextId>, vs: seq<seq<SocketId>>, i: nat, k: nat, s: SocketId)
    requires SnapSweep(ps, cs, vs) && k <= i < |cs| && s >= ps[i].nextId
    ensures s !in vs[k]
  {
    SnapsFrom(ps, cs, vs, k);
    KeysStay(ps[k..], cs[k..], vs[k..], i - k);
    assert SnapStep(ps[k], cs[k], vs[k], ps[k + 1]);
    assert ListWf(ps[k], cs[k]);
  }

  /** Afterwards it is visited in no turn but that of its own context. */
  lemma OnlyInItsTurn(ps: seq<Snap>, cs: seq<ContextId>, vs: seq<seq<SocketId>>, i: nat, k: nat, c: ContextId,
      s: SocketId)
    requires SnapSweep(ps, cs, vs) && i <= k < |cs| && c in ps[i].list && s in ps[i].list[c] && s in vs[k]
    ensures cs[k] == c
  {
    assert SnapStep(ps[i], cs[i], vs[i], ps[i + 1]) && ListWf(ps[i], c);
    OwnersStay(ps, cs, vs, i, k, s);
    assert SnapStep(ps[k], cs[k], vs[k], ps[k + 1]) && ListWf(ps[k], cs[k]);
  }

  /** And if it stays linked it is visited in that turn. */
  lemma VisitedInItsTurn(ps: seq<Snap>, cs: seq<ContextId>, vs: seq<seq<SocketId>>, i: nat, j: nat, s: SocketId)
    requires SnapSweep(ps, cs, vs) && i <= j < |cs| && cs[j] in ps[i].list && s in ps[i].list[cs[j]]
    requires cs[j] in ps[|cs|].list && s in ps[|cs|].list[cs[j]]
    ensures s in vs[j]
  {
    SnapsFrom(ps, cs, vs, i);
    StaysListed(ps[i..], cs[i..], vs[i..], cs[j], s, j - i);
    StaysListed(ps[i..], cs[i..], vs[i..], cs[j], s, j - i + 1);
    assert SnapStep(ps[j], cs[j], vs[j], ps[j + 1]);
  }

  /**
   A socket that a callback of turn `i` links into the context of turn `j`, and that stays, is visited
   by this same sweep if and only if that turn is still to come.
   */
  lemma LinkedDuringSweep(fs: seq<Full>, cs: seq<ContextId>, scripts: ContextId -> nat -> seq<Action>,
      rs: seq<Swept>, i: nat, j: nat, s: SocketId)
    requires LoopSweep(fs, cs, scripts, rs) && i < |cs| && j < |cs| && s >= fs[i].st.nextId
    requires cs[j] in fs[i + 1].sh.list && s in fs[i + 1].sh.list[cs[j]]
    requires cs[j] in fs[|cs|].sh.list && s in fs[|cs|].sh.list[cs[j]]
    ensures (exists k :: 0 <= k < |cs| && s in rs[k].visited) <==> i < j
  {
    var ps, vs := LoopIsSnapSweep(fs, cs, scripts, rs);
    if i < j {
      VisitedInItsTurn(ps, cs, vs, i + 1, j, s);
    } else {
      forall k | 0 <= k < |cs|
        ensures s !in rs[k].visited
      {
        if k <= i {
          NotBeforeItsTurn(ps, cs, vs, i, k, s);
        } else if s in rs[k].visited {
          OnlyInItsTurn(ps, cs, vs, i + 1, k, cs[j], s);
        }
      }
    }
  }

  // ----- from seconds to sweeps

  /** The number of sweeps is max(1, (s + 2) / 4), rounded down, exactly for timeouts up to 262141 seconds. */
  lemma SweepsForTimeout(seconds: nat)
    requires seconds >= 1
    ensures var n := (seconds + 2) / 4;
            TimeoutSweeps(seconds) == (if n == 0 then 1 else n) <==> seconds <= 262141
  {
    var n := (seconds + 2) / 4;
    RoundedQuarter(seconds);
    assert n <= 65535 <==> seconds <= 262141;
  }

  /** The number of sweeps for every timeout: rounded, kept in 16 bits, and never 0 for a timeout that is set. */
  lemma SweepsExactly(seconds: nat)
    ensures var n := (seconds + 2) / 4 % 65536;
            TimeoutSweeps(seconds) == if seconds == 0 then 0 else if n == 0 then 1 else n
  {
    RoundedQuarter(seconds);
  }

  lemma RoundedQuarter(seconds: nat)
    ensures (0.5 + seconds as real / 4.0).Floor == (seconds + 2) / 4
  {
    var q := (0.5 + seconds as real / 4.0).Floor;
    assert 4.0 * (q as real) <= 2.0 + seconds as real < 4.0 * (q as real) + 4.0;
    assert 4 * q <= 2 + seconds < 4 * q + 4;
  }

  /**
   With a sweep every 4 seconds, of which the first comes `d` seconds (0 < d <= 4) after the timeout
   was set, a timeout of `seconds` fires more than `seconds - 5` and at most `seconds + 3` seconds later.
   */
  lemma ElapsedTime(seconds: nat, d: real)
    requires 1 <= seconds <= 262141 && 0.0 < d <= 4.0
    ensures var elapsed := d + 4.0 * (TimeoutSweeps(seconds) - 1) as real;
            seconds as real - 5.0 < elapsed <= seconds as real + 3.0
  {
    SweepsForTimeout(seconds);
    var n := TimeoutSweeps(seconds);
    assert 4 * n >= seconds - 1 && 4 * n <= seconds + 3;
    assert 4.0 * (n - 1) as real == (4 * n) as real - 4.0;
  }
}
