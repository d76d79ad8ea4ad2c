/**
 The event loop of uSockets (SocketExams/uSockets/src/context.c, socket.c and loop.c): sockets that
 are linked, unlinked, closed and freed while callbacks run, and the timer sweep over them.
 Memory is a map from socket numbers to records; freeing a socket removes its record, and numbers
 are not used again.
 */
module USocketLoop {
  import opened USocketLists

  /** The state of the loop's data structures. */
  datatype State = State(socks: Sockets, ctxs: map<ContextId, Context>, closedHead: Ptr, nextId: SocketId)

  /** The lists those structures stand for; `left[c]` sockets of context `c` are still to be swept. */
  datatype Shape = Shape(list: map<ContextId, seq<SocketId>>, left: map<ContextId, nat>, closed: seq<SocketId>)

  ghost predicate CtxOk(st: State, sh: Shape, c: ContextId) {
    && c in st.ctxs && c in sh.list && c in sh.left
    && NoDup(sh.list[c]) && Chain(st.socks, c, sh.list[c]) && sh.left[c] <= |sh.list[c]|
    && st.ctxs[c] == Context(PtrAt(sh.list[c], 0), PtrAt(sh.list[c], |sh.list[c]| - sh.left[c]))
  }

  /** Every socket in memory is in exactly one list: that of its context, or that of the closed ones. */
  ghost predicate Located(st: State, sh: Shape, s: SocketId)
    requires s in st.socks
  {
    && s < st.nextId && st.socks[s].context in sh.list
    && (s in sh.list[st.socks[s].context] <==> s !in sh.closed)
  }

  ghost predicate Repr(st: State, sh: Shape) {
    && st.ctxs.Keys == sh.list.Keys == sh.left.Keys
    && (forall c :: c in st.ctxs ==> CtxOk(st, sh, c))
    && NoDup(sh.closed) && ClosedChain(st.socks, sh.closed) && st.closedHead == PtrAt(sh.closed, 0)
    && forall s :: s in st.socks ==> Located(st, sh, s)
  }

  // ----- linking, closing and freeing on lists

  function Prepended(sh: Shape, c: ContextId, s: SocketId): (r: Shape)
    requires c in sh.list
  {
    sh.(list := sh.list[c := [s] + sh.list[c]])
  }

  /** The socket at place `k` of context `c` moves to the front of the closed list. */
  function Moved(sh: Shape, c: ContextId, k: nat): (r: Shape)
    requires c in sh.list && c in sh.left && k < |sh.list[c]| && sh.left[c] <= |sh.list[c]|
  {
    var l, n := sh.list[c], sh.left[c];
    Shape(sh.list[c := Drop(l, k)], sh.left[c := if k >= |l| - n then n - 1 else n], [l[k]] + sh.closed)
  }

  function IndexOf(l: seq<SocketId>, s: SocketId): (k: nat)
    requires s in l
    ensures k < |l| && l[k] == s
  {
    if l[0] == s then 0 else 1 + IndexOf(l[1..], s)
  }

  /** The lists once socket `s` of context `c` is closed. */
  function MovedSocket(sh: Shape, c: ContextId, s: SocketId): (r: Shape) {
    if c in sh.list && c in sh.left && sh.left[c] <= |sh.list[c]| && s in sh.list[c]
    then Moved(sh, c, IndexOf(sh.list[c], s)) else sh
  }

  /** The lists once context `c` has one socket less to be swept. */
  function Advanced(sh: Shape, c: ContextId): (r: Shape) {
    if c in sh.left && sh.left[c] > 0 then sh.(left := sh.left[c := sh.left[c] - 1]) else sh
  }

  /** `us_internal_socket_context_link` on a fresh record (context.c, lines 145-154). */
  function LinkNew(st: State, c: ContextId): (st': State)
    requires c in st.ctxs
  {
    var s := st.nextId;
    var socks := st.socks[s := Socket(c, Null, Null, 0, false, true, false)];
    State(Attach(socks, s, c, st.ctxs[c].head), st.ctxs[c := st.ctxs[c].(head := Sock(s))], st.closedHead, s + 1)
  }

  lemma LinkOtherContext(st: State, sh: Shape, c: ContextId, d: ContextId)
    requires Repr(st, sh) && c in st.ctxs && d in st.ctxs && d != c
    ensures CtxOk(LinkNew(st, c), Prepended(sh, c, st.nextId), d)
  {
    var st' := LinkNew(st, c);
    assert CtxOk(st, sh, c) && CtxOk(st, sh, d);
    forall x | x in sh.list[d] && x in st.socks
      ensures x in st'.socks && SameLinks(st.socks[x], st'.socks[x])
    {
      NotInOther(st, sh, c, d, x);
      assert Located(st, sh, x);
      var socks := st.socks[st.nextId := Socket(c, Null, Null, 0, false, true, false)];
      AttachOther(socks, st.nextId, c, sh.list[c], x);
    }
    ChainFrame(st.socks, st'.socks, d, sh.list[d]);
  }

  lemma NotInOther(st: State, sh: Shape, c: ContextId, d: ContextId, x: SocketId)
    requires Repr(st, sh) && c in st.ctxs && d in st.ctxs && d != c && x in sh.list[d]
    ensures x in st.socks && x !in sh.list[c] && x !in sh.closed
  {
    assert CtxOk(st, sh, c) && CtxOk(st, sh, d);
    ChainMembers(st.socks, d, sh.list[d], x);
    if x in sh.list[c] {
      ChainMembers(st.socks, c, sh.list[c], x);
    }
    assert Located(st, sh, x);
  }

  lemma ListsBelowNext(st: State, sh: Shape, c: ContextId)
    requires Repr(st, sh) && c in st.ctxs
    ensures st.nextId !in sh.list[c]
  {
    assert CtxOk(st, sh, c);
    if st.nextId in sh.list[c] {
      ChainMembers(st.socks, c, sh.list[c], st.nextId);
    }
  }

  lemma ClosedNotListed(st: State, sh: Shape, c: ContextId, x: SocketId)
    requires Repr(st, sh) && c in st.ctxs && x in sh.closed
    ensures x in st.socks && x < st.nextId && x !in sh.list[c]
  {
    ClosedMembers(st.socks, sh.closed, x);
    assert Located(st, sh, x);
    if x in sh.list[c] {
      assert CtxOk(st, sh, c);
      ChainMembers(st.socks, c, sh.list[c], x);
    }
  }

  lemma LinkOwnContext(st: State, sh: Shape, c: ContextId)
    requires Repr(st, sh) && c in st.ctxs
    ensures CtxOk(LinkNew(st, c), Prepended(sh, c, st.nextId), c)
  {
    var l, s := sh.list[c], st.nextId;
    assert CtxOk(st, sh, c);
    ListsBelowNext(st, sh, c);
    var socks := st.socks[s := Socket(c, Null, Null, 0, false, true, false)];
    ChainFrame(st.socks, socks, c, l);
    AttachChain(socks, c, l, s);
  }

  lemma LinkClosed(st: State, sh: Shape, c: ContextId)
    requires Repr(st, sh) && c in st.ctxs
    ensures ClosedChain(LinkNew(st, c).socks, sh.closed)
  {
    assert CtxOk(st, sh, c);
    var socks := st.socks[st.nextId := Socket(c, Null, Null, 0, false, true, false)];
    forall x | x in sh.closed && x in st.socks
      ensures x in LinkNew(st, c).socks && SameLinks(st.socks[x], LinkNew(st, c).socks[x])
    {
      ClosedNotListed(st, sh, c, x);
      AttachOther(socks, st.nextId, c, sh.list[c], x);
    }
    ClosedChainFrame(st.socks, LinkNew(st, c).socks, sh.closed);
  }

  /** Linking a new socket prepends it to its context's list and changes no other list. */
  lemma LinkRefinesPrepend(st: State, sh: Shape, c: ContextId)
    requires Repr(st, sh) && c in st.ctxs
    ensures Repr(LinkNew(st, c), Prepended(sh, c, st.nextId))
    ensures st.nextId !in st.socks
  {
    var st', sh' := LinkNew(st, c), Prepended(sh, c, st.nextId);
    LinkOwnContext(st, sh, c);
    forall d | d in st'.ctxs
      ensures CtxOk(st', sh', d)
    {
      if d != c {
        LinkOtherContext(st, sh, c, d);
      }
    }
    LinkClosed(st, sh, c);
    LinkLocated(st, sh, c);
  }

  lemma LinkLocated(st: State, sh: Shape, c: ContextId)
    requires Repr(st, sh) && c in st.ctxs
    ensures st.nextId !in st.socks
    ensures var st', sh' := LinkNew(st, c), Prepended(sh, c, st.nextId);
            forall x :: x in st'.socks ==> Located(st', sh', x)
  {
    var st', sh' := LinkNew(st, c), Prepended(sh, c, st.nextId);
    forall x | x in st'.socks
      ensures Located(st', sh', x)
    {
      if x == st.nextId {
        if x in sh.closed {
          ClosedNotListed(st, sh, c, x);
        }
      } else {
        assert Located(st, sh, x);
      }
    }
  }

  // ----- closing

  /** `us_socket_is_closed` (socket.c, lines 102-108). */
  predicate IsClosed(st: State, s: SocketId)
    requires s in st.socks
  {
    st.socks[s].prev == Ctx(st.socks[s].context)
  }

  /** The flag tells the sockets of the context lists from the closed ones. */
  lemma IsClosedExactly(st: State, sh: Shape, s: SocketId)
    requires Repr(st, sh) && s in st.socks
    ensures IsClosed(st, s) <==> s in sh.closed
    ensures IsClosed(st, s) <==> s !in sh.list[st.socks[s].context]
  {
    assert Located(st, sh, s);
    if s in sh.closed {
      ClosedMembers(st.socks, sh.closed, s);
    } else {
      var c := st.socks[s].context;
      assert CtxOk(st, sh, c);
      ChainMembers(st.socks, c, sh.list[c], s);
    }
  }

  /** `us_socket_close` on an open socket, up to the callback (socket.c, lines 67-80). */
  function CloseOpen(st: State, s: SocketId): (st': State)
    requires s in st.socks && st.socks[s].context in st.ctxs
  {
    var x := st.socks[s];
    var ctx := st.ctxs[x.context];
    var b := Bypass(st.socks, s);
    State(b[s := b[s].(next := st.closedHead, prev := Ctx(x.context))],
          st.ctxs[x.context := Context(if x.prev == x.next then Null else if x.prev.Sock? then ctx.head else x.next,
                                       if ctx.cursor == Sock(s) then x.next else ctx.cursor)],
          Sock(s), st.nextId)
  }

  lemma CloseOwnChain(st: State, sh: Shape, c: ContextId, k: nat)
    requires Repr(st, sh) && c in st.ctxs && k < |sh.list[c]|
    ensures var s, l := sh.list[c][k], Drop(sh.list[c], k);
            s in st.socks && st.socks[s].context == c && NoDup(l) && Chain(CloseOpen(st, s).socks, c, l)
  {
    var l, s := sh.list[c], sh.list[c][k];
    assert CtxOk(st, sh, c);
    assert NodeOk(st.socks, c, l, k);
    BypassChain(st.socks, c, l, k);
    DropKeepsNoDup(l, k);
    assert s !in Drop(l, k);
    ChainFrame(Bypass(st.socks, s), CloseOpen(st, s).socks, c, Drop(l, k));
  }

  lemma CloseOwnContext(st: State, sh: Shape, c: ContextId, k: nat)
    requires Repr(st, sh) && c in st.ctxs && k < |sh.list[c]|
    ensures var s := sh.list[c][k];
            s in st.socks && st.socks[s].context == c && CtxOk(CloseOpen(st, s), Moved(sh, c, k), c)
  {
    CloseOwnChain(st, sh, c, k);
    assert CtxOk(st, sh, c);
    assert NodeOk(st.socks, c, sh.list[c], k);
    SoleElement(st.socks, c, sh.list[c], k);
    CursorAfterDrop(sh.list[c], sh.left[c], k);
  }

  /** Where the head and the sweep's position are once the element at `k` is gone. */
  lemma CursorAfterDrop(l: seq<SocketId>, n: nat, k: nat)
    requires k < |l| && n <= |l| && NoDup(l)
    ensures var n' := if k >= |l| - n then n - 1 else n;
            PtrAt(Drop(l, k), |l| - 1 - n') == if PtrAt(l, |l| - n) == Sock(l[k]) then PtrAt(l, k + 1)
                else PtrAt(l, |l| - n)
    ensures PtrAt(Drop(l, k), 0) == if k == 0 then PtrAt(l, 1) else PtrAt(l, 0)
  {
  }

  lemma CloseLeavesOthers(st: State, sh: Shape, c: ContextId, k: nat, x: SocketId)
    requires Repr(st, sh) && c in st.ctxs && k < |sh.list[c]| && x in st.socks && x !in sh.list[c]
    ensures var s := sh.list[c][k];
            s in st.socks && st.socks[s].context == c && CloseOpen(st, s).socks[x] == st.socks[x]
  {
    assert CtxOk(st, sh, c);
    assert NodeOk(st.socks, c, sh.list[c], k);
    BypassOther(st.socks, c, sh.list[c], k, x);
  }

  lemma CloseOtherContext(st: State, sh: Shape, c: ContextId, k: nat, d: ContextId)
    requires Repr(st, sh) && c in st.ctxs && k < |sh.list[c]| && d in st.ctxs && d != c
    ensures var s := sh.list[c][k];
            s in st.socks && st.socks[s].context == c && CtxOk(CloseOpen(st, s), Moved(sh, c, k), d)
  {
    var s := sh.list[c][k];
    assert CtxOk(st, sh, c) && CtxOk(st, sh, d);
    assert NodeOk(st.socks, c, sh.list[c], k);
    forall x | x in sh.list[d] && x in st.socks
      ensures x in CloseOpen(st, s).socks && SameLinks(st.socks[x], CloseOpen(st, s).socks[x])
    {
      NotInOther(st, sh, c, d, x);
      CloseLeavesOthers(st, sh, c, k, x);
    }
    ChainFrame(st.socks, CloseOpen(st, s).socks, d, sh.list[d]);
  }

  lemma ClosedGrows(socks: Sockets, socks': Sockets, l: seq<SocketId>, s: SocketId)
    requires ClosedChain(socks, l) && NoDup(l) && s !in l && s in socks'
    requires socks'[s].next == PtrAt(l, 0) && socks'[s].prev == Ctx(socks'[s].context)
    requires forall x :: x in l && x in socks ==> x in socks' && SameLinks(socks[x], socks'[x])
    ensures ClosedChain(socks', [s] + l) && NoDup([s] + l)
  {
    var r := [s] + l;
    forall i | 0 <= i < |r|
      ensures ClosedNodeOk(socks', r, i)
    {
      if i > 0 {
        assert ClosedNodeOk(socks, l, i - 1);
        assert r[i] == l[i - 1];
      }
    }
  }

  lemma CloseClosedList(st: State, sh: Shape, c: ContextId, k: nat)
    requires Repr(st, sh) && c in st.ctxs && k < |sh.list[c]|
    ensures var s := sh.list[c][k];
            && s in st.socks && st.socks[s].context == c
            && ClosedChain(CloseOpen(st, s).socks, [s] + sh.closed) && NoDup([s] + sh.closed)
  {
    var s := sh.list[c][k];
    assert CtxOk(st, sh, c);
    assert NodeOk(st.socks, c, sh.list[c], k);
    assert Located(st, sh, s);
    BypassOther(st.socks, c, sh.list[c], k, s);
    forall x | x in sh.closed && x in st.socks
      ensures x in CloseOpen(st, s).socks && SameLinks(st.socks[x], CloseOpen(st, s).socks[x])
    {
      ClosedNotListed(st, sh, c, x);
      CloseLeavesOthers(st, sh, c, k, x);
    }
    ClosedGrows(st.socks, CloseOpen(st, s).socks, sh.closed, s);
  }

  /** What closing leaves of every record: all but the links, and the links of other contexts' sockets. */
  lemma CloseKeepsRecords(st: State, s: SocketId, x: SocketId)
    requires s in st.socks && st.socks[s].context in st.ctxs && x in st.socks
    ensures var a, b := st.socks[x], CloseOpen(st, s).socks[x];
            && b.context == a.context && b.timeout == a.timeout
            && b.shutDown == a.shutDown && b.readable == a.readable && b.writable == a.writable
  {
  }

  /** Closing moves a socket from its context's list to the closed list and changes no other list. */
  lemma CloseRefinesMove(st: State, sh: Shape, c: ContextId, k: nat)
    requires Repr(st, sh) && c in st.ctxs && k < |sh.list[c]|
    ensures var s := sh.list[c][k];
            s in st.socks && st.socks[s].context == c && Repr(CloseOpen(st, s), Moved(sh, c, k))
  {
    var s := sh.list[c][k];
    CloseOwnContext(st, sh, c, k);
    CloseClosedList(st, sh, c, k);
    var st', sh' := CloseOpen(st, s), Moved(sh, c, k);
    forall d | d in st'.ctxs
      ensures CtxOk(st', sh', d)
    {
      if d != c {
        CloseOtherContext(st, sh, c, k, d);
      }
    }
    assert CtxOk(st, sh, c);
    DropKeepsNoDup(sh.list[c], k);
    forall x | x in st'.socks
      ensures Located(st', sh', x)
    {
      assert Located(st, sh, x);
      CloseKeepsRecords(st, s, x);
    }
  }

  // ----- freeing

  lemma FreeRefines(st: State, sh: Shape, st': State)
    requires Repr(st, sh)
    requires st' == State(st.socks - (set s | s in sh.closed), st.ctxs, Null, st.nextId)
    ensures Repr(st', sh.(closed := []))
  {
    var sh' := sh.(closed := []);
    forall c | c in st'.ctxs
      ensures CtxOk(st', sh', c)
    {
      assert CtxOk(st, sh, c);
      forall x | x in sh.list[c] && x in st.socks
        ensures x in st'.socks
      {
        ChainMembers(st.socks, c, sh.list[c], x);
        assert Located(st, sh, x);
      }
      ChainFrame(st.socks, st'.socks, c, sh.list[c]);
    }
    forall x | x in st'.socks
      ensures Located(st', sh', x)
    {
      assert Located(st, sh, x);
    }
  }

  // ----- what happens to a socket over time

  /** Events of a socket's life: a visit by the sweep, its `on_close` callback, its memory freed. */
  datatype Entry = Visited(s: SocketId) | OnClose(s: SocketId) | Freed(s: SocketId)

  /** `later` may follow `earlier`: no second close, no visit after a close, nothing after a free. */
  predicate MayFollow(earlier: Entry, later: Entry) {
    earlier.s == later.s ==> !earlier.Freed? && (earlier.OnClose? ==> later.Freed?)
  }

  ghost predicate LogOk(log: seq<Entry>) {
    forall i, j :: 0 <= i < j < |log| ==> MayFollow(log[i], log[j])
  }

  /** The log tells which sockets were closed and which were freed. */
  ghost predicate Tied(log: seq<Entry>, st: State, sh: Shape) {
    forall s: SocketId ::
      && (OnClose(s) in log <==> s < st.nextId && (s !in st.socks || s in sh.closed))
      && (Freed(s) in log <==> s < st.nextId && s !in st.socks)
  }

  lemma LogGrows(log: seq<Entry>, e: Entry)
    requires LogOk(log) && forall i :: 0 <= i < |log| ==> MayFollow(log[i], e)
    ensures LogOk(log + [e])
  {
  }

  // ----- how a callback may change what is left to sweep

  /** `x` is among the last `n` elements of `l`. */
  ghost predicate InTail(l: seq<SocketId>, n: nat, x: SocketId)
    requires n <= |l|
  {
    exists i :: |l| - n <= i < |l| && l[i] == x
  }

  /** From `l` with `n` left to `l'` with `n'` left, by closing sockets and linking ones numbered from `born` on. */
  ghost predicate CtxEvolves(born: SocketId, l: seq<SocketId>, n: nat, l': seq<SocketId>, n': nat)
    requires n <= |l| && n' <= |l'|
  {
    && (forall x :: x in l' ==> x in l || x >= born)
    && (forall x :: InTail(l', n', x) ==> InTail(l, n, x))
    && (forall x :: InTail(l, n, x) && x in l' ==> InTail(l', n', x))
    && n' <= n
    && (n > 0 ==> if l[|l| - n] in l' then n' > 0 && l'[|l'| - n'] == l[|l| - n] else n' < n)
  }

  lemma CtxEvolvesTrans(f: SocketId, f': SocketId, l: seq<SocketId>, n: nat, l': seq<SocketId>, n': nat,
      l'': seq<SocketId>, n'': nat)
    requires n <= |l| && n' <= |l'| && n'' <= |l''| && f <= f'
    requires forall x :: x in l ==> x < f
    requires CtxEvolves(f, l, n, l', n') && CtxEvolves(f', l', n', l'', n'')
    ensures CtxEvolves(f, l, n, l'', n'')
  {
    forall x | InTail(l, n, x) && x in l''
      ensures InTail(l'', n'', x)
    {
      assert x in l;
    }
    if n > 0 {
      var h := l[|l| - n];
      assert h in l && InTail(l, n, h);
      if h in l'' {
        assert h in l';
      }
    }
  }

  lemma PrependEvolves(f: SocketId, l: seq<SocketId>, n: nat, s: SocketId)
    requires n <= |l| && s >= f && s !in l
    ensures CtxEvolves(f, l, n, [s] + l, n)
  {
    var r := [s] + l;
    forall x | InTail(l, n, x)
      ensures InTail(r, n, x)
    {
      var i :| |l| - n <= i < |l| && l[i] == x;
      assert r[i + 1] == x;
    }
    forall x | InTail(r, n, x)
      ensures InTail(l, n, x)
    {
      var i :| |r| - n <= i < |r| && r[i] == x;
      assert l[i - 1] == x;
    }
  }

  lemma DropEvolves(f: SocketId, l: seq<SocketId>, n: nat, k: nat)
    requires n <= |l| && k < |l| && NoDup(l)
    ensures CtxEvolves(f, l, n, Drop(l, k), if k >= |l| - n then n - 1 else n)
  {
    var r, m := Drop(l, k), if k >= |l| - n then n - 1 else n;
    DropKeepsNoDup(l, k);
    forall x | InTail(l, n, x) && x in r
      ensures InTail(r, m, x)
    {
      var i :| |l| - n <= i < |l| && l[i] == x;
      assert r[if i < k then i else i - 1] == x;
    }
    forall x | InTail(r, m, x)
      ensures InTail(l, n, x)
    {
      var i :| |r| - m <= i < |r| && r[i] == x;
      assert l[if i < k then i else i + 1] == x;
    }
  }
}
