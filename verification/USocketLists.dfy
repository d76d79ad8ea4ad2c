/**
 The intrusive lists of uSockets (SocketExams/uSockets/src/context.c, socket.c and loop.c) as values:
 records addressed by socket and context numbers, and what a chain of `next` and `prev` pointers
 means as a sequence.
 */
module USocketLists {

  type SocketId = nat
  type ContextId = nat

  /** A pointer field. A closed socket's `prev` points to its context. */
  datatype Ptr = Null | Sock(s: SocketId) | Ctx(c: ContextId)

  /** `struct us_socket`, with its poll type and the events it polls for. */
  datatype Socket = Socket(context: ContextId, prev: Ptr, next: Ptr, timeout: nat,
                           shutDown: bool, readable: bool, writable: bool)

  /** `struct us_socket_context`. */
  datatype Context = Context(head: Ptr, cursor: Ptr)

  type Sockets = map<SocketId, Socket>

  ghost predicate NoDup<T>(l: seq<T>) {
    forall i, j :: 0 <= i < j < |l| ==> l[i] != l[j]
  }

  function PtrAt(l: seq<SocketId>, i: int): (p: Ptr) {
    if 0 <= i < |l| then Sock(l[i]) else Null
  }

  /** `l` without its element at `k`. */
  function Drop<T>(l: seq<T>, k: nat): (r: seq<T>)
    requires k < |l|
    ensures |r| == |l| - 1
  {
    seq(|l| - 1, i requires 0 <= i < |l| - 1 => if i < k then l[i] else l[i + 1])
  }

  lemma DropKeepsNoDup<T>(l: seq<T>, k: nat)
    requires k < |l| && NoDup(l)
    ensures NoDup(Drop(l, k))
    ensures forall x :: x in Drop(l, k) <==> x in l && x != l[k]
  {
    forall x | x in l && x != l[k]
      ensures x in Drop(l, k)
    {
      var i :| 0 <= i < |l| && l[i] == x;
      assert Drop(l, k)[if i < k then i else i - 1] == x;
    }
  }

  /** The socket at place `i` of the list `l` of context `c`. */
  predicate NodeOk(socks: Sockets, c: ContextId, l: seq<SocketId>, i: nat)
    requires i < |l|
  {
    && l[i] in socks && socks[l[i]].context == c
    && socks[l[i]].next == PtrAt(l, i + 1) && socks[l[i]].prev == PtrAt(l, i - 1)
  }

  /** The list of context `c` is exactly `l`, from head to tail. */
  ghost predicate Chain(socks: Sockets, c: ContextId, l: seq<SocketId>) {
    forall i :: 0 <= i < |l| ==> NodeOk(socks, c, l, i)
  }

  predicate ClosedNodeOk(socks: Sockets, l: seq<SocketId>, i: nat)
    requires i < |l|
  {
    l[i] in socks && socks[l[i]].next == PtrAt(l, i + 1) && socks[l[i]].prev == Ctx(socks[l[i]].context)
  }

  /** The list of closed sockets is exactly `l`; each points back to its context. */
  ghost predicate ClosedChain(socks: Sockets, l: seq<SocketId>) {
    forall i :: 0 <= i < |l| ==> ClosedNodeOk(socks, l, i)
  }

  /** The same links. */
  predicate SameLinks(a: Socket, b: Socket) {
    a.context == b.context && a.prev == b.prev && a.next == b.next
  }

  lemma ChainMembers(socks: Sockets, c: ContextId, l: seq<SocketId>, s: SocketId)
    requires Chain(socks, c, l) && s in l
    ensures s in socks && socks[s].context == c && !socks[s].prev.Ctx?
  {
    var i :| 0 <= i < |l| && l[i] == s;
    assert NodeOk(socks, c, l, i);
  }

  lemma ClosedMembers(socks: Sockets, l: seq<SocketId>, s: SocketId)
    requires ClosedChain(socks, l) && s in l
    ensures s in socks && socks[s].prev == Ctx(socks[s].context)
  {
    var i :| 0 <= i < |l| && l[i] == s;
    assert ClosedNodeOk(socks, l, i);
  }

  /** Records with the same links make the same lists. */
  lemma ChainFrame(socks: Sockets, socks': Sockets, c: ContextId, l: seq<SocketId>)
    requires Chain(socks, c, l)
    requires forall s :: s in l && s in socks ==> s in socks' && SameLinks(socks[s], socks'[s])
    ensures Chain(socks', c, l)
  {
    forall i | 0 <= i < |l|
      ensures NodeOk(socks', c, l, i)
    {
      assert NodeOk(socks, c, l, i);
    }
  }

  lemma ClosedChainFrame(socks: Sockets, socks': Sockets, l: seq<SocketId>)
    requires ClosedChain(socks, l)
    requires forall s :: s in l && s in socks ==> s in socks' && SameLinks(socks[s], socks'[s])
    ensures ClosedChain(socks', l)
  {
    forall i | 0 <= i < |l|
      ensures ClosedNodeOk(socks', l, i)
    {
      assert ClosedNodeOk(socks, l, i);
    }
  }

  // ----- linking and unlinking

  function SetNext(socks: Sockets, p: Ptr, next: Ptr): (r: Sockets) {
    if p.Sock? && p.s in socks then socks[p.s := socks[p.s].(next := next)] else socks
  }

  function SetPrev(socks: Sockets, p: Ptr, prev: Ptr): (r: Sockets) {
    if p.Sock? && p.s in socks then socks[p.s := socks[p.s].(prev := prev)] else socks
  }

  /** The records after linking `s`, which is in no list, before `head`. */
  function Attach(socks: Sockets, s: SocketId, c: ContextId, head: Ptr): (r: Sockets)
    requires s in socks
    ensures socks.Keys == r.Keys
  {
    SetPrev(socks[s := socks[s].(context := c, timeout := 0, next := head, prev := Null)], head, Sock(s))
  }

  /** Linking puts the socket before the others. */
  lemma AttachChain(socks: Sockets, c: ContextId, l: seq<SocketId>, s: SocketId)
    requires Chain(socks, c, l) && NoDup(l) && s in socks && s !in l
    ensures Chain(Attach(socks, s, c, PtrAt(l, 0)), c, [s] + l) && NoDup([s] + l)
  {
    var socks', r := Attach(socks, s, c, PtrAt(l, 0)), [s] + l;
    forall i | 0 <= i < |r|
      ensures NodeOk(socks', c, r, i)
    {
      if i > 0 {
        assert NodeOk(socks, c, l, i - 1);
        assert r[i] == l[i - 1];
        assert i > 1 ==> l[i - 1] != l[0];
      }
    }
  }

  lemma AttachOther(socks: Sockets, s: SocketId, c: ContextId, l: seq<SocketId>, x: SocketId)
    requires s in socks && x in socks && x != s && x !in l
    ensures Attach(socks, s, c, PtrAt(l, 0))[x] == socks[x]
  {
  }

  /** The records after unlinking the element at `k`: its neighbours point to each other. */
  function Bypass(socks: Sockets, s: SocketId): (r: Sockets)
    requires s in socks
    ensures socks.Keys == r.Keys
  {
    SetPrev(SetNext(socks, socks[s].prev, socks[s].next), socks[s].next, socks[s].prev)
  }

  lemma BypassNode(socks: Sockets, c: ContextId, l: seq<SocketId>, k: nat, i: nat)
    requires Chain(socks, c, l) && NoDup(l) && k < |l| && i < |l| - 1
    ensures l[k] in socks && NodeOk(Bypass(socks, l[k]), c, Drop(l, k), i)
  {
    var j := if i < k then i else i + 1;
    assert NodeOk(socks, c, l, k) && NodeOk(socks, c, l, j);
    assert j != k - 1 && k > 0 ==> l[j] != l[k - 1];
    assert j != k + 1 && k + 1 < |l| ==> l[j] != l[k + 1];
  }

  lemma BypassOther(socks: Sockets, c: ContextId, l: seq<SocketId>, k: nat, x: SocketId)
    requires Chain(socks, c, l) && NoDup(l) && k < |l| && x in socks && (x !in l || x == l[k])
    ensures l[k] in socks && Bypass(socks, l[k])[x] == socks[x]
  {
    assert NodeOk(socks, c, l, k);
  }

  /** Unlinking removes one element of the list and keeps the others in order. */
  lemma BypassChain(socks: Sockets, c: ContextId, l: seq<SocketId>, k: nat)
    requires Chain(socks, c, l) && NoDup(l) && k < |l|
    ensures l[k] in socks && Chain(Bypass(socks, l[k]), c, Drop(l, k))
  {
    assert NodeOk(socks, c, l, k);
    forall i | 0 <= i < |l| - 1
      ensures NodeOk(Bypass(socks, l[k]), c, Drop(l, k), i)
    {
      BypassNode(socks, c, l, k, i);
    }
  }

  /** Both neighbours are missing exactly when `prev` and `next` agree (context.c, line 129). */
  lemma SoleElement(socks: Sockets, c: ContextId, l: seq<SocketId>, k: nat)
    requires Chain(socks, c, l) && NoDup(l) && k < |l|
    ensures l[k] in socks && (socks[l[k]].prev == socks[l[k]].next <==> |l| == 1)
  {
    assert NodeOk(socks, c, l, k);
    assert 0 < k && k + 1 < |l| ==> l[k - 1] != l[k + 1];
  }
}
