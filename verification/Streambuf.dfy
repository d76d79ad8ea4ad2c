/**
 asio's `basic_streambuf` (SocketExams/3rdLib/asio/asio/basic_streambuf.hpp): one array of bytes with
 a readable part and a writable part, compacted and grown on demand. It has to behave as a bounded
 queue of bytes.
 */
module Streambuf {
  import opened Common

  newtype Byte = x: int | 0 <= x < 256

  /**
   The buffer and the offsets of `gptr`, `egptr`, `pptr` and `epptr` in it. The offsets are integers,
   since a wrapped `pbump` or `gbump` can put them anywhere.
   */
  datatype Buf = Buf(bytes: seq<Byte>, gptr: int, egptr: int, pptr: int, epptr: int, maxSize: nat)

  const BUFFER_DELTA: nat := 128

  ghost predicate Valid(b: Buf) {
    && 0 <= b.gptr <= b.egptr <= b.pptr <= b.epptr <= b.maxSize
    && |b.bytes| == Max(b.epptr, 1)
  }

  /** The input sequence: what can be read. */
  function Contents(b: Buf): (q: seq<Byte>)
    requires Valid(b)
  {
    b.bytes[b.gptr..b.pptr]
  }

  /** The output sequence: what has been prepared for writing. */
  function Area(b: Buf): (a: seq<Byte>)
    requires Valid(b)
  {
    b.bytes[b.pptr..b.epptr]
  }

  function Size(b: Buf): (n: int) {
    b.pptr - b.gptr
  }

  /** The one byte that differs from `c` by a multiple of 256. */
  function LowByte(c: int): (x: Byte)
    ensures (x as int - c) % 256 == 0 && (0 <= c < 256 ==> x as int == c)
  {
    (c - c / 256 * 256) as Byte
  }

  // ----- the operations

  function Zeros(n: nat): (r: seq<Byte>)
    ensures |r| == n
  {
    if n == 0 then [] else [0] + Zeros(n - 1)
  }

  function Init(maxSize: nat): (b: Buf) {
    var pend := Min(maxSize, BUFFER_DELTA);
    Buf(Zeros(Max(pend, 1)), 0, 0, 0, pend, maxSize)
  }

  /** An operation returns, or throws `length_error`; either way it leaves a state. */
  datatype Outcome = Returned(b: Buf) | Threw(b: Buf)

  /** `memmove` of the readable bytes to the start of the buffer. */
  function Shifted(bytes: seq<Byte>, g: nat, size: nat): (r: seq<Byte>)
    requires g + size <= |bytes|
    ensures |r| == |bytes|
  {
    if size == 0 then bytes else Shifted(bytes, g, size - 1)[size - 1 := bytes[g + size - 1]]
  }

  /** `std::vector::resize`. */
  function Resized(bytes: seq<Byte>, n: nat): (r: seq<Byte>)
    ensures |r| == n
  {
    if n <= |bytes| then bytes[..n] else bytes + Zeros(n - |bytes|)
  }

  /** `reserve` (lines 308-346). */
  function Reserved(b: Buf, n: nat): (o: Outcome)
    requires Valid(b)
  {
    if n <= b.epptr - b.pptr then Returned(b)
    else
      var size := b.pptr - b.gptr;
      var bytes := Shifted(b.bytes, b.gptr, size);
      if n <= b.epptr - size then Returned(Buf(bytes, 0, size, size, b.epptr, b.maxSize))
      else if n <= b.maxSize && size <= b.maxSize - n then
        Returned(Buf(Resized(bytes, Max(size + n, 1)), 0, size, size, size + n, b.maxSize))
      else Threw(b.(bytes := bytes))
  }

  /** `static_cast<int>` of a size. */
  function ToInt(n: nat): (r: int) {
    if n < 0x8000_0000 then n else (n + 0x8000_0000) % 0x1_0000_0000 - 0x8000_0000
  }

  /** `commit` (lines 233-238). */
  function Committed(b: Buf, n: nat): (b': Buf)
    requires Valid(b)
  {
    var p := b.pptr + ToInt(Min(n, b.epptr - b.pptr));
    b.(pptr := p, egptr := p)
  }

  /** `consume` (lines 247-254). */
  function Consumed(b: Buf, n: nat): (b': Buf)
    requires Valid(b)
  {
    b.(egptr := b.pptr, gptr := b.gptr + ToInt(Min(n, b.pptr - b.gptr)))
  }

  const EOF: int := -1

  /** `underflow` (lines 263-274): makes all the readable bytes available. */
  function Underflowed(b: Buf): (b': Buf)
    requires Valid(b)
  {
    if b.gptr < b.pptr then b.(egptr := b.pptr) else b
  }

  function ToChar(c: int): (x: Byte) {
    (c % 256) as Byte
  }

  /** What `overflow` asks `reserve` for when the writable part is full (lines 289-298). */
  function OverflowRequest(b: Buf): (n: nat) {
    var left := b.maxSize - Size(b);
    if 0 < left < BUFFER_DELTA then left else BUFFER_DELTA
  }

  /** Room for one more byte (lines 287-298). */
  function MadeRoom(b: Buf): (o: Outcome)
    requires Valid(b)
    ensures o.Returned? ==> Valid(o.b) && o.b.pptr < |o.b.bytes|
  {
    ReserveKeepsContents(b, OverflowRequest(b));
    if b.pptr == b.epptr then Reserved(b, OverflowRequest(b)) else Returned(b)
  }

  /** `overflow` (lines 283-306). */
  function Overflowed(b: Buf, c: int): (o: Outcome)
    requires Valid(b)
  {
    if c == EOF then Returned(b)
    else
      var o := MadeRoom(b);
      if o.Threw? then o
      else Returned(o.b.(bytes := o.b.bytes[o.b.pptr := ToChar(c)], pptr := o.b.pptr + 1))
  }

  /** What the caller writes through the buffers that `prepare` returned: `data` from position `at` on. */
  function Fill(b: Buf, at: nat, data: seq<Byte>): (b': Buf)
    requires Valid(b) && at + |data| <= b.epptr - b.pptr
  {
    b.(bytes := b.bytes[..b.pptr + at] + data + b.bytes[b.pptr + at + |data|..])
  }

  // ----- reserve

  lemma {:induction false} ShiftedAt(bytes: seq<Byte>, g: nat, size: nat, i: nat)
    requires g + size <= |bytes| && i < |bytes|
    ensures Shifted(bytes, g, size)[i] == if i < size then bytes[g + i] else bytes[i]
  {
    if size > 0 {
      ShiftedAt(bytes, g, size - 1, i);
    }
  }

  lemma ShiftReads(bytes: seq<Byte>, g: nat, size: nat)
    requires g + size <= |bytes|
    ensures Shifted(bytes, g, size)[..size] == bytes[g..g + size]
  {
    forall i | 0 <= i < size
      ensures Shifted(bytes, g, size)[i] == bytes[g..g + size][i]
    {
      ShiftedAt(bytes, g, size, i);
    }
  }

  lemma {:induction false} ShiftedNowhere(bytes: seq<Byte>, size: nat)
    requires size <= |bytes|
    ensures Shifted(bytes, 0, size) == bytes
  {
    if size > 0 {
      ShiftedNowhere(bytes, size - 1);
    }
  }

  lemma GrowReads(bytes: seq<Byte>, n: nat, size: nat)
    requires size <= |bytes| && size <= n
    ensures Resized(bytes, n)[..size] == bytes[..size]
  {
  }

  lemma ReserveThrowsExactly(b: Buf, n: nat)
    requires Valid(b)
    ensures Reserved(b, n).Threw? <==> Size(b) + n > b.maxSize
    ensures var b' := Reserved(b, n).b; Valid(b') && b'.maxSize == b.maxSize && Size(b') == Size(b)
    ensures Reserved(b, n).Returned? ==> n <= Reserved(b, n).b.epptr - Reserved(b, n).b.pptr
  {
  }

  lemma ReserveMoves(b: Buf, n: nat)
    requires Valid(b) && Reserved(b, n).Returned? && n > b.epptr - b.pptr
    ensures var b' := Reserved(b, n).b;
            b'.gptr == 0 && b'.pptr == Size(b) <= |b'.bytes| && b'.bytes[..Size(b)] == b.bytes[b.gptr..b.pptr]
  {
    var size := Size(b);
    var bytes := Shifted(b.bytes, b.gptr, size);
    ShiftReads(b.bytes, b.gptr, size);
    if n > b.epptr - size {
      GrowReads(bytes, Max(size + n, 1), size);
    }
  }

  /** Compaction and growth keep the readable bytes, and leave room for `n` bytes. */
  lemma ReserveKeepsContents(b: Buf, n: nat)
    requires Valid(b)
    ensures Reserved(b, n).Threw? <==> Size(b) + n > b.maxSize
    ensures var o := Reserved(b, n);
            && Valid(o.b) && o.b.maxSize == b.maxSize && Size(o.b) == Size(b)
            && (o.Returned? ==> Contents(o.b) == Contents(b) && n <= |Area(o.b)|)
  {
    ReserveThrowsExactly(b, n);
    if Reserved(b, n).Returned? && n > b.epptr - b.pptr {
      ReserveMoves(b, n);
    }
  }

  /** How much room `reserve` leaves: what there was, or that and what had been consumed, or just what is asked for. */
  lemma ReserveRoomExactly(b: Buf, n: nat)
    requires Valid(b) && Size(b) + n <= b.maxSize
    ensures var o := Reserved(b, n);
            && o.Returned? && Valid(o.b)
            && |Area(o.b)| == if n <= |Area(b)| then |Area(b)|
                              else if n <= |Area(b)| + b.gptr then |Area(b)| + b.gptr
                              else n
  {
    ReserveThrowsExactly(b, n);
  }

  /** Bytes `q` that read the same when shifted by `g`. */
  ghost predicate Periodic(q: seq<Byte>, g: nat) {
    forall i, j :: 0 <= i < |q| && 0 <= j < |q| && j == i + g ==> q[i] == q[j]
  }

  /**
   When `reserve` throws it has already moved the readable bytes but not the pointers: the contents
   survive exactly when they read the same shifted by what had been consumed, for instance when
   nothing had been.
   */
  lemma ThrowKeepsContentsExactly(b: Buf, n: nat)
    requires Valid(b) && Size(b) + n > b.maxSize
    ensures var b' := Reserved(b, n).b;
            Valid(b') && (Contents(b') == Contents(b) <==> Periodic(Contents(b), b.gptr))
  {
    var b', q, g := Reserved(b, n).b, Contents(b), b.gptr;
    ReserveThrowsExactly(b, n);
    var size := Size(b);
    assert b' == b.(bytes := Shifted(b.bytes, g, size));
    ShiftedRead(b.bytes, g, size);
    assert q == b.bytes[g..g + size] && Contents(b') == Shifted(b.bytes, g, size)[g..g + size];
    SameIffPeriodic(q, Contents(b'), g);
  }

  /** The byte `g` places after position `i`, or the one at `i` if there is none. */
  function Ahead(q: seq<Byte>, g: nat, i: nat): (x: Byte)
    requires i < |q|
  {
    if i + g < |q| then q[i + g] else q[i]
  }

  lemma ShiftedRead(bytes: seq<Byte>, g: nat, size: nat)
    requires g + size <= |bytes|
    ensures var q, q' := bytes[g..g + size], Shifted(bytes, g, size)[g..g + size];
            forall i :: 0 <= i < size ==> q'[i] == Ahead(q, g, i)
  {
    var q, q' := bytes[g..g + size], Shifted(bytes, g, size)[g..g + size];
    forall i | 0 <= i < size
      ensures q'[i] == Ahead(q, g, i)
    {
      ShiftedAt(bytes, g, size, g + i);
    }
  }

  lemma SameIffPeriodic(q: seq<Byte>, q': seq<Byte>, g: nat)
    requires |q'| == |q| && forall i :: 0 <= i < |q| ==> q'[i] == Ahead(q, g, i)
    ensures q' == q <==> Periodic(q, g)
  {
    if q' == q {
      forall i, j | 0 <= i < |q| && 0 <= j < |q| && j == i + g
        ensures q[i] == q[j]
      {
        assert q'[i] == Ahead(q, g, i);
      }
    }
    if Periodic(q, g) {
      forall i | 0 <= i < |q|
        ensures q'[i] == q[i]
      {
        assert q'[i] == Ahead(q, g, i);
        if i + g < |q| {
          assert q[i] == q[i + g];
        }
      }
    }
  }

  // ----- commit, consume, overflow

  lemma Slices<T>(s: seq<T>, g: nat, p: nat, e: nat, k: nat)
    requires g <= p && p + k <= e <= |s|
    ensures s[g..p + k] == s[g..p] + s[p..e][..k] && s[p + k..e] == s[p..e][k..]
  {
  }

  lemma Splice<T>(s: seq<T>, g: nat, p: nat, e: nat, at: nat, data: seq<T>)
    requires g <= p && p + at + |data| <= e <= |s|
    ensures var r := s[..p + at] + data + s[p + at + |data|..];
            |r| == |s| && r[g..p] == s[g..p] && r[p..e] == s[p..e][..at] + data + s[p..e][at + |data|..]
  {
    var r := s[..p + at] + data + s[p + at + |data|..];
    var a := s[p..e][..at] + data + s[p..e][at + |data|..];
    forall i | 0 <= i < e - p
      ensures r[p..e][i] == a[i]
    {
      if i < at {
        assert a[i] == s[p + i] == r[p + i];
      } else if i < at + |data| {
        assert a[i] == data[i - at] == r[p + i];
      } else {
        assert a[i] == s[p + i] == r[p + i];
      }
    }
  }

  lemma ToIntExactly(n: nat)
    ensures ToInt(n) == n <==> n < 0x8000_0000
  {
  }

  /** `commit` moves the front of the output sequence to the back of the input sequence, up to `INT_MAX` bytes. */
  lemma CommitAppends(b: Buf, n: nat)
    requires Valid(b) && Min(n, |Area(b)|) < 0x8000_0000
    ensures var b' := Committed(b, n); var k := Min(n, |Area(b)|);
            Valid(b') && Contents(b') == Contents(b) + Area(b)[..k] && Area(b') == Area(b)[k..]
  {
    Slices(b.bytes, b.gptr, b.pptr, b.epptr, Min(n, |Area(b)|));
  }

  /** Beyond that the conversion to `int` wraps, and `commit` does not append what it should. */
  lemma CommitExactly(b: Buf, n: nat)
    requires Valid(b)
    ensures Size(Committed(b, n)) == Size(b) + Min(n, |Area(b)|) <==> Min(n, |Area(b)|) < 0x8000_0000
  {
    ToIntExactly(Min(n, |Area(b)|));
  }

  /** What it does beyond: the number moved is what is left of it in 32 bits with a sign. */
  lemma MovesWrap(b: Buf, n: nat)
    requires Valid(b)
    ensures var k, d := Min(n, |Area(b)|), Size(Committed(b, n)) - Size(b);
            -0x8000_0000 <= d < 0x8000_0000 && (d - k) % 0x1_0000_0000 == 0
    ensures var k, d := Min(n, Size(b)), Size(b) - Size(Consumed(b, n));
            -0x8000_0000 <= d < 0x8000_0000 && (d - k) % 0x1_0000_0000 == 0
  {
    ToIntWraps(Min(n, |Area(b)|));
    ToIntWraps(Min(n, Size(b)));
  }

  lemma ToIntWraps(n: nat)
    ensures -0x8000_0000 <= ToInt(n) < 0x8000_0000 && (ToInt(n) - n) % 0x1_0000_0000 == 0
  {
    if n >= 0x8000_0000 {
      var w, q := (n + 0x8000_0000) % 0x1_0000_0000, (n + 0x8000_0000) / 0x1_0000_0000;
      assert n + 0x8000_0000 == q * 0x1_0000_0000 + w;
      assert ToInt(n) - n == -q * 0x1_0000_0000;
    }
  }

  lemma ConsumeDrops(b: Buf, n: nat)
    requires Valid(b) && Min(n, Size(b)) < 0x8000_0000
    ensures var b' := Consumed(b, n);
            Valid(b') && Contents(b') == Contents(b)[Min(n, Size(b))..] && Area(b') == Area(b)
  {
  }

  lemma ConsumeExactly(b: Buf, n: nat)
    requires Valid(b)
    ensures Size(Consumed(b, n)) == Size(b) - Min(n, Size(b)) <==> Min(n, Size(b)) < 0x8000_0000
  {
    ToIntExactly(Min(n, Size(b)));
  }

  lemma RoomKeepsContents(b: Buf)
    requires Valid(b)
    ensures var o := MadeRoom(b);
            && Valid(o.b) && o.b.maxSize == b.maxSize && Size(o.b) == Size(b)
            && (o.Threw? <==> Size(b) == b.maxSize)
            && (o.Returned? ==> Contents(o.b) == Contents(b) && o.b.pptr < o.b.epptr)
  {
    ReserveKeepsContents(b, OverflowRequest(b));
  }

  lemma PutAppends(b: Buf, x: Byte)
    requires Valid(b) && b.pptr < b.epptr
    ensures var b' := b.(bytes := b.bytes[b.pptr := x], pptr := b.pptr + 1);
            Valid(b') && Contents(b') == Contents(b) + [x]
  {
  }

  /** `overflow` appends one byte, and throws exactly when the buffer holds its maximum. */
  lemma OverflowAppends(b: Buf, c: int)
    requires Valid(b)
    ensures var o := Overflowed(b, c);
            && Valid(o.b) && o.b.maxSize == b.maxSize
            && (o.Threw? <==> c != -1 && Size(b) == b.maxSize)
            && (o.Returned? ==> Contents(o.b) == if c == -1 then Contents(b) else Contents(b) + [LowByte(c)])
    ensures c != -1 && Overflowed(b, c).Returned? ==>
              var q, q' := Contents(b), Contents(Overflowed(b, c).b);
              && |q'| == |q| + 1 && q'[..|q|] == q
              && (q'[|q|] as int - c) % 256 == 0 && (0 <= c < 256 ==> q'[|q|] as int == c)
  {
    if c != EOF {
      RoomKeepsContents(b);
      if MadeRoom(b).Returned? {
        PutAppends(MadeRoom(b).b, ToChar(c));
      }
    }
  }

  lemma MadeRoomExactly(b: Buf)
    requires Valid(b) && Size(b) < b.maxSize && b.pptr == b.epptr
    ensures var o := MadeRoom(b); var left := b.maxSize - Size(b);
            o.Returned? && o.b.epptr - o.b.pptr == Max(b.gptr, if left < 128 then left else 128)
  {
    ReserveRoomExactly(b, OverflowRequest(b));
  }

  /** A full `overflow` makes room for 128 bytes, or for all that the maximum allows, and takes one of them. */
  lemma OverflowRoomExactly(b: Buf, c: int)
    requires Valid(b) && c != -1 && Size(b) < b.maxSize && |Area(b)| == 0
    ensures var o := Overflowed(b, c); var left := b.maxSize - Size(b);
            && o.Returned? && Valid(o.b)
            && |Area(o.b)| == Max(b.gptr, if left < 128 then left else 128) - 1
  {
    RoomKeepsContents(b);
    MadeRoomExactly(b);
    StoredTakesRoom(MadeRoom(b).b, ToChar(c));
  }

  lemma StoredTakesRoom(b: Buf, x: Byte)
    requires Valid(b) && b.pptr < b.epptr
    ensures var b' := b.(bytes := b.bytes[b.pptr := x], pptr := b.pptr + 1);
            Valid(b') && |Area(b')| == b.epptr - b.pptr - 1
  {
    PutAppends(b, x);
  }

  lemma FillWrites(b: Buf, at: nat, data: seq<Byte>)
    requires Valid(b) && at + |data| <= |Area(b)|
    ensures var b' := Fill(b, at, data);
            && Valid(b') && Contents(b') == Contents(b) && |Area(b')| == |Area(b)|
            && Area(b') == Area(b)[..at] + data + Area(b)[at + |data|..]
  {
    Splice(b.bytes, b.gptr, b.pptr, b.epptr, at, data);
  }

  /** What the stream reads without asking for more: from `gptr` up to `egptr`. */
  function GetArea(b: Buf): (q: seq<Byte>)
    requires Valid(b)
  {
    b.bytes[b.gptr..b.egptr]
  }

  /** It is a prefix of the contents, and all of them after `commit`, `consume` and an `underflow` that finds a byte. */
  lemma GetAreaExactly(b: Buf, n: nat)
    requires Valid(b)
    ensures GetArea(b) == Contents(b)[..|GetArea(b)|]
    ensures Min(n, |Area(b)|) < 0x8000_0000 ==>
              var b' := Committed(b, n); Valid(b') && GetArea(b') == Contents(b')
    ensures Min(n, Size(b)) < 0x8000_0000 ==>
              var b' := Consumed(b, n); Valid(b') && GetArea(b') == Contents(b')
    ensures var b' := Underflowed(b); Valid(b') && Contents(b') == Contents(b) && GetArea(b') == Contents(b)
  {
  }

  // ----- a queue of bytes

  /** What can be done with the buffer. */
  datatype Op =
    | Prepare(n: nat)
    | Write(at: nat, data: seq<Byte>)
    | Commit(n: nat)
    | Consume(n: nat)
    | Put(c: int)
    | Get

  /** What the caller has to keep to: it writes where it may, and moves at most `INT_MAX` bytes at once. */
  ghost predicate Allowed(b: Buf, op: Op)
    requires Valid(b)
  {
    match op
    case Write(at, data) => at + |data| <= |Area(b)|
    case Commit(n) => Min(n, |Area(b)|) < 0x8000_0000
    case Consume(n) => Min(n, Size(b)) < 0x8000_0000
    case _ => true
  }

  ghost function Step(b: Buf, op: Op): (o: Outcome)
    requires Valid(b) && Allowed(b, op)
  {
    match op
    case Prepare(n) => Reserved(b, n)
    case Write(at, data) => Returned(Fill(b, at, data))
    case Commit(n) => Returned(Committed(b, n))
    case Consume(n) => Returned(Consumed(b, n))
    case Put(c) => Overflowed(b, c)
    case Get => Returned(Underflowed(b))
  }

  /** The input sequence after `op`, given both sequences before it. */
  function NextContents(q: seq<Byte>, area: seq<Byte>, op: Op): (r: seq<Byte>) {
    match op
    case Commit(n) => q + area[..Min(n, |area|)]
    case Consume(n) => q[Min(n, |q|)..]
    case Put(c) => if c == -1 then q else q + [LowByte(c)]
    case _ => q
  }

  /** Whether `op` would make more than `maxSize` bytes. */
  predicate TooLong(size: int, maxSize: nat, op: Op) {
    match op
    case Prepare(n) => size + n > maxSize
    case Put(c) => c != -1 && size == maxSize
    case _ => false
  }

  /** Every operation acts on the two sequences as documented, and throws exactly when it has to. */
  lemma StepActsOnQueue(b: Buf, op: Op)
    requires Valid(b) && Allowed(b, op)
    ensures var o := Step(b, op);
            && Valid(o.b) && o.b.maxSize == b.maxSize
            && (o.Threw? <==> TooLong(Size(b), b.maxSize, op))
            && (o.Returned? ==> Contents(o.b) == NextContents(Contents(b), Area(b), op))
  {
    match op
    case Prepare(n) => ReserveKeepsContents(b, n);
    case Write(at, data) => FillWrites(b, at, data);
    case Commit(n) => CommitAppends(b, n);
    case Consume(n) => ConsumeDrops(b, n);
    case Put(c) => OverflowAppends(b, c);
    case Get =>
  }

  /** The bytes that `op` moves into the queue from the writable `area`. */
  function Entering(area: seq<Byte>, op: Op): (r: seq<Byte>) {
    match op
    case Commit(n) => area[..Min(n, |area|)]
    case Put(c) => if c == -1 then [] else [LowByte(c)]
    case _ => []
  }

  /** The bytes that `op` takes out of the queue `q`. */
  function Leaving(q: seq<Byte>, op: Op): (r: seq<Byte>) {
    match op
    case Consume(n) => q[..Min(n, |q|)]
    case _ => []
  }

  lemma BytesBalance(q: seq<Byte>, area: seq<Byte>, op: Op)
    ensures Leaving(q, op) + NextContents(q, area, op) == q + Entering(area, op)
  {
  }

  lemma StepBalances(b: Buf, op: Op, b': Buf)
    requires Follows(b, op, b') && !TooLong(Size(b), b.maxSize, op)
    ensures Valid(b') && Leaving(Contents(b), op) + Contents(b') == Contents(b) + Entering(Area(b), op)
  {
    StepActsOnQueue(b, op);
    BytesBalance(Contents(b), Area(b), op);
  }

  ghost predicate Follows(b: Buf, op: Op, b': Buf) {
    Valid(b) && Allowed(b, op) && b' == Step(b, op).b
  }

  ghost predicate Steps(bs: seq<Buf>, ops: seq<Op>) {
    |bs| == |ops| + 1 && forall i :: 0 <= i < |ops| ==> Follows(bs[i], ops[i], bs[i + 1])
  }

  /** A run of operations, some of which may throw. */
  ghost predicate IsRun(bs: seq<Buf>, ops: seq<Op>, maxSize: nat) {
    Steps(bs, ops) && bs[0] == Init(maxSize)
  }

  lemma InitValid(maxSize: nat)
    ensures Valid(Init(maxSize)) && Init(maxSize).maxSize == maxSize && Contents(Init(maxSize)) == []
    ensures |Area(Init(maxSize))| == if maxSize < 128 then maxSize else 128
  {
  }

  lemma FollowsKeepsValid(b: Buf, op: Op, b': Buf)
    requires Follows(b, op, b')
    ensures Valid(b') && b'.maxSize == b.maxSize
  {
    StepActsOnQueue(b, op);
  }

  lemma {:induction false} StepsKeepValid(bs: seq<Buf>, ops: seq<Op>, i: nat)
    requires Steps(bs, ops) && Valid(bs[0]) && i <= |ops|
    ensures Valid(bs[i]) && bs[i].maxSize == bs[0].maxSize
  {
    if i > 0 {
      StepsKeepValid(bs, ops, i - 1);
      FollowsKeepsValid(bs[i - 1], ops[i - 1], bs[i]);
    }
  }

  /** In every reachable state, also after a throw, `size() <= max_size()`. */
  lemma SizeStaysBounded(bs: seq<Buf>, ops: seq<Op>, maxSize: nat, i: nat)
    requires IsRun(bs, ops, maxSize) && i <= |ops|
    ensures Valid(bs[i]) && bs[i].maxSize == maxSize && 0 <= Size(bs[i]) <= maxSize
  {
    InitValid(maxSize);
    StepsKeepValid(bs, ops, i);
  }

  /** The bytes that entered the queue in the first `i` operations. */
  ghost function Given(bs: seq<Buf>, ops: seq<Op>, i: nat): (r: seq<Byte>)
    requires i <= |ops| < |bs| && forall j :: 0 <= j < |ops| ==> Valid(bs[j])
  {
    if i == 0 then [] else Given(bs, ops, i - 1) + Entering(Area(bs[i - 1]), ops[i - 1])
  }

  /** The bytes that left the queue in the first `i` operations. */
  ghost function Taken(bs: seq<Buf>, ops: seq<Op>, i: nat): (r: seq<Byte>)
    requires i <= |ops| < |bs| && forall j :: 0 <= j < |ops| ==> Valid(bs[j])
  {
    if i == 0 then [] else Taken(bs, ops, i - 1) + Leaving(Contents(bs[i - 1]), ops[i - 1])
  }

  lemma RunIsValid(bs: seq<Buf>, ops: seq<Op>, maxSize: nat)
    requires IsRun(bs, ops, maxSize)
    ensures forall j :: 0 <= j < |ops| ==> Valid(bs[j])
  {
    forall j | 0 <= j < |ops|
      ensures Valid(bs[j])
    {
      SizeStaysBounded(bs, ops, maxSize, j);
    }
  }

  lemma MoveBytes(taken: seq<Byte>, q: seq<Byte>, given: seq<Byte>, leaving: seq<Byte>, q': seq<Byte>,
      entering: seq<Byte>)
    requires taken + q == given && leaving + q' == q + entering
    ensures (taken + leaving) + q' == given + entering
  {
    assert (taken + leaving) + q' == taken + (leaving + q') == (taken + q) + entering;
  }

  /** First in, first out, and no byte lost or made: over every run without a throw. */
  lemma {:induction false} FirstInFirstOut(bs: seq<Buf>, ops: seq<Op>, maxSize: nat, i: nat)
    requires IsRun(bs, ops, maxSize) && i <= |ops|
    requires forall j :: 0 <= j < i ==> !TooLong(Size(bs[j]), maxSize, ops[j])
    ensures Valid(bs[i]) && (forall j :: 0 <= j < |ops| ==> Valid(bs[j]))
    ensures Taken(bs, ops, i) + Contents(bs[i]) == Given(bs, ops, i)
  {
    RunIsValid(bs, ops, maxSize);
    SizeStaysBounded(bs, ops, maxSize, i);
    if i > 0 {
      FirstInFirstOut(bs, ops, maxSize, i - 1);
      var b, op := bs[i - 1], ops[i - 1];
      SizeStaysBounded(bs, ops, maxSize, i - 1);
      assert Follows(b, op, bs[i]);
      StepBalances(b, op, bs[i]);
      MoveBytes(Taken(bs, ops, i - 1), Contents(b), Given(bs, ops, i - 1), Leaving(Contents(b), op),
          Contents(bs[i]), Entering(Area(b), op));
    }
  }

  /** The states of the run below. */
  function LosingState(i: nat): (b: Buf) {
    match i
    case 0 => Buf([0, 0, 0], 0, 0, 0, 3, 3)
    case 1 => Buf([1, 2, 3], 0, 0, 0, 3, 3)
    case 2 => Buf([1, 2, 3], 0, 3, 3, 3, 3)
    case 3 => Buf([1, 2, 3], 1, 3, 3, 3, 3)
    case _ => Buf([2, 3, 3], 1, 3, 3, 3, 3)
  }

  /** Three bytes are written, committed and one of them consumed; then there is no room for two more. */
  function LosingOp(i: nat): (op: Op) {
    match i
    case 0 => Write(0, [1, 2, 3])
    case 1 => Commit(3)
    case 2 => Consume(1)
    case _ => Prepare(2)
  }

  lemma LosingWrites(b: Buf)
    requires b == LosingState(0)
    ensures Follows(b, LosingOp(0), LosingState(1))
  {
    assert Fill(b, 0, [1, 2, 3]).bytes == [1, 2, 3];
  }

  lemma LosingMoves(b: Buf)
    ensures b == LosingState(1) ==> Follows(b, LosingOp(1), LosingState(2))
    ensures b == LosingState(2) ==> Follows(b, LosingOp(2), LosingState(3))
  {
  }

  lemma LosingThrows(b: Buf)
    requires b == LosingState(3)
    ensures Follows(b, LosingOp(3), LosingState(4))
  {
    ShiftedAt(b.bytes, 1, 2, 0);
    ShiftedAt(b.bytes, 1, 2, 1);
    ShiftedAt(b.bytes, 1, 2, 2);
    assert Shifted(b.bytes, 1, 2) == [2, 3, 3];
    assert Reserved(b, 2) == Threw(b.(bytes := [2, 3, 3]));
  }

  lemma LosingFollows(i: nat)
    requires i < 4
    ensures Follows(LosingState(i), LosingOp(i), LosingState(i + 1))
  {
    var b := LosingState(i);
    if i == 0 {
      LosingWrites(b);
    } else if i < 3 {
      LosingMoves(b);
    } else {
      LosingThrows(b);
    }
  }

  /** From the empty buffer of at most three bytes: a `prepare` that throws changes the readable bytes. */
  lemma ThrowCanLoseBytes() returns (bs: seq<Buf>, ops: seq<Op>)
    ensures IsRun(bs, ops, 3) && |ops| == 4 && TooLong(Size(bs[3]), 3, ops[3])
    ensures Valid(bs[3]) && Valid(bs[4]) && Contents(bs[3]) == [2, 3] && Contents(bs[4]) == [3, 3]
  {
    bs, ops := seq(5, i requires i >= 0 => LosingState(i)), seq(4, i requires i >= 0 => LosingOp(i));
    forall i | 0 <= i < 4
      ensures Follows(bs[i], ops[i], bs[i + 1])
    {
      LosingFollows(i);
    }
    assert Zeros(3) == [0] + Zeros(2) && Zeros(2) == [0] + Zeros(1) && Zeros(1) == [0] + Zeros(0);
    assert bs[0] == Init(3);
    assert Contents(bs[3]) == [2, 3] && Contents(bs[4]) == [3, 3];
  }

  // ----- well-behaved callers

  /** A producer that prepares, writes and commits; a consumer that takes. */
  datatype Use = Append(data: seq<Byte>) | Take(n: nat)

  /** `prepare(|data|)`, the caller's writes, `commit(|data|)`. */
  function Do(b: Buf, use: Use): (o: Outcome)
    requires Valid(b)
  {
    match use
    case Append(data) =>
      ReserveKeepsContents(b, |data|);
      var o := Reserved(b, |data|);
      if o.Threw? then o
      else
        FillWrites(o.b, 0, data);
        Returned(Committed(Fill(o.b, 0, data), |data|))
    case Take(n) => Returned(Consumed(b, n))
  }

  /** A queue of at most `maxSize` bytes; nothing when a use does not fit. */
  datatype Bounded = Holds(q: seq<Byte>) | Full

  function Enqueue(q: seq<Byte>, maxSize: nat, use: Use): (r: Bounded) {
    match use
    case Append(data) => if |q| + |data| > maxSize then Full else Holds(q + data)
    case Take(n) => Holds(if n <= |q| then q[n..] else [])
  }

  predicate InIntRange(q: seq<Byte>, use: Use) {
    match use
    case Append(data) => |data| < 0x8000_0000
    case Take(n) => Min(n, |q|) < 0x8000_0000
  }

  /** One use acts as on the bounded queue. */
  lemma UseRefines(b: Buf, use: Use)
    requires Valid(b) && InIntRange(Contents(b), use)
    ensures var o := Do(b, use); var r := Enqueue(Contents(b), b.maxSize, use);
            && Valid(o.b) && o.b.maxSize == b.maxSize && (o.Threw? <==> r.Full?)
            && (r.Holds? ==> Contents(o.b) == r.q)
  {
    match use
    case Append(data) =>
      ReserveKeepsContents(b, |data|);
      var o := Reserved(b, |data|);
      if o.Returned? {
        FillWrites(o.b, 0, data);
        CommitAppends(Fill(o.b, 0, data), |data|);
        assert Area(Fill(o.b, 0, data))[..|data|] == data;
      }
    case Take(n) => ConsumeDrops(b, n);
  }

  /** All uses in turn, up to the first throw. */
  function DoAll(b: Buf, uses: seq<Use>): (o: Outcome)
    requires Valid(b)
    decreases |uses|
  {
    if uses == [] then Returned(b)
    else
      var o := Do(b, uses[0]);
      if o.Threw? || !InIntRange(Contents(b), uses[0]) then o
      else
        UseRefines(b, uses[0]);
        DoAll(o.b, uses[1..])
  }

  function EnqueueAll(q: seq<Byte>, maxSize: nat, uses: seq<Use>): (r: Bounded)
    decreases |uses|
  {
    if uses == [] then Holds(q)
    else
      var r := Enqueue(q, maxSize, uses[0]);
      if r.Full? then r else EnqueueAll(r.q, maxSize, uses[1..])
  }

  /** No use in the run moves more than `INT_MAX` bytes at once. */
  predicate AllInIntRange(q: seq<Byte>, maxSize: nat, uses: seq<Use>)
    decreases |uses|
  {
    uses == [] ||
    (InIntRange(q, uses[0]) &&
     var r := Enqueue(q, maxSize, uses[0]); r.Full? || AllInIntRange(r.q, maxSize, uses[1..]))
  }

  /** Over every run the buffer is a bounded queue of bytes: same bytes, and a throw where the queue is full. */
  lemma {:induction false} RefinesBoundedQueue(b: Buf, uses: seq<Use>)
    requires Valid(b) && AllInIntRange(Contents(b), b.maxSize, uses)
    ensures var o := DoAll(b, uses); var r := EnqueueAll(Contents(b), b.maxSize, uses);
            && Valid(o.b) && (o.Threw? <==> r.Full?) && (r.Holds? ==> Contents(o.b) == r.q)
    decreases |uses|
  {
    if uses != [] {
      UseRefines(b, uses[0]);
      if Do(b, uses[0]).Returned? {
        RefinesBoundedQueue(Do(b, uses[0]).b, uses[1..]);
      }
    }
  }

  // ----- the buffer in place

  lemma {:induction false} AllZero(n: nat)
    ensures forall i :: 0 <= i < n ==> Zeros(n)[i] == 0
  {
    if n > 0 {
      AllZero(n - 1);
    }
  }

  /** The class itself: an array that is replaced when it grows, and four offsets. */
  class BasicStreambuf {
    var buffer: array<Byte>
    var gptr: int
    var egptr: int
    var pptr: int
    var epptr: int
    const maxSize: nat

    ghost function Now(): (b: Buf)
      reads this, buffer
    {
      Buf(buffer[..], gptr, egptr, pptr, epptr, maxSize)
    }

    /** Lines 131-141. */
    constructor (maximumSize: nat)
      ensures Now() == Init(maximumSize) && fresh(buffer)
    {
      var pend := Min(maximumSize, BUFFER_DELTA);
      maxSize := maximumSize;
      buffer := new Byte[Max(pend, 1)](_ => 0);
      AllZero(Max(pend, 1));
      gptr, egptr, pptr, epptr := 0, 0, 0, pend;
      new;
      assert buffer[..] == Init(maximumSize).bytes;
    }

    /** `memmove` to the start of the buffer. */
    method Shift(g: nat, size: nat)
      requires g + size <= buffer.Length
      modifies buffer
      ensures buffer[..] == Shifted(old(buffer[..]), g, size)
    {
      ghost var bytes := buffer[..];
      forall i | 0 <= i < size {
        buffer[i] := buffer[g + i];
      }
      forall i | 0 <= i < |bytes|
        ensures buffer[..][i] == Shifted(bytes, g, size)[i]
      {
        ShiftedAt(bytes, g, size, i);
      }
    }

    /** `buffer_.resize(n)`. */
    method Resize(n: nat)
      modifies this`buffer
      ensures fresh(buffer) && buffer[..] == Resized(old(buffer[..]), n)
    {
      var larger := new Byte[n](_ => 0);
      var kept := Min(n, buffer.Length);
      AllZero(n - kept);
      forall i | 0 <= i < kept {
        larger[i] := buffer[i];
      }
      buffer := larger;
    }

    /** Lines 308-346. */
    method Reserve(n: nat) returns (threw: bool)
      requires Valid(Now())
      modifies this, buffer
      ensures Now() == Reserved(old(Now()), n).b && threw == Reserved(old(Now()), n).Threw?
      ensures buffer == old(buffer) || fresh(buffer)
    {
      var pnext, pend := pptr, epptr;
      if n <= pend - pnext {
        return false;
      }
      if gptr > 0 {
        pnext := pnext - gptr;
        Shift(gptr, pnext);
      } else {
        ShiftedNowhere(buffer[..], pnext);
      }
      if n > pend - pnext {
        if n <= maxSize && pnext <= maxSize - n {
          pend := pnext + n;
          Resize(Max(pend, 1));
        } else {
          return true;
        }
      }
      gptr, egptr := 0, pnext;
      pptr, epptr := pnext, pend;
      return false;
    }

    /** Lines 214-219: the buffer to write to is the first `n` bytes of the output sequence. */
    method Prepare(n: nat) returns (threw: bool)
      requires Valid(Now())
      modifies this, buffer
      ensures Now() == Reserved(old(Now()), n).b && threw == (Size(old(Now())) + n > maxSize)
      ensures buffer == old(buffer) || fresh(buffer)
    {
      ReserveKeepsContents(Now(), n);
      threw := Reserve(n);
    }

    /** Lines 233-238. */
    method Commit(n: nat)
      requires Valid(Now())
      modifies this`pptr, this`egptr
      ensures Now() == Committed(old(Now()), n)
      ensures var q, area := old(Contents(Now())), old(Area(Now())); var k := Min(n, |area|);
              k < 0x8000_0000 ==> Valid(Now()) && Contents(Now()) == q + area[..k] && Area(Now()) == area[k..]
    {
      ghost var b := Now();
      if Min(n, |Area(b)|) < 0x8000_0000 {
        CommitAppends(b, n);
      }
      var k := Min(n, epptr - pptr);
      pptr := pptr + ToInt(k);
      egptr := pptr;
      assert Now() == Committed(b, n);
    }

    /** Lines 247-254. */
    method Consume(n: nat)
      requires Valid(Now())
      modifies this`gptr, this`egptr
      ensures Now() == Consumed(old(Now()), n)
      ensures var q := old(Contents(Now())); var k := Min(n, |q|);
              k < 0x8000_0000 ==> Valid(Now()) && Contents(Now()) == q[k..] && Area(Now()) == old(Area(Now()))
    {
      ghost var b := Now();
      if Min(n, Size(b)) < 0x8000_0000 {
        ConsumeDrops(b, n);
      }
      if egptr < pptr {
        egptr := pptr;
      }
      var k := n;
      if gptr + n > pptr {
        k := pptr - gptr;
      }
      gptr := gptr + ToInt(k);
      assert Now() == Consumed(b, n);
    }

    /** Lines 263-274. */
    method Underflow() returns (c: int)
      requires Valid(Now())
      modifies this`egptr
      ensures Now() == Underflowed(old(Now()))
      ensures Valid(Now()) && Contents(Now()) == old(Contents(Now())) && GetArea(Now()) == Contents(Now())
      ensures c == if old(Contents(Now())) == [] then EOF else old(Contents(Now()))[0] as int
    {
      if gptr < pptr {
        egptr := pptr;
        return buffer[gptr] as int;
      }
      return EOF;
    }

    /** Lines 287-298. */
    method MakeRoom() returns (threw: bool)
      requires Valid(Now())
      modifies this, buffer
      ensures Now() == MadeRoom(old(Now())).b && threw == MadeRoom(old(Now())).Threw?
      ensures buffer == old(buffer) || fresh(buffer)
    {
      if pptr < epptr {
        return false;
      }
      var size := pptr - gptr;
      if size < maxSize && maxSize - size < BUFFER_DELTA {
        threw := Reserve(maxSize - size);
      } else {
        threw := Reserve(BUFFER_DELTA);
      }
    }

    /** Lines 300-301. */
    method Store(c: int)
      requires Valid(Now()) && pptr < epptr
      modifies this`pptr, buffer
      ensures var b := old(Now());
              Now() == b.(bytes := b.bytes[b.pptr := ToChar(c)], pptr := b.pptr + 1)
    {
      buffer[pptr] := ToChar(c);
      pptr := pptr + 1;
    }

    /** Lines 283-306; `r` is the result, or of no interest after a throw. */
    method Overflow(c: int) returns (threw: bool, r: int)
      requires Valid(Now())
      modifies this, buffer
      ensures Now() == Overflowed(old(Now()), c).b && threw == (c != -1 && Size(old(Now())) == maxSize)
      ensures Valid(Now()) && r != -1 && (c != -1 ==> r == c)
      ensures c != -1 && !threw ==>
                var q, q' := old(Contents(Now())), Contents(Now());
                && |q'| == |q| + 1 && q'[..|q|] == q
                && (q'[|q|] as int - c) % 256 == 0 && (0 <= c < 256 ==> q'[|q|] as int == c)
      ensures buffer == old(buffer) || fresh(buffer)
    {
      ghost var b := Now();
      OverflowAppends(b, c);
      if c == EOF {
        return false, 0;
      }
      RoomKeepsContents(b);
      threw := MakeRoom();
      r := c;
      if !threw {
        Store(c);
      }
      assert Now() == Overflowed(b, c).b;
    }
  }
}
