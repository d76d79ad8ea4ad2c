/**
 Calling `optparse` until it reports the end of the options
 (SocketExams_vs17/uWebSocketsServer/helpers/optparse.h, lines 86-96 and 198-268), compared with a
 reference that reads the arguments from left to right and never moves any.
 */
module OptparseRun {
  import opened Common
  import opened Optparse

  /** An option as reported to the caller, and the place in its argument that its letter was read from. */
  datatype Event = Event(c: char, optarg: Option<string>, at: nat)

  // ----- the reference

  /** What one cluster of letters means: its options, the arguments it takes, the cursor left behind. */
  datatype Cluster = Cluster(events: seq<Event>, used: nat, subopt: nat)

  /** The cluster `tok`, followed by `next`, from the letter after position `s` on. */
  function ReadCluster(tok: string, next: Option<string>, s: nat, optstring: string): (r: Cluster)
    requires s < |tok|
    ensures 1 <= r.used <= if next.Some? then 2 else 1
    decreases |tok| - s
  {
    var c := CharAt(tok, s + 1);
    var kind := ArgType(optstring, c);
    var attached := if s + 2 < |tok| then Some(tok[s + 2..]) else None;
    if kind == -1 then Cluster([Event('?', None, s + 1)], 1, s)
    else if kind == 0 && attached.Some? then
      var r := ReadCluster(tok, next, s + 1, optstring);
      r.(events := [Event(c, None, s + 1)] + r.events)
    else if kind == 0 then Cluster([Event(c, None, s + 1)], 1, 0)
    else if kind == 2 || attached.Some? then Cluster([Event(c, attached, s + 1)], 1, 0)
    else if next.Some? then Cluster([Event(c, next, s + 1)], 2, 0)
    else Cluster([Event('?', None, s + 1)], 1, 0)
  }

  function Head(w: seq<string>): (o: Option<string>) {
    if w == [] then None else Some(w[0])
  }

  datatype Parsed = Parsed(events: seq<Event>, taken: seq<string>, rest: seq<string>)

  /** The cursor `s` lies inside the first option argument of `w`, if there is one. */
  predicate CursorIn(w: seq<string>, s: nat) {
    w != [] ==> if IsNonOption(w[0]) then CursorIn(w[1..], s) else IsShort(w[0]) ==> s < |w[0]|
  }

  lemma {:induction false} CursorAtStart(w: seq<string>)
    ensures CursorIn(w, 0)
  {
    if w != [] && IsNonOption(w[0]) {
      CursorAtStart(w[1..]);
    }
  }

  /** The options of `w`, the arguments they take, and those left over, all in their original order. */
  function Parse(w: seq<string>, s: nat, optstring: string): (p: Parsed)
    requires CursorIn(w, s)
  {
    if w == [] then Parsed([], [], [])
    else if IsDashDash(w[0]) then Parsed([], w[..1], w[1..])
    else if IsShort(w[0]) then
      var cl := ReadCluster(w[0], Head(w[1..]), s, optstring);
      CursorAtStart(w[cl.used..]);
      var p := Parse(w[cl.used..], 0, optstring);
      Parsed(cl.events + p.events, w[..cl.used] + p.taken, p.rest)
    else
      var p := Parse(w[1..], s, optstring);
      p.(rest := [w[0]] + p.rest)
  }

  /** No option stands before "--" or the end. */
  predicate NoOptions(w: seq<string>) {
    w == [] || IsDashDash(w[0]) || (IsNonOption(w[0]) && NoOptions(w[1..]))
  }

  /**
   Every cursor left in a cluster is used up before the next option is read. It fails exactly when
   a letter after the first of its cluster is undeclared and another option follows: lines 229-234
   then leave `subopt` pointing into an argument that has been consumed.
   */
  predicate Aligned(w: seq<string>, s: nat, optstring: string)
    requires CursorIn(w, s)
  {
    if w == [] || IsDashDash(w[0]) then true
    else if IsShort(w[0]) then
      var cl := ReadCluster(w[0], Head(w[1..]), s, optstring);
      CursorAtStart(w[cl.used..]);
      if cl.subopt > 0 then NoOptions(w[cl.used..]) else Aligned(w[cl.used..], 0, optstring)
    else Aligned(w[1..], s, optstring)
  }

  // ----- what the calls follow

  /**
   What calling the parser amounts to, wherever its cursor stands: the options, the cursor each
   option argument is begun with, the arguments consumed and those left over, and whether the cursor
   at last lies beyond the end of an option argument, so that the next call would read past its NUL.
   */
  datatype Followed =
    Followed(events: seq<Event>, cursors: seq<nat>, taken: seq<string>, rest: seq<string>, overrun: bool)

  function Follow(w: seq<string>, s: nat, optstring: string): (p: Followed) {
    if w == [] then Followed([], [], [], [], false)
    else if IsDashDash(w[0]) then Followed([], [], w[..1], w[1..], false)
    else if IsShort(w[0]) then
      if s >= |w[0]| then Followed([], [s], [], w, true)
      else
        var cl := ReadCluster(w[0], Head(w[1..]), s, optstring);
        var p := Follow(w[cl.used..], cl.subopt, optstring);
        Followed(cl.events + p.events, [s] + p.cursors, w[..cl.used] + p.taken, p.rest, p.overrun)
    else
      var p := Follow(w[1..], s, optstring);
      p.(rest := [w[0]] + p.rest)
  }

  ghost predicate NonOptions(n: seq<string>) {
    forall i :: 0 <= i < |n| ==> IsNonOption(n[i])
  }

  /** Leading non-options only lengthen the rest. */
  lemma {:induction false} FollowSkips(n: seq<string>, x: seq<string>, s: nat, optstring: string)
    requires NonOptions(n)
    ensures Follow(n + x, s, optstring) == Follow(x, s, optstring).(rest := n + Follow(x, s, optstring).rest)
  {
    if n == [] {
      assert n + x == x;
    } else {
      assert (n + x)[1..] == n[1..] + x;
      FollowSkips(n[1..], x, s, optstring);
      ConsAssoc(n, Follow(x, s, optstring).rest);
    }
  }

  lemma ConsAssoc<T>(n: seq<T>, r: seq<T>)
    requires n != []
    ensures [n[0]] + (n[1..] + r) == n + r
  {
  }

  lemma NothingBefore<T>(x: seq<T>, y: seq<T>)
    ensures x[0..] == x && x[..0] + y == y
  {
  }

  lemma Assoc<T>(a: seq<T>, b: seq<T>, c: seq<T>)
    ensures a + (b + c) == (a + b) + c
  {
  }

  /** `p` is the letter `ev`, read with cursor `s` and taking the arguments `c`, and then `q`. */
  ghost predicate Begins(p: Followed, ev: Event, s: nat, c: seq<string>, q: Followed) {
    && p.events == [ev] + q.events && p.taken == c + q.taken && p.rest == q.rest && p.overrun == q.overrun
    && (if c == [] then q.cursors != [] && p.cursors == [s] + q.cursors[1..] else p.cursors == [s] + q.cursors)
  }

  /** Reading one letter of a cluster leaves the rest of the cluster to be read. */
  lemma FollowLetter(x: seq<string>, s: nat, optstring: string)
    requires x != [] && IsShort(x[0]) && s < |x[0]|
    ensures var st := ShortStep(x[0], Head(x[1..]), s, optstring);
            && st.used <= |x| && st.out.Letter?
            && Begins(Follow(x, s, optstring), Event(st.out.c, st.optarg, s + 1), s, x[..st.used], Follow(x[st.used..],
               st.subopt, optstring))
  {
    var st := ShortStep(x[0], Head(x[1..]), s, optstring);
    if st.used == 0 {
      var r := ReadCluster(x[0], Head(x[1..]), s + 1, optstring);
      var p := Follow(x[r.used..], r.subopt, optstring);
      Assoc([Event(st.out.c, None, s + 1)], r.events, p.events);
      NothingBefore(x, Follow(x, s + 1, optstring).taken);
    }
  }

  // ----- one call against the reference

  lemma {:induction false} StopSkips(argv: seq<string>, i: nat)
    requires i <= |argv|
    ensures NonOptions(argv[i..Stop(argv, i, true)])
    ensures var k := Stop(argv, i, true); k < |argv| ==> !IsNonOption(argv[k])
    decreases |argv| - i
  {
    if i < |argv| && IsNonOption(argv[i]) {
      StopSkips(argv, i + 1);
      var k := Stop(argv, i, true);
      assert argv[i..k] == [argv[i]] + argv[i + 1..k];
    }
  }

  function Unread(v: View): (w: seq<string>)
    requires v.optind <= |v.argv|
  {
    v.argv[v.optind..]
  }

  /** What a call reports when `x` stands behind the non-options it steps over. */
  function CallOn(x: seq<string>, s: nat, optstring: string): (st: Step)
    requires x != [] && IsShort(x[0]) ==> s < |x[0]|
    ensures st.used <= |x|
  {
    if x != [] && IsShort(x[0]) then ShortStep(x[0], Head(x[1..]), s, optstring)
    else Step(Done, '\0', None, NoError, if x != [] && IsDashDash(x[0]) then 1 else 0, s)
  }

  /** The unread arguments are the non-options stepped over and what stands behind them. */
  lemma UnreadParts(v: View, k: nat)
    requires v.permute && v.optind <= |v.argv| && k == Stop(v.argv, v.optind, true)
    ensures Unread(v) == v.argv[v.optind..k] + v.argv[k..] && NonOptions(v.argv[v.optind..k])
    ensures k < |v.argv| ==> !IsNonOption(v.argv[k])
  {
    StopSkips(v.argv, v.optind);
  }

  lemma CallOnRest(v: View, k: nat, optstring: string)
    requires Ready(v) && v.permute && k == Stop(v.argv, v.optind, true)
    ensures v.argv[k..] != [] && IsShort(v.argv[k]) ==> v.subopt < |v.argv[k]|
    ensures Call(v, optstring) == CallOn(v.argv[k..], v.subopt, optstring)
  {
    StopSkips(v.argv, v.optind);
    if k < |v.argv| {
      assert v.argv[k..][1..] == v.argv[k + 1..];
    }
  }

  lemma Regroup<T>(s: seq<T>, i: nat, a: seq<T>, c: seq<T>, n: seq<T>, r: seq<T>)
    requires s == a + c + n + r && i == |a| + |c|
    ensures s[..i] == a + c && s[i..] == n + r
  {
  }

  lemma MovedForward<T>(argv: seq<T>, argv': seq<T>, i: nat, i': nat, k: nat, used: nat)
    requires i <= k && k + used <= |argv| && i' == i + used
    requires argv' == argv[..i] + argv[k..k + used] + argv[i..k] + argv[k + used..]
    ensures i' <= |argv'|
    ensures argv'[..i'] == argv[..i] + argv[k..k + used] && argv'[i'..] == argv[i..k] + argv[k + used..]
  {
    Regroup(argv', i', argv[..i], argv[k..k + used], argv[i..k], argv[k + used..]);
  }

  /** A call consumes a prefix of what stands behind the non-options, and leaves those before the remainder. */
  lemma UnreadAfter(v: View, k: nat, used: nat, optstring: string)
    requires Ready(v) && k == Stop(v.argv, v.optind, v.permute) && used == Call(v, optstring).used
    ensures var v' := Respond(v, optstring).v;
            && v'.argv[..v'.optind] == v.argv[..v.optind] + v.argv[k..k + used]
            && Unread(v') == v.argv[v.optind..k] + v.argv[k + used..]
  {
    CallMovesConsumedForward(v, optstring);
    var v' := Respond(v, optstring).v;
    MovedForward(v.argv, v'.argv, v.optind, v'.optind, k, used);
  }

  lemma SliceOfRest<T>(argv: seq<T>, k: nat, used: nat)
    requires k + used <= |argv|
    ensures argv[k..][..used] == argv[k..k + used] && argv[k..][used..] == argv[k + used..]
  {
  }

  /** One call on unread arguments `n + x`, in terms of `n` and `x`. */
  lemma CallParts(v: View, optstring: string) returns (n: seq<string>, x: seq<string>)
    requires Ready(v) && v.permute
    ensures NonOptions(n) && Unread(v) == n + x && (x != [] ==> !IsNonOption(x[0]))
    ensures x != [] && IsShort(x[0]) ==> v.subopt < |x[0]|
    ensures var st, r := CallOn(x, v.subopt, optstring), Respond(v, optstring);
            && r.out == st.out && r.v.optarg == st.optarg && r.v.subopt == st.subopt && r.v.permute
            && r.v.argv[..r.v.optind] == v.argv[..v.optind] + x[..st.used]
            && Unread(r.v) == n + x[st.used..]
  {
    var k, used := Stop(v.argv, v.optind, true), Call(v, optstring).used;
    n, x := v.argv[v.optind..k], v.argv[k..];
    UnreadParts(v, k);
    CallOnRest(v, k, optstring);
    CallReports(v, optstring);
    UnreadAfter(v, k, used, optstring);
    SliceOfRest(v.argv, k, used);
  }

  /** An option behind non-options `n` is the first one followed. */
  lemma OptionFirst(n: seq<string>, x: seq<string>, s: nat, optstring: string)
    requires NonOptions(n) && x != [] && IsShort(x[0]) && s < |x[0]|
    ensures var st := CallOn(x, s, optstring);
            && st.out.Letter?
            && Begins(Follow(n + x, s, optstring), Event(st.out.c, st.optarg, s + 1), s, x[..st.used],
                      Follow(n + x[st.used..], st.subopt, optstring))
  {
    FollowSkips(n, x, s, optstring);
    FollowLetter(x, s, optstring);
    var st := CallOn(x, s, optstring);
    FollowSkips(n, x[st.used..], st.subopt, optstring);
  }

  /** A call that reports an option takes it off the front of what is followed. */
  lemma CallTakesOption(v: View, optstring: string)
    requires v.permute && Ready(v) && Respond(v, optstring).out.Letter?
    ensures var r := Respond(v, optstring);
            var p, q := Follow(Unread(v), v.subopt, optstring), Follow(Unread(r.v), r.v.subopt, optstring);
            && r.v.permute && p.events == [Event(r.out.c, r.v.optarg, v.subopt + 1)] + q.events && p.rest == q.rest &&
               p.overrun == q.overrun
            && v.argv[..v.optind] + p.taken == r.v.argv[..r.v.optind] + q.taken
            && (if r.v.optind == v.optind then q.cursors != [] && p.cursors == [v.subopt] + q.cursors[1..]
                else p.cursors == [v.subopt] + q.cursors)
  {
    var n, x := CallParts(v, optstring);
    OptionFirst(n, x, v.subopt, optstring);
    CallReports(v, optstring);
    var r, used := Respond(v, optstring), CallOn(x, v.subopt, optstring).used;
    Assoc(v.argv[..v.optind], x[..used], Follow(Unread(r.v), r.v.subopt, optstring).taken);
    assert |r.v.argv[..r.v.optind]| == |v.argv[..v.optind]| + |x[..used]|;
  }

  /** A call that reports the end leaves unread exactly what is left over. */
  lemma CallEnds(v: View, optstring: string)
    requires v.permute && Ready(v) && Respond(v, optstring).out.Done?
    ensures var r, p := Respond(v, optstring), Follow(Unread(v), v.subopt, optstring);
            && p.events == [] && p.cursors == [] && !p.overrun
            && r.v.argv[..r.v.optind] == v.argv[..v.optind] + p.taken && Unread(r.v) == p.rest
  {
    var n, x := CallParts(v, optstring);
    FollowSkips(n, x, v.subopt, optstring);
    if x != [] && IsShort(x[0]) {
      OptionFirst(n, x, v.subopt, optstring);
    }
  }

  // ----- the whole run

  /** How many letters a cluster at the head of the unread options still has, at most. */
  function LettersLeft(v: View): (l: nat) {
    if !Ready(v) then 0
    else
      var k := Stop(v.argv, v.optind, v.permute);
      if k < |v.argv| && IsShort(v.argv[k]) then |v.argv[k]| - v.subopt else 0
  }

  lemma RotatedByNone<T>(argv: seq<T>, i: nat, k: nat)
    requires i <= k <= |argv|
    ensures Rotated(argv, i, k, 0) == argv
  {
  }

  /** A call that reports an option consumes an argument or advances in its cluster. */
  lemma CallProgresses(v: View, optstring: string)
    requires Ready(v) && Respond(v, optstring).out.Letter?
    ensures var v' := Respond(v, optstring).v;
            v'.optind > v.optind || (v'.optind == v.optind && Ready(v') && LettersLeft(v') < LettersLeft(v))
  {
    CallReports(v, optstring);
    CallRotates(v, optstring);
    if Call(v, optstring).used == 0 {
      RotatedByNone(v.argv, v.optind, Stop(v.argv, v.optind, v.permute));
    }
  }

  /** The options reported, the cursor of every call that begins an option argument, the parser afterwards. */
  datatype Drained = Drained(events: seq<Event>, cursors: seq<nat>, v: View, overrun: bool)

  /**
   Calling until the end is reported, or until a call would read past the end of an argument.
   `begins` says that the call before consumed an argument, or that there was none.
   */
  function Drain(v: View, begins: bool, optstring: string): (d: Drained)
    requires v.permute && v.optind <= |v.argv|
    decreases |v.argv| - v.optind, LettersLeft(v)
  {
    if !Ready(v) then Drained([], [v.subopt], v, true)
    else
      var r := Respond(v, optstring);
      if r.out.Done? then Drained([], [], r.v, false)
      else
        CallProgresses(v, optstring);
        CallReports(v, optstring);
        var d := Drain(r.v, r.v.optind > v.optind, optstring);
        Drained([Event(r.out.c, r.v.optarg, v.subopt + 1)] + d.events, (if begins then [v.subopt]
            else []) + d.cursors, d.v, d.overrun)
  }

  lemma OverrunFollows(v: View, optstring: string)
    requires v.permute && v.optind <= |v.argv| && !Ready(v)
    ensures Follow(Unread(v), v.subopt, optstring) == Followed([], [v.subopt], [], Unread(v), true)
  {
    var k := Stop(v.argv, v.optind, true);
    UnreadParts(v, k);
    FollowSkips(v.argv[v.optind..k], v.argv[k..], v.subopt, optstring);
  }

  /** The calls have done from `v` on what `p` says. */
  ghost predicate Tracks(v: View, begins: bool, d: Drained, p: Followed)
    requires v.optind <= |v.argv|
  {
    && d.events == p.events && d.overrun == p.overrun && d.v.optind <= |d.v.argv|
    && d.v.argv[..d.v.optind] == v.argv[..v.optind] + p.taken && Unread(d.v) == p.rest
    && (begins || p.cursors != []) && d.cursors == if begins then p.cursors else p.cursors[1..]
  }

  /** One call, and then what the calls after it do. */
  lemma TracksMore(v: View, begins: bool, d: Drained, p: Followed, v': View, d': Drained, q: Followed, ev: Event)
    requires v.optind <= |v.argv| && v'.optind <= |v'.argv| && Tracks(v', v'.optind > v.optind, d', q)
    requires p.events == [ev] + q.events && p.rest == q.rest && p.overrun == q.overrun
    requires v.argv[..v.optind] + p.taken == v'.argv[..v'.optind] + q.taken
    requires if v'.optind > v.optind then p.cursors == [v.subopt] + q.cursors
             else q.cursors != [] && p.cursors == [v.subopt] + q.cursors[1..]
    requires d == Drained([ev] + d'.events, (if begins then [v.subopt] else []) + d'.cursors, d'.v, d'.overrun)
    ensures Tracks(v, begins, d, p)
  {
    assert p.cursors[1..] == d'.cursors;
  }

  /** Where no option is reported. */
  lemma DrainStops(v: View, begins: bool, optstring: string)
    requires v.permute && v.optind <= |v.argv| && (Ready(v) ==> Respond(v, optstring).out.Done?)
    requires !begins ==> Ready(v) && Follow(Unread(v), v.subopt, optstring).cursors != []
    ensures Tracks(v, begins, Drain(v, begins, optstring), Follow(Unread(v), v.subopt, optstring))
  {
    if Ready(v) {
      CallEnds(v, optstring);
    } else {
      OverrunFollows(v, optstring);
      assert v.argv[..v.optind] + [] == v.argv[..v.optind];
    }
  }

  /** The first call of several. */
  lemma DrainCalls(v: View, begins: bool, optstring: string, r: Reply, d: Drained)
    requires v.permute && Ready(v) && r == Respond(v, optstring) && r.out.Letter?
    requires r.v.permute && r.v.optind <= |r.v.argv| && d == Drain(r.v, r.v.optind > v.optind, optstring)
    ensures Drain(v, begins, optstring) ==
            Drained([Event(r.out.c, r.v.optarg, v.subopt + 1)] + d.events,
                    (if begins then [v.subopt] else []) + d.cursors, d.v, d.overrun)
  {
  }

  lemma {:induction false} DrainTracks(v: View, begins: bool, optstring: string)
    requires v.permute && v.optind <= |v.argv|
    requires !begins ==> Ready(v) && Follow(Unread(v), v.subopt, optstring).cursors != []
    ensures Tracks(v, begins, Drain(v, begins, optstring), Follow(Unread(v), v.subopt, optstring))
    decreases |v.argv| - v.optind, LettersLeft(v)
  {
    if !Ready(v) || Respond(v, optstring).out.Done? {
      DrainStops(v, begins, optstring);
    } else {
      var r := Respond(v, optstring);
      CallProgresses(v, optstring);
      CallTakesOption(v, optstring);
      var next := r.v.optind > v.optind;
      DrainTracks(r.v, next, optstring);
      DrainCalls(v, begins, optstring, r, Drain(r.v, next, optstring));
      TracksMore(v, begins, Drain(v, begins, optstring), Follow(Unread(v), v.subopt, optstring), r.v,
        Drain(r.v, next, optstring), Follow(Unread(r.v), r.v.subopt, optstring),
        Event(r.out.c, r.v.optarg, v.subopt + 1));
    }
  }

  /**
   Permuting calls report the options followed, and leave `argv` as the consumed arguments in order
   followed by the others in order, with `optind` between the two. This holds for every argument
   vector, declared letters or not.
   */
  lemma DrainFollows(v: View, optstring: string)
    requires v.permute && v.optind <= |v.argv|
    ensures var d, p := Drain(v, true, optstring), Follow(Unread(v), v.subopt, optstring);
            && d.events == p.events && d.cursors == p.cursors && d.overrun == p.overrun && d.v.optind <= |d.v.argv|
            && d.v.argv[..d.v.optind] == v.argv[..v.optind] + p.taken && Unread(d.v) == p.rest
  {
    DrainTracks(v, true, optstring);
  }

  // ----- the cursor

  lemma {:induction false} NoOptionsFollow(w: seq<string>, s: nat, optstring: string)
    ensures NoOptions(w) <==> Follow(w, s, optstring).cursors == []
    ensures !NoOptions(w) ==> Follow(w, s, optstring).cursors != [] && Follow(w, s, optstring).cursors[0] == s
    ensures NoOptions(w) ==>
              CursorIn(w, s) && CursorIn(w, 0) && Parse(w, 0, optstring) == AsParsed(Follow(w, s, optstring)) &&
                  !Follow(w, s, optstring).overrun
  {
    if w != [] && IsNonOption(w[0]) {
      NoOptionsFollow(w[1..], s, optstring);
    }
  }

  function AsParsed(p: Followed): (q: Parsed) {
    Parsed(p.events, p.taken, p.rest)
  }

  /** Every option argument but the first is begun with the cursor at its start. */
  ghost predicate FreshAtStart(p: Followed) {
    forall i :: 0 < i < |p.cursors| ==> p.cursors[i] == 0
  }

  lemma FreshLater(p: Followed, s: nat, q: Followed)
    requires p.cursors == [s] + q.cursors
    ensures FreshAtStart(p) <==> FreshAtStart(q) && (q.cursors != [] ==> q.cursors[0] == 0)
  {
    if FreshAtStart(p) {
      forall i | 0 <= i < |q.cursors|
        ensures q.cursors[i] == 0
      {
        assert p.cursors[i + 1] == q.cursors[i];
      }
    }
  }

  /**
   The cursor stays aligned if and only if every option argument of the run but the first is begun
   with cursor 0, and then the calls read what the reference reads.
   */
  lemma {:induction false} AlignedExactly(w: seq<string>, s: nat, optstring: string)
    requires CursorIn(w, s)
    ensures Aligned(w, s, optstring) <==> FreshAtStart(Follow(w, s, optstring))
    ensures Aligned(w, s, optstring) ==>
              AsParsed(Follow(w, s, optstring)) == Parse(w, s, optstring) && !Follow(w, s, optstring).overrun
  {
    if w == [] || IsDashDash(w[0]) {
    } else if IsShort(w[0]) {
      var cl := ReadCluster(w[0], Head(w[1..]), s, optstring);
      var rest, q := w[cl.used..], Follow(w[cl.used..], cl.subopt, optstring);
      CursorAtStart(rest);
      NoOptionsFollow(rest, cl.subopt, optstring);
      FreshLater(Follow(w, s, optstring), s, q);
      if cl.subopt == 0 {
        AlignedExactly(rest, 0, optstring);
      }
    } else {
      AlignedExactly(w[1..], s, optstring);
    }
  }

  lemma {:induction false} ClusterBegins(tok: string, next: Option<string>, s: nat, optstring: string)
    requires s < |tok|
    ensures var e := ReadCluster(tok, next, s, optstring).events; e != [] && e[0].at == s + 1
  {
  }

  /** Where an option is left, the first one read tells the cursor; a call past the end tells none. */
  lemma {:induction false} FirstEvent(w: seq<string>, s: nat, optstring: string)
    requires !NoOptions(w)
    ensures CursorIn(w, 0) && Parse(w, 0, optstring).events != [] && Parse(w, 0, optstring).events[0].at == 1
    ensures var e := Follow(w, s, optstring).events; e != [] ==> e[0].at == s + 1
  {
    CursorAtStart(w);
    if IsShort(w[0]) {
      ClusterBegins(w[0], Head(w[1..]), 0, optstring);
      if s < |w[0]| {
        ClusterBegins(w[0], Head(w[1..]), s, optstring);
      }
    } else {
      FirstEvent(w[1..], s, optstring);
    }
  }

  /** Reading the same options from the same places takes an aligned cursor. */
  lemma {:induction false} SameEventsAligned(w: seq<string>, s: nat, optstring: string)
    requires CursorIn(w, s) && Follow(w, s, optstring).events == Parse(w, s, optstring).events
    ensures Aligned(w, s, optstring)
  {
    if w == [] || IsDashDash(w[0]) {
    } else if IsShort(w[0]) {
      var cl := ReadCluster(w[0], Head(w[1..]), s, optstring);
      var rest := w[cl.used..];
      CursorAtStart(rest);
      SameTail(cl.events, Follow(rest, cl.subopt, optstring).events, Parse(rest, 0, optstring).events);
      if cl.subopt == 0 {
        SameEventsAligned(rest, 0, optstring);
      } else if !NoOptions(rest) {
        FirstEvent(rest, cl.subopt, optstring);
      }
    } else {
      SameEventsAligned(w[1..], s, optstring);
    }
  }

  lemma SameTail<T>(a: seq<T>, b: seq<T>, c: seq<T>)
    requires a + b == a + c
    ensures b == c
  {
    assert b == (a + b)[|a|..] && c == (a + c)[|a|..];
  }

  /** A permuting parser whose cursor will stay aligned. */
  predicate Good(v: View, optstring: string) {
    v.permute && v.optind <= |v.argv| && CursorIn(Unread(v), v.subopt) && Aligned(Unread(v), v.subopt, optstring)
  }

  /**
   The calls report the options of the reference, read from the same places, if and only if the cursor
   stays aligned. They then leave `argv` as the consumed arguments in order followed by the others in
   order, with `optind` between the two, and never read past an argument.
   */
  lemma DrainMatchesParse(v: View, optstring: string)
    requires v.permute && v.optind <= |v.argv| && CursorIn(Unread(v), v.subopt)
    ensures Good(v, optstring) <==> Drain(v, true, optstring).events == Parse(Unread(v), v.subopt, optstring).events
    ensures var d, p := Drain(v, true, optstring), Parse(Unread(v), v.subopt, optstring);
            Good(v, optstring) ==>
              && !d.overrun && d.v.optind <= |d.v.argv|
              && d.v.argv[..d.v.optind] == v.argv[..v.optind] + p.taken && Unread(d.v) == p.rest
  {
    DrainFollows(v, optstring);
    AlignedExactly(Unread(v), v.subopt, optstring);
    if Drain(v, true, optstring).events == Parse(Unread(v), v.subopt, optstring).events {
      SameEventsAligned(Unread(v), v.subopt, optstring);
    }
  }

  /** What the caller can see of a run: every call that begins an option argument, but the first, has cursor 0. */
  lemma AlignedRunsExactly(v: View, optstring: string)
    requires v.permute && v.optind <= |v.argv| && CursorIn(Unread(v), v.subopt)
    ensures Good(v, optstring) <==>
            var cursors := Drain(v, true, optstring).cursors; forall i :: 0 < i < |cursors| ==> cursors[i] == 0
  {
    DrainFollows(v, optstring);
    AlignedExactly(Unread(v), v.subopt, optstring);
  }

  // ----- what the reference means

  /** `u` is `a` and `b` merged, each in its own order. */
  ghost predicate Merged(u: seq<string>, a: seq<string>, b: seq<string>) {
    if u == [] then a == [] && b == []
    else
      || (a != [] && a[0] == u[0] && Merged(u[1..], a[1..], b))
      || (b != [] && b[0] == u[0] && Merged(u[1..], a, b[1..]))
  }

  lemma {:induction false} MergedPrefix(c: seq<string>, u: seq<string>, a: seq<string>, b: seq<string>)
    requires Merged(u, a, b)
    ensures Merged(c + u, c + a, b)
  {
    if c == [] {
      assert c + u == u && c + a == a;
    } else {
      MergedPrefix(c[1..], u, a, b);
      assert (c + u)[1..] == c[1..] + u && (c + a)[1..] == c[1..] + a;
    }
  }

  lemma {:induction false} MergedRight(u: seq<string>)
    ensures Merged(u, [], u)
  {
    if u != [] {
      MergedRight(u[1..]);
    }
  }

  /** Consumed and remaining arguments together are the arguments, each kept in order. */
  lemma {:induction false} ParseSplits(w: seq<string>, s: nat, optstring: string)
    requires CursorIn(w, s)
    ensures var p := Parse(w, s, optstring); Merged(w, p.taken, p.rest)
  {
    if w == [] {
    } else if IsDashDash(w[0]) {
      MergedRight(w[1..]);
      MergedPrefix(w[..1], w[1..], [], w[1..]);
      assert w[..1] + w[1..] == w && w[..1] + [] == w[..1];
    } else if IsShort(w[0]) {
      var u := ReadCluster(w[0], Head(w[1..]), s, optstring).used;
      CursorAtStart(w[u..]);
      ParseSplits(w[u..], 0, optstring);
      var p := Parse(w[u..], 0, optstring);
      MergedPrefix(w[..u], w[u..], p.taken, p.rest);
      assert w[..u] + w[u..] == w;
    } else {
      ParseSplits(w[1..], s, optstring);
      var p := Parse(w, s, optstring);
      assert p.rest[0] == w[0] && p.rest[1..] == Parse(w[1..], s, optstring).rest;
    }
  }

  /** A cluster that leaves a following argument alone does not depend on it. */
  lemma {:induction false} ClusterIgnoresNext(tok: string, next: string, other: Option<string>, s: nat,
      optstring: string)
    requires s < |tok| && ReadCluster(tok, Some(next), s, optstring).used == 1
    ensures ReadCluster(tok, other, s, optstring) == ReadCluster(tok, Some(next), s, optstring)
    decreases |tok| - s
  {
    if ArgType(optstring, CharAt(tok, s + 1)) == 0 && s + 2 < |tok| {
      ClusterIgnoresNext(tok, next, other, s + 1, optstring);
    }
  }

  /** Parsing the consumed arguments alone gives the same options and leaves nothing over. */
  lemma {:induction false} ParseOfTaken(w: seq<string>, s: nat, optstring: string)
    requires CursorIn(w, s)
    ensures var p := Parse(w, s, optstring);
            CursorIn(p.taken, s) && Parse(p.taken, s, optstring) == Parsed(p.events, p.taken, [])
  {
    if w == [] {
    } else if IsDashDash(w[0]) {
      assert w[..1][1..] == [] && w[..1][..1] == w[..1];
    } else if IsShort(w[0]) {
      var cl := ReadCluster(w[0], Head(w[1..]), s, optstring);
      CursorAtStart(w[cl.used..]);
      ParseOfTaken(w[cl.used..], 0, optstring);
      TakenCluster(w, s, Parse(w[cl.used..], 0, optstring).taken, optstring);
    } else {
      ParseOfTaken(w[1..], s, optstring);
    }
  }

  /** The first cluster reads the same when what follows it is replaced by consumed arguments. */
  lemma TakenCluster(w: seq<string>, s: nat, t: seq<string>, optstring: string)
    requires w != [] && IsShort(w[0]) && s < |w[0]|
    requires |w| == 1 ==> t == []
    ensures var cl := ReadCluster(w[0], Head(w[1..]), s, optstring);
            var u := w[..cl.used] + t;
            && u[0] == w[0] && ReadCluster(u[0], Head(u[1..]), s, optstring) == cl
            && u[..cl.used] == w[..cl.used] && u[cl.used..] == t
  {
    var cl := ReadCluster(w[0], Head(w[1..]), s, optstring);
    var u := w[..cl.used] + t;
    if cl.used == 1 && |w| > 1 {
      ClusterIgnoresNext(w[0], w[1], Head(u[1..]), s, optstring);
    }
  }

  // ----- where the cursor goes wrong

  /** The first argument of `w` that a call does not step over. */
  function FirstOption(w: seq<string>, permute: bool): (o: Option<string>) {
    if w == [] then None else if permute && IsNonOption(w[0]) then FirstOption(w[1..], permute) else Some(w[0])
  }

  lemma {:induction false} StopIsFirstOption(argv: seq<string>, i: nat, permute: bool)
    requires i <= |argv|
    ensures FirstOption(argv[i..], permute) == ArgAt(argv, Stop(argv, i, permute))
    decreases |argv| - i
  {
    if permute && i < |argv| && IsNonOption(argv[i]) {
      assert argv[i..][1..] == argv[i + 1..];
      StopIsFirstOption(argv, i + 1, permute);
    }
  }

  lemma {:induction false} FirstOptionSkips(n: seq<string>, x: seq<string>)
    requires NonOptions(n)
    ensures FirstOption(n + x, true) == FirstOption(x, true)
  {
    if n == [] {
      assert n + x == x;
    } else {
      assert (n + x)[1..] == n[1..] + x;
      FirstOptionSkips(n[1..], x);
    }
  }

  /** The option argument behind the one that the next call reads. */
  function OptionAfter(v: View): (o: Option<string>)
    requires v.optind <= |v.argv|
  {
    var k := Stop(v.argv, v.optind, v.permute);
    if k < |v.argv| then FirstOption(v.argv[k + 1..], v.permute) else None
  }

  /** Ready says that the cursor lies inside the first unread option argument. */
  lemma ReadyMeans(v: View)
    requires v.optind <= |v.argv|
    ensures Ready(v) <==>
            var o := FirstOption(Unread(v), v.permute); o.Some? && IsShort(o.value) ==> v.subopt < |o.value|
  {
    StopIsFirstOption(v.argv, v.optind, v.permute);
  }

  lemma NextOption(v: View, optstring: string)
    requires Ready(v) && Call(v, optstring).used == 1
    ensures FirstOption(Unread(Respond(v, optstring).v), v.permute) == OptionAfter(v)
  {
    var k := Stop(v.argv, v.optind, v.permute);
    UnreadAfter(v, k, 1, optstring);
    OptionBehind(v.argv, v.optind, k, v.permute);
  }

  lemma OptionBehind(argv: seq<string>, i: nat, k: nat, permute: bool)
    requires i <= |argv| && k == Stop(argv, i, permute) && k < |argv|
    ensures FirstOption(argv[i..k] + argv[k + 1..], permute) == FirstOption(argv[k + 1..], permute)
  {
    if permute {
      StopSkips(argv, i);
      FirstOptionSkips(argv[i..k], argv[k + 1..]);
    } else {
      assert argv[i..k] + argv[k + 1..] == argv[k + 1..];
    }
  }

  /** When a step leaves a cursor behind in an argument it has consumed. */
  lemma StepLeavesCursor(tok: string, next: Option<string>, s: nat, optstring: string)
    requires s < |tok|
    ensures var st := ShortStep(tok, next, s, optstring);
            && (st.used > 0 && st.subopt > 0 <==> ArgType(optstring, CharAt(tok, s + 1)) == -1 && s > 0)
            && (st.used > 0 && st.subopt > 0 ==> st.used == 1 && st.subopt == s)
  {
  }

  /** The argument a call reads, and its letter. */
  function TokenOf(v: View): (tok: string)
    requires v.optind <= |v.argv| && Stop(v.argv, v.optind, v.permute) < |v.argv|
  {
    v.argv[Stop(v.argv, v.optind, v.permute)]
  }

  /** The same of a call. */
  lemma CallLeavesCursor(v: View, optstring: string)
    requires Ready(v) && Call(v, optstring).out.Letter?
    ensures v.optind <= |v.argv| && Stop(v.argv, v.optind, v.permute) < |v.argv|
    ensures var st, tok := Call(v, optstring), TokenOf(v);
            && v.subopt < |tok|
            && (st.used > 0 && st.subopt > 0 <==> ArgType(optstring, CharAt(tok, v.subopt + 1)) == -1 && v.subopt > 0)
            && (st.used > 0 && st.subopt > 0 ==> st.used == 1 && st.subopt == v.subopt)
  {
    var k := Stop(v.argv, v.optind, v.permute);
    StepLeavesCursor(v.argv[k], ArgAt(v.argv, k + 1), v.subopt, optstring);
  }

  /** After such a call the next one reads inside its argument exactly if that is longer than the cursor. */
  lemma StaleInside(v: View, optstring: string)
    requires Ready(v) && Call(v, optstring).used == 1 && Call(v, optstring).subopt == v.subopt
    ensures var o := OptionAfter(v);
            Ready(Respond(v, optstring).v) <==> o.None? || !IsShort(o.value) || v.subopt < |o.value|
  {
    CallReports(v, optstring);
    NextOption(v, optstring);
    ReadyMeans(Respond(v, optstring).v);
  }

  lemma StartInside(v: View)
    requires v.optind <= |v.argv| && v.subopt == 0
    ensures Ready(v)
  {
  }

  /**
   After a call that reports an option the next call reads inside an argument if and only if the
   letter read was declared, or the first of its cluster, or no option argument follows, or the cursor
   lies inside the one that follows.
   */
  lemma NextCallInsideExactly(v: View, optstring: string)
    requires Ready(v) && Call(v, optstring).out.Letter?
    ensures var tok := v.argv[Stop(v.argv, v.optind, v.permute)]; var o := OptionAfter(v);
            Ready(Respond(v, optstring).v) <==>
            || ArgType(optstring, CharAt(tok, v.subopt + 1)) != -1 || v.subopt == 0
            || o.None? || !IsShort(o.value) || v.subopt < |o.value|
  {
    CallLeavesCursor(v, optstring);
    CallReports(v, optstring);
    var st := Call(v, optstring);
    if st.used == 0 {
      CallProgresses(v, optstring);
    } else if st.subopt > 0 {
      StaleInside(v, optstring);
    } else {
      StartInside(Respond(v, optstring).v);
    }
  }

  /**
   A call leaves the cursor at the start of an argument or inside the cluster it is reading if and
   only if the letter it read was declared or the first of its cluster.
   */
  lemma CursorKeptExactly(v: View, optstring: string)
    requires Ready(v) && Call(v, optstring).out.Letter?
    ensures var tok := v.argv[Stop(v.argv, v.optind, v.permute)];
            var r := Respond(v, optstring).v;
            (r.subopt == 0 || r.optind == v.optind) <==>
            (ArgType(optstring, CharAt(tok, v.subopt + 1)) != -1 || v.subopt == 0)
  {
    CallLeavesCursor(v, optstring);
    CallReports(v, optstring);
  }

  /** A call on a short option reads the letter behind its cursor. */
  lemma ReadsBehindCursor(v: View, tok: string, optstring: string)
    requires Ready(v) && FirstOption(Unread(v), v.permute) == Some(tok) && IsShort(tok)
    ensures v.subopt < |tok| && Respond(v, optstring).v.optopt == CharAt(tok, v.subopt + 1)
  {
    CallReadsBehind(v, tok, optstring);
    CallReports(v, optstring);
  }

  lemma CallReadsBehind(v: View, tok: string, optstring: string)
    requires Ready(v) && FirstOption(Unread(v), v.permute) == Some(tok) && IsShort(tok)
    ensures v.subopt < |tok| && Call(v, optstring).optopt == CharAt(tok, v.subopt + 1)
  {
    StopIsFirstOption(v.argv, v.optind, v.permute);
  }

  /**
   Otherwise the next option argument is read from the stale cursor. Its first `subopt` letters are
   never read, and if it has no more characters than that the next call reads past its end.
   */
  lemma StaleCursorSkipsLetters(v: View, optstring: string)
    requires Ready(v) && Call(v, optstring).out.Letter? && v.subopt > 0
    requires ArgType(optstring, CharAt(v.argv[Stop(v.argv, v.optind, v.permute)], v.subopt + 1)) == -1
    requires OptionAfter(v).Some? && IsShort(OptionAfter(v).value)
    ensures var v', next := Respond(v, optstring).v, OptionAfter(v).value;
            if v.subopt < |next| then Ready(v') && Respond(v', optstring).v.optopt == CharAt(next, v.subopt + 1)
            else !Ready(v')
  {
    CallLeavesCursor(v, optstring);
    CallReports(v, optstring);
    StaleInside(v, optstring);
    NextOption(v, optstring);
    var v' := Respond(v, optstring).v;
    if Ready(v') {
      ReadsBehindCursor(v', OptionAfter(v).value, optstring);
    }
  }

  // ----- at an input

  /** A parser fresh from `optparse_init` (lines 144-154). */
  function Fresh(argv: seq<string>): (v: View) {
    View(argv, true, 1, '\0', None, NoError, 0)
  }

  lemma DeclaredAB()
    ensures ArgType("ab", 'a') == 0 && ArgType("ab", 'b') == 0 && ArgType("ab", 'x') == -1
  {
    assert "ab"[1..] == "b" && "b"[1..] == "";
  }

  lemma ClusterAB(next: Option<string>)
    ensures ReadCluster("-abx", next, 0, "ab") == Cluster([Event('a', None, 1), Event('b', None, 2), Event('?',
              None, 3)], 1, 2)
    ensures ReadCluster("-ax", next, 0, "ab") == Cluster([Event('a', None, 1), Event('?', None, 2)], 1, 1)
    ensures ReadCluster("-ab", next, 1, "ab") == Cluster([Event('b', None, 2)], 1, 0)
  {
    DeclaredAB();
    assert ReadCluster("-abx", next, 2, "ab") == Cluster([Event('?', None, 3)], 1, 2);
    assert ReadCluster("-abx", next, 1, "ab") == Cluster([Event('b', None, 2), Event('?', None, 3)], 1, 2);
    assert ReadCluster("-ax", next, 1, "ab") == Cluster([Event('?', None, 2)], 1, 1);
  }

  lemma FollowPastTheEnd(w: seq<string>)
    requires w == ["-abx", "-b"]
    ensures Follow(w, 0, "ab") == Followed([Event('a', None, 1), Event('b', None, 2), Event('?', None, 3)], [0, 2],
              ["-abx"],
              ["-b"], true)
  {
    var rest := w[1..];
    assert rest == ["-b"];
    ClusterAB(Head(rest));
    assert Follow(rest, 2, "ab") == Followed([], [2], [], rest, true);
    assert w[..1] + [] == ["-abx"];
  }

  /** `prog -abx -b` with options "ab": after `a`, `b` and the undeclared `x` a call reads past the end of `-b`. */
  lemma RunsPastTheEnd(v: View)
    requires v == Fresh(["prog", "-abx", "-b"])
    ensures var d := Drain(v, true, "ab");
            && d.overrun && d.events == [Event('a', None, 1), Event('b', None, 2), Event('?', None, 3)]
            && d.cursors == [0, 2] && d.v.optind <= |d.v.argv| && Unread(d.v) == ["-b"]
  {
    DrainFollows(v, "ab");
    FollowPastTheEnd(Unread(v));
  }

  lemma FollowLosing(w: seq<string>)
    requires w == ["-ax", "-ab"]
    ensures Follow(w, 0, "ab") == Followed([Event('a', None, 1), Event('?', None, 2), Event('b', None, 2)], [0, 1],
              w, [], false)
  {
    var rest := w[1..];
    assert rest == ["-ab"] && rest[1..] == [];
    ClusterAB(Head(rest));
    ClusterAB(None);
    assert Follow([], 0, "ab") == Followed([], [], [], [], false);
    assert Follow(rest, 1, "ab") == Followed([Event('b', None, 2)], [1], rest, [], false);
    assert w[..1] + rest == w;
  }

  /** `prog -ax -ab` with options "ab": the `a` of the second argument is never reported. */
  lemma LosesALetter(v: View)
    requires v == Fresh(["prog", "-ax", "-ab"])
    ensures var d := Drain(v, true, "ab");
            !d.overrun && d.events == [Event('a', None, 1), Event('?', None, 2), Event('b', None, 2)] &&
                d.cursors == [0, 1]
  {
    DrainFollows(v, "ab");
    FollowLosing(Unread(v));
  }
}
