/**
 The option parser of SocketExams_vs17/uWebSocketsServer/helpers/optparse.h: `optparse` with its
 in-place permutation of the argument vector, and the option string it reads.
 A `char *` is modelled as the characters before its terminating NUL, and a null pointer in `argv`
 as the end of the array.
 */
module Optparse {
  import opened Common

  // ----- the option string

  /** Number of colons, at most two, at the start of `s`. */
  function Colons(s: string): (n: int) {
    if |s| == 0 || s[0] != ':' then 0 else if |s| == 1 || s[1] != ':' then 1 else 2
  }

  /** The argument type the option string declares for `c`: 0 none, 1 required, 2 optional, -1 undeclared. */
  function ArgType(optstring: string, c: char): (r: int)
    ensures -1 <= r <= 2
  {
    if c == ':' || optstring == [] then -1
    else if optstring[0] == c then Colons(optstring[1..])
    else ArgType(optstring[1..], c)
  }

  /** The scan of lines 184-196. */
  method FindArgType(optstring: string, c: char) returns (r: int)
    ensures r == ArgType(optstring, c)
  {
    if c == ':' {
      return -1;
    }
    var i := 0;
    while i < |optstring| && c != optstring[i]
      invariant 0 <= i <= |optstring|
      invariant ArgType(optstring, c) == ArgType(optstring[i..], c)
    {
      i := i + 1;
    }
    if i == |optstring| {
      return -1;
    }
    r := 0;
    if i + 1 < |optstring| && optstring[i + 1] == ':' {
      r := r + if i + 2 < |optstring| && optstring[i + 2] == ':' then 2 else 1;
    }
  }

  /** The type is read off the first occurrence of the letter, and undeclared means no occurrence. */
  lemma {:induction false} ArgTypeMeaning(optstring: string, c: char)
    ensures c == ':' ==> ArgType(optstring, c) == -1
    ensures c != ':' ==> (ArgType(optstring, c) == -1 <==> c !in optstring)
    ensures forall i :: 0 <= i < |optstring| && optstring[i] == c && c !in optstring[..i] && c != ':' ==>
                          ArgType(optstring, c) == Colons(optstring[i + 1..])
  {
    if c != ':' && optstring != [] && optstring[0] != c {
      var u := optstring[1..];
      ArgTypeMeaning(u, c);
      forall i | 0 <= i < |optstring| && optstring[i] == c && c !in optstring[..i]
        ensures ArgType(optstring, c) == Colons(optstring[i + 1..])
      {
        assert u[i - 1] == c && u[..i - 1] == optstring[1..i] && u[i..] == optstring[i + 1..];
      }
    } else if c != ':' && optstring != [] {
      assert forall i :: 0 < i < |optstring| ==> optstring[0] in optstring[..i];
    }
  }

  // ----- kinds of arguments

  predicate IsDashDash(a: string) {
    a == "--"
  }

  predicate IsShort(a: string) {
    |a| >= 2 && a[0] == '-' && a[1] != '-'
  }

  predicate IsNonOption(a: string) {
    !IsDashDash(a) && !IsShort(a)
  }

  // ----- one call

  datatype Outcome = Done | Letter(c: char)

  datatype Error = NoError | Invalid(c: char) | Missing(c: char)

  /** What a call reports, how many arguments it consumes, and the cursor it leaves in a cluster. */
  datatype Step = Step(out: Outcome, optopt: char, optarg: Option<string>, err: Error, used: nat, subopt: nat)

  /** `option[k]` of a C string, its terminating NUL included. */
  function CharAt(a: string, k: nat): (c: char)
    requires k <= |a|
  {
    if k < |a| then a[k] else '\0'
  }

  /** Lines 224-266: the letter at the cursor of a cluster `tok` that is followed by `next`. */
  function ShortStep(tok: string, next: Option<string>, subopt: nat, optstring: string): (st: Step)
    requires subopt < |tok|
  {
    var c := CharAt(tok, subopt + 1);
    var more := subopt + 2 < |tok|;
    var kind := ArgType(optstring, c);
    if kind == -1 then Step(Letter('?'), c, None, Invalid(c), 1, subopt)
    else if kind == 0 then
      if more then Step(Letter(c), c, None, NoError, 0, subopt + 1) else Step(Letter(c), c, None, NoError, 1, 0)
    else if kind == 1 then
      if more then Step(Letter(c), c, Some(tok[subopt + 2..]), NoError, 1, 0)
      else if next.Some? then Step(Letter(c), c, next, NoError, 2, 0)
      else Step(Letter('?'), c, None, Missing(c), 1, 0)
    else if more then Step(Letter(c), c, Some(tok[subopt + 2..]), NoError, 1, 0)
    else Step(Letter(c), c, None, NoError, 1, 0)
  }

  /** The argument a call looks at: the first one from `i` on that it does not step over. */
  function Stop(argv: seq<string>, i: nat, permute: bool): (k: nat)
    requires i <= |argv|
    ensures i <= k <= |argv|
    decreases |argv| - i
  {
    if permute && i < |argv| && IsNonOption(argv[i]) then Stop(argv, i + 1, permute) else i
  }

  function ArgAt(argv: seq<string>, k: nat): (o: Option<string>) {
    if k < |argv| then Some(argv[k]) else None
  }

  /** The fields of `struct optparse` that a call reads and writes, with the arguments as a value. */
  datatype View = View(argv: seq<string>, permute: bool, optind: nat, optopt: char, optarg: Option<string>,
                       err: Error, subopt: nat)

  /** The cursor lies inside the option argument that the next call will read, if there is one. */
  predicate Ready(v: View) {
    && v.optind <= |v.argv|
    && var k := Stop(v.argv, v.optind, v.permute);
    k < |v.argv| && IsShort(v.argv[k]) ==> v.subopt < |v.argv[k]|
  }

  /** What a call reports. */
  function Call(v: View, optstring: string): (st: Step)
    requires Ready(v)
    ensures Stop(v.argv, v.optind, v.permute) + st.used <= |v.argv|
  {
    var k := Stop(v.argv, v.optind, v.permute);
    if k == |v.argv| then Step(Done, '\0', None, NoError, 0, v.subopt)
    else if IsDashDash(v.argv[k]) then Step(Done, '\0', None, NoError, 1, v.subopt)
    else if IsShort(v.argv[k]) then ShortStep(v.argv[k], ArgAt(v.argv, k + 1), v.subopt, optstring)
    else Step(Done, '\0', None, NoError, 0, v.subopt)
  }

  /** `argv` after moving its element at `index` behind those up to `optind`. */
  function Permuted<T>(argv: seq<T>, index: nat, optind: nat): (r: seq<T>)
    requires index < optind <= |argv|
    ensures |r| == |argv|
  {
    seq(|argv|, j requires 0 <= j < |argv| =>
      if index <= j < optind - 1 then argv[j + 1] else if j == optind - 1 then argv[index] else argv[j])
  }

  /** `argv` with the `used` elements from `k` on moved before those from `i` to `k`. */
  function Rotated<T>(argv: seq<T>, i: nat, k: nat, used: nat): (r: seq<T>)
    requires i <= k && k + used <= |argv|
    ensures |r| == |argv|
  {
    seq(|argv|, j requires 0 <= j < |argv| =>
      if i <= j < i + used then argv[j - i + k] else if i + used <= j < k + used then argv[j - used] else argv[j])
  }

  /** In terms of pieces: N ++ C ++ R becomes C ++ N ++ R. */
  lemma RotatedPieces<T>(argv: seq<T>, i: nat, k: nat, used: nat)
    requires i <= k && k + used <= |argv|
    ensures Rotated(argv, i, k, used) == argv[..i] + argv[k..k + used] + argv[i..k] + argv[k + used..]
  {
  }

  lemma RotatedNone<T>(argv: seq<T>, i: nat, used: nat)
    requires i + used <= |argv|
    ensures Rotated(argv, i, i, used) == argv
  {
  }

  /** Stepping over one element, rotating behind it and moving it back rotates it along. */
  lemma PermuteRotated<T>(argv: seq<T>, i: nat, k: nat, used: nat)
    requires i < k && k + used <= |argv|
    ensures Permuted(Rotated(argv, i + 1, k, used), i, i + 1 + used) == Rotated(argv, i, k, used)
  {
  }

  /** The report fields cleared (lines 205-207). */
  function Cleared(v: View): (v0: View) {
    v.(optopt := '\0', optarg := None, err := NoError)
  }

  /** Line 215. */
  function Stepped(v: View): (v0: View) {
    Cleared(v).(optind := v.optind + 1)
  }

  datatype Reply = Reply(out: Outcome, v: View)

  /** The fields a step sets when the argument it reads is the first unread one. */
  function Here(v: View, st: Step): (r: Reply)
    requires v.optind + st.used <= |v.argv|
  {
    Reply(st.out, View(v.argv, v.permute, v.optind + st.used, st.optopt, st.optarg, st.err, st.subopt))
  }

  predicate StepsOver(v: View) {
    v.permute && v.optind < |v.argv| && IsNonOption(v.argv[v.optind])
  }

  /** A call as the code makes it: a non-option is stepped over, the call repeated, the non-option moved back. */
  function Respond(v: View, optstring: string): (r: Reply)
    requires Ready(v)
    ensures |r.v.argv| == |v.argv| && v.optind <= r.v.optind <= |v.argv|
    decreases |v.argv| - v.optind
  {
    if StepsOver(v) then
      var r := Respond(Stepped(v), optstring);
      r.(v := r.v.(argv := Permuted(r.v.argv, v.optind, r.v.optind), optind := r.v.optind - 1))
    else
      Here(v, Call(v, optstring))
  }

  lemma RespondHere(v: View, optstring: string)
    requires Ready(v) && !StepsOver(v)
    ensures Ready(Cleared(v)) && Respond(v, optstring) == Here(Cleared(v), Call(Cleared(v), optstring))
  {
  }

  /** Moving the non-option back behind what the repeated call has rotated. */
  lemma StepsOverRotates(v: View, v0: View, r: View, k: nat, used: nat)
    requires v0.argv == v.argv && v0.optind == v.optind + 1 && v.optind < k && k + used <= |v.argv|
    requires r.optind == v0.optind + used && r.argv == Rotated(v.argv, v0.optind, k, used)
    ensures Permuted(r.argv, v.optind, r.optind) == Rotated(v.argv, v.optind, k, used)
  {
    PermuteRotated(v.argv, v.optind, k, used);
  }

  /** A call reports what the first argument behind the non-options it steps over says. */
  lemma {:induction false} CallReports(v: View, optstring: string)
    requires Ready(v)
    ensures var r, st := Respond(v, optstring), Call(v, optstring);
            && r.out == st.out && r.v.optopt == st.optopt && r.v.optarg == st.optarg && r.v.err == st.err
            && r.v.subopt == st.subopt && r.v.permute == v.permute && r.v.optind == v.optind + st.used
    decreases |v.argv| - v.optind
  {
    if StepsOver(v) {
      CallReports(Stepped(v), optstring);
    }
  }

  lemma {:induction false} CallRotates(v: View, optstring: string)
    requires Ready(v)
    ensures Respond(v, optstring).v.argv ==
            Rotated(v.argv, v.optind, Stop(v.argv, v.optind, v.permute), Call(v, optstring).used)
    decreases |v.argv| - v.optind
  {
    var k, used := Stop(v.argv, v.optind, v.permute), Call(v, optstring).used;
    if StepsOver(v) {
      var v0 := Stepped(v);
      assert Stop(v0.argv, v0.optind, v0.permute) == k && Call(v0, optstring).used == used;
      CallReports(v0, optstring);
      CallRotates(v0, optstring);
      StepsOverRotates(v, v0, Respond(v0, optstring).v, k, used);
    } else {
      RotatedNone(v.argv, v.optind, used);
    }
  }

  /**
   However deep the recursion goes, a call rewrites the unread arguments N ++ C ++ R, where N are
   the non-options stepped over and C the arguments consumed, to C ++ N ++ R, with `optind` just
   after C; the arguments already read stay where they are.
   */
  lemma CallMovesConsumedForward(v: View, optstring: string)
    requires Ready(v)
    ensures var i, k, used := v.optind, Stop(v.argv, v.optind, v.permute), Call(v, optstring).used;
            && Respond(v, optstring).v.argv ==
               v.argv[..i] + v.argv[k..k + used] + v.argv[i..k] + v.argv[k + used..]
            && Respond(v, optstring).v.optind == i + used
  {
    CallReports(v, optstring);
    CallRotates(v, optstring);
    RotatedPieces(v.argv, v.optind, Stop(v.argv, v.optind, v.permute), Call(v, optstring).used);
  }

  /** `struct optparse`, with the operations that change it in place. */
  class Parser {
    const argv: array<string>
    var permute: bool
    var optind: nat
    var optopt: char
    var optarg: Option<string>
    var err: Error
    var subopt: nat

    /** `optparse_init` (lines 144-154). */
    constructor (args: array<string>)
      requires args.Length >= 1
      ensures argv == args && permute && optind == 1 && subopt == 0 && optarg == None && err == NoError
    {
      argv := args;
      permute := true;
      optind := 1;
      subopt := 0;
      optarg := None;
      err := NoError;
    }

    ghost function Now(): (v: View)
      reads this, argv
    {
      View(argv[..], permute, optind, optopt, optarg, err, subopt)
    }

    /** `optparse_permute` (lines 174-182): moves the argument at `index` behind the consumed ones. */
    method MoveBack(index: nat)
      requires index < optind <= argv.Length
      modifies argv
      ensures argv[..] == Permuted(old(argv[..]), index, optind)
    {
      var nonoption := argv[index];
      var i := index;
      while i < optind - 1
        invariant index <= i < optind
        invariant forall j :: index <= j < i ==> argv[j] == old(argv[j + 1])
        invariant forall j :: 0 <= j < argv.Length && !(index <= j < i) ==> argv[j] == old(argv[j])
      {
        argv[i] := argv[i + 1];
        i := i + 1;
      }
      argv[optind - 1] := nonoption;
      ghost var moved := Permuted(old(argv[..]), index, optind);
      assert forall j :: 0 <= j < argv.Length ==> argv[j] == moved[j];
    }

    /** `optparse` (lines 198-268). */
    method Next(optstring: string) returns (out: Outcome)
      requires Ready(Now())
      modifies this, argv
      ensures Reply(out, Now()) == Respond(old(Now()), optstring)
      decreases argv.Length - optind
    {
      ghost var v := Now();
      err := NoError;
      optopt := '\0';
      optarg := None;
      if optind < argv.Length && permute && IsNonOption(argv[optind]) {
        var index := optind;
        optind := optind + 1;
        assert Now() == Stepped(v);
        out := Next(optstring);
        ghost var v1 := Now();
        MoveBack(index);
        assert Now() == v1.(argv := Permuted(v1.argv, index, v1.optind));
        optind := optind - 1;
      } else {
        assert Now() == Cleared(v);
        RespondHere(v, optstring);
        out := NextHere(optstring);
      }
    }

    /** The branches of `optparse` that do not step over a non-option (lines 208-212 and 220-266). */
    method NextHere(optstring: string) returns (out: Outcome)
      requires Ready(Now()) && optarg == None && err == NoError && optopt == '\0' && !StepsOver(Now())
      modifies this
      ensures Reply(out, Now()) == Here(old(Now()), Call(old(Now()), optstring))
    {
      if optind == argv.Length {
        return Done;
      }
      var option := argv[optind];
      if IsDashDash(option) {
        optind := optind + 1;
        return Done;
      }
      if !IsShort(option) {
        return Done;
      }
      out := ReadLetter(option, optstring);
    }

    /** Lines 224-266. */
    method ReadLetter(option: string, optstring: string) returns (out: Outcome)
      requires optind < argv.Length && argv[optind] == option && subopt < |option|
      requires optarg == None && err == NoError
      modifies this
      ensures var st := ShortStep(option, ArgAt(argv[..], old(optind) + 1), old(subopt), optstring);
              && out == st.out && optopt == st.optopt && optarg == st.optarg && err == st.err
              && subopt == st.subopt && optind == old(optind) + st.used && permute == old(permute)
    {
      var c := CharAt(option, subopt + 1);
      var more := subopt + 2 < |option|;
      optopt := c;
      var kind := FindArgType(optstring, c);
      if kind == -1 {
        optind := optind + 1;
        err := Invalid(c);
        return Letter('?');
      }
      if kind == 0 {
        if more {
          subopt := subopt + 1;
        } else {
          subopt := 0;
          optind := optind + 1;
        }
        return Letter(c);
      }
      var rest := if more then option[subopt + 2..] else [];
      subopt := 0;
      optind := optind + 1;
      if more {
        optarg := Some(rest);
      } else if kind == 1 {
        if optind < argv.Length {
          optarg := Some(argv[optind]);
          optind := optind + 1;
        } else {
          err := Missing(c);
          return Letter('?');
        }
      }
      return Letter(c);
    }
  }
}
