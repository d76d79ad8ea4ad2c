/**
 What `optparse` makes of its arguments and of the option string, character by character
 (SocketExams_vs17/uWebSocketsServer/helpers/optparse.h, lines 156-196 and 208-266): which arguments
 are operands, which ends the options, and what a letter stands for.
 */
module OptparseSyntax {
  import opened Common
  import opened Optparse
  import opened OptparseRun

  /** An argument to be stepped over: too short, without a leading '-', or a long option. */
  predicate Operand(a: string) {
    |a| < 2 || a[0] != '-' || (a[1] == '-' && |a| > 2)
  }

  /** The two characters "--". */
  predicate Terminator(a: string) {
    |a| == 2 && a[0] == '-' && a[1] == '-'
  }

  /** A '-' and letters. */
  predicate Letters(a: string) {
    |a| >= 2 && a[0] == '-' && a[1] != '-'
  }

  lemma Classified(a: string)
    ensures IsNonOption(a) <==> Operand(a)
    ensures IsDashDash(a) <==> Terminator(a)
    ensures IsShort(a) <==> Letters(a)
  {
    if Terminator(a) {
      assert a == "--";
    }
  }

  // ----- one call

  /** The first argument from `i` on that is not an operand. */
  function FirstActive(argv: seq<string>, i: nat): (k: nat)
    requires i <= |argv|
    ensures i <= k <= |argv|
    ensures forall j :: i <= j < k ==> Operand(argv[j])
    ensures k < |argv| ==> !Operand(argv[k])
    decreases |argv| - i
  {
    if i < |argv| && Operand(argv[i]) then FirstActive(argv, i + 1) else i
  }

  lemma {:induction false} StopIsFirstActive(argv: seq<string>, i: nat)
    requires i <= |argv|
    ensures Stop(argv, i, true) == FirstActive(argv, i)
    decreases |argv| - i
  {
    if i < |argv| {
      Classified(argv[i]);
      if Operand(argv[i]) {
        StopIsFirstActive(argv, i + 1);
      }
    }
  }

  lemma CallAtEnd(v: View, optstring: string)
    requires Ready(v) && v.permute && FirstActive(v.argv, v.optind) == |v.argv|
    ensures var r := Respond(v, optstring); r.out == Done && r.v.optind == v.optind && r.v.argv == v.argv
  {
    StopIsFirstActive(v.argv, v.optind);
    CallReports(v, optstring);
    CallRotates(v, optstring);
    RotatedByNone(v.argv, v.optind, |v.argv|);
  }

  lemma CallAtTerminator(v: View, optstring: string)
    requires Ready(v) && v.permute && FirstActive(v.argv, v.optind) < |v.argv|
    requires Terminator(v.argv[FirstActive(v.argv, v.optind)])
    ensures var i, k, r := v.optind, FirstActive(v.argv, v.optind), Respond(v, optstring);
            && r.out == Done && r.v.optind == i + 1
            && r.v.argv == v.argv[..i] + [v.argv[k]] + v.argv[i..k] + v.argv[k + 1..]
  {
    var i, k := v.optind, FirstActive(v.argv, v.optind);
    StopIsFirstActive(v.argv, i);
    Classified(v.argv[k]);
    CallReports(v, optstring);
    CallRotates(v, optstring);
    RotatedPieces(v.argv, i, k, 1);
    assert v.argv[k..k + 1] == [v.argv[k]];
  }

  lemma CallAtLetters(v: View, optstring: string)
    requires Ready(v) && v.permute && FirstActive(v.argv, v.optind) < |v.argv|
    requires !Terminator(v.argv[FirstActive(v.argv, v.optind)])
    ensures var k, r := FirstActive(v.argv, v.optind), Respond(v, optstring);
            && r.out.Letter? && Letters(v.argv[k]) && v.subopt < |v.argv[k]|
            && r.v.optopt == (if v.subopt + 1 < |v.argv[k]| then v.argv[k][v.subopt + 1] else '\0')
            && var st := ShortStep(v.argv[k], if k + 1 < |v.argv| then Some(v.argv[k + 1])
               else None, v.subopt, optstring);
            && r.out == st.out && r.v.optarg == st.optarg && r.v.err == st.err && r.v.subopt == st.subopt
            && r.v.optind == v.optind + st.used
  {
    var k := FirstActive(v.argv, v.optind);
    StopIsFirstActive(v.argv, v.optind);
    Classified(v.argv[k]);
    CallReports(v, optstring);
  }

  /**
   A permuting call steps over operands and nothing else. At the end it consumes nothing; at "--" it
   consumes that and reports the end; at letters it reports the one behind the cursor. The operands it
   stepped over stay unread, in front of all that followed.
   */
  lemma CallActs(v: View, optstring: string)
    requires Ready(v) && v.permute
    ensures var i, k, r := v.optind, FirstActive(v.argv, v.optind), Respond(v, optstring);
            && (k == |v.argv| ==> r.out == Done && r.v.optind == i && r.v.argv == v.argv)
            && (k < |v.argv| && Terminator(v.argv[k]) ==>
                  r.out == Done && r.v.optind == i + 1 &&
                  r.v.argv == v.argv[..i] + [v.argv[k]] + v.argv[i..k] + v.argv[k + 1..])
            && (k < |v.argv| && !Terminator(v.argv[k]) ==>
                  && r.out.Letter? && Letters(v.argv[k]) && v.subopt < |v.argv[k]|
                  && r.v.optopt == (if v.subopt + 1 < |v.argv[k]| then v.argv[k][v.subopt + 1] else '\0')
                  && var st := ShortStep(v.argv[k], if k + 1 < |v.argv| then Some(v.argv[k + 1])
                     else None, v.subopt, optstring);
                  && r.out == st.out && r.v.optarg == st.optarg && r.v.err == st.err && r.v.subopt == st.subopt
                  && r.v.optind == i + st.used)
  {
    var k := FirstActive(v.argv, v.optind);
    if k == |v.argv| {
      CallAtEnd(v, optstring);
    } else if Terminator(v.argv[k]) {
      CallAtTerminator(v, optstring);
    } else {
      CallAtLetters(v, optstring);
    }
  }

  /** Without permutation a call at an operand reports the end and consumes nothing. */
  lemma CallStops(v: View, optstring: string)
    requires Ready(v) && !v.permute && v.optind < |v.argv| && Operand(v.argv[v.optind])
    ensures var r := Respond(v, optstring); r.out == Done && r.v.optind == v.optind && r.v.argv == v.argv
  {
    Classified(v.argv[v.optind]);
  }

  // ----- letters

  /** What follows the first occurrence of a letter in the option string. */
  lemma {:induction false} TypeAt(optstring: string, c: char, p: nat)
    requires p < |optstring| && optstring[p] == c && c !in optstring[..p] && c != ':'
    ensures var one, two := p + 1 < |optstring| && optstring[p + 1] == ':', p + 2 < |optstring| &&
              optstring[p + 2] == ':';
            ArgType(optstring, c) == if !one then 0 else if !two then 1 else 2
  {
    ArgTypeMeaning(optstring, c);
  }

  /**
   A letter that is not in the option string, or ':', is an error; the cursor stays as it is and the
   argument is consumed.
   */
  lemma UndeclaredLetter(tok: string, next: Option<string>, s: nat, optstring: string)
    requires s + 1 < |tok| && (tok[s + 1] == ':' || tok[s + 1] !in optstring)
    ensures ShortStep(tok, next, s, optstring) == Step(Letter('?'), tok[s + 1], None, Invalid(tok[s + 1]), 1, s)
  {
    ArgTypeMeaning(optstring, tok[s + 1]);
  }

  /** A cursor at the end of the letters reads the terminating NUL. */
  lemma NoLetter(tok: string, next: Option<string>, s: nat, optstring: string)
    requires s + 1 == |tok| && '\0' !in optstring
    ensures ShortStep(tok, next, s, optstring) == Step(Letter('?'), '\0', None, Invalid('\0'), 1, s)
  {
    ArgTypeMeaning(optstring, '\0');
  }

  /**
   A letter of the option string. Without a colon behind it, it has no argument; with one, its argument
   is what follows in its cluster, or else the next argument, or else it is missing; with two, only
   what follows in its cluster.
   */
  lemma DeclaredLetter(tok: string, next: Option<string>, s: nat, optstring: string, p: nat)
    requires s + 1 < |tok| && p < |optstring| && optstring[p] == tok[s + 1] != ':' && tok[s + 1] !in optstring[..p]
    ensures var st, c, last := ShortStep(tok, next, s, optstring), tok[s + 1], s + 2 == |tok|;
            var one, two := p + 1 < |optstring| && optstring[p + 1] == ':', p + 2 < |optstring| &&
                optstring[p + 2] == ':';
            && st.optopt == c
            && (!one && !last ==> st == Step(Letter(c), c, None, NoError, 0, s + 1))
            && (!one && last ==> st == Step(Letter(c), c, None, NoError, 1, 0))
            && (one && !last ==> st == Step(Letter(c), c, Some(tok[s + 2..]), NoError, 1, 0))
            && (one && !two && last && next.Some? ==> st == Step(Letter(c), c, next, NoError, 2, 0))
            && (one && !two && last && next.None? ==> st == Step(Letter('?'), c, None, Missing(c), 1, 0))
            && (one && two && last ==> st == Step(Letter(c), c, None, NoError, 1, 0))
  {
    TypeAt(optstring, tok[s + 1], p);
  }

  // ----- a whole run

  /**
   How a run divides the arguments `w` into those consumed, `t`, and those left over, `r`: operands are
   left over, letters are consumed, with or without the argument behind them, and "--" is consumed
   and everything behind it left over.
   */
  ghost predicate Divided(w: seq<string>, t: seq<string>, r: seq<string>)
    decreases |w|
  {
    if w == [] then t == [] && r == []
    else if Operand(w[0]) then r != [] && r[0] == w[0] && Divided(w[1..], t, r[1..])
    else if Terminator(w[0]) then t == [w[0]] && r == w[1..]
    else
      && t != [] && t[0] == w[0]
      && (Divided(w[1..], t[1..], r) || (|w| > 1 && |t| > 1 && t[1] == w[1] && Divided(w[2..], t[2..], r)))
  }

  lemma {:induction false} FollowDivides(w: seq<string>, s: nat, optstring: string)
    requires !Follow(w, s, optstring).overrun
    ensures Divided(w, Follow(w, s, optstring).taken, Follow(w, s, optstring).rest)
    decreases |w|
  {
    if w != [] {
      Classified(w[0]);
      if IsShort(w[0]) {
        var cl := ReadCluster(w[0], Head(w[1..]), s, optstring);
        var p := Follow(w[cl.used..], cl.subopt, optstring);
        FollowDivides(w[cl.used..], cl.subopt, optstring);
        var t := w[..cl.used] + p.taken;
        assert cl.used == 1 ==> t[1..] == p.taken;
        assert cl.used == 2 ==> t[2..] == p.taken && t[1] == w[1];
      } else if !IsDashDash(w[0]) {
        FollowDivides(w[1..], s, optstring);
        var q := Follow(w[1..], s, optstring).rest;
        assert ([w[0]] + q)[1..] == q;
      }
    }
  }

  /** So the calls of a run divide the unread arguments, `optind` standing between the two parts. */
  lemma DrainDivides(v: View, optstring: string)
    requires v.permute && v.optind <= |v.argv| && !Drain(v, true, optstring).overrun
    ensures var d := Drain(v, true, optstring).v;
            && v.optind <= d.optind <= |d.argv| && d.argv[..v.optind] == v.argv[..v.optind]
            && Divided(v.argv[v.optind..], d.argv[v.optind..d.optind], d.argv[d.optind..])
  {
    DrainFollows(v, optstring);
    FollowDivides(Unread(v), v.subopt, optstring);
    var d, p := Drain(v, true, optstring).v, Follow(Unread(v), v.subopt, optstring);
    MiddlePart(d.argv, d.optind, v.argv[..v.optind], p.taken);
  }

  lemma MiddlePart<T>(s: seq<T>, j: nat, a: seq<T>, b: seq<T>)
    requires j <= |s| && s[..j] == a + b
    ensures |a| <= j && s[..|a|] == a && s[|a|..j] == b
  {
    assert |s[..j]| == |a| + |b|;
    assert s[..|a|] == s[..j][..|a|] && s[|a|..j] == s[..j][|a|..];
  }

  /** When "--" is the first argument that is not an operand, no option is reported and all behind it is left over. */
  lemma DrainAtTerminator(v: View, optstring: string)
    requires v.permute && v.optind <= |v.argv|
    requires var k := FirstActive(v.argv, v.optind); k < |v.argv| && Terminator(v.argv[k])
    ensures var d, i, k := Drain(v, true, optstring), v.optind, FirstActive(v.argv, v.optind);
            && d.events == [] && !d.overrun && d.v.optind == i + 1
            && d.v.argv == v.argv[..i] + [v.argv[k]] + v.argv[i..k] + v.argv[k + 1..]
  {
    var k := FirstActive(v.argv, v.optind);
    StopIsFirstActive(v.argv, v.optind);
    Classified(v.argv[k]);
    CallActs(v, optstring);
  }
}
