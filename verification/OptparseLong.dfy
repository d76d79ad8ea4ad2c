/**
 The long-option table of SocketExams_vs17/uWebSocketsServer/helpers/optparse.h: how it is compiled
 into an option string for its short names (lines 287-301, 333-334), and how a long name is matched
 (lines 303-325).
 */
module OptparseLong {
  import opened Common
  import opened Optparse

  /** An entry of the table before its all-zero terminator; a short name of NUL means none. */
  datatype LongOpt = LongOpt(longname: Option<string>, shortname: char, argtype: nat)

  const BUFFER_SIZE := 96 * 3 + 1

  ghost predicate WellTyped(table: seq<LongOpt>) {
    forall i :: 0 <= i < |table| ==> table[i].argtype <= 2
  }

  function ColonRun(k: nat): (s: string)
    ensures |s| == k
  {
    if k == 0 then [] else [':'] + ColonRun(k - 1)
  }

  function CompileEntry(e: LongOpt): (s: string) {
    if e.shortname == '\0' then [] else [e.shortname] + ColonRun(e.argtype)
  }

  /** The option string of a table. */
  function Compile(table: seq<LongOpt>): (s: string) {
    if table == [] then [] else CompileEntry(table[0]) + Compile(table[1..])
  }

  /** The argument type of the first entry with short name `c`, or -1. */
  function FirstType(table: seq<LongOpt>, c: char): (r: int) {
    if c == '\0' || table == [] then -1
    else if table[0].shortname == c then table[0].argtype
    else FirstType(table[1..], c)
  }

  /** A table of at most 96 entries compiles into the 289-byte buffer, NUL included. */
  lemma {:induction false} CompileFits(table: seq<LongOpt>)
    requires WellTyped(table)
    ensures |Compile(table)| <= 3 * |table|
    ensures |table| <= 96 ==> |Compile(table)| + 1 <= BUFFER_SIZE
  {
    if table != [] {
      CompileFits(table[1..]);
    }
  }

  lemma {:induction false} CompileConcat(s: seq<LongOpt>, t: seq<LongOpt>)
    ensures Compile(s + t) == Compile(s) + Compile(t)
  {
    if s == [] {
      assert s + t == t;
    } else {
      assert (s + t)[1..] == s[1..] + t;
      CompileConcat(s[1..], t);
    }
  }

  lemma CompileOne(e: LongOpt)
    ensures Compile([e]) == CompileEntry(e)
  {
    assert [e][1..] == [];
    assert Compile([]) == [];
  }

  lemma CompilePrefix(table: seq<LongOpt>, k: nat)
    requires k <= |table|
    ensures |Compile(table[..k])| <= |Compile(table)|
  {
    assert table == table[..k] + table[k..];
    CompileConcat(table[..k], table[k..]);
  }

  lemma CompileLast(table: seq<LongOpt>, i: nat)
    requires i < |table|
    ensures Compile(table[..i + 1]) == Compile(table[..i]) + CompileEntry(table[i])
    ensures |Compile(table[..i + 1])| <= |Compile(table)|
  {
    var front, e := table[..i], table[i];
    assert table[..i + 1] == front + [e];
    CompileConcat(front, [e]);
    CompileOne(e);
    CompilePrefix(table, i + 1);
  }

  lemma {:induction false} ColonRunSnoc(k: nat)
    ensures ColonRun(k + 1) == ColonRun(k) + [':']
  {
    if k > 0 {
      ColonRunSnoc(k - 1);
    }
  }

  /** Lines 293-298: appends one entry at `p`. */
  method PutEntry(e: LongOpt, buf: array<char>, p: nat) returns (p': nat)
    requires p + |CompileEntry(e)| < buf.Length
    modifies buf
    ensures p' == p + |CompileEntry(e)| && buf[..p'] == old(buf[..p]) + CompileEntry(e)
  {
    p' := p;
    if e.shortname != '\0' {
      buf[p'] := e.shortname;
      p' := p' + 1;
      var a := 0;
      while a < e.argtype
        invariant 0 <= a <= e.argtype && p' == p + 1 + a
        invariant buf[..p'] == old(buf[..p]) + ([e.shortname] + ColonRun(a))
      {
        buf[p'] := ':';
        p' := p' + 1;
        ColonRunSnoc(a);
        a := a + 1;
      }
    }
  }

  /** `optparse_from_long` (lines 287-301): fills the buffer, NUL-terminated, and returns the length. */
  method FromLong(table: seq<LongOpt>, buf: array<char>) returns (p: nat)
    requires |Compile(table)| < buf.Length
    modifies buf
    ensures p == |Compile(table)| && buf[..p] == Compile(table) && buf[p] == '\0'
  {
    p := 0;
    var i := 0;
    assert table[..0] == [];
    while i < |table|
      invariant 0 <= i <= |table|
      invariant p == |Compile(table[..i])| && p < buf.Length && buf[..p] == Compile(table[..i])
    {
      CompileLast(table, i);
      p := PutEntry(table[i], buf, p);
      i := i + 1;
    }
    assert table[..i] == table;
    buf[p] := '\0';
  }

  lemma {:induction false} SkipColons(k: nat, rest: string, c: char)
    requires c != ':'
    ensures ArgType(ColonRun(k) + rest, c) == ArgType(rest, c)
  {
    if k == 0 {
      assert ColonRun(k) + rest == rest;
    } else {
      assert (ColonRun(k) + rest)[1..] == ColonRun(k - 1) + rest;
      SkipColons(k - 1, rest, c);
    }
  }

  lemma CountColons(k: nat, rest: string)
    requires k <= 2 && (rest != [] ==> rest[0] != ':')
    ensures Colons(ColonRun(k) + rest) == k
  {
    if k == 2 {
      assert ColonRun(2) == [':'] + ColonRun(1) && ColonRun(1) == [':'] + ColonRun(0);
    } else if k == 1 {
      assert ColonRun(1) == [':'] + ColonRun(0);
    }
  }

  ghost predicate NoColonName(table: seq<LongOpt>) {
    forall i :: 0 <= i < |table| ==> table[i].shortname != ':'
  }

  lemma {:induction false} CompileStart(table: seq<LongOpt>)
    requires NoColonName(table)
    ensures Compile(table) != [] ==> Compile(table)[0] != ':'
  {
    if table != [] {
      CompileStart(table[1..]);
    }
  }

  lemma EntryLookup(e: LongOpt, rest: string, c: char)
    requires e.shortname != '\0' && e.argtype <= 2 && c != ':' && (rest != [] ==> rest[0] != ':')
    ensures ArgType(CompileEntry(e) + rest, c) == if e.shortname == c then e.argtype else ArgType(rest, c)
  {
    var s := CompileEntry(e) + rest;
    assert s[0] == e.shortname && s[1..] == ColonRun(e.argtype) + rest;
    CountColons(e.argtype, rest);
    SkipColons(e.argtype, rest, c);
  }

  lemma {:induction false} LookupWithoutColon(table: seq<LongOpt>, c: char)
    requires WellTyped(table) && NoColonName(table)
    ensures c != '\0' ==> ArgType(Compile(table), c) == FirstType(table, c)
    ensures ArgType(Compile(table), '\0') == -1
  {
    if c == ':' {
      NoColonFound(table);
    }
    if table != [] {
      var e, rest := table[0], Compile(table[1..]);
      LookupWithoutColon(table[1..], c);
      CompileStart(table[1..]);
      if e.shortname == '\0' {
        assert Compile(table) == rest;
      } else {
        EntryLookup(e, rest, '\0');
        if c != ':' {
          EntryLookup(e, rest, c);
        }
      }
    }
  }

  lemma {:induction false} NoColonFound(table: seq<LongOpt>)
    requires NoColonName(table)
    ensures FirstType(table, ':') == -1
  {
    if table != [] {
      NoColonFound(table[1..]);
    }
  }

  lemma {:induction false} ColonFound(table: seq<LongOpt>, i: nat)
    requires i < |table| && table[i].shortname == ':'
    ensures FirstType(table, ':') >= 0
  {
    if table[0].shortname != ':' {
      ColonFound(table[1..], i - 1);
    }
  }

  /**
   Looking a letter up in the compiled option string gives the type of the first entry with that
   short name, for every letter, if and only if no entry has the short name ':'.
   */
  lemma LookupExactly(table: seq<LongOpt>)
    requires WellTyped(table)
    ensures (forall c :: ArgType(Compile(table), c) == FirstType(table, c)) <==> NoColonName(table)
  {
    if NoColonName(table) {
      forall c
        ensures ArgType(Compile(table), c) == FirstType(table, c)
      {
        LookupWithoutColon(table, c);
      }
    } else {
      var i :| 0 <= i < |table| && table[i].shortname == ':';
      ColonFound(table, i);
      assert ArgType(Compile(table), ':') == -1;
    }
  }

  // ----- long names

  /** The part of an option before its first '='. */
  function BeforeEq(s: string): (r: string)
    ensures '=' !in r && |r| <= |s| && s[..|r|] == r && (|r| < |s| ==> s[|r|] == '=')
  {
    if s == [] || s[0] == '=' then [] else [s[0]] + BeforeEq(s[1..])
  }

  /** `optparse_longopts_match` (lines 304-314): the option names `longname` exactly, with or without "=value". */
  method Matches(longname: Option<string>, option: string) returns (r: bool)
    ensures r <==> longname.Some? && longname.value == BeforeEq(option)
  {
    if longname.None? {
      return false;
    }
    var n := longname.value;
    var i := 0;
    while i < |option| && i < |n| && option[i] != '='
      invariant 0 <= i <= |option| && i <= |n|
      invariant n == BeforeEq(option) <==> n[i..] == BeforeEq(option[i..])
    {
      if option[i] != n[i] {
        return false;
      }
      assert n[i..] == [n[i]] + n[i + 1..] && option[i..][1..] == option[i + 1..];
      i := i + 1;
    }
    return i == |n| && (i == |option| || option[i] == '=');
  }
}
