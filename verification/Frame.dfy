/**
 The frame that the client and the server exchange (SocketExams/libuvClient_test/MyClient.cpp, lines
 69-86, 112-132 and 279-286; SocketExams/LibuvServer_test/MyServer.cpp, lines 52-61 and 116-130): nine
 bytes for the request number in decimal, 31 for the command, then the payload. The number and the
 command are C strings copied into an uninitialised buffer, so what follows their ends is arbitrary.
 */
module Frame {
  const REQ_ID_LENGTH: nat := 9
  const CMD_LENGTH: nat := 31
  const HEAD_LENGTH: nat := 40
  const NUL: char := '\0'
  const STX_COMMAND: string := "STX_COMMAND"

  // ----- C strings

  /** The C string that starts `s`: up to its first NUL, or all of it. */
  function CString(s: string): (r: string) {
    if s == [] || s[0] == NUL then [] else [s[0]] + CString(s[1..])
  }

  predicate NulFree(s: string) {
    NUL !in s
  }

  lemma {:induction false} CStringStops(s: string, rest: string)
    requires NulFree(s) && (rest == [] || rest[0] == NUL)
    ensures CString(s + rest) == s
  {
    if s == [] {
      assert s + rest == rest;
    } else {
      assert (s + rest)[1..] == s[1..] + rest;
      CStringStops(s[1..], rest);
    }
  }

  lemma {:induction false} CStringNulFree(s: string)
    ensures NulFree(CString(s)) && |CString(s)| <= |s|
  {
    if s != [] && s[0] != NUL {
      CStringNulFree(s[1..]);
    }
  }

  // ----- numbers

  predicate IsDigit(c: char) {
    '0' <= c <= '9'
  }

  function DigitOf(d: nat): (c: char)
    requires d < 10
    ensures IsDigit(c) && DigitValue(c) == d
  {
    '0' + d as char
  }

  function DigitValue(c: char): (d: nat)
    requires IsDigit(c)
    ensures d < 10
  {
    (c - '0') as nat
  }

  /** A number in decimal. */
  function ToString(n: nat): (s: string)
    ensures |s| > 0 && forall i :: 0 <= i < |s| ==> IsDigit(s[i])
  {
    if n < 10 then [DigitOf(n)] else ToString(n / 10) + [DigitOf(n % 10)]
  }

  /** `std::to_string`. */
  function IntToString(n: int): (s: string) {
    if n < 0 then ['-'] + ToString(-n) else ToString(n)
  }

  /** The number that the leading digits of `s` make, after `acc`. */
  function DigitsFrom(s: string, acc: nat): (n: nat) {
    if s != [] && IsDigit(s[0]) then DigitsFrom(s[1..], 10 * acc + DigitValue(s[0])) else acc
  }

  predicate IsSpace(c: char) {
    c == ' ' || '\t' <= c <= '\r'
  }

  function SkipSpaces(s: string): (r: string) {
    if s != [] && IsSpace(s[0]) then SkipSpaces(s[1..]) else s
  }

  /** `atoi`. */
  function Atoi(s: string): (n: int) {
    var t := SkipSpaces(s);
    if t != [] && t[0] == '-' then 0 - DigitsFrom(t[1..], 0)
    else if t != [] && t[0] == '+' then DigitsFrom(t[1..], 0)
    else DigitsFrom(t, 0)
  }

  predicate AllDigits(s: string) {
    forall i :: 0 <= i < |s| ==> IsDigit(s[i])
  }

  /** What ends a number. */
  predicate Ends(rest: string) {
    rest == [] || !IsDigit(rest[0])
  }

  lemma {:induction false} DigitsThenRest(s: string, rest: string, acc: nat)
    requires AllDigits(s) && Ends(rest)
    ensures DigitsFrom(s + rest, acc) == DigitsFrom(s, acc)
    decreases |s|
  {
    if s == [] {
      assert s + rest == rest;
    } else {
      assert (s + rest)[1..] == s[1..] + rest;
      DigitsThenRest(s[1..], rest, 10 * acc + DigitValue(s[0]));
    }
  }

  lemma {:induction false} DigitsThenDigit(s: string, c: char, acc: nat)
    requires AllDigits(s) && IsDigit(c)
    ensures DigitsFrom(s + [c], acc) == 10 * DigitsFrom(s, acc) + DigitValue(c)
    decreases |s|
  {
    if s == [] {
      assert s + [c] == [c];
      assert DigitsFrom([], 10 * acc + DigitValue(c)) == 10 * acc + DigitValue(c);
    } else {
      assert (s + [c])[1..] == s[1..] + [c];
      DigitsThenDigit(s[1..], c, 10 * acc + DigitValue(s[0]));
    }
  }

  lemma {:induction false} ToStringReads(n: nat)
    ensures DigitsFrom(ToString(n), 0) == n
  {
    if n < 10 {
      assert DigitsFrom(ToString(n)[1..], n) == n;
    } else {
      ToStringReads(n / 10);
      DigitsThenDigit(ToString(n / 10), DigitOf(n % 10), 0);
    }
  }

  /** The digits, spelled out. */
  lemma DecimalDigits()
    ensures DigitOf(0) == '0' && DigitOf(1) == '1' && DigitOf(2) == '2' && DigitOf(3) == '3' && DigitOf(4) == '4'
    ensures DigitOf(5) == '5' && DigitOf(6) == '6' && DigitOf(7) == '7' && DigitOf(8) == '8' && DigitOf(9) == '9'
    ensures forall n :: n < 10 ==> ToString(n) == [DigitOf(n)]
    ensures forall n :: n >= 10 ==> ToString(n) == ToString(n / 10) + ToString(n % 10)
  {
  }

  /** `atoi` skips white space, takes a sign and reads digits up to what is no digit. */
  lemma {:induction false} AtoiMeaning(spaces: string, sign: string, digits: string, rest: string)
    requires forall i :: 0 <= i < |spaces| ==> spaces[i] == ' ' || 9 <= spaces[i] as int <= 13
    requires (sign == "" || sign == "+" || sign == "-") && digits != [] && AllDigits(digits) && Ends(rest)
    ensures Atoi(spaces + (sign + digits + rest)) ==
            if sign == "-" then 0 - DigitsFrom(digits, 0) else DigitsFrom(digits, 0)
    decreases |spaces|
  {
    var text := sign + digits + rest;
    if spaces != [] {
      assert (spaces + text)[1..] == spaces[1..] + text;
      AtoiMeaning(spaces[1..], sign, digits, rest);
    } else {
      assert spaces + text == text;
      DigitsThenRest(digits, rest, 0);
      if sign == "" {
        assert text == digits + rest && IsDigit(text[0]);
      } else {
        assert text[1..] == digits + rest && text[0] == sign[0];
      }
    }
  }

  /** A number in decimal reads back, whatever its sign. */
  lemma IntReads(n: int)
    ensures Atoi(IntToString(n)) == n
  {
    var a := if n < 0 then -n else n;
    ToStringReads(a);
    AtoiMeaning("", if n < 0 then "-" else "", ToString(a), "");
    assert "" + ((if n < 0 then "-" else "") + ToString(a) + "") == IntToString(n);
  }

  lemma AtoiOfDigits(s: string, rest: string)
    requires AllDigits(s) && s != [] && Ends(rest)
    ensures Atoi(s + rest) == DigitsFrom(s, 0)
  {
    assert (s + rest)[0] == s[0] && IsDigit(s[0]);
    assert SkipSpaces(s + rest) == s + rest;
    DigitsThenRest(s, rest, 0);
  }

  function Pow10(k: nat): (p: nat)
    ensures p > 0
  {
    if k == 0 then 1 else 10 * Pow10(k - 1)
  }

  /** A number below `10^k`, and no other, has at most `k` digits. */
  lemma {:induction false} LengthOfNumber(n: nat, k: nat)
    requires k > 0
    ensures |ToString(n)| <= k <==> n < Pow10(k)
  {
    if k == 1 {
      assert Pow10(1) == 10 * Pow10(0);
    } else if n >= 10 {
      LengthOfNumber(n / 10, k - 1);
    } else {
      PowGrows(k);
    }
  }

  lemma {:induction false} PowGrows(k: nat)
    requires k > 0
    ensures Pow10(k) >= 10
  {
    if k > 1 {
      PowGrows(k - 1);
    }
  }

  /** What is read from `k` bytes is below `10^k`. */
  lemma {:induction false} DigitsBelow(s: string, acc: nat)
    ensures DigitsFrom(s, acc) < (acc + 1) * Pow10(|s|)
    decreases |s|
  {
    if s != [] && IsDigit(s[0]) {
      var d := DigitValue(s[0]);
      DigitsBelow(s[1..], 10 * acc + d);
      TenTimes(acc, d, Pow10(|s| - 1));
    } else {
      TenTimes(acc, 0, Pow10(|s|));
    }
  }

  lemma TenTimes(acc: nat, d: nat, p: nat)
    requires d < 10 && p > 0
    ensures (10 * acc + d + 1) * p <= (acc + 1) * (10 * p) && acc < (acc + 1) * p
  {
    assert (acc + 1) * (10 * p) == (10 * acc + d + 1) * p + (9 - d) * p;
    assert (acc + 1) * p == acc * p + p;
  }

  lemma {:induction false} SkipSpacesShortens(s: string)
    ensures |SkipSpaces(s)| <= |s|
  {
    if s != [] && IsSpace(s[0]) {
      SkipSpacesShortens(s[1..]);
    }
  }

  lemma {:induction false} PowMonotone(j: nat, k: nat)
    requires j <= k
    ensures Pow10(j) <= Pow10(k)
  {
    if j < k {
      PowMonotone(j, k - 1);
    }
  }

  lemma AtoiBelow(s: string, k: nat)
    requires |s| <= k
    ensures 0 < Atoi(s) + Pow10(k) && Atoi(s) < Pow10(k)
  {
    var t := SkipSpaces(s);
    SkipSpacesShortens(s);
    PowMonotone(|t|, k);
    DigitsBelow(t, 0);
    if t != [] {
      DigitsBelow(t[1..], 0);
      PowMonotone(|t| - 1, k);
    }
  }

  // ----- the frame

  /** `strcpy` or `memcpy` into a buffer. */
  function Overwrite(buf: string, at: nat, data: string): (r: string)
    requires at + |data| <= |buf|
    ensures |r| == |buf|
  {
    buf[..at] + data + buf[at + |data|..]
  }

  lemma OverwriteAt(buf: string, at: nat, data: string, i: nat)
    requires at + |data| <= |buf| && i < |buf|
    ensures Overwrite(buf, at, data)[i] == if at <= i < at + |data| then data[i - at] else buf[i]
  {
  }

  /** Whether the two `strcpy` calls stay inside a buffer of the given length. */
  predicate FitsBuffer(id: int, cmd: string, length: nat) {
    |IntToString(id)| + 1 <= length && REQ_ID_LENGTH + |cmd| + 1 <= length
  }

  /** The buffer that `Send` and `EchoCmd` fill; `filler` is what was in it. */
  function Encode(filler: string, id: int, cmd: string, payload: string): (frame: string)
    requires |filler| == HEAD_LENGTH + |payload| && FitsBuffer(id, cmd, |filler|)
    ensures |frame| == |filler|
  {
    Overwrite(Overwrite(Overwrite(filler, 0, IntToString(id) + [NUL]), REQ_ID_LENGTH, cmd + [NUL]), HEAD_LENGTH,
        payload)
  }

  datatype Message = Message(id: int, cmd: string, value: string)
  datatype Decoded = Read(m: Message) | Refused

  /** `DespatchMsg`: `substr` throws on a frame shorter than the header (lines 123-126). */
  function ServerDecode(frame: string): (d: Decoded) {
    if |frame| < HEAD_LENGTH then Refused
    else Read(Message(Atoi(CString(frame[..REQ_ID_LENGTH])), CString(frame[REQ_ID_LENGTH..HEAD_LENGTH]),
        frame[HEAD_LENGTH..]))
  }

  /**
   `OnMsg` and the end of `SyncSend`: a frame without a payload is ignored, and only eight bytes of
   the number are read (lines 114-124 and 284-285).
   */
  function ClientDecode(frame: string): (d: Decoded) {
    if |frame| <= HEAD_LENGTH then Refused
    else Read(Message(Atoi(CString(frame[..REQ_ID_LENGTH - 1])), CString(frame[REQ_ID_LENGTH..HEAD_LENGTH]),
        frame[HEAD_LENGTH..]))
  }

  /** What each byte of the frame is. */
  lemma EncodeAt(filler: string, id: nat, cmd: string, payload: string, i: nat)
    requires |filler| == HEAD_LENGTH + |payload| && FitsBuffer(id, cmd, |filler|) && i < |filler|
    ensures var digits := ToString(id);
            Encode(filler, id, cmd, payload)[i] ==
            if i >= 40 then payload[i - 40]
            else if 9 <= i < 9 + |cmd| then cmd[i - 9]
            else if i == 9 + |cmd| then '\0'
            else if i < |digits| then digits[i]
            else if i == |digits| then '\0'
            else filler[i]
  {
    var f1 := Overwrite(filler, 0, ToString(id) + [NUL]);
    var f2 := Overwrite(f1, REQ_ID_LENGTH, cmd + [NUL]);
    OverwriteAt(filler, 0, ToString(id) + [NUL], i);
    OverwriteAt(f1, REQ_ID_LENGTH, cmd + [NUL], i);
    OverwriteAt(f2, HEAD_LENGTH, payload, i);
  }

  /** The first `k` bytes read as the number exactly when it has at most `k` digits. */
  lemma IdReads(filler: string, id: nat, cmd: string, payload: string, k: nat)
    requires |filler| == HEAD_LENGTH + |payload| && FitsBuffer(id, cmd, |filler|) && 0 < k <= REQ_ID_LENGTH
    ensures Atoi(CString(Encode(filler, id, cmd, payload)[..k])) == id <==> id < Pow10(k)
  {
    var digits, front := ToString(id), Encode(filler, id, cmd, payload)[..k];
    LengthOfNumber(id, k);
    if |digits| <= k {
      IdStarts(filler, id, cmd, payload, k);
      ShortIdReads(id, front[|digits|..]);
    } else {
      LongIdMisreads(id, front);
    }
  }

  lemma IdStarts(filler: string, id: nat, cmd: string, payload: string, k: nat)
    requires |filler| == HEAD_LENGTH + |payload| && FitsBuffer(id, cmd, |filler|) &&
              |ToString(id)| <= k <= REQ_ID_LENGTH
    ensures var digits, front := ToString(id), Encode(filler, id, cmd, payload)[..k];
            front == digits + front[|digits|..] && (|digits| < k ==> front[|digits|] == NUL)
  {
    var digits, front := ToString(id), Encode(filler, id, cmd, payload)[..k];
    forall i | 0 <= i < k
      ensures i < |digits| ==> front[i] == digits[i]
      ensures i == |digits| ==> front[i] == NUL
    {
      EncodeAt(filler, id, cmd, payload, i);
    }
  }

  lemma DigitsAreNulFree(s: string)
    requires AllDigits(s)
    ensures NulFree(s)
  {
  }

  lemma ShortIdReads(id: nat, rest: string)
    requires rest == [] || rest[0] == NUL
    ensures Atoi(CString(ToString(id) + rest)) == id
  {
    var digits := ToString(id);
    DigitsAreNulFree(digits);
    CStringStops(digits, rest);
    AtoiOfDigits(digits, []);
    assert digits + [] == digits;
    ToStringReads(id);
  }

  lemma LongIdMisreads(id: nat, front: string)
    requires 0 < |front| < |ToString(id)|
    ensures Atoi(CString(front)) != id
  {
    CStringNulFree(front);
    AtoiBelow(CString(front), |front|);
    LengthOfNumber(id, |front|);
  }

  /** The command field reads as the command exactly when the command has at most 31 bytes. */
  lemma CmdReads(filler: string, id: nat, cmd: string, payload: string)
    requires |filler| == HEAD_LENGTH + |payload| && FitsBuffer(id, cmd, |filler|) && NulFree(cmd)
    ensures CString(Encode(filler, id, cmd, payload)[REQ_ID_LENGTH..HEAD_LENGTH]) == cmd <==> |cmd| <= CMD_LENGTH
  {
    var field := Encode(filler, id, cmd, payload)[REQ_ID_LENGTH..HEAD_LENGTH];
    forall i | 0 <= i < CMD_LENGTH
      ensures i < |cmd| ==> field[i] == cmd[i]
      ensures i == |cmd| ==> field[i] == NUL
    {
      EncodeAt(filler, id, cmd, payload, REQ_ID_LENGTH + i);
    }
    if |cmd| <= CMD_LENGTH {
      assert field == cmd + field[|cmd|..];
      CStringStops(cmd, field[|cmd|..]);
    } else {
      CStringNulFree(field);
    }
  }

  lemma PayloadReads(filler: string, id: nat, cmd: string, payload: string)
    requires |filler| == HEAD_LENGTH + |payload| && FitsBuffer(id, cmd, |filler|)
    ensures Encode(filler, id, cmd, payload)[HEAD_LENGTH..] == payload
  {
    forall i | 0 <= i < |payload|
      ensures Encode(filler, id, cmd, payload)[HEAD_LENGTH..][i] == payload[i]
    {
      EncodeAt(filler, id, cmd, payload, HEAD_LENGTH + i);
    }
  }

  /**
   The server reads what `Send` wrote, whatever the filler, exactly for numbers below 10^9 and commands of at most 31
   bytes.
   */
  lemma ServerReadsExactly(filler: string, id: nat, cmd: string, payload: string)
    requires |filler| == HEAD_LENGTH + |payload| && FitsBuffer(id, cmd, |filler|) && NulFree(cmd)
    ensures ServerDecode(Encode(filler, id, cmd, payload)) == Read(Message(id, cmd, payload)) <==>
            id < 1_000_000_000 && |cmd| <= 31
  {
    assert Pow10(9) == 1_000_000_000 by { PowersOfTen(); }
    IdReads(filler, id, cmd, payload, 9);
    PayloadReads(filler, id, cmd, payload);
    CmdReads(filler, id, cmd, payload);
  }

  lemma PowersOfTen()
    ensures Pow10(8) == 100_000_000 && Pow10(9) == 1_000_000_000
  {
    assert Pow10(4) == 10_000;
    assert Pow10(8) == 100_000_000;
  }

  /** The client reads one digit less, and needs a payload. */
  lemma ClientReadsExactly(filler: string, id: nat, cmd: string, payload: string)
    requires |filler| == HEAD_LENGTH + |payload| && FitsBuffer(id, cmd, |filler|) && NulFree(cmd)
    ensures ClientDecode(Encode(filler, id, cmd, payload)) == Read(Message(id, cmd, payload)) <==>
            id < 100_000_000 && |cmd| <= 31 && payload != []
  {
    assert Pow10(8) == 100_000_000 by { PowersOfTen(); }
    if payload != [] {
      IdReads(filler, id, cmd, payload, 8);
      PayloadReads(filler, id, cmd, payload);
      CmdReads(filler, id, cmd, payload);
    }
  }

  // ----- there and back

  /** Both numbers and commands that the server reads fit the buffer it answers with. */
  lemma EchoFits(frame: string)
    ensures ServerDecode(frame).Read? && ServerDecode(frame).m.cmd == STX_COMMAND ==>
              FitsBuffer(ServerDecode(frame).m.id, STX_COMMAND, |frame|)
  {
    if |frame| >= HEAD_LENGTH {
      var id := ServerDecode(frame).m.id;
      PowersOfTen();
      CStringNulFree(frame[..9]);
      AtoiBelow(CString(frame[..9]), 9);
      LengthOfNumber(if id < 0 then -id else id, 9);
    }
  }

  /** The server's answer, which is for `STX_COMMAND` only (MyServer.cpp, lines 127-130). */
  datatype Answer = Frame(frame: string) | NoAnswer

  function Echo(frame: string, filler: string): (r: Answer)
    requires |filler| == |frame|
  {
    match ServerDecode(frame)
    case Refused => NoAnswer
    case Read(m) =>
      EchoFits(frame);
      if m.cmd == STX_COMMAND then Frame(Encode(filler, m.id, m.cmd, m.value)) else NoAnswer
  }

  /** What the client reads of the server's answer. */
  function EchoRead(frame: string, filler: string): (r: Decoded)
    requires |filler| == |frame|
  {
    match Echo(frame, filler)
    case NoAnswer => Refused
    case Frame(answer) => ClientDecode(answer)
  }

  /**
   The server answers exactly the frames that are long enough and whose command field says
   "STX_COMMAND", with the same payload and command, and the same number unless that is negative.
   */
  lemma EchoExactly(frame: string, filler: string)
    requires |filler| == |frame|
    ensures Echo(frame, filler).Frame? <==> |frame| >= 40 && CString(frame[9..40]) == "STX_COMMAND"
    ensures Echo(frame, filler).Frame? ==>
              var answer := Echo(frame, filler).frame;
              && |answer| == |frame| && answer[40..] == frame[40..] && CString(answer[9..40]) == "STX_COMMAND"
              && (Atoi(CString(frame[..9])) >= 0 ==> Atoi(CString(answer[..9])) == Atoi(CString(frame[..9])))
  {
    if |frame| >= 40 && CString(frame[9..40]) == "STX_COMMAND" {
      EchoFits(frame);
      var n, payload := Atoi(CString(frame[..9])), frame[40..];
      CStringNulFree(frame[..9]);
      AtoiBelow(CString(frame[..9]), 9);
      AnswerReads(filler, n, payload);
    }
  }

  lemma AnswerReads(filler: string, n: int, payload: string)
    requires |filler| == 40 + |payload| && FitsBuffer(n, STX_COMMAND, |filler|)
    ensures var answer := Encode(filler, n, STX_COMMAND, payload);
            && answer[40..] == payload && CString(answer[9..40]) == "STX_COMMAND"
            && (0 <= n < Pow10(9) ==> Atoi(CString(answer[..9])) == n)
  {
    var text := Overwrite(filler, 0, IntToString(n) + [NUL]);
    PayloadField(Overwrite(text, 9, STX_COMMAND + [NUL]), payload);
    CommandField(text, STX_COMMAND, payload);
    if 0 <= n < Pow10(9) {
      IdReads(filler, n, STX_COMMAND, payload, 9);
    }
  }

  lemma PayloadField(buf: string, payload: string)
    requires |buf| == 40 + |payload|
    ensures Overwrite(buf, 40, payload)[40..] == payload
  {
  }

  lemma CommandField(buf: string, cmd: string, payload: string)
    requires |buf| == 40 + |payload| && |cmd| < 31 && NulFree(cmd)
    ensures CString(Overwrite(Overwrite(buf, 9, cmd + [NUL]), 40, payload)[9..40]) == cmd
  {
    var field := Overwrite(Overwrite(buf, 9, cmd + [NUL]), 40, payload)[9..40];
    var named := Overwrite(buf, 9, cmd + [NUL]);
    forall i | 0 <= i <= |cmd|
      ensures field[i] == (cmd + [NUL])[i]
    {
      OverwriteAt(buf, 9, cmd + [NUL], 9 + i);
      OverwriteAt(named, 40, payload, 9 + i);
    }
    assert field == cmd + field[|cmd|..] && field[|cmd|] == NUL;
    CStringStops(cmd, field[|cmd|..]);
  }

  /** Which frames the two sides take no notice of, and what they read of any other. */
  lemma DecodersExactly(frame: string)
    ensures ServerDecode(frame).Refused? <==> |frame| < 40
    ensures ClientDecode(frame).Refused? <==> |frame| <= 40
    ensures |frame| >= 40 ==>
              var m := ServerDecode(frame).m;
              m.id == Atoi(CString(frame[..9])) && m.cmd == CString(frame[9..40]) && m.value == frame[40..]
    ensures |frame| > 40 ==>
              var m := ClientDecode(frame).m;
              m.id == Atoi(CString(frame[..8])) && m.cmd == CString(frame[9..40]) && m.value == frame[40..]
  {
  }

  /** Whether the number and the command fit a buffer, spelled out. */
  lemma FitsExactly(id: nat, cmd: string, length: nat)
    ensures FitsBuffer(id, cmd, length) <==> |ToString(id)| < length && |cmd| + 10 <= length
  {
  }

  lemma ClientNumbersAreShort(frame: string)
    ensures ClientDecode(frame).Read? ==> ClientDecode(frame).m.id < 100_000_000
  {
    PowersOfTen();
    if |frame| > HEAD_LENGTH {
      CStringNulFree(frame[..8]);
      AtoiBelow(CString(frame[..8]), 8);
    }
  }

  /**
   An `STX_COMMAND` request comes back to the client as sent, exactly when its number is below 10^8 and it has a
   payload.
   */
  lemma EchoReadsExactly(filler: string, filler': string, id: nat, payload: string)
    requires |filler| == |filler'| == 40 + |payload| && FitsBuffer(id, "STX_COMMAND", |filler|)
    ensures EchoRead(Encode(filler, id, "STX_COMMAND", payload), filler') == Read(Message(id, "STX_COMMAND",
              payload)) <==>
            id < 100_000_000 && payload != []
  {
    var frame := Encode(filler, id, STX_COMMAND, payload);
    ServerReadsExactly(filler, id, STX_COMMAND, payload);
    if id < 1_000_000_000 {
      ClientReadsExactly(filler', id, STX_COMMAND, payload);
    } else {
      match ServerDecode(frame)
      case Refused =>
      case Read(m) =>
        EchoFits(frame);
        if m.cmd == STX_COMMAND {
          ClientNumbersAreShort(Encode(filler', m.id, m.cmd, m.value));
        }
    }
  }

  // ----- the buffer in place

  /** `strcpy` of `s` to position `at` of `buf`, or `memcpy` when `ended` is false. */
  method CopyInto(buf: array<char>, at: nat, s: string, ended: bool)
    requires at + |s| + (if ended then 1 else 0) <= buf.Length
    modifies buf
    ensures buf[..] == Overwrite(old(buf[..]), at, if ended then s + [NUL] else s)
  {
    ghost var was := buf[..];
    var i := 0;
    while i < |s|
      invariant i <= |s| && buf[..] == Overwrite(was, at, s[..i])
    {
      buf[at + i] := s[i];
      OverwriteMore(was, at, s[..i], s[i]);
      assert s[..i + 1] == s[..i] + [s[i]];
      i := i + 1;
    }
    assert s[..i] == s;
    if ended {
      OverwriteMore(was, at, s, NUL);
      buf[at + i] := NUL;
    }
  }

  lemma OverwriteMore(buf: string, at: nat, data: string, c: char)
    requires at + |data| < |buf|
    ensures Overwrite(buf, at, data + [c]) == Overwrite(buf, at, data)[at + |data| := c]
  {
  }

  /**
   The frame of `Send` (MyClient.cpp, lines 71-79) and `EchoCmd` (MyServer.cpp, lines 54-58) in a buffer not yet
   written.
   */
  method FillFrame(buf: array<char>, id: int, cmd: string, payload: string)
    requires buf.Length == HEAD_LENGTH + |payload| && FitsBuffer(id, cmd, buf.Length)
    modifies buf
    ensures buf[..] == Encode(old(buf[..]), id, cmd, payload)
  {
    CopyInto(buf, 0, IntToString(id), true);
    CopyInto(buf, REQ_ID_LENGTH, cmd, true);
    CopyInto(buf, HEAD_LENGTH, payload, false);
  }
}
