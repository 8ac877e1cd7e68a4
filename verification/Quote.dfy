/** The `%q` format of string.format and the lexer that reads its output back. */
module Quote {

  const MAX_INT: nat := 0x7fff_fffd

  predicate IsDigit(c: char) {
    '0' <= c <= '9'
  }

  predicate IsNewline(c: char) {
    c == '\n' || c == '\r'
  }

  /** Bytes are characters below 256. */
  predicate IsBytes(s: string) {
    forall i :: 0 <= i < |s| ==> s[i] as int < 256
  }

  /** How one byte is written. */
  function QuoteOne(c: char): string {
    if c == '"' || c == '\\' || c == '\n' then ['\\', c]
    else if c == '\r' then ['\\', 'r']
    else if c == '\0' then ['\\', '0', '0', '0']
    else [c]
  }

  function QuoteBody(s: string): string {
    if s == "" then "" else QuoteOne(s[0]) + QuoteBody(s[1..])
  }

  function Quoted(s: string): string {
    ['"'] + QuoteBody(s) + ['"']
  }

  function Lines(s: string): nat {
    if s == "" then 0 else (if s[0] == '\n' then 1 else 0) + Lines(s[1..])
  }

  lemma {:induction false} BodyAppend(s: string, c: char)
    ensures QuoteBody(s + [c]) == QuoteBody(s) + QuoteOne(c)
  {
    if s != "" {
      assert (s + [c])[1..] == s[1..] + [c];
      BodyAppend(s[1..], c);
    }
  }

  lemma NothingQuoted(b0: string, s: string)
    ensures b0 + ['"'] + QuoteBody(s[..0]) == b0 + ['"']
  {
  }

  lemma BodyStep(b0: string, s: string, i: nat)
    requires i < |s|
    ensures b0 + ['"'] + QuoteBody(s[..i + 1]) == b0 + ['"'] + QuoteBody(s[..i]) + QuoteOne(s[i])
  {
    assert s[..i + 1] == s[..i] + [s[i]];
    BodyAppend(s[..i], s[i]);
    hide QuoteBody, QuoteOne;
  }

  lemma AllQuoted(b0: string, s: string)
    ensures b0 + ['"'] + QuoteBody(s) + ['"'] == b0 + Quoted(s)
  {
    hide QuoteBody;
  }

  /** One round of the loop of lstrlib.c `addquoted`. */
  method AddOne(b0: string, c: char) returns (b: string)
    ensures b == b0 + QuoteOne(c)
  {
    b := b0;
    match c {
      case '"' => b := b + ['\\']; b := b + [c];
      case '\\' => b := b + ['\\']; b := b + [c];
      case '\n' => b := b + ['\\']; b := b + [c];
      case '\r' => b := b + ['\\', 'r'];
      case '\0' => b := b + ['\\', '0', '0', '0'];
      case _ => b := b + [c];
    }
  }

  /** lstrlib.c `addquoted`: append the quoted string to the buffer. */
  method AddQuoted(b0: string, s: string) returns (b: string)
    ensures b == b0 + Quoted(s)
  {
    hide QuoteBody;
    b := b0 + ['"'];
    var i := 0;
    NothingQuoted(b0, s);
    while i < |s|
      invariant 0 <= i <= |s| && b == b0 + ['"'] + QuoteBody(s[..i])
    {
      BodyStep(b0, s, i);
      b := AddOne(b, s[i]);
      i := i + 1;
    }
    assert s[..i] == s;
    b := b + ['"'];
    AllQuoted(b0, s);
  }

  // ----- Escapes -----

  /** The letters that stand for control characters, and these in ASCII. */
  const LETTERS: string := "abfnrtv"
  const CONTROLS: seq<nat> := [7, 8, 12, 10, 13, 9, 11]

  /** The decimal digits at the front, three at most. */
  function LeadingDigits(s: string, k: nat): (n: nat)
    ensures n <= k && n <= |s| && forall i :: 0 <= i < n ==> IsDigit(s[i])
    ensures n == k || n == |s| || !IsDigit(s[n])
  {
    if k == 0 || s == "" || !IsDigit(s[0]) then 0 else 1 + LeadingDigits(s[1..], k - 1)
  }

  /** The number that decimal digits denote. */
  function Number(s: string): nat
    requires forall i :: 0 <= i < |s| ==> IsDigit(s[i])
  {
    if s == "" then 0
    else
      assert IsDigit(s[|s| - 1]);
      10 * Number(s[..|s| - 1]) + (s[|s| - 1] as int - '0' as int)
  }

  /** Only one number of digits is right. */
  lemma {:induction false} LeadingIs(s: string, k: nat, n: nat)
    requires n <= k && n <= |s| && (forall i :: 0 <= i < n ==> IsDigit(s[i])) && (n == k || n == |s| || !IsDigit(s[n]))
    ensures n == LeadingDigits(s, k)
  {
    if n > 0 { LeadingIs(s[1..], k - 1, n - 1); }
  }

  lemma Zeros(s: string)
    requires |s| >= 3 && s[..3] == "000"
    ensures LeadingDigits(s, 3) == 3 && Number(s[..3]) == 0
  {
    assert s[..3][0] == '0' && s[..3][1] == '0' && s[..3][2] == '0';
    LeadingIs(s, 3, 3);
    assert Number("") == 0 && Number("0") == 0 && Number("00") == 0 && "000"[..2] == "00" && "00"[..1] == "0";
  }

  datatype LexError = NoError | Unfinished | TooLarge | TooManyLines

  /** What one character of a quoted string looks like to the lexer. */
  ghost predicate Next(input: string, s: string, i: nat, rest: string) {
    i <= |s| && input == QuoteBody(s[i..]) + (['"'] + rest)
  }

  class LexState {
    /** The input from the current character on. */
    var input: string
    var buff: string
    var linenumber: nat

    constructor (input: string)
      ensures this.input == input && buff == "" && linenumber == 1
    {
      this.input, buff, linenumber := input, "", 1;
    }

    /** llex.c `inclinenumber`: a newline, or a pair of different ones, is skipped. */
    method IncLineNumber() returns (err: LexError)
      requires input != "" && IsNewline(input[0])
      modifies `input, `linenumber
      ensures linenumber == old(linenumber) + 1 && (err == TooManyLines <==> linenumber >= MAX_INT)
        && (err == NoError || err == TooManyLines)
      ensures var pair := |old(input)| > 1 && IsNewline(old(input)[1]) && old(input)[1] != old(input)[0];
        input == if pair then old(input)[2..] else old(input)[1..]
    {
      var c := input[0];
      input := input[1..];
      if input != "" && IsNewline(input[0]) && input[0] != c {
        input := input[1..];
      }
      linenumber := linenumber + 1;
      err := if linenumber >= MAX_INT then TooManyLines else NoError;
    }

    /** The case of llex.c `read_string` for a backslash. */
    method Escape() returns (err: LexError)
      requires input != "" && input[0] == '\\'
      modifies this
      ensures err == NoError ==> |input| < |old(input)|
      ensures |input| <= |old(input)| && old(buff) <= buff
      ensures |old(input)| == 1 ==> err == NoError && input == "" && buff == old(buff) && linenumber == old(linenumber)
      ensures |old(input)| >= 2 && old(input)[1] in LETTERS ==>
        && err == NoError && input == old(input)[2..] && linenumber == old(linenumber)
        && forall k :: 0 <= k < 7 && LETTERS[k] == old(input)[1] ==> buff == old(buff) + [CONTROLS[k] as char]
      ensures |old(input)| >= 2 && Itself(old(input)[1]) ==>
        err == NoError && input == old(input)[2..] && buff == old(buff) + [old(input)[1]]
          && linenumber == old(linenumber)
      ensures |old(input)| >= 2 && IsNewline(old(input)[1]) ==>
        var pair := |old(input)| > 2 && IsNewline(old(input)[2]) && old(input)[2] != old(input)[1];
        && linenumber == old(linenumber) + 1 && (err == NoError <==> linenumber < MAX_INT)
        && input == old(input)[if pair then 3 else 2..] && buff == old(buff) + ['\n']
      ensures |old(input)| >= 2 && IsDigit(old(input)[1]) ==>
        var n := LeadingDigits(old(input)[1..], 3);
        var v := Number(old(input)[1..][..n]);
        && (if v <= 255 then err == NoError && buff == old(buff) + [v as char] else err == TooLarge)
        && input == old(input)[1 + n..] && linenumber == old(linenumber)
    {
      err := NoError;
      input := input[1..];
      if input == "" { return; }
      var c := input[0];
      if c == '\n' || c == '\r' {
        buff := buff + ['\n'];
        err := IncLineNumber();
        return;
      }
      if IsDigit(c) {
        err := Decimal();
        return;
      }
      buff := buff + [if c == 'a' then '\U{0007}' else if c == 'b' then '\U{0008}' else if c == 'f' then '\U{000C}'
                      else if c == 'n' then '\n' else if c == 'r' then '\r' else if c == 't' then '\t'
                      else if c == 'v' then '\U{000B}' else c];
      input := input[1..];
    }

    /** An escape of up to three decimal digits. */
    method Decimal() returns (err: LexError)
      requires input != "" && IsDigit(input[0])
      modifies `input, `buff
      ensures |input| < |old(input)| && old(buff) <= buff
      ensures var n := LeadingDigits(old(input), 3);
        var v := Number(old(input)[..n]);
        && (if v <= 255 then err == NoError && buff == old(buff) + [v as char] else err == TooLarge)
        && input == old(input)[n..]
    {
      var i, c := 0, 0;
      ghost var start := input;
      while i < 3 && input != "" && IsDigit(input[0])
        invariant 0 <= i <= 3 && i <= |start| && input == start[i..]
        invariant (forall k :: 0 <= k < i ==> IsDigit(start[k])) && c == Number(start[..i])
        invariant i == 0 ==> input != "" && IsDigit(input[0])
        invariant buff == old(buff)
        decreases 3 - i
      {
        assert start[..i + 1][..i] == start[..i] && start[..i + 1][i] == input[0];
        c := 10 * c + (input[0] as int - '0' as int);
        input := input[1..];
        i := i + 1;
      }
      LeadingIs(start, 3, i);
      if c > 255 {
        return TooLarge;
      }
      buff := buff + [c as char];
      err := NoError;
    }

    /** One round of the loop of llex.c `read_string`. */
    method ReadOne(ghost s: string, ghost i: nat, ghost rest: string) returns (err: LexError)
      modifies this
      ensures |input| <= |old(input)| && old(buff) <= buff && (err == NoError ==> |input| < |old(input)|)
      ensures i < |s| && Next(old(input), s, i, rest) ==>
        && linenumber == old(linenumber) + (if s[i] == '\n' then 1 else 0)
        && (err == NoError <==> s[i] != '\n' || linenumber < MAX_INT)
        && Next(input, s, i + 1, rest) && buff == old(buff) + [s[i]]
    {
      hide Next, QuoteBody, Lines, LeadingDigits, Number, Itself;
      ghost var good := i < |s| && Next(input, s, i, rest);
      if good {
        HeadIs(input, s, i, rest);
        StepIn(input, s, i, rest);
      }
      if input == "" || IsNewline(input[0]) {
        return Unfinished;
      }
      ghost var before := input;
      if input[0] == '\\' {
        if good { EscapeIs(input, s[i]); }
        err := Escape();
      } else {
        buff := buff + [input[0]];
        input := input[1..];
        err := NoError;
      }
      if good { assert input == before[|QuoteOne(s[i])|..]; }
    }

    /** llex.c `read_string`: if the input is a quoted string, exactly that string is read. */
    method ReadString(del: char, ghost s: string, ghost rest: string) returns (err: LexError, token: string)
      requires input != "" && input[0] == del && buff == "" && del != '\\' && !IsNewline(del)
      modifies this
      ensures del == '"' && IsBytes(s) && old(input) == Quoted(s) + rest ==>
        && (err == NoError <==> Lines(s) == 0 || old(linenumber) + Lines(s) < MAX_INT)
        && (err == NoError ==> token == s && input == rest && linenumber == old(linenumber) + Lines(s))
    {
      ghost var good := del == '"' && IsBytes(s) && input == Quoted(s) + rest;
      token := "";
      buff := [del];
      input := input[1..];
      ghost var i: nat := 0;
      assert s[0..] == s && s[..0] == "";
      assert good ==> Next(input, s, 0, rest) by {
        if good { assert Quoted(s) + rest == ['"'] + (QuoteBody(s) + (['"'] + rest)); }
      }
      hide QuoteBody, Quoted, IsBytes;
      while input == "" || input[0] != del
        invariant good ==> Next(input, s, i, rest)
        invariant good ==> buff == ['"'] + s[..i]
        invariant good ==> Lines(s) >= Lines(s[i..]) && linenumber == old(linenumber) + Lines(s) - Lines(s[i..])
        invariant good && Lines(s) - Lines(s[i..]) > 0 ==> linenumber < MAX_INT
        invariant |buff| >= 1
        decreases |input|
      {
        if good {
          HeadIs(input, s, i, rest);
          StepIn(input, s, i, rest);
        }
        err := ReadOne(s, i, rest);
        if err != NoError {
          return;
        }
        if good { i := i + 1; }
      }
      if good {
        HeadIs(input, s, i, rest);
        AtEnd(input, s, i, rest);
      }
      buff := buff + [del];
      input := input[1..];
      token := buff[1..|buff| - 1];
      err := NoError;
    }
  }

  /** An escaped character that stands for itself. */
  predicate Itself(c: char) {
    c !in LETTERS && !IsNewline(c) && !IsDigit(c)
  }

  /** The escapes that quoting writes. */
  lemma EscapeIs(input: string, c: char)
    requires var q := QuoteOne(c); |q| <= |input| && (forall k :: 0 <= k < |q| ==> input[k] == q[k]) && q[0] == '\\'
    requires c == '\n' ==> |input| >= 3 && !IsNewline(input[2])
    ensures |input| >= 2
    ensures c == '"' || c == '\\' ==> Itself(input[1]) && input[1] == c
    ensures c == '\r' ==> input[1] == LETTERS[4] && CONTROLS[4] as char == c && input[1] in LETTERS
    ensures c == '\n' ==> input[1] == '\n'
    ensures c == '\0' ==>
      IsDigit(input[1]) && LeadingDigits(input[1..], 3) == 3 && Number(input[1..][..3]) == 0
    ensures c in "\"\\\r\n\0"
  {
    if c == '\0' {
      assert input[1..][..3] == "000";
      Zeros(input[1..]);
    }
  }

  /** An unescaped quote stands only at the end. */
  lemma HeadIs(input: string, s: string, i: nat, rest: string)
    requires Next(input, s, i, rest)
    ensures input != "" && !IsNewline(input[0]) && (i == |s| <==> input[0] == '"')
    ensures i < |s| ==> input == QuoteOne(s[i]) + (QuoteBody(s[i + 1..]) + (['"'] + rest))
  {
    if i < |s| {
      assert s[i..][0] == s[i] && s[i..][1..] == s[i + 1..];
      assert input == QuoteOne(s[i]) + (QuoteBody(s[i + 1..]) + (['"'] + rest));
    } else {
      assert input == ['"'] + rest;
    }
  }

  /** The input at a place where the string goes on. */
  lemma StepIn(input: string, s: string, i: nat, rest: string)
    requires Next(input, s, i, rest) && i < |s|
    ensures var q := QuoteOne(s[i]); |q| <= |input| && input[..|q|] == q && Next(input[|q|..], s, i + 1, rest)
    ensures Lines(s[i..]) == (if s[i] == '\n' then 1 else 0) + Lines(s[i + 1..]) && s[..i + 1] == s[..i] + [s[i]]
    ensures s[i] == '\n' ==> |input| >= 3 && !IsNewline(input[2])
    ensures forall k :: 0 <= k < |QuoteOne(s[i])| ==> input[k] == QuoteOne(s[i])[k]
  {
    HeadIs(input, s, i, rest);
    assert s[i..][0] == s[i] && s[i..][1..] == s[i + 1..];
    var tail := QuoteBody(s[i + 1..]) + (['"'] + rest);
    HeadIs(tail, s, i + 1, rest);
    assert input[|QuoteOne(s[i])|..] == tail;
  }

  lemma AtEnd(input: string, s: string, i: nat, rest: string)
    requires Next(input, s, i, rest) && i == |s|
    ensures s[..i] == s && input[1..] == rest && Lines(s[i..]) == 0
  {
    assert input == ['"'] + rest;
  }

  /** Quoting a byte string and lexing the result gives the string back. */
  method RoundTrip(s: string) returns (err: LexError, token: string)
    requires IsBytes(s)
    ensures err == NoError <==> Lines(s) == 0 || 1 + Lines(s) < MAX_INT
    ensures err == NoError ==> token == s
  {
    var b := AddQuoted("", s);
    assert b == Quoted(s) + "";
    var ls := new LexState(b);
    err, token := ls.ReadString('"', s, "");
  }
}
