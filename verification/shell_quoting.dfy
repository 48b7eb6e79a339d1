// Quoting arguments for a POSIX shell and for fish, against what those shells read back. Quoting is
// section 2.2 of the Shell Command Language volume of POSIX.1-2017: 2.2.1 for the backslash, 2.2.2
// for single quotes.
module ShellQuoting {
  import opened Bytes
  import opened Sequences
  import opened Wrappers

  type Text = seq<Byte>

  const QUOTE: Byte := 39
  const BACKSLASH: Byte := 92
  const SPACE: Byte := 32

  // ---- Runes: what ranging over a string sees ----

  /** A code point and the number of bytes it was read from. */
  datatype Rune = Rune(code: nat, width: nat)

  const REPLACEMENT := 0xFFFD

  predicate Continues(b: Byte) { 0x80 <= b < 0xC0 }

  function Low(b: Byte): nat
    requires Continues(b)
  {
    b as int - 0x80
  }

  /** The second bytes that make a shortest form that is no surrogate and not too large. */
  predicate SecondFits(first: Byte, second: Byte) {
    && Continues(second)
    && (first == 0xE0 ==> 0xA0 <= second)
    && (first == 0xED ==> second < 0xA0)
    && (first == 0xF0 ==> 0x90 <= second)
    && (first == 0xF4 ==> second < 0x90)
  }

  /** Anything that is not the start of a well-formed sequence counts as one replacement character. */
  function DecodeRune(s: Text): (r: Rune)
    requires s != []
    ensures 1 <= r.width <= |s| && r.width <= 4
  {
    var b0 := s[0];
    if b0 < 0x80 then Rune(b0 as int, 1)
    else if 0xC2 <= b0 < 0xE0 && |s| > 1 && Continues(s[1]) then
      Rune((b0 as int - 0xC0) * 64 + Low(s[1]), 2)
    else if 0xE0 <= b0 < 0xF0 && |s| > 2 && SecondFits(b0, s[1]) && Continues(s[2]) then
      Rune((b0 as int - 0xE0) * 4096 + Low(s[1]) * 64 + Low(s[2]), 3)
    else if 0xF0 <= b0 < 0xF5 && |s| > 3 && SecondFits(b0, s[1]) && Continues(s[2]) && Continues(s[3]) then
      Rune((b0 as int - 0xF0) * 262144 + Low(s[1]) * 4096 + Low(s[2]) * 64 + Low(s[3]), 4)
    else Rune(REPLACEMENT, 1)
  }

  function EncodeRune(code: nat): (s: Text)
    ensures s != []
  {
    if code < 0x80 then [code as Byte]
    else if code < 0x800 then [(0xC0 + code / 64) as Byte, (0x80 + code % 64) as Byte]
    else if 0xD800 <= code < 0xE000 || code > 0x10FFFF then [0xEF, 0xBF, 0xBD]
    else if code < 0x10000 then
      [(0xE0 + code / 4096) as Byte, (0x80 + code / 64 % 64) as Byte, (0x80 + code % 64) as Byte]
    else
      [(0xF0 + code / 262144) as Byte, (0x80 + code / 4096 % 64) as Byte, (0x80 + code / 64 % 64) as Byte, (0x80 + code % 64) as Byte]
  }

  predicate Malformed(r: Rune) { r.code == REPLACEMENT && r.width == 1 }

  /** Writing a rune gives back the bytes it was read from, or the three bytes of the replacement
      character where there was no rune to read. */
  lemma EncodeDecoded(s: Text)
    requires s != []
    ensures var r := DecodeRune(s);
            EncodeRune(r.code) == if Malformed(r) then [0xEF, 0xBF, 0xBD] else s[..r.width]
  {
    var r := DecodeRune(s);
    if r.width == 1 {
    } else if r.width == 2 {
      EncodesTwo(s);
    } else if r.width == 3 {
      EncodesThree(s);
    } else {
      EncodesFour(s);
    }
  }

  lemma EncodesTwo(s: Text)
    requires s != [] && DecodeRune(s).width == 2
    ensures EncodeRune(DecodeRune(s).code) == s[..2]
  {
    TwoBytes(s[0] as int - 0xC0, Low(s[1]));
  }

  lemma EncodesThree(s: Text)
    requires s != [] && DecodeRune(s).width == 3
    ensures EncodeRune(DecodeRune(s).code) == s[..3]
  {
    ThreeBytes(s[0] as int - 0xE0, Low(s[1]), Low(s[2]));
  }

  lemma EncodesFour(s: Text)
    requires s != [] && DecodeRune(s).width == 4
    ensures EncodeRune(DecodeRune(s).code) == s[..4]
  {
    FourBytes(s[0] as int - 0xF0, Low(s[1]), Low(s[2]), Low(s[3]));
  }

  /** A quote is only ever read from a quote byte, and only ever written as one. */
  lemma QuoteIsOneByte(s: Text)
    requires s != []
    ensures DecodeRune(s).code == QUOTE <==> s[0] == QUOTE
    ensures s[0] == QUOTE ==> DecodeRune(s).width == 1
    ensures QUOTE in EncodeRune(DecodeRune(s).code) ==> s[0] == QUOTE
  {
    EncodeDecoded(s);
    hide EncodeRune;
  }

  lemma TwoBytes(a: nat, b: nat)
    requires b < 64
    ensures (a * 64 + b) / 64 == a && (a * 64 + b) % 64 == b
  {
  }

  lemma ThreeBytes(a: nat, b: nat, c: nat)
    requires b < 64 && c < 64
    ensures var n := a * 4096 + b * 64 + c; n / 4096 == a && n / 64 % 64 == b && n % 64 == c
  {
    var n := a * 4096 + b * 64 + c;
    TwoBytes(a * 64 + b, c);
    assert n == (a * 64 + b) * 64 + c && n / 64 == a * 64 + b;
    TwoBytes(a, b);
  }

  lemma FourBytes(a: nat, b: nat, c: nat, d: nat)
    requires b < 64 && c < 64 && d < 64
    ensures var n := a * 262144 + b * 4096 + c * 64 + d;
            n / 262144 == a && n / 4096 % 64 == b && n / 64 % 64 == c && n % 64 == d
  {
    var n := a * 262144 + b * 4096 + c * 64 + d;
    TwoBytes(a * 4096 + b * 64 + c, d);
    assert n == (a * 4096 + b * 64 + c) * 64 + d && n / 64 == a * 4096 + b * 64 + c;
    ThreeBytes(a, b, c);
    assert n / 4096 == n / 64 / 64 && n / 262144 == n / 64 / 4096;
  }

  /** The code points that have an encoding. */
  predicate Scalar(code: nat) { code < 0xD800 || 0xE000 <= code <= 0x10FFFF }

  /** Reading gives back what was written, whatever follows. */
  lemma DecodeEncoded(code: nat, rest: Text)
    requires Scalar(code)
    ensures DecodeRune(EncodeRune(code) + rest) == Rune(code, |EncodeRune(code)|)
  {
    if code < 0x80 {
    } else if code < 0x800 {
      Digits64(code);
    } else if code < 0x10000 {
      DecodeThree(code, rest);
    } else {
      DecodeFour(code, rest);
    }
  }

  lemma Digits64(code: nat)
    ensures code == code / 64 * 64 + code % 64
    ensures code / 64 == code / 4096 * 64 + code / 64 % 64
    ensures code / 4096 == code / 262144 * 64 + code / 4096 % 64
  {
  }

  lemma DecodeThree(code: nat, rest: Text)
    requires Scalar(code) && 0x800 <= code < 0x10000
    ensures DecodeRune(EncodeRune(code) + rest) == Rune(code, 3)
  {
    Digits64(code);
    var s := EncodeRune(code) + rest;
    assert s[0] as int == 0xE0 + code / 4096 && s[1] as int == 0x80 + code / 64 % 64 && s[2] as int == 0x80 + code % 64;
  }

  lemma DecodeFour(code: nat, rest: Text)
    requires 0x10000 <= code <= 0x10FFFF
    ensures DecodeRune(EncodeRune(code) + rest) == Rune(code, 4)
  {
    Digits64(code);
    var s := EncodeRune(code) + rest;
    assert s[0] as int == 0xF0 + code / 262144 && s[1] as int == 0x80 + code / 4096 % 64;
    assert s[2] as int == 0x80 + code / 64 % 64 && s[3] as int == 0x80 + code % 64;
  }

  lemma DecodedIsScalar(s: Text)
    requires s != []
    ensures Scalar(DecodeRune(s).code)
  {
  }

  /** A byte counts as malformed exactly when no code point's encoding begins there. */
  lemma MalformedIff(s: Text)
    requires s != []
    ensures Malformed(DecodeRune(s)) <==> forall code :: Scalar(code) ==> !(EncodeRune(code) <= s)
  {
    EncodeDecoded(s);
    DecodedIsScalar(s);
    forall code | Scalar(code) && EncodeRune(code) <= s
      ensures !Malformed(DecodeRune(s))
    {
      var n := |EncodeRune(code)|;
      assert s == EncodeRune(code) + s[n..];
      DecodeEncoded(code, s[n..]);
      assert code == REPLACEMENT ==> n == 3;
    }
  }

  function Repaired(s: Text): Text
    decreases |s|
  {
    if s == [] then [] else
      var r := DecodeRune(s);
      EncodeRune(r.code) + Repaired(s[r.width..])
  }

  predicate ValidUtf8(s: Text)
    decreases |s|
  {
    s == [] || (!Malformed(DecodeRune(s)) && ValidUtf8(s[DecodeRune(s).width..]))
  }

  lemma RepairedHead(s: Text)
    requires s != []
    ensures var r := DecodeRune(s);
            && Repaired(s) == EncodeRune(r.code) + Repaired(s[r.width..])
            && (ValidUtf8(s) <==> !Malformed(r) && ValidUtf8(s[r.width..]))
  {
  }

  lemma {:induction false} ValidIsKept(s: Text)
    requires ValidUtf8(s)
    ensures Repaired(s) == s
    decreases |s|
  {
    if s != [] {
      hide DecodeRune, EncodeRune, Repaired, ValidUtf8;
      var w := DecodeRune(s).width;
      RepairedHead(s);
      EncodeDecoded(s);
      ValidIsKept(s[w..]);
      SplitAt(s, w);
    }
  }

  lemma {:induction false} RepairGrows(s: Text)
    ensures if ValidUtf8(s) then |s| <= |Repaired(s)| else |s| < |Repaired(s)|
    decreases |s|
  {
    if s != [] {
      hide DecodeRune, EncodeRune;
      EncodeDecoded(s);
      RepairGrows(s[DecodeRune(s).width..]);
    }
  }

  lemma RepairedIff(s: Text)
    ensures Repaired(s) == s <==> ValidUtf8(s)
  {
    hide Repaired, ValidUtf8;
    RepairGrows(s);
    if ValidUtf8(s) {
      ValidIsKept(s);
    }
  }

  // ---- Quoting ----

  predicate Safe(b: Byte) {
    || 65 <= b <= 90 || 97 <= b <= 122 || 48 <= b <= 57
    || b in {95, 64, 37, 43, 61, 58, 44, 46, 47, 45}  // _ @ % + = : , . / -
  }

  predicate AllSafe(s: Text) { forall i :: 0 <= i < |s| ==> Safe(s[i]) }

  const CLOSE_QUOTE_OPEN: Text := [QUOTE, BACKSLASH, QUOTE, QUOTE]

  /** What stands between single quotes for `s`. */
  function Escape(s: Text): Text {
    if s == [] then [] else EscapeByte(s[0]) + Escape(s[1..])
  }

  function EscapeByte(b: Byte): Text { if b == QUOTE then CLOSE_QUOTE_OPEN else [b] }

  function InQuotes(s: Text): Text { [QUOTE] + Escape(s) + [QUOTE] }

  lemma EscapeHead(s: Text)
    requires s != []
    ensures Escape(s) == EscapeByte(s[0]) + Escape(s[1..])
  {
  }

  lemma {:induction false} EscapeOfBoth(a: Text, b: Text)
    ensures Escape(a + b) == Escape(a) + Escape(b)
  {
    if a == [] {
      assert a + b == b;
    } else {
      hide Escape, EscapeByte;
      EscapeHead(a);
      EscapeHead(a + b);
      TailOfConcat(a, b);
      EscapeOfBoth(a[1..], b);
      Assoc(EscapeByte(a[0]), Escape(a[1..]), Escape(b));
    }
  }

  lemma {:induction false} EscapeOfPlain(a: Text)
    requires QUOTE !in a
    ensures Escape(a) == a
  {
    if a != [] {
      EscapeOfPlain(a[1..]);
      assert a == [a[0]] + a[1..];
    }
  }

  function QuotedArg(arg: Text): Text {
    if arg != [] && AllSafe(arg) then arg else InQuotes(Repaired(arg))
  }

  predicate Plain(c: char) {
    || 'A' <= c <= 'Z' || 'a' <= c <= 'z' || '0' <= c <= '9' || c == '_' || c == '@' || c == '%' || c == '+'
    || c == '=' || c == ':' || c == ',' || c == '.' || c == '/' || c == '-'
  }

  lemma {:induction false} EscapeIsLonger(s: Text)
    ensures |s| <= |Escape(s)|
  {
    if s != [] {
      EscapeIsLonger(s[1..]);
    }
  }

  /** An argument goes out bare exactly when it is not empty and has plain characters only. */
  lemma BareIff(arg: Text)
    ensures QuotedArg(arg) == arg <==> arg != [] && forall i :: 0 <= i < |arg| ==> Plain(arg[i] as char)
  {
    assert forall b: Byte :: Safe(b) <==> Plain(b as char);
    if !(arg != [] && AllSafe(arg)) {
      RepairGrows(arg);
      EscapeIsLonger(Repaired(arg));
      assert |QuotedArg(arg)| > |arg|;
    }
  }

  /** What ranging over `arg` adds for the rune at its start. */
  lemma QuotedRune(arg: Text)
    requires arg != []
    ensures var r := DecodeRune(arg);
            Escape(Repaired(arg))
            == (if r.code == QUOTE then CLOSE_QUOTE_OPEN else EncodeRune(r.code)) + Escape(Repaired(arg[r.width..]))
  {
    var r := DecodeRune(arg);
    EncodeDecoded(arg);
    QuoteIsOneByte(arg);
    EscapeOfBoth(EncodeRune(r.code), Repaired(arg[r.width..]));
    if r.code == QUOTE {
      assert Escape([QUOTE]) == CLOSE_QUOTE_OPEN + Escape([QUOTE][1..]);
    } else {
      EscapeOfPlain(EncodeRune(r.code));
    }
  }

  method ShellQuote(arg: Text) returns (quoted: Text)
    ensures quoted == QuotedArg(arg)
  {
    hide DecodeRune, EncodeRune, Repaired, Escape;
    if arg != [] && AllSafe(arg) {
      return arg;
    }
    quoted := [QUOTE];
    var i := 0;
    assert arg[0..] == arg;
    while i < |arg|
      invariant 0 <= i <= |arg|
      invariant quoted + Escape(Repaired(arg[i..])) == [QUOTE] + Escape(Repaired(arg))
    {
      var r := DecodeRune(arg[i..]);
      QuotedRune(arg[i..]);
      assert arg[i..][r.width..] == arg[i + r.width..];
      if r.code == QUOTE {
        quoted := quoted + CLOSE_QUOTE_OPEN;
      } else {
        quoted := quoted + EncodeRune(r.code);
      }
      i := i + r.width;
    }
    NothingLeft();
    assert arg[i..] == [];
    quoted := quoted + [QUOTE];
  }

  lemma NothingLeft()
    ensures Escape(Repaired([])) == []
  {
  }

  /** The arguments one after the other, with a space between. */
  function CommandOf(args: seq<Text>): Text {
    if args == [] then []
    else if |args| == 1 then QuotedArg(args[0])
    else CommandOf(args[..|args| - 1]) + [SPACE] + QuotedArg(args[|args| - 1])
  }

  method ShellCommand(args: seq<Text>) returns (command: Text)
    ensures command == CommandOf(args)
  {
    var quoted := [];
    for i := 0 to |args|
      invariant |quoted| == i && forall j :: 0 <= j < i ==> quoted[j] == QuotedArg(args[j])
    {
      var q := ShellQuote(args[i]);
      quoted := quoted + [q];
    }
    command := [];
    for i := 0 to |quoted|
      invariant command == CommandOf(args[..i])
    {
      assert args[..i + 1][..i] == args[..i];
      command := if i == 0 then quoted[i] else command + [SPACE] + quoted[i];
    }
    assert args[..|args|] == args;
  }

  // ---- What a POSIX shell reads ----

  /** Where in the text the reader is, with the word so far. */
  datatype State = Between | InWord(word: Text) | InSingle(word: Text) | AfterBackslash(word: Text, inWord: bool)

  /** `Stuck`: met something that has a meaning of its own when it is not quoted. */
  datatype Reader = Reader(state: State, words: seq<Text>) | Stuck

  predicate Blank(b: Byte) { b as char == ' ' || b as char == '\t' }

  predicate SingleQuote(b: Byte) { b as char == '\'' }

  predicate Backslash(b: Byte) { b as char == '\\' }

  /** What section 2.2 says must be quoted to stand for itself, or may have to be: operators,
      expansions, double quotes, patterns, comments, tildes, control characters; and here every byte
      that is not ASCII. (Blanks, backslash and single quote are read below; `=` and `%` mean something
      only in certain places.) */
  predicate Special(b: Byte) {
    || b < 32 || 127 <= b || Operator(b as char) || Expands(b as char)
  }

  predicate Operator(c: char) { c == '|' || c == '&' || c == ';' || c == '<' || c == '>' || c == '(' || c == ')' }

  predicate Expands(c: char) {
    c == '$' || c == '`' || c == '"' || c == '*' || c == '?' || c == '[' || c == '#' || c == '~'
  }

  lemma SafeIsNotSpecial(b: Byte)
    requires Safe(b)
    ensures !Special(b) && !Blank(b) && !SingleQuote(b) && !Backslash(b)
  {
  }

  /** One byte by the rules of 2.2.1 and 2.2.2: unquoted, blanks end words, backslashes and single
      quotes quote, and what has a meaning of its own is not read. */
  function Next(r: Reader, b: Byte): Reader {
    if r.Stuck? then r else
      match r.state
      case InSingle(w) => r.(state := if SingleQuote(b) then InWord(w) else InSingle(w + [b]))
      case AfterBackslash(w, inWord) =>
        r.(state := if b as char != '\n' then InWord(w + [b]) else if inWord then InWord(w) else Between)
      case Between =>
        if Blank(b) then r else Unquoted(r, [], false, b)
      case InWord(w) =>
        if Blank(b) then Reader(Between, r.words + [w]) else Unquoted(r, w, true, b)
  }

  function Unquoted(r: Reader, w: Text, inWord: bool, b: Byte): Reader
    requires r.Reader?
  {
    if SingleQuote(b) then r.(state := InSingle(w))
    else if Backslash(b) then r.(state := AfterBackslash(w, inWord))
    else if Special(b) then Stuck
    else r.(state := InWord(w + [b]))
  }

  function Read(r: Reader, s: Text): Reader
    decreases |s|
  {
    if s == [] then r else Read(Next(r, s[0]), s[1..])
  }

  /** The words of a text; None where it is not read or a quote is left open. */
  function Lex(s: Text): Option<seq<Text>> {
    var r := Read(Reader(Between, []), s);
    if r.Stuck? then None
    else if r.state.Between? then Some(r.words)
    else if r.state.InWord? then Some(r.words + [r.state.word])
    else None
  }

  lemma {:induction false} ReadOfBoth(r: Reader, a: Text, b: Text)
    ensures Read(r, a + b) == Read(Read(r, a), b)
    decreases |a|
  {
    if a == [] {
      assert a + b == b;
    } else {
      ReadOfBoth(Next(r, a[0]), a[1..], b);
      TailOfConcat(a, b);
    }
  }

  lemma ReadOne(r: Reader, b: Byte)
    ensures Read(r, [b]) == Next(r, b)
  {
    assert [b][1..] == [];
  }

  /** Closing the quotes, a backslashed quote, and opening them again adds a quote to the word. */
  lemma ReadReopened(w: Text, words: seq<Text>)
    ensures Read(Reader(InSingle(w), words), CLOSE_QUOTE_OPEN) == Reader(InSingle(w + [QUOTE]), words)
  {
    hide Read;
    var r := Reader(InSingle(w), words);
    ReadOne(r, QUOTE);
    ReadOne(Next(r, QUOTE), BACKSLASH);
    ReadOne(Next(Next(r, QUOTE), BACKSLASH), QUOTE);
    ReadOne(Next(Next(Next(r, QUOTE), BACKSLASH), QUOTE), QUOTE);
    ReadOfBoth(r, [QUOTE], [BACKSLASH]);
    ReadOfBoth(r, [QUOTE] + [BACKSLASH], [QUOTE]);
    ReadOfBoth(r, [QUOTE] + [BACKSLASH] + [QUOTE], [QUOTE]);
    assert [QUOTE] + [BACKSLASH] + [QUOTE] + [QUOTE] == CLOSE_QUOTE_OPEN;
  }

  lemma {:induction false} ReadEscaped(w: Text, words: seq<Text>, s: Text)
    ensures Read(Reader(InSingle(w), words), Escape(s)) == Reader(InSingle(w + s), words)
    decreases |s|
  {
    if s == [] {
      assert w + s == w;
    } else {
      hide Read, CLOSE_QUOTE_OPEN;
      var r := Reader(InSingle(w), words);
      ReadEscaped(w + [s[0]], words, s[1..]);
      assert w + [s[0]] + s[1..] == w + s;
      ReadReopened(w, words);
      ReadOne(r, s[0]);
      ReadOfBoth(r, EscapeByte(s[0]), Escape(s[1..]));
    }
  }

  lemma ReadInQuotes(words: seq<Text>, s: Text)
    ensures Read(Reader(Between, words), InQuotes(s)) == Reader(InWord(s), words)
  {
    hide Read, Escape;
    var r := Reader(Between, words);
    ReadOne(r, QUOTE);
    ReadOfBoth(r, [QUOTE], Escape(s));
    ReadEscaped([], words, s);
    assert [] + s == s;
    ReadOfBoth(r, [QUOTE] + Escape(s), [QUOTE]);
    ReadOne(Reader(InSingle(s), words), QUOTE);
  }

  lemma {:induction false} ReadSafe(w: Text, words: seq<Text>, s: Text)
    requires AllSafe(s)
    ensures Read(Reader(InWord(w), words), s) == Reader(InWord(w + s), words)
    decreases |s|
  {
    if s == [] {
      assert w + s == w;
    } else {
      SafeIsNotSpecial(s[0]);
      hide Safe, Special, Blank, SingleQuote, Backslash;
      ReadSafe(w + [s[0]], words, s[1..]);
      assert w + [s[0]] + s[1..] == w + s;
    }
  }

  lemma {:induction false} SafeIsValid(s: Text)
    requires AllSafe(s)
    ensures ValidUtf8(s)
    decreases |s|
  {
    if s != [] {
      SafeIsValid(s[1..]);
    }
  }

  lemma ReadSafeArg(words: seq<Text>, arg: Text)
    requires arg != [] && AllSafe(arg)
    ensures Read(Reader(Between, words), arg) == Reader(InWord(arg), words)
  {
    var b, rest := arg[0], arg[1..];
    SafeIsNotSpecial(b);
    hide Safe, Special, Blank, SingleQuote, Backslash;
    assert Next(Reader(Between, words), b) == Reader(InWord([] + [b]), words);
    ReadSafe([b], words, rest);
    assert [b] + rest == arg && [] + [b] == [b];
  }

  /** A quoted argument reads as one word: the argument with malformed bytes replaced. */
  lemma ReadArg(words: seq<Text>, arg: Text)
    ensures Read(Reader(Between, words), QuotedArg(arg)) == Reader(InWord(Repaired(arg)), words)
  {
    hide Read, Repaired, ValidUtf8, InQuotes;
    if arg != [] && AllSafe(arg) {
      SafeIsValid(arg);
      RepairedIff(arg);
      ReadSafeArg(words, arg);
    } else {
      ReadInQuotes(words, Repaired(arg));
    }
  }

  lemma LexEndsWord(s: Text, words: seq<Text>, w: Text)
    requires Read(Reader(Between, []), s) == Reader(InWord(w), words)
    ensures Lex(s) == Some(words + [w])
  {
  }

  function AllRepaired(args: seq<Text>): (r: seq<Text>)
    ensures |r| == |args|
  {
    seq(|args|, i requires 0 <= i < |args| => Repaired(args[i]))
  }

  lemma {:induction false} ReadCommand(args: seq<Text>)
    requires args != []
    ensures Read(Reader(Between, []), CommandOf(args))
            == Reader(InWord(Repaired(args[|args| - 1])), AllRepaired(args[..|args| - 1]))
    decreases |args|
  {
    hide Read, QuotedArg, Repaired;
    var k := |args| - 1;
    var r := Reader(Between, []);
    if k == 0 {
      ReadArg([], args[0]);
    } else {
      ReadCommand(args[..k]);
      var first := CommandOf(args[..k]);
      ReadOfBoth(r, first, [SPACE]);
      ReadOne(Read(r, first), SPACE);
      assert args[..k][..k - 1] == args[..k - 1];
      assert AllRepaired(args[..k]) == AllRepaired(args[..k - 1]) + [Repaired(args[k - 1])];
      ReadOfBoth(r, first + [SPACE], QuotedArg(args[k]));
      ReadArg(AllRepaired(args[..k]), args[k]);
    }
  }

  lemma LexCommand(args: seq<Text>)
    ensures Lex(CommandOf(args)) == Some(AllRepaired(args))
  {
    if args == [] {
      assert AllRepaired(args) == [];
    } else {
      hide Lex, CommandOf, Repaired;
      var k := |args| - 1;
      ReadCommand(args);
      LexEndsWord(CommandOf(args), AllRepaired(args[..k]), Repaired(args[k]));
      assert AllRepaired(args) == AllRepaired(args[..k]) + [Repaired(args[k])];
    }
  }

  lemma RepairedAreIff(args: seq<Text>)
    ensures AllRepaired(args) == args <==> forall i :: 0 <= i < |args| ==> ValidUtf8(args[i])
  {
    hide Repaired, ValidUtf8;
    forall i | 0 <= i < |args| ensures AllRepaired(args)[i] == args[i] <==> ValidUtf8(args[i]) {
      RepairedIff(args[i]);
    }
    if AllRepaired(args) == args {
      forall i | 0 <= i < |args| ensures ValidUtf8(args[i]) {
        assert AllRepaired(args)[i] == args[i];
      }
    }
  }

  /** A shell reads back exactly the arguments, for every list of them, exactly when every argument is
      well-formed UTF-8; otherwise it reads them with the malformed bytes replaced. */
  lemma CommandReadsBackIff(args: seq<Text>)
    ensures Lex(CommandOf(args)) == Some(AllRepaired(args))
    ensures Lex(CommandOf(args)) == Some(args) <==> forall i :: 0 <= i < |args| ==> ValidUtf8(args[i])
  {
    hide Lex, CommandOf, AllRepaired, Repaired, ValidUtf8;
    RepairedAreIff(args);
    LexCommand(args);
  }

  /** A file name in Latin-1 reaches the guest as another name. */
  lemma LatinNameIsChanged()
    ensures Lex(CommandOf([[0x63, 0xE9]])) == Some([[0x63, 0xEF, 0xBF, 0xBD]])
  {
    hide Lex, CommandOf;
    var arg: Text := [0x63, 0xE9];
    LexCommand([arg]);
    assert arg[1..] == [0xE9] && [0xE9 as Byte][1..] == [];
    assert Repaired([0xE9]) == [0xEF, 0xBF, 0xBD] + Repaired([]);
    assert Repaired(arg) == [0x63] + Repaired([0xE9]);
    assert Repaired(arg) == [0x63, 0xEF, 0xBF, 0xBD];
    assert AllRepaired([arg]) == [Repaired(arg)];
  }

  // ---- Quoting values for printed exports ----

  /** Every `old` byte replaced. */
  function ReplaceAll(s: Text, target: Byte, with: Text): Text {
    if s == [] then [] else (if s[0] == target then with else [s[0]]) + ReplaceAll(s[1..], target, with)
  }

  function PosixQuoted(value: Text): Text { [QUOTE] + ReplaceAll(value, QUOTE, CLOSE_QUOTE_OPEN) + [QUOTE] }

  function FishQuoted(value: Text): Text {
    [QUOTE] + ReplaceAll(ReplaceAll(value, BACKSLASH, [BACKSLASH, BACKSLASH]), QUOTE, [BACKSLASH, QUOTE]) + [QUOTE]
  }

  lemma {:induction false} ReplacedIsEscaped(s: Text)
    ensures ReplaceAll(s, QUOTE, CLOSE_QUOTE_OPEN) == Escape(s)
  {
    if s != [] {
      ReplacedIsEscaped(s[1..]);
    }
  }

  /** A POSIX shell reads the printed value back, whatever bytes are in it. */
  lemma PosixReadsBack(value: Text)
    ensures Lex(PosixQuoted(value)) == Some([value])
  {
    hide Lex;
    ReplacedIsEscaped(value);
    ReadInQuotes([], value);
    LexEndsWord(InQuotes(value), [], value);
    assert [] + [value] == [value];
  }

  // ---- What fish reads ----

  datatype FishReader = FishQuotes(word: Text) | FishBackslash(word: Text) | FishWord(word: Text) | FishOther

  /** Between single quotes fish reads a backslash before a quote or a backslash as that character,
      and any other backslash as itself. Only one quoted word is read here. */
  function FishNext(r: FishReader, b: Byte): FishReader {
    match r
    case FishQuotes(w) =>
      if SingleQuote(b) then FishWord(w) else if Backslash(b) then FishBackslash(w) else FishQuotes(w + [b])
    case FishBackslash(w) =>
      FishQuotes(if SingleQuote(b) || Backslash(b) then w + [b] else w + [BACKSLASH, b])
    case FishWord(_) => FishOther
    case FishOther => FishOther
  }

  function FishRead(r: FishReader, s: Text): FishReader
    decreases |s|
  {
    if s == [] then r else FishRead(FishNext(r, s[0]), s[1..])
  }

  function FishLex(s: Text): Option<Text> {
    if s == [] || !SingleQuote(s[0]) then None
    else
      var r := FishRead(FishQuotes([]), s[1..]);
      if r.FishWord? then Some(r.word) else None
  }

  lemma {:induction false} FishReadOfBoth(r: FishReader, a: Text, b: Text)
    ensures FishRead(r, a + b) == FishRead(FishRead(r, a), b)
    decreases |a|
  {
    if a == [] {
      assert a + b == b;
    } else {
      FishReadOfBoth(FishNext(r, a[0]), a[1..], b);
      TailOfConcat(a, b);
    }
  }

  lemma ReplaceHead(s: Text, target: Byte, with: Text)
    requires s != []
    ensures ReplaceAll(s, target, with) == (if s[0] == target then with else [s[0]]) + ReplaceAll(s[1..], target, with)
  {
  }

  lemma {:induction false} ReplaceOfBoth(a: Text, b: Text, target: Byte, with: Text)
    ensures ReplaceAll(a + b, target, with) == ReplaceAll(a, target, with) + ReplaceAll(b, target, with)
  {
    if a == [] {
      assert a + b == b;
    } else {
      hide ReplaceAll;
      ReplaceHead(a, target, with);
      ReplaceHead(a + b, target, with);
      TailOfConcat(a, b);
      ReplaceOfBoth(a[1..], b, target, with);
      Assoc(if a[0] == target then with else [a[0]], ReplaceAll(a[1..], target, with), ReplaceAll(b, target, with));
    }
  }

  function FishEscape(b: Byte): Text {
    if b == QUOTE || b == BACKSLASH then [BACKSLASH, b] else [b]
  }

  /** The two replacements, one after the other, put a backslash before each quote and backslash. */
  lemma ReplacedTwice(s: Text)
    requires s != []
    ensures ReplaceAll(ReplaceAll(s, BACKSLASH, [BACKSLASH, BACKSLASH]), QUOTE, [BACKSLASH, QUOTE])
            == FishEscape(s[0]) + ReplaceAll(ReplaceAll(s[1..], BACKSLASH, [BACKSLASH, BACKSLASH]), QUOTE, [BACKSLASH, QUOTE])
  {
    var first := if s[0] == BACKSLASH then [BACKSLASH, BACKSLASH] else [s[0]];
    ReplaceOfBoth(first, ReplaceAll(s[1..], BACKSLASH, [BACKSLASH, BACKSLASH]), QUOTE, [BACKSLASH, QUOTE]);
    hide ReplaceAll;
    if s[0] == BACKSLASH {
      ReplaceOne(BACKSLASH);
      ReplaceOfBoth([BACKSLASH], [BACKSLASH], QUOTE, [BACKSLASH, QUOTE]);
      assert [BACKSLASH] + [BACKSLASH] == [BACKSLASH, BACKSLASH];
    } else {
      ReplaceOne(s[0]);
    }
  }

  lemma ReplaceOne(b: Byte)
    ensures ReplaceAll([b], QUOTE, [BACKSLASH, QUOTE]) == if b == QUOTE then [BACKSLASH, QUOTE] else [b]
  {
    assert [b][1..] == [];
  }

  lemma FishReadsEscaped(w: Text, b: Byte)
    ensures FishRead(FishQuotes(w), FishEscape(b)) == FishQuotes(w + [b])
  {
    assert [b][1..] == [] && [BACKSLASH][1..] == [];
    if b == QUOTE || b == BACKSLASH {
      FishReadOfBoth(FishQuotes(w), [BACKSLASH], [b]);
      assert [BACKSLASH] + [b] == [BACKSLASH, b];
    }
  }

  lemma {:induction false} FishReadsAll(w: Text, s: Text)
    ensures FishRead(FishQuotes(w), ReplaceAll(ReplaceAll(s, BACKSLASH, [BACKSLASH, BACKSLASH]), QUOTE, [BACKSLASH, QUOTE]))
            == FishQuotes(w + s)
    decreases |s|
  {
    if s == [] {
      assert w + s == w;
    } else {
      hide ReplaceAll, FishRead, FishEscape;
      ReplacedTwice(s);
      FishReadsEscaped(w, s[0]);
      FishReadsAll(w + [s[0]], s[1..]);
      assert w + [s[0]] + s[1..] == w + s;
      FishReadOfBoth(FishQuotes(w), FishEscape(s[0]),
                     ReplaceAll(ReplaceAll(s[1..], BACKSLASH, [BACKSLASH, BACKSLASH]), QUOTE, [BACKSLASH, QUOTE]));
    }
  }

  /** fish reads the printed value back, whatever bytes are in it. */
  lemma FishReadsBack(value: Text)
    ensures FishLex(FishQuoted(value)) == Some(value)
  {
    hide ReplaceAll;
    var body := ReplaceAll(ReplaceAll(value, BACKSLASH, [BACKSLASH, BACKSLASH]), QUOTE, [BACKSLASH, QUOTE]);
    FishReadsAll([], value);
    assert [] + value == value;
    FishReadOfBoth(FishQuotes([]), body, [QUOTE]);
    assert [QUOTE][1..] == [];
    assert FishQuoted(value)[1..] == body + [QUOTE];
  }
}
