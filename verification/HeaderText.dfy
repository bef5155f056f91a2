/** The text form of the configuration arrays: `#define` lines holding comma-separated signed
    decimals, as `header2binary` writes them and reads them back in Python's text mode. */
module HeaderText {
  import opened Common
  import opened Crc

  // ---------- Decimal numbers ----------

  function Digit(d: nat): char
    requires d < 10
  {
    "0123456789"[d]
  }

  function Digits(n: nat): (t: string)
    ensures |t| > 0
    ensures forall c :: c in t ==> '0' <= c <= '9'
  {
    if n < 10 then [Digit(n)] else Digits(n / 10) + [Digit(n % 10)]
  }

  /** Python's `str` of an int. */
  function Decimal(x: int): (t: string)
    ensures |t| > 0
    ensures forall c :: c in t ==> '0' <= c <= '9' || c == '-'
  {
    if x < 0 then "-" + Digits(-x) else Digits(x)
  }

  /** Digits, at least one, with single underscores allowed between them. */
  function ParseDigits(t: string): Option<nat> {
    if t == "" || !('0' <= t[|t| - 1] <= '9') then None
    else
      var d := t[|t| - 1] as int - '0' as int;
      if |t| == 1 then Some(d)
      else
        match ParseDigits(t[..|t| - if t[|t| - 2] == '_' then 2 else 1])
        case None => None
        case Some(n) => Some(10 * n + d)
  }

  function Widen(n: Option<nat>): Option<int> {
    match n
    case None => None
    case Some(v) => Some(v)
  }

  /** Python's `int` of a token of ASCII digits: an optional sign, then digits and underscores. */
  function ParseInt(t: string): Option<int> {
    if t == "" then None
    else if t[0] == '-' then
      var n := Widen(ParseDigits(t[1..]));
      if n.None? then None else Some(-n.value)
    else if t[0] == '+' then Widen(ParseDigits(t[1..]))
    else Widen(ParseDigits(t))
  }

  lemma ParseMore(t: string, n: nat, d: nat)
    requires ParseDigits(t) == Some(n) && d < 10
    ensures ParseDigits(t + [Digit(d)]) == Some(10 * n + d)
  {
    var more := t + [Digit(d)];
    assert more[|more| - 2] == t[|t| - 1];
    assert more[..|more| - 1] == t;
  }

  lemma {:induction false} DigitsRoundTrip(n: nat)
    ensures ParseDigits(Digits(n)) == Some(n)
  {
    if n >= 10 {
      DigitsRoundTrip(n / 10);
      ParseMore(Digits(n / 10), n / 10, n % 10);
    }
  }

  lemma ParseSigned(t: string, n: int)
    requires t != "" && t[0] != '-' && t[0] != '+' && Widen(ParseDigits(t)) == Some(n)
    ensures ParseInt(t) == Some(n) && ParseInt("-" + t) == Some(0 - n)
  {
    assert ("-" + t)[1..] == t;
  }

  lemma DecimalRoundTrip(x: int)
    ensures ParseInt(Decimal(x)) == Some(x)
  {
    var n := if x < 0 then -x else x;
    var t := Digits(n);
    assert t[0] in t;
    DigitsRoundTrip(n);
    ParseSigned(t, n);
  }

  // ---------- Writing ----------

  function Join(s: seq<int32>): string
    requires |s| > 0
  {
    if |s| == 1 then Decimal(s[0] as int) else Decimal(s[0] as int) + ", " + Join(s[1..])
  }

  const BLANKS := "\n\n\n"

  const KEYWORD := "#define"

  function Line(keyword: string, name: string, s: seq<int32>): string
    requires |s| > 0
  {
    keyword + (" " + (name + (" " + Join(s))))
  }

  function Section(name: string, s: seq<int32>): string {
    if s == [] then "" else BLANKS + (Line(KEYWORD, name, s) + ("\n" + BLANKS))
  }

  const RX := "CSPL_CONFIG_RX"
  const TX := "CSPL_CONFIG_TX"

  function Header(rx: seq<int32>, tx: seq<int32>): string {
    Section(RX, rx) + Section(TX, tx)
  }

  lemma JoinNext(text: string, s: seq<int32>, i: nat)
    requires i < |s| - 1
    ensures text + Join(s[i..]) == text + (Decimal(s[i] as int) + ", ") + Join(s[i + 1..])
  {
    assert s[i..][1..] == s[i + 1..];
  }

  method WriteSection(name: string, s: seq<int32>) returns (text: string)
    ensures text == Section(name, s)
  {
    text := "";
    if |s| > 0 {
      text := WriteNumbers(BLANKS + KEYWORD + " " + name + " ", s);
      WrittenParts(BLANKS, KEYWORD, " ", name, Join(s), "\n");
      text := text + "\n" + BLANKS;
    }
  }

  lemma WrittenParts(blanks: string, word: string, space: string, name: string, numbers: string, newline: string)
    ensures (blanks + word + space + name + space) + numbers + newline + blanks
         == blanks + ((word + (space + (name + (space + numbers)))) + (newline + blanks))
  {}

  /** The number loop: all but the last followed by a comma. */
  method WriteNumbers(start: string, s: seq<int32>) returns (text: string)
    requires |s| > 0
    ensures text == start + Join(s)
  {
    text := start;
    assert s[0..] == s;
    for i := 0 to |s| - 1
      invariant text + Join(s[i..]) == start + Join(s)
    {
      JoinNext(text, s, i);
      text := text + (Decimal(s[i] as int) + ", ");
    }
    text := text + Decimal(s[|s| - 1] as int);
  }

  /** The text output of `header2binary`; `binary2header` writes the same for non-empty arrays. */
  method WriteHeader(rx: seq<int32>, tx: seq<int32>) returns (text: string)
    ensures text == Header(rx, tx)
  {
    var first := WriteSection(RX, rx);
    var second := WriteSection(TX, tx);
    text := first + second;
  }

  // ---------- Reading ----------

  datatype Parsed = Arrays(rx: seq<int32>, tx: seq<int32>) | ValueError | OverflowError

  datatype Numbers = Numbers(values: seq<int32>) | NotANumber | TooLarge

  /** The characters Python's `str.split()` separates at. */
  predicate IsSpace(c: char) {
    var u := c as int;
    9 <= u <= 13 || 28 <= u <= 32 || u == 0x85 || u == 0xA0 || u == 0x1680 || 0x2000 <= u <= 0x200A
    || u == 0x2028 || u == 0x2029 || u == 0x202F || u == 0x205F || u == 0x3000
  }

  /** The length of the run of non-space characters `t` starts with. */
  function TokenEnd(t: string): (k: nat)
    ensures k <= |t|
    ensures k < |t| ==> IsSpace(t[k])
    ensures forall i :: 0 <= i < k ==> !IsSpace(t[i])
  {
    if t == "" || IsSpace(t[0]) then 0 else 1 + TokenEnd(t[1..])
  }

  function Split(t: string): seq<string>
    decreases |t|
  {
    if t == "" then []
    else if IsSpace(t[0]) then Split(t[1..])
    else [t[..TokenEnd(t)]] + Split(t[TokenEnd(t)..])
  }

  /** The length of the first line of `t`, its newline included. */
  function LineEnd(t: string): (k: nat)
    ensures k <= |t| && (t != "" ==> k > 0)
  {
    if t == "" then 0 else if t[0] == '\n' then 1 else 1 + LineEnd(t[1..])
  }

  /** `array.append(int(token))`. */
  function Append(values: seq<int32>, token: string): Numbers {
    match ParseInt(token)
    case None => NotANumber
    case Some(x) =>
      if -0x8000_0000 <= x < 0x8000_0000 then Numbers(values + [x as int32]) else TooLarge
  }

  /** Tokens `r` up to the last but one lose their final character; the last is taken whole. */
  function ReadNumbers(values: seq<int32>, tokens: seq<string>, r: nat): Numbers
    requires |tokens| > 1 && 2 <= r
    requires forall t :: t in tokens ==> |t| > 0
    decreases |tokens| - r
  {
    if r >= |tokens| - 1 then Append(values, tokens[|tokens| - 1])
    else
      match Append(values, tokens[r][..|tokens[r]| - 1])
      case Numbers(more) => ReadNumbers(more, tokens, r + 1)
      case failure => failure
  }

  lemma {:induction false} TokensNonEmpty(t: string)
    ensures forall u :: u in Split(t) ==> |u| > 0
    decreases |t|
  {
    if t != "" {
      if IsSpace(t[0]) {
        TokensNonEmpty(t[1..]);
      } else {
        TokensNonEmpty(t[TokenEnd(t)..]);
      }
    }
  }

  function ParseLine(line: string, rx: seq<int32>, tx: seq<int32>): Parsed {
    var tokens := Split(line);
    TokensNonEmpty(line);
    if |tokens| > 1 && tokens[1] == RX then
      match ReadNumbers(rx, tokens, 2)
      case Numbers(more) => Arrays(more, tx)
      case NotANumber => ValueError
      case TooLarge => OverflowError
    else if |tokens| > 1 && tokens[1] == TX then
      match ReadNumbers(tx, tokens, 2)
      case Numbers(more) => Arrays(rx, more)
      case NotANumber => ValueError
      case TooLarge => OverflowError
    else Arrays(rx, tx)
  }

  function ParseLines(text: string, rx: seq<int32>, tx: seq<int32>): Parsed
    decreases |text|
  {
    if text == "" then Arrays(rx, tx)
    else
      match ParseLine(text[..LineEnd(text)], rx, tx)
      case Arrays(rx', tx') => ParseLines(text[LineEnd(text)..], rx', tx')
      case failure => failure
  }

  /** The append loop of one `#define` line. */
  method AppendNumbers(values: seq<int32>, tokens: seq<string>) returns (n: Numbers)
    requires |tokens| > 1
    requires forall t :: t in tokens ==> |t| > 0
    ensures n == ReadNumbers(values, tokens, 2)
  {
    var all := values;
    var r := 2;
    while r < |tokens| - 1
      invariant 2 <= r
      invariant ReadNumbers(all, tokens, r) == ReadNumbers(values, tokens, 2)
      decreases |tokens| - r
    {
      var appended := Append(all, tokens[r][..|tokens[r]| - 1]);
      if !appended.Numbers? {
        return appended;
      }
      all := appended.values;
      r := r + 1;
    }
    n := Append(all, tokens[|tokens| - 1]);
  }

  /** The read loop of `header2binary`. */
  method ReadHeader(text: string) returns (p: Parsed)
    ensures p == ParseLines(text, [], [])
  {
    var rx, tx: seq<int32> := [], [];
    var rest := text;
    while rest != ""
      invariant ParseLines(rest, rx, tx) == ParseLines(text, [], [])
      decreases |rest|
    {
      var line := rest[..LineEnd(rest)];
      var tokens := Split(line);
      TokensNonEmpty(line);
      if |tokens| > 1 {
        if tokens[1] == RX {
          var n := AppendNumbers(rx, tokens);
          if n.NotANumber? { return ValueError; }
          if n.TooLarge? { return OverflowError; }
          rx := n.values;
        } else if tokens[1] == TX {
          var n := AppendNumbers(tx, tokens);
          if n.NotANumber? { return ValueError; }
          if n.TooLarge? { return OverflowError; }
          tx := n.values;
        }
      }
      rest := rest[LineEnd(rest)..];
    }
    p := Arrays(rx, tx);
  }

  // ---------- Reading undoes writing ----------

  predicate IsToken(t: string) {
    |t| > 0 && forall i :: 0 <= i < |t| ==> !IsSpace(t[i])
  }

  lemma {:induction false} TokenEndAt(t: string, rest: string)
    requires forall i :: 0 <= i < |t| ==> !IsSpace(t[i])
    requires rest != "" && IsSpace(rest[0])
    ensures TokenEnd(t + rest) == |t|
  {
    if t == "" {
      assert t + rest == rest;
    } else {
      TokenEndAt(t[1..], rest);
      assert (t + rest)[1..] == t[1..] + rest;
    }
  }

  lemma SplitToken(t: string, c: char, rest: string)
    requires IsToken(t) && IsSpace(c)
    ensures Split(t + ([c] + rest)) == [t] + Split(rest)
  {
    var whole := t + ([c] + rest);
    TokenEndAt(t, [c] + rest);
    assert whole[..|t|] == t && whole[|t|..] == [c] + rest;
    assert ([c] + rest)[1..] == rest;
  }

  /** The tokens of a list of numbers: a comma at the end of all but the last. */
  function NumberTokens(s: seq<int32>): seq<string>
    requires |s| > 0
  {
    if |s| == 1 then [Decimal(s[0] as int)] else [Decimal(s[0] as int) + ","] + NumberTokens(s[1..])
  }

  lemma JoinParts(t: string, rest: string)
    ensures ((t + ", ") + rest) + "\n" == (t + ",") + ([' '] + (rest + "\n"))
  {}

  lemma DecimalIsToken(x: int)
    ensures IsToken(Decimal(x)) && IsToken(Decimal(x) + ",")
  {
    var t := Decimal(x);
    assert forall i :: 0 <= i < |t| ==> t[i] in t;
  }

  lemma {:induction false} SplitJoin(s: seq<int32>)
    requires |s| > 0
    ensures Split(Join(s) + "\n") == NumberTokens(s)
    decreases |s|
  {
    hide Decimal, IsToken;
    var t := Decimal(s[0] as int);
    DecimalIsToken(s[0] as int);
    if |s| == 1 {
      assert t + "\n" == t + (['\n'] + "");
      SplitToken(t, '\n', "");
      assert Split("") == [];
    } else {
      SplitJoin(s[1..]);
      JoinParts(t, Join(s[1..]));
      SplitToken(t + ",", ' ', Join(s[1..]) + "\n");
    }
  }

  lemma {:induction false} ReadsNumberTokens(values: seq<int32>, s: seq<int32>, tokens: seq<string>, r: nat)
    requires |s| > 0 && 2 <= r && |tokens| == r + |s|
    requires tokens[r..] == NumberTokens(s)
    requires forall t :: t in tokens ==> |t| > 0
    ensures ReadNumbers(values, tokens, r) == Numbers(values + s)
    decreases |s|
  {
    DecimalRoundTrip(s[0] as int);
    assert tokens[r] == tokens[r..][0];
    if |s| == 1 {
      assert s == [s[0]];
    } else {
      assert tokens[r][..|tokens[r]| - 1] == Decimal(s[0] as int);
      assert tokens[r + 1..] == tokens[r..][1..];
      assert (values + [s[0]]) + s[1..] == values + s;
      ReadsNumberTokens(values + [s[0]], s[1..], tokens, r + 1);
    }
  }

  lemma {:induction false} NumberTokensLength(s: seq<int32>)
    requires |s| > 0
    ensures |NumberTokens(s)| == |s|
    decreases |s|
  {
    if |s| > 1 {
      NumberTokensLength(s[1..]);
    }
  }

  lemma {:induction false} LineEndAt(line: string, rest: string)
    requires '\n' !in line
    ensures LineEnd(line + ("\n" + rest)) == |line| + 1
  {
    if line == "" {
      assert line + ("\n" + rest) == "\n" + rest;
    } else {
      assert line[0] in line;
      LineEndAt(line[1..], rest);
      assert (line + ("\n" + rest))[1..] == line[1..] + ("\n" + rest);
    }
  }

  /** A line without a newline in it is parsed on its own, then the rest. */
  lemma FirstLine(line: string, rest: string, rx: seq<int32>, tx: seq<int32>, p: Parsed)
    requires '\n' !in line && p == ParseLine(line + "\n", rx, tx)
    ensures ParseLines(line + ("\n" + rest), rx, tx)
         == if p.Arrays? then ParseLines(rest, p.rx, p.tx) else p
  {
    var text := line + ("\n" + rest);
    LineEndAt(line, rest);
    assert text[..|line| + 1] == line + "\n" && text[|line| + 1..] == rest;
  }

  lemma BlankLine(rest: string, rx: seq<int32>, tx: seq<int32>)
    ensures ParseLines("\n" + rest, rx, tx) == ParseLines(rest, rx, tx)
  {
    assert Split("\n") == [];
    assert "" + "\n" == "\n" && "" + ("\n" + rest) == "\n" + rest;
    FirstLine("", rest, rx, tx, Arrays(rx, tx));
  }

  lemma BlankLines(rest: string, rx: seq<int32>, tx: seq<int32>)
    ensures ParseLines(BLANKS + rest, rx, tx) == ParseLines(rest, rx, tx)
  {
    BlankLine(rest, rx, tx);
    BlankLine("\n" + rest, rx, tx);
    BlankLine("\n" + ("\n" + rest), rx, tx);
    assert BLANKS + rest == "\n" + ("\n" + ("\n" + rest));
  }

  lemma {:induction false} JoinHasNoNewline(s: seq<int32>)
    requires |s| > 0
    ensures '\n' !in Join(s)
    decreases |s|
  {
    if |s| > 1 {
      JoinHasNoNewline(s[1..]);
    }
  }

  lemma SplitThree(a: string, b: string, numbers: string)
    requires IsToken(a) && IsToken(b)
    ensures Split(a + (" " + (b + (" " + numbers)))) == [a, b] + Split(numbers)
  {
    assert IsSpace(' ');
    hide Split, IsToken, IsSpace;
    SplitToken(b, ' ', numbers);
    SplitToken(a, ' ', b + (" " + numbers));
  }

  lemma DefineTokens(keyword: string, name: string, s: seq<int32>)
    requires IsToken(keyword) && IsToken(name) && |s| > 0
    ensures Split(Line(keyword, name, s) + "\n") == [keyword, name] + NumberTokens(s)
  {
    SplitJoin(s);
    SplitThree(keyword, name, Join(s) + "\n");
    DefineParts(keyword, " ", name, Join(s), "\n");
  }

  lemma DefineParts(word: string, space: string, name: string, numbers: string, newline: string)
    ensures (word + (space + (name + (space + numbers)))) + newline
         == word + (space + (name + (space + (numbers + newline))))
  {}

  lemma ReadsAllNumbers(values: seq<int32>, s: seq<int32>, tokens: seq<string>)
    requires |s| > 0 && |tokens| >= 2 && tokens[2..] == NumberTokens(s)
    requires forall t :: t in tokens ==> |t| > 0
    ensures |tokens| > 2 && ReadNumbers(values, tokens, 2) == Numbers(values + s)
  {
    NumberTokensLength(s);
    ReadsNumberTokens(values, s, tokens, 2);
  }

  lemma DefineLine(keyword: string, name: string, s: seq<int32>, rx: seq<int32>, tx: seq<int32>)
    requires IsToken(keyword) && IsToken(name) && |s| > 0
    requires '\n' !in keyword && '\n' !in name
    ensures '\n' !in Line(keyword, name, s)
    ensures name == RX ==> ParseLine(Line(keyword, name, s) + "\n", rx, tx) == Arrays(rx + s, tx)
    ensures name == TX ==> ParseLine(Line(keyword, name, s) + "\n", rx, tx) == Arrays(rx, tx + s)
  {
    var tokens := Split(Line(keyword, name, s) + "\n");
    DefineTokens(keyword, name, s);
    TokensNonEmpty(Line(keyword, name, s) + "\n");
    assert tokens[1] == name && tokens[2..] == NumberTokens(s);
    ReadsAllNumbers(rx, s, tokens);
    ReadsAllNumbers(tx, s, tokens);
    JoinHasNoNewline(s);
  }

  lemma SectionIs(name: string, s: seq<int32>, rest: string)
    requires s != []
    ensures Section(name, s) + rest == BLANKS + (Line(KEYWORD, name, s) + ("\n" + (BLANKS + rest)))
  {
    SectionParts(Line(KEYWORD, name, s), rest, BLANKS, "\n");
  }

  /** A line between blank lines. */
  lemma LineInSection(line: string, rest: string, rx: seq<int32>, tx: seq<int32>, p: Parsed)
    requires '\n' !in line && p.Arrays? && p == ParseLine(line + "\n", rx, tx)
    ensures ParseLines(BLANKS + (line + ("\n" + (BLANKS + rest))), rx, tx) == ParseLines(rest, p.rx, p.tx)
  {
    hide ParseLine, ParseLines;
    BlankLines(line + ("\n" + (BLANKS + rest)), rx, tx);
    FirstLine(line, BLANKS + rest, rx, tx, p);
    BlankLines(rest, p.rx, p.tx);
  }

  lemma ReadsSection(name: string, s: seq<int32>, rest: string, rx: seq<int32>, tx: seq<int32>)
    requires name == RX || name == TX
    ensures ParseLines(Section(name, s) + rest, rx, tx)
         == if name == RX then ParseLines(rest, rx + s, tx) else ParseLines(rest, rx, tx + s)
  {
    if s == [] {
      assert rx + s == rx && tx + s == tx && Section(name, s) + rest == rest;
    } else {
      hide ParseLine, ParseLines, Section, Line, IsToken;
      DefineLine(KEYWORD, name, s, rx, tx);
      SectionIs(name, s, rest);
      var p := if name == RX then Arrays(rx + s, tx) else Arrays(rx, tx + s);
      LineInSection(Line(KEYWORD, name, s), rest, rx, tx, p);
    }
  }

  lemma SectionParts(line: string, rest: string, blanks: string, newline: string)
    ensures (blanks + (line + (newline + blanks))) + rest == blanks + (line + (newline + (blanks + rest)))
  {}

  /** Parsing the printed text gives back both arrays, whatever they hold. */
  lemma HeaderRoundTrip(rx: seq<int32>, tx: seq<int32>)
    ensures ParseLines(Header(rx, tx), [], []) == Arrays(rx, tx)
  {
    ReadsSection(RX, rx, Section(TX, tx), [], []);
    assert [] + rx == rx && [] + tx == tx;
    ReadsSection(TX, tx, "", rx, []);
    assert Section(TX, tx) + "" == Section(TX, tx);
  }

  // ---------- Letter by letter ----------

  /** Decimal numbers: a minus sign, and one digit for each power of ten. */
  lemma DecimalIs(x: int)
    ensures x < 0 ==> Decimal(x) == "-" + Decimal(-x)
    ensures 0 <= x <= 9 ==> Decimal(x) == [('0' as int + x) as char]
    ensures x >= 10 ==> Decimal(x) == Decimal(x / 10) + Decimal(x % 10)
  {}

  /** What `int` takes beside plain digits: one sign, and single underscores between digits. */
  lemma ParsesSign(t: string, n: nat)
    requires ParseDigits(t) == Some(n)
    ensures ParseInt(t) == ParseInt("+" + t) == Some(n)
    ensures ParseInt("-" + t) == Some(0 - n)
  {
    StartsWithDigit(t);
    hide ParseDigits;
    assert ("+" + t)[1..] == t;
    ParseSigned(t, n);
  }

  lemma ParsesUnderscore(t: string, n: nat, d: nat)
    requires ParseDigits(t) == Some(n) && d < 10
    ensures ParseInt(t + [('0' as int + d) as char]) == Some(10 * n + d)
    ensures ParseInt((t + "_") + [('0' as int + d) as char]) == Some(10 * n + d)
    ensures ParseInt(t + "_") == ParseInt("_" + t) == ParseInt("") == None
  {
    StartsWithDigit(t);
    ParseMore(t, n, d);
    ParseUnderscore(t, d);
    EndsWithUnderscore(t + "_");
    BeginsWithUnderscore("_" + t);
    hide ParseDigits;
  }

  lemma EndsWithUnderscore(t: string)
    requires t != "" && t[|t| - 1] == '_'
    ensures ParseDigits(t) == None
  {}

  lemma {:induction false} BeginsWithUnderscore(t: string)
    requires t != "" && t[0] == '_'
    ensures ParseDigits(t) == None
    decreases |t|
  {
    if |t| > 1 && t[|t| - 2] == '_' && |t| > 2 {
      BeginsWithUnderscore(t[..|t| - 2]);
    } else if |t| > 1 {
      BeginsWithUnderscore(t[..|t| - 1]);
    }
  }

  lemma {:induction false} StartsWithDigit(t: string)
    requires ParseDigits(t).Some?
    ensures t != "" && '0' <= t[0] <= '9'
    decreases |t|
  {
    if |t| > 1 {
      StartsWithDigit(t[..|t| - if t[|t| - 2] == '_' then 2 else 1]);
    }
  }

  lemma ParseUnderscore(t: string, d: nat)
    requires ParseDigits(t).Some? && d < 10
    ensures ParseDigits((t + "_") + [Digit(d)]) == Some(10 * ParseDigits(t).value + d)
  {
    var more := (t + "_") + [Digit(d)];
    assert more[|more| - 2] == '_';
    assert more[..|more| - 2] == t;
  }

  /** A list of numbers: a comma and a blank between any two. */
  lemma {:induction false} JoinTogether(a: seq<int32>, b: seq<int32>)
    requires a != [] && b != []
    ensures Join(a + b) == Join(a) + ", " + Join(b)
    ensures Join([a[0]]) == Decimal(a[0] as int)
    decreases |a|
  {
    hide Decimal;
    if |a| == 1 {
      assert (a + b)[1..] == b;
    } else {
      JoinTogether(a[1..], b);
      assert (a + b)[1..] == a[1..] + b;
      JoinAround(Decimal(a[0] as int) + ", ", Join(a[1..]), Join(b));
    }
  }

  lemma JoinAround(a: string, b: string, c: string)
    ensures a + (b + ", " + c) == (a + b) + ", " + c
  {}

  /** The text of a section; an empty array leaves no trace. */
  lemma SectionIsText(s: seq<int32>)
    requires s != []
    ensures Section(RX, s)
         == "\n\n\n" + (("#define" + (" " + ("CSPL_CONFIG_RX" + (" " + Join(s))))) + "\n\n\n\n")
    ensures Section(TX, s)
         == "\n\n\n" + (("#define" + (" " + ("CSPL_CONFIG_TX" + (" " + Join(s))))) + "\n\n\n\n")
    ensures Section(RX, []) == Section(TX, []) == ""
  {
    hide Join;
    assert "\n" + BLANKS == "\n\n\n\n";
  }

  /** Splitting at any of the blanks of ASCII. */
  lemma {:induction false} SplitAt(a: string, c: char, b: string)
    requires c in {' ', '\t', '\n', '\r'} || c as int == 11 || c as int == 12
    ensures Split(a + ([c] + b)) == Split(a) + Split(b)
    decreases |a|
  {
    assert IsSpace(c);
    hide IsSpace;
    var whole := a + ([c] + b);
    if a == "" {
      assert whole == [c] + b && ([c] + b)[1..] == b;
    } else if IsSpace(a[0]) {
      SplitAt(a[1..], c, b);
      assert whole[1..] == a[1..] + ([c] + b);
    } else {
      var k := TokenEnd(a);
      TokenEndIn(a, [c] + b);
      SplitAt(a[k..], c, b);
      assert whole[..k] == a[..k] && whole[k..] == a[k..] + ([c] + b);
    }
  }

  lemma {:induction false} TokenEndIn(a: string, rest: string)
    requires rest != "" && IsSpace(rest[0])
    ensures TokenEnd(a + rest) == TokenEnd(a)
  {
    if a == "" {
      assert a + rest == rest;
    } else if !IsSpace(a[0]) {
      TokenEndIn(a[1..], rest);
      assert (a + rest)[1..] == a[1..] + rest;
    }
  }

  /** A line counts by its second word: the numbers after CSPL_CONFIG_RX are appended to the one
      array, those after CSPL_CONFIG_TX to the other, and any other line is passed over. */
  lemma LineIs(keyword: string, s: seq<int32>, line: string, rx: seq<int32>, tx: seq<int32>)
    requires IsToken(keyword) && '\n' !in keyword && s != []
    ensures ParseLine((keyword + (" " + ("CSPL_CONFIG_RX" + (" " + Join(s))))) + "\n", rx, tx) == Arrays(rx + s, tx)
    ensures ParseLine((keyword + (" " + ("CSPL_CONFIG_TX" + (" " + Join(s))))) + "\n", rx, tx) == Arrays(rx, tx + s)
    ensures |Split(line)| < 2 || Split(line)[1] !in {"CSPL_CONFIG_RX", "CSPL_CONFIG_TX"} ==>
              ParseLine(line, rx, tx) == Arrays(rx, tx)
  {
    hide Split, Join, ReadNumbers;
    NamesAreTokens();
    hide IsToken;
    DefineLine(keyword, RX, s, rx, tx);
    DefineLine(keyword, TX, s, rx, tx);
    hide ParseLine;
    OtherLine(line, rx, tx);
  }

  lemma NamesAreTokens()
    ensures IsToken(RX) && IsToken(TX) && '\n' !in RX && '\n' !in TX
  {}

  lemma OtherLine(line: string, rx: seq<int32>, tx: seq<int32>)
    ensures |Split(line)| < 2 || Split(line)[1] !in {"CSPL_CONFIG_RX", "CSPL_CONFIG_TX"} ==>
              ParseLine(line, rx, tx) == Arrays(rx, tx)
  {
    hide Split, ReadNumbers;
  }

  /** What is read of token `i`: all but the last lose their final character. */
  function TokenText(tokens: seq<string>, i: nat): string
    requires i < |tokens| && (i < |tokens| - 1 ==> |tokens[i]| > 0)
  {
    if i == |tokens| - 1 then tokens[i] else tokens[i][..|tokens[i]| - 1]
  }

  predicate Readable(tokens: seq<string>, i: nat)
    requires i < |tokens| && (i < |tokens| - 1 ==> |tokens[i]| > 0)
  {
    var x := ParseInt(TokenText(tokens, i));
    x.Some? && -2147483648 <= x.value <= 2147483647
  }

  /** The tokens from `r` on are read up to the first that is no number or too large, which
      decides the failure; if there is none, all their numbers are appended. */
  lemma {:induction false} NumbersRead(values: seq<int32>, tokens: seq<string>, r: nat, k: nat)
    requires 2 <= r <= k < |tokens| && forall t :: t in tokens ==> |t| > 0
    requires forall i :: r <= i < k ==> Readable(tokens, i)
    ensures var x, read := ParseInt(TokenText(tokens, k)), ReadNumbers(values, tokens, r);
            && (x.None? ==> read == NotANumber)
            && (x.Some? && !(-2147483648 <= x.value <= 2147483647) ==> read == TooLarge)
            && (Readable(tokens, k) && k == |tokens| - 1 ==>
                  && read.Numbers? && |read.values| == |values| + (k + 1 - r)
                  && values == read.values[..|values|]
                  && forall i :: r <= i <= k ==>
                       Some(read.values[|values| + i - r] as int) == ParseInt(TokenText(tokens, i)))
    decreases k - r
  {
    hide ParseInt;
    if r < k {
      assert Readable(tokens, r);
      var x := ParseInt(TokenText(tokens, r)).value as int32;
      NumbersRead(values + [x], tokens, r + 1, k);
    }
  }

  /** A line with too few words, or with numbers that fail, ends the reading. */
  lemma LineFails(keyword: string, line: string, rx: seq<int32>, tx: seq<int32>)
    requires |Split(line)| >= 2 && (forall t :: t in Split(line) ==> |t| > 0)
    ensures Split(line)[1] == "CSPL_CONFIG_RX" ==>
              && (ReadNumbers(rx, Split(line), 2).NotANumber? <==> ParseLine(line, rx, tx) == ValueError)
              && (ReadNumbers(rx, Split(line), 2).TooLarge? <==> ParseLine(line, rx, tx) == OverflowError)
    ensures Split(line)[1] == "CSPL_CONFIG_TX" ==>
              && (ReadNumbers(tx, Split(line), 2).NotANumber? <==> ParseLine(line, rx, tx) == ValueError)
              && (ReadNumbers(tx, Split(line), 2).TooLarge? <==> ParseLine(line, rx, tx) == OverflowError)
    ensures Split(line) == [keyword, "CSPL_CONFIG_RX"] || Split(line) == [keyword, "CSPL_CONFIG_TX"] ==>
              ParseLine(line, rx, tx) == ValueError
  {
    hide Split, ReadNumbers;
    NamesDiffer();
    ReadsName(rx, Split(line));
    ReadsName(tx, Split(line));
  }

  lemma NamesDiffer()
    ensures "CSPL_CONFIG_RX" != "CSPL_CONFIG_TX"
    ensures ParseInt("CSPL_CONFIG_RX") == ParseInt("CSPL_CONFIG_TX") == None
  {
    assert "CSPL_CONFIG_RX"[12] != "CSPL_CONFIG_TX"[12];
  }

  lemma ReadsName(values: seq<int32>, tokens: seq<string>)
    requires |tokens| >= 2 && forall t :: t in tokens ==> |t| > 0
    ensures |tokens| == 2 && ParseInt(tokens[1]) == None ==> ReadNumbers(values, tokens, 2) == NotANumber
  {
    hide ParseInt;
  }
}
