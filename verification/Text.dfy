/** Decimal and hexadecimal text, literals, and lines: the pieces the shell prints and the parser
    takes apart. */
module Text {
  import opened Common

  // ---------------------------------------------------------------- decimal

  predicate IsDigit(c: char) { '0' <= c <= '9' }

  predicate AllDigits(s: string) { forall c :: c in s ==> IsDigit(c) }

  function Dec(n: nat): (s: string)
    ensures s != "" && AllDigits(s)
    ensures |s| == 1 <==> n < 10
  {
    var last := [('0' as int + n % 10) as char];
    if n < 10 then last else Dec(n / 10) + last
  }

  /** Decimal digits, the most significant first. */
  lemma {:induction false} DecAt(n: nat, i: nat)
    requires i < |Dec(n)|
    ensures i == |Dec(n)| - 1 ==> Dec(n)[i] == "0123456789"[n % 10]
    ensures i < |Dec(n)| - 1 ==> n >= 10 && i < |Dec(n / 10)| && Dec(n)[i] == Dec(n / 10)[i]
  {
    DigitChar(n % 10);
  }

  lemma DigitChar(d: nat)
    requires d < 10
    ensures ('0' as int + d) as char == "0123456789"[d]
  {
  }

  /** Python's `int` on a run of digits. */
  function Value(s: string): nat
    requires AllDigits(s)
  {
    if s == "" then 0
    else
      assert s[|s| - 1] in s;
      10 * Value(s[..|s| - 1]) + (s[|s| - 1] as int - '0' as int)
  }

  lemma {:induction false} DecRoundTrip(n: nat)
    ensures Value(Dec(n)) == n
  {
    if n >= 10 {
      DecRoundTrip(n / 10);
      assert Dec(n)[..|Dec(n)| - 1] == Dec(n / 10);
    }
  }

  function ShowInt(n: int): string { if n < 0 then "-" + Dec(-n) else Dec(n) }

  /** The longest run of digits at the front, as a greedy `\d*` takes it. */
  function Span(s: string): (r: (string, string))
    ensures AllDigits(r.0) && s == r.0 + r.1
  {
    if s == "" || !IsDigit(s[0]) then ("", s)
    else
      var (run, rest) := Span(s[1..]);
      ([s[0]] + run, rest)
  }

  lemma {:induction false} SpanOf(digits: string, rest: string)
    requires AllDigits(digits) && (rest == "" || !IsDigit(rest[0]))
    ensures Span(digits + rest) == (digits, rest)
    decreases |digits|
  {
    if digits == "" {
      assert digits + rest == rest;
    } else {
      assert digits[0] in digits;
      assert (digits + rest)[1..] == digits[1..] + rest;
      SpanOf(digits[1..], rest);
      assert digits == [digits[0]] + digits[1..];
    }
  }

  // ---------------------------------------------------------------- pattern pieces

  /** Each piece takes what it matches off the front, or fails. */
  function Literal(s: string, word: string): Option<string> {
    if word <= s then Some(s[|word|..]) else None
  }

  function Number(s: string): Option<(nat, string)> {
    var (run, rest) := Span(s);
    if run == "" then None else Some((Value(run), rest))
  }

  function Signed(s: string): Option<(int, string)> {
    if "-" <= s then
      var (n, rest) :- Number(s[1..]);
      Some((0 - n, rest))
    else
      var (n, rest) :- Number(s);
      Some((n as int, rest))
  }

  function YesNo(s: string): Option<(bool, string)> {
    if "yes" <= s then Some((true, s[3..]))
    else if "no" <= s then Some((false, s[2..]))
    else None
  }

  function ShowYesNo(b: bool): string { if b then "yes" else "no" }

  lemma ShownIs(n: nat)
    ensures ShowYesNo(true) == "yes" && ShowYesNo(false) == "no"
    ensures ShowInt(n) == Dec(n)
    ensures n > 0 ==> ShowInt((0 as int) - n) == "-" + Dec(n)
  {
  }

  lemma LiteralOf(word: string, rest: string)
    ensures Literal(word + rest, word) == Some(rest)
  {
    assert word <= word + rest;
  }

  lemma NumberOf(n: nat, rest: string)
    requires rest == "" || !IsDigit(rest[0])
    ensures Number(Dec(n) + rest) == Some((n, rest))
  {
    SpanOf(Dec(n), rest);
    DecRoundTrip(n);
  }

  /** Any run of digits is read by its value, leading zeros included. */
  lemma NumberOfDigits(digits: string, rest: string)
    requires digits != "" && AllDigits(digits) && (rest == "" || !IsDigit(rest[0]))
    ensures Number(digits + rest) == Some((Value(digits), rest))
  {
    SpanOf(digits, rest);
  }

  /** What is left of a number does not start with a digit, and what it took are the digits before. */
  lemma {:induction false} SpanStops(s: string)
    ensures Span(s).1 == "" || !IsDigit(Span(s).1[0])
    decreases |s|
  {
    if s != "" && IsDigit(s[0]) {
      SpanStops(s[1..]);
    }
  }

  lemma SignedOf(n: int, rest: string)
    requires rest == "" || !IsDigit(rest[0])
    ensures Signed(ShowInt(n) + rest) == Some((n, rest))
  {
    if n < 0 {
      NumberOf(-n, rest);
      SignedMinus(Dec(-n), rest);
    } else {
      NumberOf(n, rest);
      SignedPlain(Dec(n), rest);
    }
  }

  lemma SignedMinus(digits: string, rest: string)
    requires Number(digits + rest).Some?
    ensures
      var (n, tail) := Number(digits + rest).value;
      Signed("-" + digits + rest) == Some((0 - n, tail))
  {
    var s := "-" + digits + rest;
    assert s[1..] == digits + rest && "-" <= s;
  }

  lemma SignedPlain(digits: string, rest: string)
    requires digits != "" && AllDigits(digits) && Number(digits + rest).Some?
    ensures
      var (n, tail) := Number(digits + rest).value;
      Signed(digits + rest) == Some((n as int, tail))
  {
    assert digits[0] in digits && (digits + rest)[0] == digits[0];
  }

  lemma YesNoOf(b: bool, rest: string)
    ensures YesNo(ShowYesNo(b) + rest) == Some((b, rest))
  {
    var s := ShowYesNo(b) + rest;
    if !b {
      assert s[0] == 'n';
    }
  }

  /** A label and the value after it, followed by more text: as printed, and as matched. */
  function ShowFlag(word: string, b: bool, rest: string): string { word + (ShowYesNo(b) + rest) }
  function ShowNumber(word: string, n: nat, rest: string): string { word + (Dec(n) + rest) }
  function ShowSigned(word: string, n: int, rest: string): string { word + (ShowInt(n) + rest) }

  function FlagField(s: string, word: string): Option<(bool, string)> {
    var rest :- Literal(s, word);
    YesNo(rest)
  }

  function NumberField(s: string, word: string): Option<(nat, string)> {
    var rest :- Literal(s, word);
    Number(rest)
  }

  function SignedField(s: string, word: string): Option<(int, string)> {
    var rest :- Literal(s, word);
    Signed(rest)
  }

  lemma FlagFieldOf(word: string, b: bool, rest: string)
    ensures FlagField(ShowFlag(word, b, rest), word) == Some((b, rest))
  {
    LiteralOf(word, ShowYesNo(b) + rest);
    YesNoOf(b, rest);
  }

  lemma NumberFieldOf(word: string, n: nat, rest: string)
    requires rest == "" || !IsDigit(rest[0])
    ensures NumberField(ShowNumber(word, n, rest), word) == Some((n, rest))
  {
    LiteralOf(word, Dec(n) + rest);
    NumberOf(n, rest);
  }

  lemma SignedFieldOf(word: string, n: int, rest: string)
    requires rest == "" || !IsDigit(rest[0])
    ensures SignedField(ShowSigned(word, n, rest), word) == Some((n, rest))
  {
    LiteralOf(word, ShowInt(n) + rest);
    SignedOf(n, rest);
  }

  // ---------------------------------------------------------------- hexadecimal

  predicate IsHex(c: char) { '0' <= c <= '9' || 'a' <= c <= 'f' || 'A' <= c <= 'F' }

  function HexDigit(d: nat): (c: char)
    requires d < 16
    ensures IsHex(c) && HexValue(c) == d
  {
    if d < 10 then ('0' as int + d) as char else ('a' as int + d - 10) as char
  }

  function HexValue(c: char): nat
    requires IsHex(c)
  {
    if c <= '9' then c as int - '0' as int
    else if c <= 'F' then c as int - 'A' as int + 10
    else c as int - 'a' as int + 10
  }

  lemma HexDigitIs(d: nat)
    requires d < 16
    ensures HexDigit(d) == "0123456789abcdef"[d]
  {
  }

  function HexByte(b: byte): string { [HexDigit(b / 16), HexDigit(b % 16)] }

  /** `print_hex`: two lower-case digits a byte, single spaces between. */
  function Hex(bytes: seq<byte>): string
    decreases |bytes|
  {
    if bytes == [] then ""
    else HexByte(bytes[0]) + (if |bytes| > 1 then " " + Hex(bytes[1..]) else "")
  }

  /** Each byte is two lower-case digits, the high half first, and a space stands before every byte but
      the first. */
  lemma {:induction false} HexAt(bytes: seq<byte>, k: nat)
    requires k < |bytes|
    ensures |Hex(bytes)| == 3 * |bytes| - 1
    ensures Hex(bytes)[3 * k] == "0123456789abcdef"[bytes[k] / 16]
    ensures Hex(bytes)[3 * k + 1] == "0123456789abcdef"[bytes[k] % 16]
    ensures k > 0 ==> Hex(bytes)[3 * k - 1] == ' '
    decreases |bytes|
  {
    HexDigitIs(bytes[k] / 16);
    HexDigitIs(bytes[k] % 16);
    if |bytes| > 1 {
      var rest := Hex(bytes[1..]);
      HexAt(bytes[1..], if k > 0 then k - 1 else 0);
      if k > 0 {
        AfterByte(HexByte(bytes[0]), rest, 3 * (k - 1));
        AfterByte(HexByte(bytes[0]), rest, 3 * (k - 1) + 1);
        if k > 1 {
          AfterByte(HexByte(bytes[0]), rest, 3 * (k - 1) - 1);
        }
      }
    }
  }

  lemma AfterByte(h: string, rest: string, j: nat)
    requires |h| == 2 && j < |rest|
    ensures
      var s := h + (" " + rest);
      |s| == |rest| + 3 && s[0] == h[0] && s[1] == h[1] && s[2] == ' ' && s[3 + j] == rest[j]
  {
  }

  /** Python's `bytes.fromhex` on the characters the pattern lets through. */
  function FromHex(s: string): Option<seq<byte>> {
    if s == "" then Some([])
    else if s[0] == ' ' then FromHex(s[1..])
    else if |s| < 2 || !IsHex(s[0]) || !IsHex(s[1]) then None
    else
      var rest :- FromHex(s[2..]);
      Some([HexValue(s[0]) * 16 + HexValue(s[1])] + rest)
  }

  predicate HexText(s: string) { forall c :: c in s ==> IsHex(c) || c == ' ' }

  lemma FromHexPair(h: char, l: char, rest: string)
    requires IsHex(h) && IsHex(l)
    ensures FromHex([h, l] + rest) ==
      if FromHex(rest).Some? then Some([HexValue(h) * 16 + HexValue(l)] + FromHex(rest).value) else None
  {
    var s := [h, l] + rest;
    assert s[0] == h && s[1] == l && s[2..] == rest;
  }

  lemma FromHexByte(b: byte, rest: string)
    ensures FromHex(HexByte(b) + rest) == if FromHex(rest).Some? then Some([b] + FromHex(rest).value) else None
  {
    FromHexPair(HexDigit(b / 16), HexDigit(b % 16), rest);
  }

  /** A lone digit is an error. */
  lemma FromHexLone(h: char, rest: string)
    requires IsHex(h) && (rest == "" || rest[0] == ' ')
    ensures FromHex([h] + rest).None?
  {
    var s := [h] + rest;
    assert s[0] == h && (rest != "" ==> s[1] == rest[0]);
  }

  lemma FromHexSpace(rest: string)
    ensures FromHex(" " + rest) == FromHex(rest)
  {
    assert (" " + rest)[1..] == rest;
  }

  lemma {:induction false} HexRoundTrip(bytes: seq<byte>)
    ensures FromHex(Hex(bytes)) == Some(bytes)
    decreases |bytes|
  {
    if |bytes| == 1 {
      FromHexByte(bytes[0], "");
      assert bytes == [bytes[0]] && Hex(bytes) == HexByte(bytes[0]) + "";
      assert [bytes[0]] + [] == bytes;
    } else if bytes != [] {
      HexRoundTrip(bytes[1..]);
      FromHexSpace(Hex(bytes[1..]));
      FromHexByte(bytes[0], " " + Hex(bytes[1..]));
      assert bytes == [bytes[0]] + bytes[1..];
    }
  }

  lemma {:induction false} HexIsHexText(bytes: seq<byte>)
    ensures HexText(Hex(bytes)) && (bytes != [] ==> Hex(bytes) != "")
    decreases |bytes|
  {
    if bytes != [] {
      HexIsHexText(bytes[1..]);
      assert HexText(HexByte(bytes[0]));
    }
  }

  // ---------------------------------------------------------------- lines

  predicate OneLine(s: string) { '\n' !in s }

  /** The pieces between newlines: what `^...$` can match in multi-line mode. */
  function Lines(text: string): (lines: seq<string>)
    ensures lines != []
  {
    if text == "" then [""]
    else
      var rest := Lines(text[1..]);
      if text[0] == '\n' then [""] + rest else [[text[0]] + rest[0]] + rest[1..]
  }

  lemma {:induction false} LinesOf(line: string, rest: string)
    requires OneLine(line)
    ensures Lines(line + "\n" + rest) == [line] + Lines(rest)
  {
    var text := line + "\n" + rest;
    if line == "" {
      assert text[1..] == rest;
    } else {
      assert text[1..] == line[1..] + "\n" + rest;
      LinesOf(line[1..], rest);
      assert text[0] == line[0] && line[0] in line;
      assert line == [line[0]] + line[1..];
    }
  }

  /** Each line followed by its newline. */
  function Unlines(lines: seq<string>): string {
    if lines == [] then "" else lines[0] + "\n" + Unlines(lines[1..])
  }

  lemma {:induction false} UnlinesAppend(a: seq<string>, b: seq<string>)
    ensures Unlines(a + b) == Unlines(a) + Unlines(b)
  {
    if a == [] {
      assert a + b == b;
    } else {
      UnlinesAppend(a[1..], b);
      assert (a + b)[1..] == a[1..] + b;
    }
  }

  lemma {:induction false} LinesOfUnlines(lines: seq<string>)
    requires forall line :: line in lines ==> OneLine(line)
    ensures Lines(Unlines(lines)) == lines + [""]
  {
    if lines != [] {
      LinesOf(lines[0], Unlines(lines[1..]));
      LinesOfUnlines(lines[1..]);
    }
  }
}
