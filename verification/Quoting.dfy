/** strconv.Quote, and a reader that undoes it. */
module Quoting {
  import opened Prelude

  /** strconv.IsPrint, which is not spelled out. */
  type Printable = char -> bool

  // ----- hexadecimal -----

  const HEX := "0123456789abcdef"

  function HexDigit(d: nat): (c: char)
    requires d < 16
  {
    HEX[d]
  }

  function HexValue(c: char): Option<nat>
  {
    if '0' <= c <= '9' then Some((c - '0') as nat)
    else if 'a' <= c <= 'f' then Some(10 + (c - 'a') as nat)
    else None
  }

  function Power16(n: nat): nat
  {
    if n == 0 then 1 else 16 * Power16(n - 1)
  }

  /** The low `width` hexadecimal digits. */
  function Hex(n: nat, width: nat): (s: string)
    ensures |s| == width
  {
    if width == 0 then "" else Hex(n / 16, width - 1) + [HexDigit(n % 16)]
  }

  function ReadHex(s: string): Option<nat>
  {
    if s == "" then Some(0)
    else
      var front, last := ReadHex(s[..|s| - 1]), HexValue(s[|s| - 1]);
      if front.None? || last.None? then None else Some(16 * front.value + last.value)
  }

  lemma DigitReads(d: nat)
    requires d < 16
    ensures HexValue(HexDigit(d)) == Some(d)
  {
  }

  /** Splitting off the lowest digit. */
  lemma LowestDigit(n: nat, bound: nat)
    requires n < 16 * bound
    ensures n / 16 < bound && n == 16 * (n / 16) + n % 16 && n % 16 < 16
  {
  }

  lemma {:induction false} HexReads(n: nat, width: nat)
    requires n < Power16(width)
    ensures ReadHex(Hex(n, width)) == Some(n)
  {
    if width > 0 {
      LowestDigit(n, Power16(width - 1));
      var high, low := n / 16, n % 16;
      HexReads(high, width - 1);
      DigitReads(low);
      DigitAppended(Hex(high, width - 1), high, low);
    }
  }

  lemma DigitAppended(front: string, high: nat, low: nat)
    requires ReadHex(front) == Some(high) && low < 16 && HexValue(HexDigit(low)) == Some(low)
    ensures ReadHex(front + [HexDigit(low)]) == Some(16 * high + low)
  {
    var s := front + [HexDigit(low)];
    assert s[..|s| - 1] == front;
  }

  lemma Powers()
    ensures Power16(2) == 0x100 && Power16(4) == 0x1_0000 && Power16(8) == 0x1_0000_0000
  {
    assert Power16(6) == 0x100_0000;
  }

  // ----- one rune -----

  /** The letter of a control character that has one. */
  function ControlLetter(c: char): Option<char>
  {
    if c == '\U{07}' then Some('a')
    else if c == '\U{08}' then Some('b')
    else if c == '\U{0C}' then Some('f')
    else if c == '\n' then Some('n')
    else if c == '\r' then Some('r')
    else if c == '\t' then Some('t')
    else if c == '\U{0B}' then Some('v')
    else None
  }

  function ControlOf(letter: char): Option<char>
  {
    match letter
    case 'a' => Some('\U{07}')
    case 'b' => Some('\U{08}')
    case 'f' => Some('\U{0C}')
    case 'n' => Some('\n')
    case 'r' => Some('\r')
    case 't' => Some('\t')
    case 'v' => Some('\U{0B}')
    case _ => None
  }

  function Escape(printable: Printable, c: char): string
  {
    if c == '"' || c == '\\' then ['\\', c]
    else if printable(c) then [c]
    else if ControlLetter(c).Some? then ['\\', ControlLetter(c).value]
    else if c < ' ' || c == '\U{7F}' then ['\\', 'x'] + Hex(c as nat, 2)
    else if (c as nat) < 0x10000 then ['\\', 'u'] + Hex(c as nat, 4)
    else ['\\', 'U'] + Hex(c as nat, 8)
  }

  function Escapes(printable: Printable, s: string): string
  {
    if s == "" then "" else Escape(printable, s[0]) + Escapes(printable, s[1..])
  }

  /** strconv.Quote. */
  function Quote(printable: Printable, s: string): string
  {
    "\"" + Escapes(printable, s) + "\""
  }

  /** Runes whose escape is also an escape of JSON strings (section 7 of RFC 8259). */
  predicate JsonLegal(printable: Printable, c: char)
  {
    var e := Escape(printable, c);
    if e[0] != '\\' then c >= ' ' else JsonLetter(e[1])
  }

  predicate JsonLetter(letter: char)
  {
    letter == '"' || letter == '\\' || letter == '/' || letter == 'b' || letter == 'f' || letter == 'n' || letter == 'r'
    || letter == 't' || letter == 'u'
  }

  predicate AllLegal(printable: Printable, s: string)
  {
    forall i :: 0 <= i < |s| ==> JsonLegal(printable, s[i])
  }

  // ----- reading it back -----

  predicate IsRune(n: nat)
  {
    n < 0xD800 || 0xE000 <= n < 0x11_0000
  }

  function RuneOf(n: nat): Option<char>
  {
    if IsRune(n) then Some(n as char) else None
  }

  function HexWidth(letter: char): nat
  {
    if letter == 'x' then 2 else if letter == 'u' then 4 else if letter == 'U' then 8 else 0
  }

  /** One rune and what follows it; a strict reader takes JSON's escapes only. */
  function ReadRune(strict: bool, s: string): (r: Option<(char, string)>)
    ensures r.Some? ==> |r.value.1| < |s|
  {
    if s == "" || (strict && s[0] < ' ') then None
    else if s[0] != '\\' then Some((s[0], s[1..]))
    else if |s| < 2 || (strict && !JsonLetter(s[1])) then None
    else if s[1] == '"' || s[1] == '\\' || (strict && s[1] == '/') then Some((s[1], s[2..]))
    else if ControlOf(s[1]).Some? then Some((ControlOf(s[1]).value, s[2..]))
    else
      var width := HexWidth(s[1]);
      if width == 0 || |s| < 2 + width then None
      else
        var n := ReadHex(s[2..2 + width]);
        if n.None? || RuneOf(n.value).None? then None else Some((RuneOf(n.value).value, s[2 + width..]))
  }

  /** The runes up to the closing quote, and what follows it. */
  function ReadRunes(strict: bool, s: string): (r: Option<(string, string)>)
    ensures r.Some? ==> |r.value.1| < |s|
  {
    if s == "" then None
    else if s[0] == '"' then Some(("", s[1..]))
    else
      var rune := ReadRune(strict, s);
      if rune.None? then None
      else
        var more := ReadRunes(strict, rune.value.1);
        if more.None? then None else Some(([rune.value.0] + more.value.0, more.value.1))
  }

  function ReadQuoted(strict: bool, s: string): (r: Option<(string, string)>)
    ensures r.Some? ==> |r.value.1| < |s|
  {
    if s == "" || s[0] != '"' then None else ReadRunes(strict, s[1..])
  }

  lemma HexRuneReads(strict: bool, c: char, letter: char, rest: string)
    requires HexWidth(letter) > 0 && (c as nat) < Power16(HexWidth(letter)) && (strict ==> letter == 'u')
    ensures ReadRune(strict, ['\\', letter] + Hex(c as nat, HexWidth(letter)) + rest) == Some((c, rest))
  {
    var width := HexWidth(letter);
    var s := ['\\', letter] + Hex(c as nat, width) + rest;
    HexReads(c as nat, width);
    assert s[2..2 + width] == Hex(c as nat, width);
    assert s[2 + width..] == rest;
    assert IsRune(c as nat);
  }

  /** An escape of a letter is undone. */
  lemma LetterReads(strict: bool, c: char, letter: char, rest: string)
    requires (letter == c && (c == '"' || c == '\\')) || ControlLetter(c) == Some(letter)
    requires strict ==> JsonLetter(letter)
    ensures ReadRune(strict, ['\\', letter] + rest) == Some((c, rest))
  {
    assert (['\\', letter] + rest)[2..] == rest;
  }

  /** So is one of a number of hexadecimal digits. */
  lemma DigitsRead(strict: bool, c: char, letter: char, rest: string)
    requires letter == if c < ' ' || c == '\U{7F}' then 'x' else if (c as nat) < 0x1_0000 then 'u' else 'U'
    requires strict ==> letter == 'u'
    ensures ReadRune(strict, ['\\', letter] + Hex(c as nat, HexWidth(letter)) + rest) == Some((c, rest))
  {
    Powers();
    HexRuneReads(strict, c, letter, rest);
  }

  lemma EscapeReads(strict: bool, printable: Printable, c: char, rest: string)
    requires strict ==> JsonLegal(printable, c)
    ensures ReadRune(strict, Escape(printable, c) + rest) == Some((c, rest))
  {
    var e := Escape(printable, c);
    if c == '"' || c == '\\' {
      LetterReads(strict, c, c, rest);
    } else if printable(c) {
      assert (e + rest)[1..] == rest;
    } else if ControlLetter(c).Some? {
      LetterReads(strict, c, ControlLetter(c).value, rest);
    } else {
      DigitsRead(strict, c, e[1], rest);
    }
  }

  lemma EscapeStarts(printable: Printable, c: char)
    ensures Escape(printable, c) != "" && Escape(printable, c)[0] != '"'
  {
  }

  /** A JSON reader stops at an escape JSON does not have, and at a bare control character. */
  lemma IllegalStops(printable: Printable, c: char, rest: string)
    requires !JsonLegal(printable, c)
    ensures ReadRune(true, Escape(printable, c) + rest).None?
  {
    var e := Escape(printable, c);
    if e[0] == '\\' {
      assert (e + rest)[1] == e[1];
    }
  }

  lemma Regroup(a: string, b: string, c: string, d: string)
    ensures a + b + c + d == a + (b + c + d)
  {
  }

  lemma {:induction false} EscapesRead(strict: bool, printable: Printable, s: string, rest: string)
    requires strict ==> AllLegal(printable, s)
    ensures ReadRunes(strict, Escapes(printable, s) + "\"" + rest) == Some((s, rest))
  {
    if s == "" {
      assert (Escapes(printable, s) + "\"" + rest)[1..] == rest;
    } else {
      var tail := Escapes(printable, s[1..]) + "\"" + rest;
      EscapeReads(strict, printable, s[0], tail);
      EscapeStarts(printable, s[0]);
      Regroup(Escape(printable, s[0]), Escapes(printable, s[1..]), "\"", rest);
      EscapesRead(strict, printable, s[1..], rest);
      assert [s[0]] + s[1..] == s;
    }
  }

  /** Quoting is undone by reading, for every string and every notion of what is printable. */
  lemma QuoteReads(strict: bool, printable: Printable, s: string, rest: string)
    requires strict ==> AllLegal(printable, s)
    ensures ReadQuoted(strict, Quote(printable, s) + rest) == Some((s, rest))
  {
    EscapesRead(strict, printable, s, rest);
    Regroup("\"", Escapes(printable, s), "\"", rest);
    assert ("\"" + (Escapes(printable, s) + "\"" + rest))[1..] == Escapes(printable, s) + "\"" + rest;
  }

  lemma {:induction false} EscapesStop(printable: Printable, s: string, rest: string)
    requires !AllLegal(printable, s)
    ensures ReadRunes(true, Escapes(printable, s) + "\"" + rest).None?
  {
    var tail := Escapes(printable, s[1..]) + "\"" + rest;
    Regroup(Escape(printable, s[0]), Escapes(printable, s[1..]), "\"", rest);
    EscapeStarts(printable, s[0]);
    if JsonLegal(printable, s[0]) {
      EscapeReads(true, printable, s[0], tail);
      assert !AllLegal(printable, s[1..]) by {
        var i :| 0 <= i < |s| && !JsonLegal(printable, s[i]);
        assert s[1..][i - 1] == s[i];
      }
      EscapesStop(printable, s[1..], rest);
    } else {
      IllegalStops(printable, s[0], tail);
    }
  }

  /** And a JSON reader does not read the quoted form of any other string. */
  lemma QuoteStops(printable: Printable, s: string, rest: string)
    requires !AllLegal(printable, s)
    ensures ReadQuoted(true, Quote(printable, s) + rest).None?
  {
    EscapesStop(printable, s, rest);
    Regroup("\"", Escapes(printable, s), "\"", rest);
    assert ("\"" + (Escapes(printable, s) + "\"" + rest))[1..] == Escapes(printable, s) + "\"" + rest;
  }

  /** Printable ASCII, which every notion of printable includes. */
  predicate Plain(s: string)
  {
    forall i :: 0 <= i < |s| ==> ' ' <= s[i] <= '~'
  }

  lemma PlainIsLegal(printable: Printable, s: string)
    requires (forall ch :: ' ' <= ch <= '~' ==> printable(ch)) && Plain(s)
    ensures AllLegal(printable, s)
  {
  }
}
