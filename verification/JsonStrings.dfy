/** JSON string literals: how Go's encoder writes them, and how any decoder reads them
    (RFC 8259, section 7). */
module JsonStrings {
  import opened Model

  const HEX: string := "0123456789abcdef"

  function HexDigit(d: nat): char
    requires d < 16
  {
    HEX[d]
  }

  function HexValue(c: char): Option<nat> {
    if '0' <= c <= '9' then Some(c as int - '0' as int)
    else if 'a' <= c <= 'f' then Some(c as int - 'a' as int + 10)
    else if 'A' <= c <= 'F' then Some(c as int - 'A' as int + 10)
    else None
  }

  lemma HexRoundTrip(d: nat)
    requires d < 16
    ensures HexValue(HexDigit(d)) == Some(d)
  {
    assert HEX[10..] == "abcdef";
  }

  // ----- Writing -----

  function UnicodeEscape(n: nat): string
    requires n < 0x1_0000
  {
    ['\\', 'u', HexDigit(n / 4096), HexDigit(n / 256 % 16), HexDigit(n / 16 % 16), HexDigit(n % 16)]
  }

  /** Go also escapes the characters that are special in HTML and JavaScript. */
  predicate Escapes(c: char) {
    c < ' ' || c == '<' || c == '>' || c == '&' || c as int == 0x2028 || c as int == 0x2029
  }

  function Escape(c: char): string {
    if c == '"' then ['\\', '"']
    else if c == '\\' then ['\\', '\\']
    else if c as int == 8 then ['\\', 'b']
    else if c as int == 12 then ['\\', 'f']
    else if c == '\n' then ['\\', 'n']
    else if c == '\r' then ['\\', 'r']
    else if c == '\t' then ['\\', 't']
    else if Escapes(c) then UnicodeEscape(c as int)
    else [c]
  }

  function Escaped(s: string): string {
    if s == "" then "" else Escape(s[0]) + Escaped(s[1..])
  }

  function Quote(s: string): string {
    "\"" + Escaped(s) + "\""
  }

  /** Which characters are escaped, and how. */
  lemma ShortEscapes(c: char)
    ensures Escape('"') == ['\\', '"'] && Escape('\\') == ['\\', '\\']
    ensures Escape(8 as char) == ['\\', 'b'] && Escape(12 as char) == ['\\', 'f']
    ensures Escape('\n') == ['\\', 'n'] && Escape('\r') == ['\\', 'r'] && Escape('\t') == ['\\', 't']
    ensures c as int >= 0x20 && c !in "\"\\<>&" && c as int != 0x2028 && c as int != 0x2029 ==> Escape(c) == [c]
  {
    hide UnicodeEscape;
  }

  lemma HexDigits()
    ensures HexDigit(0) == '0' && HexDigit(1) == '1' && HexDigit(2) == '2' && HexDigit(3) == '3'
    ensures HexDigit(6) == '6' && HexDigit(8) == '8' && HexDigit(9) == '9'
    ensures HexDigit(12) == 'c' && HexDigit(14) == 'e' && HexDigit(15) == 'f'
  {
    assert HEX[10..] == "abcdef";
  }

  lemma LongEscapes()
    ensures Escape('<') == ['\\', 'u', '0', '0', '3', 'c']
    ensures Escape('>') == ['\\', 'u', '0', '0', '3', 'e']
    ensures Escape('&') == ['\\', 'u', '0', '0', '2', '6']
    ensures Escape(0x2028 as char) == ['\\', 'u', '2', '0', '2', '8']
    ensures Escape(0x2029 as char) == ['\\', 'u', '2', '0', '2', '9']
    ensures Escape(0 as char) == ['\\', 'u', '0', '0', '0', '0']
    ensures Escape(0x1f as char) == ['\\', 'u', '0', '0', '1', 'f']
  {
    HexDigits();
    hide HexDigit;
  }

  // ----- Reading -----

  predicate Surrogate(n: int) {
    0xD800 <= n < 0xE000
  }

  function ParseUnicode(s: string): (r: Option<(char, string)>)
    requires |s| >= 2
    ensures r.Some? ==> |r.value.1| < |s|
  {
    if |s| < 6 then None
    else
      var a, b, c, d := HexValue(s[2]), HexValue(s[3]), HexValue(s[4]), HexValue(s[5]);
      if a.None? || b.None? || c.None? || d.None? then None
      else
        var n := a.value * 4096 + b.value * 256 + c.value * 16 + d.value;
        if Surrogate(n) || n >= 0x1_0000 then None else Some((n as char, s[6..]))
  }

  /** The character an escape's letter stands for. */
  function Unescape(c: char): Option<char> {
    match c
    case '"' => Some('"')
    case '\\' => Some('\\')
    case '/' => Some('/')
    case 'b' => Some(8 as char)
    case 'f' => Some(12 as char)
    case 'n' => Some('\n')
    case 'r' => Some('\r')
    case 't' => Some('\t')
    case _ => None
  }

  /** One character of a string literal. */
  function ParseChar(s: string): (r: Option<(char, string)>)
    ensures r.Some? ==> |r.value.1| < |s|
  {
    if s == "" || s[0] == '"' || s[0] < ' ' then None
    else if s[0] != '\\' then Some((s[0], s[1..]))
    else if |s| == 1 then None
    else if s[1] == 'u' then ParseUnicode(s)
    else if Unescape(s[1]).Some? then Some((Unescape(s[1]).value, s[2..]))
    else None
  }

  /** The rest of a string literal after its opening quote. */
  function ParseChars(s: string): (r: Option<(string, string)>)
    ensures r.Some? ==> |r.value.1| < |s|
    decreases |s|
  {
    if s != "" && s[0] == '"' then Some(("", s[1..]))
    else
      var c := ParseChar(s);
      if c.None? then None
      else
        var more := ParseChars(c.value.1);
        if more.None? then None else Some(([c.value.0] + more.value.0, more.value.1))
  }

  // ----- Round trip -----

  lemma HexPlaces(n: nat)
    requires n < 0x1_0000
    ensures n == n / 4096 * 4096 + n / 256 % 16 * 256 + n / 16 % 16 * 16 + n % 16
  {
    assert n / 256 == n / 16 / 16 && n / 4096 == n / 256 / 16;
  }

  lemma DigitsRoundTrip(a: nat, b: nat, c: nat, d: nat, n: nat, rest: string)
    requires a < 16 && b < 16 && c < 16 && d < 16 && n == a * 4096 + b * 256 + c * 16 + d && !Surrogate(n)
    ensures ParseChar(['\\', 'u', HexDigit(a), HexDigit(b), HexDigit(c), HexDigit(d)] + rest) == Some((n as char, rest))
  {
    hide HexDigit, HexValue;
    HexRoundTrip(a);
    HexRoundTrip(b);
    HexRoundTrip(c);
    HexRoundTrip(d);
    var s := ['\\', 'u', HexDigit(a), HexDigit(b), HexDigit(c), HexDigit(d)] + rest;
    assert s[6..] == rest;
    assert ParseChar(s) == ParseUnicode(s);
  }

  lemma UnicodeRoundTrip(n: nat, rest: string)
    requires n < 0x1_0000 && !Surrogate(n)
    ensures ParseChar(UnicodeEscape(n) + rest) == Some((n as char, rest))
  {
    hide HexDigit;
    HexPlaces(n);
    DigitsRoundTrip(n / 4096, n / 256 % 16, n / 16 % 16, n % 16, n, rest);
  }

  lemma EscapeRoundTrip(c: char, rest: string)
    ensures ParseChar(Escape(c) + rest) == Some((c, rest))
    ensures Escape(c) != "" && Escape(c)[0] != '"'
  {
    if |Escape(c)| == 6 {
      UnicodeRoundTrip(c as int, rest);
    } else if |Escape(c)| == 2 {
      assert (Escape(c) + rest)[2..] == rest;
    } else {
      assert ([c] + rest)[1..] == rest;
    }
  }

  lemma OneChar(s: string, c: char, below: string, chars: string, rest: string)
    requires s != "" && s[0] != '"' && ParseChar(s) == Some((c, below)) && ParseChars(below) == Some((chars, rest))
    ensures ParseChars(s) == Some(([c] + chars, rest))
  {
    hide ParseChar;
  }

  lemma {:induction false} CharsRoundTrip(s: string, rest: string)
    ensures ParseChars(Escaped(s) + "\"" + rest) == Some((s, rest))
  {
    if s == "" {
      assert ("\"" + rest)[1..] == rest;
      assert Escaped(s) + "\"" + rest == "\"" + rest;
    } else {
      hide Escape, ParseChar, ParseChars;
      var tail := Escaped(s[1..]) + "\"" + rest;
      assert Escaped(s) + "\"" + rest == Escape(s[0]) + tail;
      EscapeRoundTrip(s[0], tail);
      CharsRoundTrip(s[1..], rest);
      OneChar(Escape(s[0]) + tail, s[0], tail, s[1..], rest);
      assert s == [s[0]] + s[1..];
    }
  }
}
