/**
 * `JSON.stringify` applied to a string, and a decoder for the string literals of
 * section 7 of RFC 8259 that serves as its independent partner: decoding the
 * quoted form gives the original string back.
 */
module JsonString {
  import opened Wrappers

  /** Lower-case hexadecimal digit, as the `\u00XX` escapes of `JSON.stringify` use. */
  function HexDigit(d: nat): (c: char)
    requires d < 16
  {
    if d < 10 then ('0' as int + d) as char else ('a' as int + d - 10) as char
  }

  function HexValue(c: char): (r: Option<nat>)
    ensures r.Some? ==> r.value < 16
  {
    if '0' <= c <= '9' then Some(c as int - '0' as int)
    else if 'a' <= c <= 'f' then Some(c as int - 'a' as int + 10)
    else if 'A' <= c <= 'F' then Some(c as int - 'A' as int + 10)
    else None
  }

  lemma HexDigitValue(d: nat)
    requires d < 16
    ensures HexValue(HexDigit(d)) == Some(d)
  {
  }

  /** The value of the four hexadecimal digits of a `\uXXXX` escape. */
  function Hex4(s: string): (r: Option<nat>)
    requires |s| == 4
    ensures r.Some? ==> r.value < 0x10000
  {
    match (HexValue(s[0]), HexValue(s[1]), HexValue(s[2]), HexValue(s[3]))
    case (Some(a), Some(b), Some(c), Some(d)) => Some(((a * 16 + b) * 16 + c) * 16 + d)
    case _ => None
  }

  predicate IsControl(c: char) {
    c < ' '
  }

  predicate NoControlChars(s: string) {
    forall i :: 0 <= i < |s| ==> !IsControl(s[i])
  }

  /** How `JSON.stringify` writes one character of a string. */
  function EscapeChar(c: char): (r: string)
    ensures |r| >= 1 && NoControlChars(r)
  {
    if c == '"' then ['\\', '"']
    else if c == '\\' then ['\\', '\\']
    else if c as int == 8 then ['\\', 'b']
    else if c == '\t' then ['\\', 't']
    else if c == '\n' then ['\\', 'n']
    else if c as int == 12 then ['\\', 'f']
    else if c == '\r' then ['\\', 'r']
    else if IsControl(c) then ['\\', 'u', '0', '0', HexDigit(c as int / 16), HexDigit(c as int % 16)]
    else [c]
  }

  function Escape(s: string): (r: string)
    ensures |r| >= |s| && NoControlChars(r)
    decreases |s|
  {
    if s == [] then [] else EscapeChar(s[0]) + Escape(s[1..])
  }

  /** `JSON.stringify(s)` for a string `s`: a quoted literal without raw control characters. */
  function Quote(s: string): (r: string)
    ensures |r| >= |s| + 2
    ensures r[0] == '"' && r[|r| - 1] == '"'
    ensures NoControlChars(r) && '\n' !in r
  {
    var r := ['"'] + Escape(s) + ['"'];
    forall i | 0 <= i < |r| ensures !IsControl(r[i]) {
      if 0 < i < |r| - 1 { assert r[i] == Escape(s)[i - 1]; }
    }
    assert IsControl('\n');
    r
  }

  /** The character a one-letter escape `\e` stands for. */
  function SimpleEscape(e: char): Option<char> {
    if e == '"' then Some('"')
    else if e == '\\' then Some('\\')
    else if e == '/' then Some('/')
    else if e == 'b' then Some(8 as char)
    else if e == 'f' then Some(12 as char)
    else if e == 'n' then Some('\n')
    else if e == 'r' then Some('\r')
    else if e == 't' then Some('\t')
    else None
  }

  function Prepend(c: char, o: Option<string>): Option<string> {
    match o
    case None => None
    case Some(t) => Some([c] + t)
  }

  /**
   * Decodes the rest of a string literal after its opening quotation mark; the
   * closing mark must be the last character. Pairs of surrogate escapes are not
   * combined (the encoder above never writes one).
   */
  function Body(t: string): Option<string>
    decreases |t|
  {
    if t == [] then None
    else if t[0] == '"' then (if |t| == 1 then Some([]) else None)
    else if t[0] == '\\' then
      if |t| < 2 then None
      else if t[1] == 'u' then
        if |t| < 6 then None
        else match Hex4(t[2..6])
          case Some(v) => if v < 0xD800 || 0xDFFF < v then Prepend(v as char, Body(t[6..])) else None
          case None => None
      else match SimpleEscape(t[1])
        case Some(c) => Prepend(c, Body(t[2..]))
        case None => None
    else if IsControl(t[0]) then None
    else Prepend(t[0], Body(t[1..]))
  }

  /** Decodes a JSON string literal (section 7 of RFC 8259). */
  function Unquote(t: string): Option<string> {
    if |t| >= 1 && t[0] == '"' then Body(t[1..]) else None
  }

  /** Decoding reads back exactly one escaped character. */
  lemma EscapeCharRead(c: char, rest: string)
    ensures Body(EscapeChar(c) + rest) == Prepend(c, Body(rest))
  {
    var t := EscapeChar(c) + rest;
    if IsControl(c) && c as int != 8 && c != '\t' && c != '\n' && c as int != 12 && c != '\r' {
      HexDigitValue(c as int / 16);
      HexDigitValue(c as int % 16);
      assert t[2..6] == ['0', '0', HexDigit(c as int / 16), HexDigit(c as int % 16)];
      assert t[6..] == rest;
    } else if |EscapeChar(c)| == 2 {
      assert t[2..] == rest;
    } else {
      assert t[1..] == rest;
    }
  }

  lemma {:induction false} BodyOfEscape(s: string)
    ensures Body(Escape(s) + ['"']) == Some(s)
    decreases |s|
  {
    if s != [] {
      assert Escape(s) + ['"'] == EscapeChar(s[0]) + (Escape(s[1..]) + ['"']);
      EscapeCharRead(s[0], Escape(s[1..]) + ['"']);
      BodyOfEscape(s[1..]);
      assert [s[0]] + s[1..] == s;
    }
  }

  /** Round trip: decoding what `JSON.stringify` wrote reproduces the string. */
  lemma QuoteRoundTrip(s: string)
    ensures Unquote(Quote(s)) == Some(s)
  {
    assert Quote(s)[1..] == Escape(s) + ['"'];
    BodyOfEscape(s);
  }
}
