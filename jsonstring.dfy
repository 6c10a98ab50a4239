/**
 * JSON string literals: the encoder `JSON.stringify` applies to a string and a
 * decoder for the literal `JSON.parse` accepts. The text drafts are stored
 * through this pair, and decoding an encoded string gives the string back.
 */
module JsonString {
  import opened Wrappers

  /** The lower-case hexadecimal digit for `d`. */
  function HexDigit(d: nat): (c: char)
    requires d < 16
  {
    if d < 10 then (48 + d) as char else (87 + d) as char
  }

  /** The value of a hexadecimal digit of either case, or -1. */
  function HexValue(c: char): (v: int)
    ensures -1 <= v < 16
  {
    if '0' <= c <= '9' then c as int - 48
    else if 'a' <= c <= 'f' then c as int - 87
    else if 'A' <= c <= 'F' then c as int - 55
    else -1
  }

  /** The value of four hexadecimal digits, or -1 when one of them is not a digit. */
  function Hex4(t: string): (v: int)
    requires |t| == 4
    ensures -1 <= v < 0x1_0000
  {
    var a, b, c, d := HexValue(t[0]), HexValue(t[1]), HexValue(t[2]), HexValue(t[3]);
    if a < 0 || b < 0 || c < 0 || d < 0 then -1 else ((a * 16 + b) * 16 + c) * 16 + d
  }

  /** How `JSON.stringify` writes one character inside a string literal. */
  function EscapeChar(c: char): string
  {
    if c == '"' then ['\\', '"']
    else if c == '\\' then ['\\', '\\']
    else if c == 8 as char then ['\\', 'b']
    else if c == '\t' then ['\\', 't']
    else if c == '\n' then ['\\', 'n']
    else if c == 12 as char then ['\\', 'f']
    else if c == '\r' then ['\\', 'r']
    else if c < 32 as char then ['\\', 'u', '0', '0', HexDigit(c as int / 16), HexDigit(c as int % 16)]
    else [c]
  }

  function Escape(s: string): string
  {
    if s == [] then [] else EscapeChar(s[0]) + Escape(s[1..])
  }

  /** `JSON.stringify(s)` for a string `s`: the escaped text between double quotes. */
  function Quote(s: string): (r: string)
    ensures |r| >= 2 && r[0] == '"' && r[|r| - 1] == '"'
  {
    ['"'] + Escape(s) + ['"']
  }

  function Prepend(c: char, rest: Option<string>): Option<string>
  {
    match rest
    case None => None
    case Some(t) => Some([c] + t)
  }

  /** The character a one-letter escape `\x` stands for, when `x` is one of `"\/bfnrt`. */
  function ShortEscape(x: char): Option<char>
  {
    if x == '"' then Some('"')
    else if x == '\\' then Some('\\')
    else if x == '/' then Some('/')
    else if x == 'b' then Some(8 as char)
    else if x == 'f' then Some(12 as char)
    else if x == 'n' then Some('\n')
    else if x == 'r' then Some('\r')
    else if x == 't' then Some('\t')
    else None
  }

  /**
   * Decodes the body of a JSON string literal (the text between the quotes).
   * An unescaped quote or control character, a malformed escape and a lone
   * surrogate escape are rejected; a surrogate pair escape gives one character.
   */
  function DecodeBody(t: string): Option<string>
    decreases |t|
  {
    if t == [] then Some([])
    else if t[0] == '"' || t[0] < 32 as char then None
    else if t[0] != '\\' then Prepend(t[0], DecodeBody(t[1..]))
    else if |t| < 2 then None
    else if t[1] != 'u' then
      match ShortEscape(t[1])
      case None => None
      case Some(c) => Prepend(c, DecodeBody(t[2..]))
    else if |t| < 6 then None
    else
      var code := Hex4(t[2..6]);
      if code < 0 then None
      else if code < 0xD800 || code > 0xDFFF then Prepend(code as char, DecodeBody(t[6..]))
      else if code >= 0xDC00 || |t| < 12 || t[6] != '\\' || t[7] != 'u' then None
      else
        var low := Hex4(t[8..12]);
        if low < 0xDC00 || low > 0xDFFF then None
        else Prepend((0x1_0000 + (code - 0xD800) * 0x400 + (low - 0xDC00)) as char, DecodeBody(t[12..]))
  }

  /** The whitespace `JSON.parse` skips around a value. */
  predicate IsJsonSpace(c: char)
  {
    c == ' ' || c == '\t' || c == '\n' || c == '\r'
  }

  function SkipJsonSpace(t: string): string
  {
    if t != [] && IsJsonSpace(t[0]) then SkipJsonSpace(t[1..]) else t
  }

  function DropJsonSpaceEnd(t: string): string
  {
    if t != [] && IsJsonSpace(t[|t| - 1]) then DropJsonSpaceEnd(t[..|t| - 1]) else t
  }

  /**
   * `JSON.parse(raw)` when the result is a string: `None` when `raw` is not a
   * JSON string literal (possibly surrounded by JSON whitespace).
   */
  function ParseStringLiteral(raw: string): Option<string>
  {
    var t := DropJsonSpaceEnd(SkipJsonSpace(raw));
    if |t| >= 2 && t[0] == '"' && t[|t| - 1] == '"' then DecodeBody(t[1..|t| - 1]) else None
  }

  lemma HexDigitValue(d: nat)
    requires d < 16
    ensures HexValue(HexDigit(d)) == d
  {
  }

  /** A control character written as `\u00XY` decodes to itself. */
  lemma ControlEscapeDecodes(c: char, rest: string)
    requires |EscapeChar(c)| == 6
    ensures DecodeBody(EscapeChar(c) + rest) == Prepend(c, DecodeBody(rest))
  {
    var hi, lo := c as int / 16, c as int % 16;
    HexDigitValue(hi);
    HexDigitValue(lo);
    var t := EscapeChar(c) + rest;
    assert t[2..6] == ['0', '0', HexDigit(hi), HexDigit(lo)];
    assert Hex4(t[2..6]) == hi * 16 + lo == c as int;
    assert t[6..] == rest;
  }

  /** A two-character escape decodes to the character it stands for. */
  lemma ShortEscapeDecodes(c: char, rest: string)
    requires |EscapeChar(c)| == 2
    ensures DecodeBody(EscapeChar(c) + rest) == Prepend(c, DecodeBody(rest))
  {
    var t := EscapeChar(c) + rest;
    assert t[0] == '\\' && t[1] != 'u';
    assert ShortEscape(t[1]) == Some(c);
    assert t[2..] == rest;
  }

  lemma EscapeCharDecodes(c: char, rest: string)
    ensures DecodeBody(EscapeChar(c) + rest) == Prepend(c, DecodeBody(rest))
  {
    var e := EscapeChar(c);
    if |e| == 1 {
      assert (e + rest)[1..] == rest;
    } else if |e| == 2 {
      ShortEscapeDecodes(c, rest);
    } else {
      ControlEscapeDecodes(c, rest);
    }
  }

  /** Decoding the escaped text of a string gives the string back. */
  lemma {:induction false} EscapeDecodes(s: string)
    ensures DecodeBody(Escape(s)) == Some(s)
  {
    if s != [] {
      EscapeDecodes(s[1..]);
      EscapeCharDecodes(s[0], Escape(s[1..]));
      assert [s[0]] + s[1..] == s;
    }
  }

  /** `JSON.parse(JSON.stringify(s)) === s` for every string `s`. */
  lemma QuoteRoundTrip(s: string)
    ensures ParseStringLiteral(Quote(s)) == Some(s)
  {
    var q := Quote(s);
    assert SkipJsonSpace(q) == q;
    assert DropJsonSpaceEnd(q) == q;
    assert q[1..|q| - 1] == Escape(s);
    EscapeDecodes(s);
  }

  /** Different strings are stored as different texts. */
  lemma QuoteInjective(s: string, t: string)
    requires Quote(s) == Quote(t)
    ensures s == t
  {
    QuoteRoundTrip(s);
    QuoteRoundTrip(t);
  }
}
