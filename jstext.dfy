/**
 * The JavaScript string operations the application relies on, over strings
 * modelled as sequences of Unicode scalar values: `trim`, `substring`,
 * `endsWith`, `includes`, an ASCII `toLowerCase`, `join`, and the decimal
 * rendering of a non-negative integer.
 */
module JsText {

  /** WhiteSpace or LineTerminator in the sense of ECMAScript, the set `trim` strips. */
  predicate IsWhitespace(c: char)
  {
    c == ' ' || c == '\t' || c == '\n' || c == '\r'
    || c == 0x0B as char || c == 0x0C as char || c == 0xA0 as char
    || c == 0x1680 as char || (0x2000 as char <= c <= 0x200A as char)
    || c == 0x2028 as char || c == 0x2029 as char || c == 0x202F as char
    || c == 0x205F as char || c == 0x3000 as char || c == 0xFEFF as char
  }

  /** A string that `trim` turns into the empty string. */
  predicate IsBlank(s: string)
  {
    forall i :: 0 <= i < |s| ==> IsWhitespace(s[i])
  }

  function TrimStart(s: string): string
  {
    if s != [] && IsWhitespace(s[0]) then TrimStart(s[1..]) else s
  }

  function TrimEnd(s: string): string
  {
    if s != [] && IsWhitespace(s[|s| - 1]) then TrimEnd(s[..|s| - 1]) else s
  }

  /** `String.prototype.trim`. */
  function Trim(s: string): string
  {
    TrimEnd(TrimStart(s))
  }

  lemma {:induction false} TrimStartEmptyIffBlank(s: string)
    ensures TrimStart(s) == [] <==> IsBlank(s)
  {
    if s != [] && IsWhitespace(s[0]) {
      TrimStartEmptyIffBlank(s[1..]);
      assert IsBlank(s[1..]) <==> IsBlank(s) by {
        if IsBlank(s[1..]) {
          forall i | 0 <= i < |s| ensures IsWhitespace(s[i]) {
            if i > 0 { assert s[i] == s[1..][i - 1]; }
          }
        }
      }
    }
  }

  lemma {:induction false} TrimEndEmptyIffEmpty(s: string)
    ensures TrimEnd(s) == [] <==> IsBlank(s)
  {
    if s != [] && IsWhitespace(s[|s| - 1]) {
      TrimEndEmptyIffEmpty(s[..|s| - 1]);
      assert IsBlank(s[..|s| - 1]) <==> IsBlank(s) by {
        if IsBlank(s[..|s| - 1]) {
          forall i | 0 <= i < |s| ensures IsWhitespace(s[i]) {
            if i < |s| - 1 { assert s[i] == s[..|s| - 1][i]; }
          }
        }
      }
    }
  }

  lemma {:induction false} TrimStartIsSuffix(s: string)
    ensures |TrimStart(s)| <= |s| && TrimStart(s) == s[|s| - |TrimStart(s)|..]
  {
    if s != [] && IsWhitespace(s[0]) {
      TrimStartIsSuffix(s[1..]);
    }
  }

  /** `s.trim() === ''` holds exactly for strings made only of whitespace. */
  lemma TrimEmptyIffBlank(s: string)
    ensures Trim(s) == [] <==> IsBlank(s)
  {
    TrimStartEmptyIffBlank(s);
    TrimStartIsSuffix(s);
    TrimStartFirstNotSpace(s);
    var t := TrimStart(s);
    TrimEndEmptyIffEmpty(t);
  }

  lemma {:induction false} TrimStartFirstNotSpace(s: string)
    ensures TrimStart(s) != [] ==> !IsWhitespace(TrimStart(s)[0])
  {
    if s != [] && IsWhitespace(s[0]) {
      TrimStartFirstNotSpace(s[1..]);
    }
  }

  /** `String.prototype.substring(a, b)` on non-negative offsets: both are clamped to the length, then swapped if out of order. */
  function Substring(s: string, a: nat, b: nat): (r: string)
    ensures a <= b <= |s| ==> r == s[a..b]
    ensures |r| <= |s|
  {
    var x := if a <= |s| then a else |s|;
    var y := if b <= |s| then b else |s|;
    if x <= y then s[x..y] else s[y..x]
  }

  /** `s.substring(a)`: the suffix from the clamped offset. */
  function SubstringFrom(s: string, a: nat): (r: string)
    ensures a <= |s| ==> r == s[a..]
    ensures a > |s| ==> r == []
  {
    Substring(s, a, |s|)
  }

  /** `s.endsWith(suffix)`. */
  predicate EndsWith(s: string, suffix: string)
  {
    |suffix| <= |s| && s[|s| - |suffix|..] == suffix
  }

  /** `toLowerCase` restricted to ASCII letters; other characters are kept. */
  function LowerAscii(s: string): (r: string)
    ensures |r| == |s|
    ensures forall i :: 0 <= i < |s| && !('A' <= s[i] <= 'Z') ==> r[i] == s[i]
    ensures forall i :: 0 <= i < |s| ==> !('A' <= r[i] <= 'Z')
  {
    seq(|s|, i requires 0 <= i < |s| => LowerChar(s[i]))
  }

  function LowerChar(c: char): char
  {
    if 'A' <= c <= 'Z' then (c as int + 32) as char else c
  }

  /** `s.includes(sub)`, searching left to right. */
  function Includes(s: string, sub: string): bool
  {
    if |sub| > |s| then false
    else if s[..|sub|] == sub then true
    else Includes(s[1..], sub)
  }

  /** `sub` occurs in `s` starting at offset `i`. */
  predicate OccursAt(s: string, sub: string, i: nat)
  {
    i + |sub| <= |s| && s[i..i + |sub|] == sub
  }

  /** `Includes` is exactly "occurs at some offset". */
  lemma {:induction false} IncludesIffOccurs(s: string, sub: string)
    ensures Includes(s, sub) <==> exists i: nat :: OccursAt(s, sub, i)
  {
    if |sub| > |s| {
    } else if s[..|sub|] == sub {
      assert OccursAt(s, sub, 0);
    } else {
      IncludesIffOccurs(s[1..], sub);
      if exists i: nat :: OccursAt(s, sub, i) {
        var i: nat :| OccursAt(s, sub, i);
        assert i != 0;
        assert s[1..][i - 1..i - 1 + |sub|] == s[i..i + |sub|];
        assert OccursAt(s[1..], sub, i - 1);
      }
      if exists j: nat :: OccursAt(s[1..], sub, j) {
        var j: nat :| OccursAt(s[1..], sub, j);
        assert s[1..][j..j + |sub|] == s[j + 1..j + 1 + |sub|];
        assert OccursAt(s, sub, j + 1);
      }
    }
  }

  /** `parts.join(sep)`. */
  function Join(parts: seq<string>, sep: string): string
  {
    if parts == [] then []
    else if |parts| == 1 then parts[0]
    else parts[0] + sep + Join(parts[1..], sep)
  }

  /** An occurrence stays an occurrence when text is added on either side. */
  lemma OccursAtExtend(x: string, y: string, z: string, sub: string, j: nat)
    requires OccursAt(y, sub, j)
    ensures OccursAt(x + y + z, sub, |x| + j)
  {
    assert (x + y + z)[|x| + j..|x| + j + |sub|] == y[j..j + |sub|];
  }

  /**
   * Every part of a join follows a separator, or the `lead` text put before
   * the join when it is the first part: `lead + parts[i]` occurs in
   * `lead + parts.join(c + lead)`.
   */
  lemma {:induction false} JoinShowsPart(parts: seq<string>, c: string, lead: string, i: nat)
    requires i < |parts|
    ensures exists j: nat :: OccursAt(lead + Join(parts, c + lead), lead + parts[i], j)
    decreases i
  {
    var sep := c + lead;
    if i == 0 {
      if |parts| == 1 {
        assert OccursAt(lead + Join(parts, sep), lead + parts[0], 0);
      } else {
        assert lead + Join(parts, sep) == (lead + parts[0]) + (sep + Join(parts[1..], sep));
        assert OccursAt(lead + Join(parts, sep), lead + parts[0], 0);
      }
    } else {
      JoinShowsPart(parts[1..], c, lead, i - 1);
      var j: nat :| OccursAt(lead + Join(parts[1..], sep), lead + parts[1..][i - 1], j);
      assert parts[1..][i - 1] == parts[i];
      assert lead + Join(parts, sep) == (lead + parts[0] + c) + (lead + Join(parts[1..], sep)) + [];
      OccursAtExtend(lead + parts[0] + c, lead + Join(parts[1..], sep), [], lead + parts[i], j);
    }
  }

  /** The decimal rendering of a non-negative integer, as `String(n)` gives it. */
  function NatToString(n: nat): (r: string)
    ensures r != [] && forall i :: 0 <= i < |r| ==> '0' <= r[i] <= '9'
  {
    if n < 10 then [DigitChar(n)] else NatToString(n / 10) + [DigitChar(n % 10)]
  }

  function DigitChar(d: nat): (c: char)
    requires d < 10
    ensures '0' <= c <= '9'
  {
    (48 + d) as char
  }
}
