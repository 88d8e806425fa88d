/** Percent encoding of path segments and query components, as Go's net/url
    package does it on bytes. Escaping is undone by unescaping. */
module Percent {
  import opened Common

  type Byte = x: int | 0 <= x < 256
  type Bytes = seq<Byte>

  const SPACE: Byte := 32
  const PERCENT: Byte := 37
  const AMPERSAND: Byte := 38
  const PLUS: Byte := 43
  const SLASH: Byte := 47
  const SEMICOLON: Byte := 59
  const EQUALS: Byte := 61

  datatype Mode = PathSegment | QueryComponent

  predicate IsAlphaNumeric(b: Byte) {
    48 <= b <= 57 || 65 <= b <= 90 || 97 <= b <= 122
  }

  // '-', '.', '_' and '~' are never escaped; '$', '&', '+', ':', '=' and '@'
  // stand for themselves in a path segment only.
  predicate Plain(b: Byte, mode: Mode) {
    IsAlphaNumeric(b) || b == 45 || b == 46 || b == 95 || b == 126
    || (mode.PathSegment? && (b == 36 || b == AMPERSAND || b == PLUS || b == 58 || b == EQUALS || b == 64))
  }

  function HexDigit(n: int): Byte
    requires 0 <= n < 16
  {
    if n < 10 then 48 + n else 55 + n
  }

  function HexValue(b: Byte): Option<int> {
    if 48 <= b <= 57 then Some(b - 48)
    else if 97 <= b <= 102 then Some(b - 87)
    else if 65 <= b <= 70 then Some(b - 55)
    else None
  }

  function EscapeByte(b: Byte, mode: Mode): Bytes {
    if Plain(b, mode) then [b]
    else if b == SPACE && mode.QueryComponent? then [PLUS]
    else [PERCENT, HexDigit(b / 16), HexDigit(b % 16)]
  }

  function Escape(s: Bytes, mode: Mode): Bytes {
    if s == [] then [] else EscapeByte(s[0], mode) + Escape(s[1..], mode)
  }

  // None for a malformed escape.
  function Unescape(s: Bytes, mode: Mode): Option<Bytes> {
    if s == [] then Some([])
    else if s[0] == PERCENT then
      if |s| < 3 || HexValue(s[1]).None? || HexValue(s[2]).None? then None
      else
        match Unescape(s[3..], mode)
        case None => None
        case Some(rest) => Some([16 * HexValue(s[1]).value + HexValue(s[2]).value] + rest)
    else
      match Unescape(s[1..], mode)
      case None => None
      case Some(rest) => Some([if s[0] == PLUS && mode.QueryComponent? then SPACE else s[0]] + rest)
  }

  lemma UnescapeByte(b: Byte, s: Bytes, mode: Mode)
    ensures Unescape(EscapeByte(b, mode) + s, mode)
            == match Unescape(s, mode) case None => None case Some(rest) => Some([b] + rest)
  {
    var e := EscapeByte(b, mode) + s;
    if Plain(b, mode) || (b == SPACE && mode.QueryComponent?) {
      assert e[1..] == s;
    } else {
      assert e[3..] == s;
      assert HexValue(HexDigit(b / 16)) == Some(b / 16) && HexValue(HexDigit(b % 16)) == Some(b % 16);
    }
  }

  // Escapes may be written with small letters too.
  lemma SmallLettersDecode(b: Byte, s: Bytes, mode: Mode)
    requires Unescape(s, mode).Some?
    ensures var digit := (n: int) => if n < 10 then 48 + n else 87 + n;
            Unescape([PERCENT, digit(b / 16), digit(b % 16)] + s, mode) == Some([b] + Unescape(s, mode).value)
  {
    var digit := (n: int) => if n < 10 then 48 + n else 87 + n;
    var e: Bytes := [PERCENT, digit(b / 16), digit(b % 16)] + s;
    assert e[3..] == s && HexValue(e[1]) == Some(b / 16) && HexValue(e[2]) == Some(b % 16);
  }

  // Unescaping undoes escaping.
  lemma {:induction false} UnescapeEscape(s: Bytes, mode: Mode)
    ensures Unescape(Escape(s, mode), mode) == Some(s)
  {
    if s != [] {
      UnescapeEscape(s[1..], mode);
      UnescapeByte(s[0], Escape(s[1..], mode), mode);
      assert [s[0]] + s[1..] == s;
    }
  }

  // Escaped text holds no delimiter of its place.
  lemma {:induction false} EscapedHasNoDelimiter(s: Bytes, mode: Mode)
    ensures SLASH !in Escape(s, mode) && SEMICOLON !in Escape(s, mode)
    ensures mode.QueryComponent? ==> AMPERSAND !in Escape(s, mode) && EQUALS !in Escape(s, mode)
    ensures EQUALS in Escape(s, mode) ==> EQUALS in s
  {
    if s != [] { EscapedHasNoDelimiter(s[1..], mode); }
  }

  lemma Regroup(x: Bytes, a: Bytes, b: Bytes)
    ensures x + (a + [EQUALS] + b) == x + a + [EQUALS] + b
  {
  }

  // An equals sign is not part of an escape: the two sides decode apart.
  lemma {:induction false} UnescapeAtEquals(a: Bytes, b: Bytes, mode: Mode)
    ensures Unescape(a + [EQUALS] + b, mode)
         == if Unescape(a, mode).None? || Unescape(b, mode).None? then None
            else Some(Unescape(a, mode).value + [EQUALS] + Unescape(b, mode).value)
  {
    var s := a + [EQUALS] + b;
    if a == [] {
      assert s[1..] == b && forall rest: Bytes :: [] + [EQUALS] + rest == [EQUALS] + rest;
    } else if a[0] != PERCENT {
      UnescapeAtEquals(a[1..], b, mode);
      assert s[1..] == a[1..] + [EQUALS] + b;
      if Unescape(s, mode).Some? {
        Regroup([Unescape(s, mode).value[0]], Unescape(a[1..], mode).value, Unescape(b, mode).value);
      }
    } else if |a| >= 3 {
      UnescapeAtEquals(a[3..], b, mode);
      assert s[3..] == a[3..] + [EQUALS] + b;
      if Unescape(s, mode).Some? {
        Regroup([Unescape(s, mode).value[0]], Unescape(a[3..], mode).value, Unescape(b, mode).value);
      }
    } else {
      assert s[|a|] == EQUALS && HexValue(EQUALS).None?;
    }
  }
}
