/**
 * `Uri.EscapeDataString` on ASCII input: every character outside the
 * unreserved set of section 2.3 of RFC 3986 is replaced by its percent-encoded
 * form `%HH` (section 2.1 of RFC 3986, upper-case hexadecimal).  The decoder
 * beside it is the receiving side's view and is proved to undo the encoder.
 */
module PercentEncoding {
  import opened Wrappers
  import opened Text

  /** Section 2.3 of RFC 3986: ALPHA / DIGIT / "-" / "." / "_" / "~". */
  predicate IsUnreserved(c: char) {
    || ('A' <= c <= 'Z') || ('a' <= c <= 'z') || ('0' <= c <= '9')
    || c == '-' || c == '.' || c == '_' || c == '~'
  }

  predicate IsUpperHexDigit(c: char) {
    ('0' <= c <= '9') || ('A' <= c <= 'F')
  }

  /** A character that can appear in the encoder's output. */
  predicate IsEscapedChar(c: char) {
    IsUnreserved(c) || c == '%' || IsUpperHexDigit(c)
  }

  function HexDigit(d: nat): (c: char)
    requires d < 16
    ensures IsUpperHexDigit(c)
  {
    if d < 10 then ('0' as int + d) as char else ('A' as int + d - 10) as char
  }

  /** The value of a hexadecimal digit of either case. */
  function HexValue(c: char): Option<nat>
  {
    if '0' <= c <= '9' then Some(c as int - '0' as int)
    else if 'A' <= c <= 'F' then Some(c as int - 'A' as int + 10)
    else if 'a' <= c <= 'f' then Some(c as int - 'a' as int + 10)
    else None
  }

  /** One character: itself when unreserved, otherwise `%HH` of its code. */
  function EscapeChar(c: char): string
    requires c as int < 128
  {
    if IsUnreserved(c) then [c] else ['%', HexDigit(c as int / 16), HexDigit(c as int % 16)]
  }

  /** `Uri.EscapeDataString` for an ASCII string. */
  function EscapeDataString(s: AsciiString): (r: string)
    ensures forall i :: 0 <= i < |r| ==> IsEscapedChar(r[i])
    ensures '&' !in r && '=' !in r && '+' !in r && ':' !in r && '/' !in r
    ensures |s| <= |r| <= 3 * |s|
  {
    if |s| == 0 then "" else EscapeChar(s[0]) + EscapeDataString(s[1..])
  }

  /** Percent-decoding: `%HH` (either case) becomes the character with that
      code, any other character stands for itself; a `%` that is not followed
      by two hexadecimal digits is rejected. */
  function UnescapeDataString(s: string): Option<string>
  {
    if |s| == 0 then Some("")
    else if s[0] == '%' then
      if |s| >= 3 && HexValue(s[1]).Some? && HexValue(s[2]).Some? then
        match UnescapeDataString(s[3..])
        case Some(rest) => Some([(HexValue(s[1]).value * 16 + HexValue(s[2]).value) as char] + rest)
        case None => None
      else None
    else
      match UnescapeDataString(s[1..])
      case Some(rest) => Some([s[0]] + rest)
      case None => None
  }

  // ---------------------------------------------------------------------------
  // Properties
  // ---------------------------------------------------------------------------

  /** Decoding one encoded character in front of some text. */
  lemma UnescapeEscapeChar(c: char, tail: string)
    requires c as int < 128
    ensures UnescapeDataString(EscapeChar(c) + tail) ==
      match UnescapeDataString(tail)
      case Some(rest) => Some([c] + rest)
      case None => None
  {
    var e := EscapeChar(c) + tail;
    if IsUnreserved(c) {
      assert e[0] == c && e[1..] == tail;
    } else {
      var hi, lo := c as int / 16, c as int % 16;
      assert e[0] == '%' && e[1] == HexDigit(hi) && e[2] == HexDigit(lo) && e[3..] == tail;
      assert HexValue(HexDigit(hi)) == Some(hi);
      assert HexValue(HexDigit(lo)) == Some(lo);
      assert (hi * 16 + lo) as char == c;
    }
  }

  /** Decoding undoes encoding: the encoder loses nothing. */
  lemma {:induction false} UnescapeEscape(s: AsciiString)
    ensures UnescapeDataString(EscapeDataString(s)) == Some(s)
  {
    if |s| > 0 {
      UnescapeEscape(s[1..]);
      UnescapeEscapeChar(s[0], EscapeDataString(s[1..]));
      assert [s[0]] + s[1..] == s;
    }
  }

  /** Different data strings never share an encoding. */
  lemma EscapeInjective(a: AsciiString, b: AsciiString)
    requires EscapeDataString(a) == EscapeDataString(b)
    ensures a == b
  {
    UnescapeEscape(a);
    UnescapeEscape(b);
  }

  /** Encoding distributes over concatenation. */
  lemma {:induction false} EscapeAppend(a: AsciiString, b: AsciiString)
    ensures IsAscii(a + b)
    ensures EscapeDataString(a + b) == EscapeDataString(a) + EscapeDataString(b)
  {
    if |a| == 0 {
      assert a + b == b;
    } else {
      assert (a + b)[1..] == a[1..] + b;
      EscapeAppend(a[1..], b);
    }
  }

  /** A string is left unchanged exactly when it is made of unreserved characters. */
  lemma {:induction false} EscapeIdentity(s: AsciiString)
    ensures EscapeDataString(s) == s <==> forall i :: 0 <= i < |s| ==> IsUnreserved(s[i])
  {
    if |s| > 0 {
      EscapeIdentity(s[1..]);
      var r := EscapeDataString(s);
      if IsUnreserved(s[0]) {
        assert r == [s[0]] + EscapeDataString(s[1..]);
        assert s == [s[0]] + s[1..];
        if EscapeDataString(s[1..]) != s[1..] {
          assert r[1..] == EscapeDataString(s[1..]);
        }
        assert (forall i :: 0 <= i < |s| ==> IsUnreserved(s[i]))
          <==> (forall i :: 0 <= i < |s[1..]| ==> IsUnreserved(s[1..][i]));
      } else {
        assert |r| > |s|;
      }
    }
  }
}
