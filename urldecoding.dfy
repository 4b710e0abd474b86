/**
 * Percent-decoding with the behaviour of java.net.URLDecoder.decode(s, UTF_8):
 * `+` becomes a space (application/x-www-form-urlencoded, section 5.1 of the
 * WHATWG URL Standard), `%HH` becomes the byte with hexadecimal value HH
 * (percent-encoding, section 2.1 of RFC 3986), every other character is
 * copied. Unlike the WHATWG parser, an escape that is cut short or whose two
 * characters are not a valid field is a failure, modelled as `None`
 * (URLDecoder throws IllegalArgumentException).
 *
 * URLDecoder reads the two characters after `%` with Integer.parseInt(.., 16),
 * which also accepts a leading sign: `%+7` is the byte 7, `%-0` the byte 0,
 * and `%-7` is refused as a negative value. This is modelled.
 *
 * A decoded byte is turned into the character with the same code. For bytes
 * below 0x80 this is what UTF-8 decoding gives; for higher bytes it is a
 * stand-in for UTF-8 decoding (see README).
 */
module UrlDecoding {
  import opened RiskModel

  /**
   * Character.digit(c, 16) on the ASCII digits and letters. The non-ASCII
   * digits that Java also accepts are refused here (see README).
   */
  function HexDigit(c: char): (d: Option<nat>)
    ensures d.Some? <==> IsAsciiHex(c)
    ensures d.Some? ==> d.value < 16
  {
    if '0' <= c <= '9' then Some(c as int - '0' as int)
    else if 'a' <= c <= 'f' then Some(c as int - 'a' as int + 10)
    else if 'A' <= c <= 'F' then Some(c as int - 'A' as int + 10)
    else None
  }

  /** The ASCII characters that Character.digit(c, 16) accepts. */
  predicate IsAsciiHex(c: char)
  {
    '0' <= c <= '9' || 'a' <= c <= 'f' || 'A' <= c <= 'F'
  }

  /** Each of the sixteen digits, in both cases, has its hexadecimal value. */
  lemma HexDigitTable(d: nat)
    requires d < 16
    ensures HexDigit("0123456789abcdef"[d]) == Some(d)
    ensures HexDigit("0123456789ABCDEF"[d]) == Some(d)
  {
  }

  /**
   * The byte denoted by the two characters after `%`: Integer.parseInt of
   * that two-character field in base 16, refused when it is negative.
   */
  function EscapeValue(hi: char, lo: char): (v: Option<nat>)
    ensures v.Some? ==> v.value < 256
    ensures HexDigit(hi).Some? && HexDigit(lo).Some? ==> v == Some(16 * HexDigit(hi).value + HexDigit(lo).value)
    ensures v.Some? <==> HexDigit(lo).Some? && (HexDigit(hi).Some? || hi == '+' || (hi == '-' && HexDigit(lo).value == 0))
    ensures hi == '+' && HexDigit(lo).Some? ==> v == HexDigit(lo)
    ensures hi == '-' && v.Some? ==> v == Some(0)
  {
    match HexDigit(lo)
    case None => None
    case Some(l) =>
      if hi == '+' then Some(l)
      else if hi == '-' then (if l == 0 then Some(0) else None)
      else match HexDigit(hi)
        case None => None
        case Some(h) => Some(16 * h + l)
  }

  function Prepend(c: char, rest: Option<string>): Option<string>
  {
    match rest
    case None => None
    case Some(t) => Some([c] + t)
  }

  /** URLDecoder.decode: `None` where the Java method throws. */
  function Decode(s: string): (r: Option<string>)
    ensures r.Some? ==> |r.value| <= |s|
    decreases |s|
  {
    if s == [] then Some([])
    else if s[0] == '+' then Prepend(' ', Decode(s[1..]))
    else if s[0] == '%' then
      if |s| < 3 then None
      else match EscapeValue(s[1], s[2])
        case None => None
        case Some(b) => Prepend(b as char, Decode(s[3..]))
    else Prepend(s[0], Decode(s[1..]))
  }

  /** Text without `%` and `+` decodes to itself. */
  lemma {:induction false} DecodePlain(s: string)
    requires '%' !in s && '+' !in s
    ensures Decode(s) == Some(s)
  {
    if s != [] {
      assert '%' !in s[1..] && '+' !in s[1..];
      DecodePlain(s[1..]);
      assert [s[0]] + s[1..] == s;
    }
  }

  /** Length of the first unit of `s`: an escape takes three characters, anything else one. */
  function UnitLength(s: string): nat
    requires s != []
  {
    if s[0] == '%' then 3 else 1
  }

  /**
   * When the first unit of `a` decodes, it decodes to the same character
   * in front of any suffix `b`.
   */
  lemma DecodeFirstUnit(a: string, b: string)
    requires a != [] && Decode(a).Some?
    ensures |a| >= UnitLength(a) && (a + b)[UnitLength(a)..] == a[UnitLength(a)..] + b
    ensures var c := if a[0] == '+' then ' ' else if a[0] == '%' then EscapeValue(a[1], a[2]).value as char else a[0];
      Decode(a) == Prepend(c, Decode(a[UnitLength(a)..])) &&
      Decode(a + b) == Prepend(c, Decode((a + b)[UnitLength(a)..]))
  {
    var k := UnitLength(a);
    assert (a + b)[0] == a[0];
    assert k == 3 ==> (a + b)[1] == a[1] && (a + b)[2] == a[2];
  }

  lemma ConsAppend(c: char, x: string, y: string)
    ensures [c] + (x + y) == ([c] + x) + y
  {
  }

  /** Decoding is compositional: a prefix that decodes on its own decodes the same in front of any suffix. */
  lemma {:induction false} DecodeAppend(a: string, b: string)
    requires Decode(a).Some?
    ensures Decode(a + b) == match Decode(b) case None => None case Some(y) => Some(Decode(a).value + y)
    decreases |a|
  {
    if a == [] {
      assert a + b == b;
      match Decode(b)
      case None =>
      case Some(y) => assert Decode(a).value + y == y;
    } else {
      var k := UnitLength(a);
      DecodeFirstUnit(a, b);
      DecodeAppend(a[k..], b);
      var c := if a[0] == '+' then ' ' else if a[0] == '%' then EscapeValue(a[1], a[2]).value as char else a[0];
      match Decode(b)
      case None =>
      case Some(y) =>
        ConsAppend(c, Decode(a[k..]).value, y);
    }
  }

  /** Two texts that decode separately decode together to the concatenation. */
  lemma DecodeConcat(a: string, b: string, x: string, y: string)
    requires Decode(a) == Some(x) && Decode(b) == Some(y)
    ensures Decode(a + b) == Some(x + y)
  {
    DecodeAppend(a, b);
  }

  /** A `%` at the very end is always an incomplete escape, whatever precedes it. */
  lemma {:induction false} DecodeTrailingPercentFails(t: string)
    ensures Decode(t + "%") == None
    decreases |t|
  {
    var s := t + "%";
    if t != [] {
      if t[0] == '%' {
        if |t| >= 3 {
          assert s[3..] == t[3..] + "%";
          DecodeTrailingPercentFails(t[3..]);
        }
      } else {
        assert s[1..] == t[1..] + "%";
        DecodeTrailingPercentFails(t[1..]);
      }
    }
  }

  /** The characters URLEncoder leaves as they are. */
  predicate IsUnreserved(c: char)
  {
    ('a' <= c <= 'z') || ('A' <= c <= 'Z') || ('0' <= c <= '9') || c == '.' || c == '-' || c == '*' || c == '_'
  }

  function HexChar(d: nat): char
    requires d < 16
  {
    if d < 10 then ('0' as int + d) as char else ('A' as int + d - 10) as char
  }

  /** The form-encoding of one ASCII character, as URLEncoder writes it. */
  function EncodeChar(c: char): string
    requires c as int < 128
  {
    if IsUnreserved(c) then [c]
    else if c == ' ' then "+"
    else ['%', HexChar(c as int / 16), HexChar(c as int % 16)]
  }

  predicate IsAscii(s: string)
  {
    forall i :: 0 <= i < |s| ==> s[i] as int < 128
  }

  /** Form-encodes ASCII text character by character. */
  function Encode(s: string): string
    requires IsAscii(s)
  {
    if s == [] then "" else EncodeChar(s[0]) + Encode(s[1..])
  }

  lemma HexCharDigit(d: nat)
    requires d < 16
    ensures HexDigit(HexChar(d)) == Some(d)
  {
  }

  /** Decoding undoes form-encoding of ASCII text. */
  lemma {:induction false} DecodeEncode(s: string)
    requires IsAscii(s)
    ensures Decode(Encode(s)) == Some(s)
  {
    if s != [] {
      var c := s[0];
      var e := EncodeChar(c);
      if !IsUnreserved(c) && c != ' ' {
        HexCharDigit(c as int / 16);
        HexCharDigit(c as int % 16);
        assert e[3..] == [];
      }
      assert Decode(e) == Some([c]) by {
        if IsUnreserved(c) || c == ' ' { assert e[1..] == []; }
        assert [c] + [] == [c];
      }
      DecodeEncode(s[1..]);
      DecodeAppend(e, Encode(s[1..]));
      assert [c] + s[1..] == s;
    }
  }

  /** Worked cases of escapes, of the sign quirk and of malformed escapes. */
  lemma EscapeExamples()
    ensures Decode("%3C") == Some("<") && Decode("%3c") == Some("<")
    ensures Decode("%+7") == Some([7 as char])
    ensures Decode("%-0") == Some([0 as char])
    ensures Decode("%-7") == None
    ensures Decode("%zz") == None && Decode("%z1") == None
    ensures Decode("%4") == None
    ensures Decode("a+b") == Some("a b")
  {
    assert "%3C"[3..] == [] && "%3c"[3..] == [] && "%+7"[3..] == [] && "%-0"[3..] == [];
    assert ['<'] + [] == "<" && [7 as char] + [] == [7 as char] && [0 as char] + [] == [0 as char];
    DecodePlain("b");
    assert "+b"[1..] == "b" && [' '] + "b" == " b";
    assert "a+b"[1..] == "+b" && ['a'] + " b" == "a b";
  }
}
