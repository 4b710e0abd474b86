/**
 * Text operations the core relies on, over `string` = `seq<char>`:
 * substring containment (Java's String.contains), ASCII lower-casing
 * (String.toLowerCase(Locale.ROOT) on the ASCII range), decimal rendering of
 * naturals (String.valueOf on a Long) and joining with a separator
 * (Collectors.joining).
 */
module Strings {

  /** `p` occurs in `s` starting at index `i`. */
  predicate ContainsAt(s: string, p: string, i: int)
  {
    0 <= i && i + |p| <= |s| && s[i..i + |p|] == p
  }

  /** String.contains: `p` occurs somewhere in `s` as a contiguous block. */
  predicate Contains(s: string, p: string)
    ensures Contains(s, p) ==> |p| <= |s|
  {
    exists i | 0 <= i <= |s| - |p| :: ContainsAt(s, p, i)
  }

  /** A pattern placed between two texts occurs in the result. */
  lemma ContainsInMiddle(a: string, p: string, b: string)
    ensures Contains(a + p + b, p)
  {
    assert (a + p + b)[|a|..|a| + |p|] == p;
    assert ContainsAt(a + p + b, p, |a|);
  }

  /** A pattern holding a character that `s` lacks does not occur in `s`. */
  lemma MissingCharNotContained(s: string, p: string, k: nat)
    requires k < |p| && p[k] !in s
    ensures !Contains(s, p)
  {
    forall i | 0 <= i && i + |p| <= |s| ensures !ContainsAt(s, p, i) {
      assert s[i..i + |p|][k] == s[i + k];
    }
  }

  /** A pattern whose first three characters never appear in a row in `s` does not occur in `s`. */
  lemma MissingTripleNotContained(s: string, p: string)
    requires |p| >= 3
    requires forall i :: 0 <= i <= |s| - 3 ==> s[i] != p[0] || s[i + 1] != p[1] || s[i + 2] != p[2]
    ensures !Contains(s, p)
  {
    forall i | 0 <= i && i + |p| <= |s| ensures !ContainsAt(s, p, i) {
      assert s[i..i + |p|][0] == s[i] && s[i..i + |p|][1] == s[i + 1] && s[i..i + |p|][2] == s[i + 2];
    }
  }

  /** Character.toLowerCase restricted to ASCII: only 'A'..'Z' change. */
  function LowerChar(c: char): char
  {
    if 'A' <= c <= 'Z' then (c as int + 32) as char else c
  }

  /** String.toLowerCase(Locale.ROOT) on the ASCII range. */
  function ToLowerAscii(s: string): (r: string)
    ensures |r| == |s|
    ensures forall i :: 0 <= i < |s| ==> r[i] == LowerChar(s[i])
  {
    seq(|s|, i requires 0 <= i < |s| => LowerChar(s[i]))
  }

  /** Lower-casing leaves no ASCII upper-case letter behind and is idempotent. */
  lemma ToLowerAsciiIdempotent(s: string)
    ensures forall i :: 0 <= i < |s| ==> !('A' <= ToLowerAscii(s)[i] <= 'Z')
    ensures ToLowerAscii(ToLowerAscii(s)) == ToLowerAscii(s)
  {
  }

  /** Text already in lower case is its own lower-case form. */
  lemma ToLowerAsciiOfLower(s: string)
    requires forall i :: 0 <= i < |s| ==> !('A' <= s[i] <= 'Z')
    ensures ToLowerAscii(s) == s
  {
  }

  predicate IsDigit(c: char)
  {
    '0' <= c <= '9'
  }

  function DigitChar(d: nat): (c: char)
    requires d < 10
    ensures IsDigit(c)
  {
    ('0' as int + d) as char
  }

  function DigitValue(c: char): (d: nat)
    requires IsDigit(c)
    ensures d < 10
  {
    c as int - '0' as int
  }

  /** String.valueOf on a non-negative long: decimal digits, most significant first. */
  function NatToString(n: nat): (r: string)
    ensures |r| >= 1
    ensures forall i :: 0 <= i < |r| ==> IsDigit(r[i])
  {
    if n < 10 then [DigitChar(n)] else NatToString(n / 10) + [DigitChar(n % 10)]
  }

  /** Reads a string of decimal digits back as a number. */
  function ParseNat(s: string): nat
    requires forall i :: 0 <= i < |s| ==> IsDigit(s[i])
  {
    if s == [] then 0 else 10 * ParseNat(s[..|s| - 1]) + DigitValue(s[|s| - 1])
  }

  /** Reading back the decimal rendering of a number gives the number. */
  lemma {:induction false} ParseNatToString(n: nat)
    ensures ParseNat(NatToString(n)) == n
  {
    var r := NatToString(n);
    if n >= 10 {
      ParseNatToString(n / 10);
      assert r[..|r| - 1] == NatToString(n / 10);
    }
  }

  /** Distinct numbers have distinct decimal renderings. */
  lemma NatToStringInjective(m: nat, n: nat)
    requires NatToString(m) == NatToString(n)
    ensures m == n
  {
    ParseNatToString(m);
    ParseNatToString(n);
  }

  /** Collectors.joining(sep): the items with `sep` between consecutive ones. */
  function Join(items: seq<string>, sep: string): string
  {
    if items == [] then ""
    else if |items| == 1 then items[0]
    else items[0] + sep + Join(items[1..], sep)
  }

  /** The joined text begins with the first item. */
  lemma {:induction false} JoinStartsWithFirst(items: seq<string>, sep: string)
    requires items != []
    ensures |Join(items, sep)| >= |items[0]| && Join(items, sep)[..|items[0]|] == items[0]
  {
  }

  /** Joining one more item appends the separator and that item. */
  lemma {:induction false} JoinAppend(items: seq<string>, x: string, sep: string)
    requires items != []
    ensures Join(items + [x], sep) == Join(items, sep) + sep + x
    decreases |items|
  {
    if |items| == 1 {
      assert (items + [x])[1..] == [x];
    } else {
      assert (items + [x])[1..] == items[1..] + [x];
      JoinAppend(items[1..], x, sep);
    }
  }

  /** Joining no items gives the empty text; joining items whose first one is non-empty does not. */
  lemma JoinEmptyIff(items: seq<string>, sep: string)
    requires items == [] || items[0] != ""
    ensures Join(items, sep) == "" <==> items == []
  {
    if items != [] {
      JoinStartsWithFirst(items, sep);
    }
  }
}
