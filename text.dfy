/**
 * The pieces of Python's text handling that the save format relies on:
 * str.rstrip() and str.strip() whitespace, ASCII lower-casing for the bool parser,
 * str(int) and int(str) in base 10, and the "unicode_escape" codec that the encoder
 * applies to every str before it becomes a line of the save file.
 */
module Text {
  import opened Wrappers

  /** The characters Python's str.isspace() accepts, which strip() and int() remove. */
  predicate IsSpace(c: char) {
    || c == ' ' || ('\t' <= c <= '\r') || ('\U{1c}' <= c <= '\U{1f}')
    || c == '\U{85}' || c == '\U{a0}' || c == '\U{1680}' || ('\U{2000}' <= c <= '\U{200a}')
    || c == '\U{2028}' || c == '\U{2029}' || c == '\U{202f}' || c == '\U{205f}' || c == '\U{3000}'
  }

  /** str.rstrip(): the longest prefix of s that does not end in whitespace. */
  function RStrip(s: string): (r: string)
    ensures |r| <= |s| && r == s[..|r|]
    ensures r == [] || !IsSpace(r[|r| - 1])
    ensures forall i :: |r| <= i < |s| ==> IsSpace(s[i])
  {
    if |s| > 0 && IsSpace(s[|s| - 1]) then RStrip(s[..|s| - 1]) else s
  }

  /** str.lstrip(): the longest suffix of s that does not start with whitespace. */
  function LStrip(s: string): (r: string)
    ensures |r| <= |s| && r == s[|s| - |r|..]
    ensures r == [] || !IsSpace(r[0])
    ensures forall i :: 0 <= i < |s| - |r| ==> IsSpace(s[i])
  {
    if |s| > 0 && IsSpace(s[0]) then LStrip(s[1..]) else s
  }

  /** str.strip(), as int() applies it before parsing. */
  function Strip(s: string): string {
    LStrip(RStrip(s))
  }

  /** A string that neither starts nor ends with whitespace is its own strip. */
  lemma StripUnchanged(s: string)
    requires s == [] || (!IsSpace(s[0]) && !IsSpace(s[|s| - 1]))
    ensures Strip(s) == s
  {
    var r := RStrip(s);
    if |r| < |s| {
      assert IsSpace(s[|s| - 1]);
    }
    assert r == s;
  }

  /** rstrip() removes exactly the whitespace padding after a text that does not end in whitespace. */
  lemma RStripPadding(s: string, pad: string)
    requires s == [] || !IsSpace(s[|s| - 1])
    requires forall i :: 0 <= i < |pad| ==> IsSpace(pad[i])
    ensures RStrip(s + pad) == s
  {
    var t := s + pad;
    var r := RStrip(t);
    assert forall i :: |s| <= i < |t| ==> IsSpace(t[i]);
    assert s == [] || !IsSpace(t[|s| - 1]);
    assert |r| == |s|;
    assert r == t[..|s|] == s;
  }

  /** Lower-casing of one character; only the ASCII letters are mapped. */
  function LowerChar(c: char): char {
    if 'A' <= c <= 'Z' then (c as int + 32) as char else c
  }

  /** str.lower(), restricted to ASCII letters. */
  function Lower(s: string): string {
    seq(|s|, i requires 0 <= i < |s| => LowerChar(s[i]))
  }

  /** Lower-casing twice is lower-casing once. */
  lemma LowerIdempotent(s: string)
    ensures Lower(Lower(s)) == Lower(s)
  {
  }

  predicate IsDigit(c: char) {
    '0' <= c <= '9'
  }

  predicate AllDigits(s: string) {
    forall i :: 0 <= i < |s| ==> IsDigit(s[i])
  }

  function DigitValue(c: char): nat
    requires IsDigit(c)
  {
    c as int - '0' as int
  }

  function DigitChar(d: nat): (c: char)
    requires d < 10
    ensures IsDigit(c) && DigitValue(c) == d
  {
    ('0' as int + d) as char
  }

  /** The number a run of decimal digits denotes, most significant digit first. */
  function DigitsValue(ds: string): nat
    requires AllDigits(ds)
  {
    if ds == [] then 0 else 10 * DigitsValue(ds[..|ds| - 1]) + DigitValue(ds[|ds| - 1])
  }

  /** str(n) for a non-negative int: its decimal digits, without leading zeros. */
  function NatToString(n: nat): (r: string)
    ensures |r| > 0 && AllDigits(r)
    ensures n > 0 ==> r[0] != '0'
  {
    if n < 10 then [DigitChar(n)] else NatToString(n / 10) + [DigitChar(n % 10)]
  }

  /** str(i) for any int: a minus sign before the digits of a negative number. */
  function IntToString(i: int): string {
    if i < 0 then "-" + NatToString(-i) else NatToString(i)
  }

  lemma {:induction false} NatToStringValue(n: nat)
    ensures DigitsValue(NatToString(n)) == n
  {
    if n >= 10 {
      NatToStringValue(n / 10);
      var s := NatToString(n);
      assert s[..|s| - 1] == NatToString(n / 10);
    }
  }

  /**
   * The body of a base-10 int() literal: digits, with single underscores
   * allowed between two digits ("1_000" but not "_1", "1_" or "1__0").
   */
  predicate DigitRun(t: string) {
    && |t| > 0 && IsDigit(t[0]) && IsDigit(t[|t| - 1])
    && (forall i :: 0 <= i < |t| ==> IsDigit(t[i]) || t[i] == '_')
    && (forall i :: 0 <= i < |t| - 1 ==> !(t[i] == '_' && t[i + 1] == '_'))
  }

  /** The digits of a run with its underscores removed. */
  function Digits(t: string): (ds: string)
    requires forall i :: 0 <= i < |t| ==> IsDigit(t[i]) || t[i] == '_'
    ensures AllDigits(ds) && |ds| <= |t|
    ensures AllDigits(t) ==> ds == t
  {
    if t == [] then []
    else if t[|t| - 1] == '_' then Digits(t[..|t| - 1])
    else Digits(t[..|t| - 1]) + [t[|t| - 1]]
  }

  /** The value of a digit run, or None when the text is not one. */
  function ParseRun(t: string): Option<nat> {
    if DigitRun(t) then Some(DigitsValue(Digits(t))) else None
  }

  /** int() on text that has already been stripped: an optional sign, then a digit run. */
  function ParseSigned(t: string): Option<int> {
    if |t| > 0 && (t[0] == '+' || t[0] == '-') then
      match ParseRun(t[1..])
      case None => None
      case Some(n) => Some(if t[0] == '-' then -(n as int) else n)
    else
      match ParseRun(t)
      case None => None
      case Some(n) => Some(n)
  }

  /**
   * int(s) for base 10 over ASCII digits: the value, or None where int() raises
   * ValueError. Other Unicode decimal digits, which int() also accepts, read as None.
   */
  function ParseInt(s: string): Option<int> {
    ParseSigned(Strip(s))
  }

  /** int("") raises: an exhausted file gives no number. */
  lemma ParseIntEmpty()
    ensures ParseInt("") == None
  {
    assert Strip("") == "";
  }

  lemma ParseRunOfDigits(d: string)
    requires |d| > 0 && AllDigits(d)
    ensures ParseRun(d) == Some(DigitsValue(d))
  {
    assert DigitRun(d);
  }

  lemma {:induction false} ParseNonNegative(n: nat)
    ensures ParseInt(NatToString(n)) == Some(n)
  {
    var d := NatToString(n);
    NatToStringValue(n);
    ParseRunOfDigits(d);
    StripUnchanged(d);
    assert d[0] != '+' && d[0] != '-';
    assert ParseSigned(d) == Some(n);
  }

  lemma {:induction false} ParseNegative(n: nat)
    ensures ParseInt("-" + NatToString(n)) == Some(-(n as int))
  {
    var d := NatToString(n);
    NatToStringValue(n);
    ParseRunOfDigits(d);
    var s := "-" + d;
    assert s[1..] == d;
    NegativeUnstripped(d);
    assert ParseRun(s[1..]) == Some(n);
  }

  /** A minus sign before a digit string is left alone by strip(). */
  lemma NegativeUnstripped(d: string)
    requires |d| > 0 && AllDigits(d)
    ensures Strip("-" + d) == "-" + d
  {
    var s := "-" + d;
    assert s[|s| - 1] == d[|d| - 1];
    assert IsDigit(d[|d| - 1]);
    StripUnchanged(s);
  }

  /** int(str(i)) == i: every integer the encoder writes is read back unchanged. */
  lemma {:induction false} ParseIntOfIntToString(i: int)
    ensures ParseInt(IntToString(i)) == Some(i)
  {
    var s := IntToString(i);
    if i < 0 {
      var n: nat := -i;
      assert s == "-" + NatToString(n);
      ParseNegative(n);
      assert -(n as int) == i;
    } else {
      assert s == NatToString(i);
      ParseNonNegative(i);
    }
  }

  /** The output alphabet of unicode_escape: printable ASCII. */
  predicate Printable(c: char) {
    ' ' <= c <= '~'
  }

  /** A character that unicode_escape writes as itself. */
  predicate Plain(c: char) {
    Printable(c) && c != '\\'
  }

  function HexDigit(d: nat): (c: char)
    requires d < 16
    ensures Printable(c)
  {
    if d < 10 then ('0' as int + d) as char else ('a' as int + d - 10) as char
  }

  /** The last `width` lower-case hexadecimal digits of n. */
  function Hex(n: nat, width: nat): (r: string)
    ensures |r| == width
    ensures forall i :: 0 <= i < |r| ==> Printable(r[i])
  {
    if width == 0 then [] else Hex(n / 16, width - 1) + [HexDigit(n % 16)]
  }

  /** How the unicode_escape codec writes one character. */
  function EscapeChar(c: char): (r: string)
    ensures |r| >= 1
    ensures forall i :: 0 <= i < |r| ==> Printable(r[i])
    ensures Plain(c) <==> r == [c]
    ensures !Plain(c) ==> |r| >= 2
  {
    var n := c as int;
    if n < 0x100 then
      if Printable(c) then (if c == '\\' then "\\\\" else [c])
      else if c == '\t' then "\\t"
      else if c == '\n' then "\\n"
      else if c == '\r' then "\\r"
      else "\\x" + Hex(n, 2)
    else if n < 0x10000 then "\\u" + Hex(n, 4)
    else "\\U" + Hex(n, 8)
  }

  /** str.encode("unicode_escape"), read back as text. */
  function UnicodeEscape(s: string): (r: string)
    ensures |r| >= |s|
    ensures forall i :: 0 <= i < |r| ==> Printable(r[i])
  {
    if s == [] then [] else EscapeChar(s[0]) + UnicodeEscape(s[1..])
  }

  /** Escaped text never holds a line break, so it always fits on one line of the file. */
  lemma EscapedHasNoNewline(s: string)
    ensures '\n' !in UnicodeEscape(s)
  {
  }

  lemma {:induction false} EscapeOfPlain(s: string)
    requires forall i :: 0 <= i < |s| ==> Plain(s[i])
    ensures UnicodeEscape(s) == s
  {
    if s != [] {
      EscapeOfPlain(s[1..]);
      assert s == [s[0]] + s[1..];
    }
  }

  lemma {:induction false} EscapeGrows(s: string, k: nat)
    requires k < |s| && !Plain(s[k])
    ensures |UnicodeEscape(s)| > |s|
  {
    if k > 0 {
      EscapeGrows(s[1..], k - 1);
    }
  }

  /**
   * A string is its own unicode_escape exactly when every character is printable
   * ASCII other than the backslash.
   */
  lemma EscapeIsIdentityIff(s: string)
    ensures UnicodeEscape(s) == s <==> forall i :: 0 <= i < |s| ==> Plain(s[i])
  {
    if forall i :: 0 <= i < |s| ==> Plain(s[i]) {
      EscapeOfPlain(s);
    } else {
      var k :| 0 <= k < |s| && !Plain(s[k]);
      EscapeGrows(s, k);
    }
  }
}
