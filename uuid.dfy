/**
 * Version-4 UUIDs in the textual form of section 3 of RFC 4122: 32
 * hexadecimal digits in groups of 8-4-4-4-12 separated by hyphens, with the
 * version digit `4` (section 4.4 of RFC 4122) and a variant digit in 8..b
 * (the two high bits of clock_seq_hi_and_reserved set to 1 0). Hexadecimal
 * digits are accepted in either case.
 */
module Uuid {

  predicate IsHyphenPosition(i: int) {
    i == 8 || i == 13 || i == 18 || i == 23
  }

  predicate IsHexDigit(c: char) {
    '0' <= c <= '9' || 'a' <= c <= 'f' || 'A' <= c <= 'F'
  }

  /**
   * The version digit reads 4 and the variant digit has its two high bits
   * set to 1 0.
   */
  predicate IsUuidV4(s: string): (ok: bool)
    ensures ok ==> |s| == 36 && IsHexDigit(s[14]) && HexValue(s[14]) == 4
    ensures ok ==> |s| == 36 && IsHexDigit(s[19]) && 8 <= HexValue(s[19]) < 12
  {
    |s| == 36 &&
    (forall i :: 0 <= i < 36 ==> if IsHyphenPosition(i) then s[i] == '-' else IsHexDigit(s[i])) &&
    s[14] == '4' &&
    s[19] in "89abAB"
  }

  /** 32 hexadecimal digit values, most significant first. */
  predicate IsNibbles(n: seq<int>) {
    |n| == 32 && forall i :: 0 <= i < 32 ==> 0 <= n[i] < 16
  }

  /** The position in the 36-character text of nibble `i`. */
  function Position(i: int): (p: int)
    requires 0 <= i < 32
    ensures 0 <= p < 36 && !IsHyphenPosition(p)
  {
    if i < 8 then i else if i < 12 then i + 1 else if i < 16 then i + 2
    else if i < 20 then i + 3 else i + 4
  }

  /** The nibble written at the non-hyphen position `p`. */
  function NibbleAt(p: int): (i: int)
    requires 0 <= p < 36 && !IsHyphenPosition(p)
    ensures 0 <= i < 32 && Position(i) == p
  {
    if p < 8 then p else if p < 13 then p - 1 else if p < 18 then p - 2
    else if p < 23 then p - 3 else p - 4
  }

  function HexChar(d: int): (c: char)
    requires 0 <= d < 16
    ensures IsHexDigit(c) && !('A' <= c <= 'F')
  {
    if d < 10 then (48 + d) as char else (87 + d) as char
  }

  function HexValue(c: char): (d: int)
    requires IsHexDigit(c)
    ensures 0 <= d < 16
  {
    if '0' <= c <= '9' then c as int - 48
    else if 'a' <= c <= 'f' then c as int - 87
    else c as int - 55
  }

  /** The lower-case text of a UUID given by its 32 digits. */
  function Format(n: seq<int>): (s: string)
    requires IsNibbles(n)
    ensures |s| == 36
  {
    seq(36, p requires 0 <= p < 36 => if IsHyphenPosition(p) then '-' else HexChar(n[NibbleAt(p)]))
  }

  /** The 32 digits of a well-formed UUID text. */
  function Digits(s: string): (n: seq<int>)
    requires IsUuidV4(s)
    ensures IsNibbles(n)
  {
    seq(32, i requires 0 <= i < 32 => HexValue(s[Position(i)]))
  }

  /**
   * A generated identifier, random digits with the version digit set to 4 and
   * the variant bits set to 1 0, passes the version-4 check.
   */
  lemma FormatIsUuidV4(n: seq<int>)
    requires IsNibbles(n) && n[12] == 4 && 8 <= n[16] < 12
    ensures IsUuidV4(Format(n))
  {
  }

  /** Reading the digits back from the text gives the digits. */
  lemma DigitsOfFormat(n: seq<int>)
    requires IsNibbles(n) && n[12] == 4 && 8 <= n[16] < 12
    ensures IsUuidV4(Format(n)) && Digits(Format(n)) == n
  {
  }

  /** A valid UUID text with lower-case digits is the text of its digits. */
  lemma FormatOfDigits(s: string)
    requires IsUuidV4(s)
    requires forall i :: 0 <= i < 36 ==> !('A' <= s[i] <= 'F')
    ensures Format(Digits(s)) == s
  {
  }
}
