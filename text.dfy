/** Character and string facts shared by the validators: UTF-8 byte
    length (what Rust's `str::len` returns), ASCII classes and Rust's
    ASCII-only case operations, and the Unicode classes the source takes
    from Rust's `char` methods and from the regex crate. */
module Text {

  /** Bytes taken by `c` in UTF-8. */
  function Utf8Width(c: char): (n: nat)
    ensures 1 <= n <= 4
    ensures n == 1 <==> IsAscii(c)
  {
    if c as int < 0x80 then 1
    else if c as int < 0x800 then 2
    else if c as int < 0x1_0000 then 3
    else 4
  }

  /** `s.len()` in Rust: the length of the UTF-8 encoding of `s`. */
  function Utf8Length(s: string): nat {
    if s == [] then 0 else Utf8Width(s[0]) + Utf8Length(s[1..])
  }

  predicate IsAscii(c: char) {
    c as int < 0x80
  }

  predicate AllAscii(s: string) {
    forall i :: 0 <= i < |s| ==> IsAscii(s[i])
  }

  /** A string has at least as many bytes as characters, at most four per
      character, and exactly one per character iff it is pure ASCII. */
  lemma {:induction false} Utf8LengthBounds(s: string)
    ensures |s| <= Utf8Length(s) <= 4 * |s|
    ensures Utf8Length(s) == |s| <==> AllAscii(s)
  {
    if s != [] {
      Utf8LengthBounds(s[1..]);
      assert AllAscii(s) <==> IsAscii(s[0]) && AllAscii(s[1..]) by {
        if IsAscii(s[0]) && AllAscii(s[1..]) {
          forall i | 0 <= i < |s| ensures IsAscii(s[i]) {
            if i > 0 { assert s[i] == s[1..][i - 1]; }
          }
        }
        if AllAscii(s) {
          forall i | 0 <= i < |s[1..]| ensures IsAscii(s[1..][i]) {
            assert s[1..][i] == s[i + 1];
          }
        }
      }
    }
  }

  /** A string with no ASCII character takes at least two bytes per character. */
  lemma {:induction false} NonAsciiLength(s: string)
    requires forall i :: 0 <= i < |s| ==> !IsAscii(s[i])
    ensures Utf8Length(s) >= 2 * |s|
  {
    if s != [] {
      assert forall i :: 0 <= i < |s[1..]| ==> s[1..][i] == s[i + 1];
      NonAsciiLength(s[1..]);
    }
  }

  predicate IsAsciiDigit(c: char) {
    '0' <= c <= '9'
  }

  predicate IsAsciiAlpha(c: char) {
    'a' <= c <= 'z' || 'A' <= c <= 'Z'
  }

  predicate IsAsciiAlnum(c: char) {
    IsAsciiDigit(c) || IsAsciiAlpha(c)
  }

  /** The ASCII members of Unicode's White_Space property: tab, line feed,
      vertical tab, form feed, carriage return and space. */
  predicate IsAsciiWhitespace(c: char) {
    9 <= c as int <= 13 || c == ' '
  }

  /** Rust's `char::to_ascii_lowercase`. */
  function AsciiLowerChar(c: char): (d: char)
    ensures IsAscii(d) <==> IsAscii(c)
    ensures !('A' <= d <= 'Z')
    ensures !('A' <= c <= 'Z') ==> d == c
  {
    if 'A' <= c <= 'Z' then (c as int + 32) as char else c
  }

  /** Rust's `str::to_ascii_lowercase`, character by character (it only
      rewrites ASCII bytes, which never occur inside a multi-byte
      character, so this is exact). */
  function AsciiLower(s: string): (t: string)
    ensures |t| == |s|
    ensures forall i :: 0 <= i < |s| ==> t[i] == AsciiLowerChar(s[i])
  {
    seq(|s|, i requires 0 <= i < |s| => AsciiLowerChar(s[i]))
  }

  /** Rust's `str::eq_ignore_ascii_case`. */
  predicate EqIgnoreAsciiCase(a: string, b: string) {
    |a| == |b| && forall i :: 0 <= i < |a| ==> AsciiLowerChar(a[i]) == AsciiLowerChar(b[i])
  }

  /** `s.contains(p)` for a string pattern. */
  predicate Contains(s: string, p: string) {
    exists i :: 0 <= i <= |s| && p <= s[i..]
  }

  /** `s.ends_with(p)`. */
  predicate EndsWith(s: string, p: string) {
    |p| <= |s| && s[|s| - |p|..] == p
  }

  /** The Unicode character classes the source delegates to Rust's standard
      library and to the regex crate's Unicode tables: `char::is_alphabetic`,
      `char::is_whitespace` (and the regex class `\s`), `char::is_numeric`,
      and the regex class `\d`. The tables themselves are not modelled; a
      classification is any one that agrees with ASCII on ASCII. */
  datatype CharClasses = CharClasses(
    alphabetic: char -> bool,
    whitespace: char -> bool,
    numeric: char -> bool,
    decimalDigit: char -> bool)
  {
    ghost predicate Consistent() {
      forall c: char :: IsAscii(c) ==>
        && (alphabetic(c) <==> IsAsciiAlpha(c))
        && (whitespace(c) <==> IsAsciiWhitespace(c))
        && (numeric(c) <==> IsAsciiDigit(c))
        && (decimalDigit(c) <==> IsAsciiDigit(c))
    }

    /** The agreement with ASCII at one character. */
    lemma AsciiAgreement(c: char)
      requires Consistent() && IsAscii(c)
      ensures alphabetic(c) <==> IsAsciiAlpha(c)
      ensures whitespace(c) <==> IsAsciiWhitespace(c)
      ensures numeric(c) <==> IsAsciiDigit(c)
      ensures decimalDigit(c) <==> IsAsciiDigit(c)
    {
    }
  }
}
