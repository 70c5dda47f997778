/**
 * UTF-8 well-formedness as `std::str::from_utf8` checks it: a byte sequence is
 * valid when it splits into the well-formed byte sequences of Table 3-7 of the
 * Unicode Standard, chapter 3 (no overlong forms, no surrogates, nothing above
 * U+10FFFF).
 */
module Utf8 {
  import opened SymbolTable

  predicate IsContinuation(b: u8) {
    0x80 <= b <= 0xBF
  }

  /**
   * The length of the well-formed encoding of one scalar value at the start of
   * `s`, or 0 when `s` does not start with one.
   */
  function ScalarLength(s: seq<u8>): (n: nat)
    ensures n <= |s| && n <= 4
    ensures n == 1 <==> |s| > 0 && s[0] < 0x80
  {
    if |s| == 0 then 0
    else if s[0] <= 0x7F then 1
    else if 0xC2 <= s[0] <= 0xDF then
      if 2 <= |s| && IsContinuation(s[1]) then 2 else 0
    else if 0xE0 <= s[0] <= 0xEF then
      var lo: u8 := if s[0] == 0xE0 then 0xA0 else 0x80;
      var hi: u8 := if s[0] == 0xED then 0x9F else 0xBF;
      if 3 <= |s| && lo <= s[1] <= hi && IsContinuation(s[2]) then 3 else 0
    else if 0xF0 <= s[0] <= 0xF4 then
      var lo: u8 := if s[0] == 0xF0 then 0x90 else 0x80;
      var hi: u8 := if s[0] == 0xF4 then 0x8F else 0xBF;
      if 4 <= |s| && lo <= s[1] <= hi && IsContinuation(s[2]) && IsContinuation(s[3]) then 4 else 0
    else 0
  }

  predicate ValidUtf8(s: seq<u8>)
    decreases |s|
  {
    s == [] || (ScalarLength(s) > 0 && ValidUtf8(s[ScalarLength(s)..]))
  }

  /** A sequence of ASCII bytes is valid UTF-8. */
  lemma {:induction false} AsciiIsValid(s: seq<u8>)
    requires forall k | 0 <= k < |s| :: s[k] < 0x80
    ensures ValidUtf8(s)
  {
    if s != [] {
      AsciiIsValid(s[1..]);
    }
  }
}
