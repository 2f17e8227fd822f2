/**
 * The PHP built-ins whose behaviour the plugin depends on. Strings are Unicode
 * text; PHP holds them UTF-8 encoded, so byte counts are computed from that
 * encoding.
 */
module Php {

  /**
   * `empty($s)` on a string. A missing parameter, header or array entry is
   * PHP `null`, which the model reads as "" (every use of such a value in the
   * plugin goes through `empty()` or is stored as a string).
   * Note that "0" is empty in PHP.
   */
  function Empty(s: string): (empty: bool)
    ensures s == "" || s == "0" ==> empty
    ensures |s| >= 2 ==> !empty
  {
    s == "" || s == "0"
  }

  /** `$arr[$key]` on a string array, with a missing key read as "". */
  function Lookup(arr: map<string, string>, key: string): string
  {
    if key in arr then arr[key] else ""
  }

  /** Number of bytes the UTF-8 encoding of `c` occupies. */
  function Utf8Width(c: char): (w: nat)
    ensures 1 <= w <= 4
  {
    if c as int < 0x80 then 1
    else if c as int < 0x800 then 2
    else if c as int < 0x1_0000 then 3
    else 4
  }

  /**
   * `strlen($s)`: the number of bytes of the UTF-8 encoding of `s`. Every
   * character takes one to four bytes.
   */
  function Strlen(s: string): (n: nat)
    ensures |s| <= n <= 4 * |s|
  {
    if s == [] then 0 else Utf8Width(s[0]) + Strlen(s[1..])
  }

  predicate IsAscii(s: string)
  {
    forall i :: 0 <= i < |s| ==> s[i] as int < 0x80
  }

  /** On ASCII text `strlen` is the number of characters. */
  lemma {:induction false} StrlenAscii(s: string)
    requires IsAscii(s)
    ensures Strlen(s) == |s|
  {
    if s != [] {
      assert forall i :: 0 <= i < |s[1..]| ==> s[1..][i] == s[i + 1];
      StrlenAscii(s[1..]);
    }
  }

  /** Text made only of two-byte characters (U+0080 to U+07FF) has twice as many bytes as characters. */
  lemma {:induction false} StrlenTwoByte(s: string)
    requires forall i :: 0 <= i < |s| ==> 0x80 <= s[i] as int < 0x800
    ensures Strlen(s) == 2 * |s|
  {
    if s != [] {
      assert forall i :: 0 <= i < |s[1..]| ==> s[1..][i] == s[i + 1];
      StrlenTwoByte(s[1..]);
    }
  }
}
