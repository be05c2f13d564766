/**
 * Case-insensitive comparison as `StringComparison.OrdinalIgnoreCase` and
 * `StringComparer.OrdinalIgnoreCase` perform it: both strings are upper-cased
 * character by character and then compared ordinally. Only the ASCII letters
 * are folded here.
 */
module Casing {

  function UpperChar(c: char): char {
    if 'a' <= c <= 'z' then (c as int - 32) as char else c
  }

  function Upper(s: string): string {
    seq(|s|, i requires 0 <= i < |s| => UpperChar(s[i]))
  }

  predicate EqualsIgnoreCase(a: string, b: string) {
    Upper(a) == Upper(b)
  }
}
