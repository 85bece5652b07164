/** Small text helpers shared by the server and the page models.
    Python's `str.lower()`/`str.isdigit()` and JavaScript's string tests are
    Unicode-aware; here only the ASCII range is modelled. */
module Text {

  datatype Option<+T> = None | Some(value: T)

  /** ASCII lower-casing of one character; every other character is kept. */
  function LowerChar(c: char): (d: char)
    ensures 'A' <= c <= 'Z' ==> 'a' <= d <= 'z' && d as int - c as int == 32
    ensures !('A' <= c <= 'Z') ==> d == c
  {
    if 'A' <= c <= 'Z' then (c as int + 32) as char else c
  }

  /** `s.lower()` restricted to ASCII. */
  function Lower(s: string): (r: string)
    ensures |r| == |s|
    ensures forall i :: 0 <= i < |s| ==> r[i] == LowerChar(s[i])
  {
    seq(|s|, i requires 0 <= i < |s| => LowerChar(s[i]))
  }

  predicate IsDigit(c: char) {
    '0' <= c <= '9'
  }

  /** `s.isdigit()`: non-empty and every character a digit. */
  predicate AllDigits(s: string) {
    |s| > 0 && forall i :: 0 <= i < |s| ==> IsDigit(s[i])
  }

  /** `pat` occurs in `text` starting at position `k`. */
  predicate OccursAt(text: string, pat: string, k: int) {
    0 <= k <= |text| - |pat| && text[k..k + |pat|] == pat
  }

  /** Python's `pat in text` on strings: `pat` occurs as a contiguous slice. */
  predicate Contains(text: string, pat: string) {
    exists k | 0 <= k <= |text| - |pat| :: OccursAt(text, pat, k)
  }
}
