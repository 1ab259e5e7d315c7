/**
  The string operations the views use: `toLowerCase`, `trim() == ""`,
  `includes`, `startsWith` and `split("T")[0]`. Case mapping and white space
  are ASCII only.
*/
module Text {

  /** ASCII `toLowerCase` of one character. */
  function LowerChar(c: char): (r: char)
    ensures 'A' <= c <= 'Z' ==> 'a' <= r <= 'z'
    ensures !('A' <= c <= 'Z') ==> r == c
  {
    if 'A' <= c <= 'Z' then (c as int + 32) as char else c
  }

  /** ASCII `toLowerCase`. */
  function Lower(s: string): (r: string)
    ensures |r| == |s|
    ensures forall i :: 0 <= i < |s| ==> r[i] == LowerChar(s[i])
  {
    seq(|s|, i requires 0 <= i < |s| => LowerChar(s[i]))
  }

  /** ASCII white space: space, tab, line feed, vertical tab, form feed, carriage return. */
  predicate IsSpace(c: char) {
    c == ' ' || '\t' <= c <= '\r'
  }

  /** `s.trim() === ""`: nothing but white space. */
  predicate IsBlank(s: string) {
    forall i :: 0 <= i < |s| ==> IsSpace(s[i])
  }

  /** `s.startsWith(p)`. */
  predicate StartsWith(s: string, p: string) {
    |p| <= |s| && s[..|p|] == p
  }

  /** `s.includes(p)`: `p` occurs at some position of `s`. */
  predicate Contains(s: string, p: string) {
    exists i :: 0 <= i <= |s| - |p| && StartsWith(s[i..], p)
  }

  /** `s.split("T")[0]`: everything before the first 'T', or all of `s`. */
  function BeforeT(s: string): (r: string)
    ensures StartsWith(s, r)
    ensures 'T' !in r
    ensures |r| < |s| ==> s[|r|] == 'T'
    decreases |s|
  {
    if |s| == 0 || s[0] == 'T' then "" else [s[0]] + BeforeT(s[1..])
  }

  /** Text with no 'T' followed by a 'T' and anything is cut back to that text. */
  lemma {:induction false} BeforeFirstT(date: string, rest: string)
    requires 'T' !in date
    ensures BeforeT(date + "T" + rest) == date
    decreases |date|
  {
    if |date| > 0 {
      assert (date + "T" + rest)[1..] == date[1..] + "T" + rest;
      assert date[0] in date;
      BeforeFirstT(date[1..], rest);
      assert [date[0]] + date[1..] == date;
    }
  }

  /** `k.replace("_", " ")`: the first underscore only. */
  function FirstUnderscoreToSpace(s: string): (r: string)
    ensures |r| == |s|
    ensures '_' !in s ==> r == s
    ensures forall i :: 0 <= i < |s| && s[i] != '_' ==> r[i] == s[i]
    decreases |s|
  {
    if |s| == 0 then ""
    else if s[0] == '_' then [' '] + s[1..]
    else [s[0]] + FirstUnderscoreToSpace(s[1..])
  }

  /** Every string contains the empty string: an empty search term matches everything. */
  lemma ContainsEmpty(s: string)
    ensures Contains(s, "")
  {
    assert StartsWith(s[0..], "");
  }
}
