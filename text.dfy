/** The two string operations the dashboard relies on: Python's `str.lower`,
    restricted to ASCII letters, and the substring test behind pandas'
    `str.contains` for a pattern without regular-expression metacharacters. */
module Text {

  predicate IsAsciiUpper(c: char) {
    'A' <= c <= 'Z'
  }

  /** Lower-cases one character; characters other than 'A'..'Z' are kept. */
  function LowerChar(c: char): char {
    if IsAsciiUpper(c) then (c as int + 32) as char else c
  }

  /** `s.lower()` for ASCII text: same length, no upper-case letter left,
      every upper-case letter replaced by its lower-case partner and every
      other character kept. */
  function Lower(s: string): (r: string)
    ensures |r| == |s|
    ensures forall i :: 0 <= i < |r| ==> !IsAsciiUpper(r[i])
    ensures forall i :: 0 <= i < |s| && !IsAsciiUpper(s[i]) ==> r[i] == s[i]
    ensures forall i :: 0 <= i < |s| && IsAsciiUpper(s[i]) ==> r[i] as int == s[i] as int + 32
  {
    seq(|s|, i requires 0 <= i < |s| => LowerChar(s[i]))
  }

  /** `part` occurs in `text` starting at offset `i`. */
  predicate OccursAt(text: string, part: string, i: int) {
    0 <= i <= |text| - |part| && text[i..i + |part|] == part
  }

  /** Python's `part in text`: `part` occurs in `text` at some offset. The
      empty pattern occurs in every text, and a pattern longer than the text
      occurs nowhere in it. */
  predicate Contains(text: string, part: string)
    ensures |part| == 0 ==> Contains(text, part)
    ensures |part| > |text| ==> !Contains(text, part)
  {
    assert |part| == 0 ==> OccursAt(text, part, 0);
    exists i | 0 <= i <= |text| - |part| :: OccursAt(text, part, i)
  }

  /** Lower-casing commutes with taking a slice. */
  lemma LowerSlice(s: string, i: nat, j: nat)
    requires i <= j <= |s|
    ensures Lower(s)[i..j] == Lower(s[i..j])
  {
  }

  /** Lower-casing both sides keeps every match: whatever occurs verbatim in a
      text also occurs in the lower-cased text once the pattern is lower-cased. */
  lemma ContainsLowered(text: string, part: string)
    requires Contains(text, part)
    ensures Contains(Lower(text), Lower(part))
  {
    var i: int :| OccursAt(text, part, i);
    assert OccursAt(text, part, i);
    LowerSlice(text, i, i + |part|);
    assert OccursAt(Lower(text), Lower(part), i);
  }
}
