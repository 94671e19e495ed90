/** Upper-casing of symbols and order actions (ASCII letters). */
module Text {

  function UpperChar(c: char): char {
    if 'a' <= c <= 'z' then c - 'a' + 'A' else c
  }

  function Upper(s: string): (u: string)
    ensures |u| == |s|
    ensures forall i :: 0 <= i < |s| ==> u[i] == UpperChar(s[i])
  {
    seq(|s|, i requires 0 <= i < |s| => UpperChar(s[i]))
  }

  /** Two characters read the same exactly when they are equal up to the case of a letter. */
  lemma SameUpToCase(c: char, d: char)
    ensures UpperChar(c) == UpperChar(d) <==>
      (c == d || ('a' <= c <= 'z' && c as int - 32 == d as int) || ('a' <= d <= 'z' && d as int - 32 == c as int))
  {
  }
}
