/**
 * The ASCII case mapping the game's string code relies on
 * (`toUpperCase`/`toLowerCase` on type and message names, which are ASCII).
 */
module Text {

  /** `toUpperCase` of one character. */
  function Upper(c: char): (u: char)
    ensures 'a' <= c <= 'z' ==> u as int == c as int - 32
    ensures !('a' <= c <= 'z') ==> u == c
    ensures !('a' <= u <= 'z')
  {
    if 'a' <= c <= 'z' then (c as int - 32) as char else c
  }

  /** `toLowerCase` of one character. */
  function Lower(c: char): (l: char)
    ensures 'A' <= c <= 'Z' ==> l as int == c as int + 32
    ensures !('A' <= c <= 'Z') ==> l == c
    ensures !('A' <= l <= 'Z')
  {
    if 'A' <= c <= 'Z' then (c as int + 32) as char else c
  }

  function UpperStr(s: string): (r: string)
    ensures |r| == |s| && forall i :: 0 <= i < |s| ==> r[i] == Upper(s[i])
  {
    seq(|s|, i requires 0 <= i < |s| => Upper(s[i]))
  }

  function LowerStr(s: string): (r: string)
    ensures |r| == |s| && forall i :: 0 <= i < |s| ==> r[i] == Lower(s[i])
  {
    seq(|s|, i requires 0 <= i < |s| => Lower(s[i]))
  }

  /** A string without upper-case letters. */
  predicate IsLower(s: string)
  {
    forall i :: 0 <= i < |s| ==> !('A' <= s[i] <= 'Z')
  }

  /** Upper-casing and then lower-casing gives back a string that had no capitals. */
  lemma LowerUpperStr(s: string)
    requires IsLower(s)
    ensures LowerStr(UpperStr(s)) == s
  {
    var r := LowerStr(UpperStr(s));
    forall i | 0 <= i < |s|
      ensures r[i] == s[i]
    {
      assert !('A' <= s[i] <= 'Z');
    }
  }

  /** Lower-casing is idempotent and its result has no capitals. */
  lemma LowerStrIdempotent(s: string)
    ensures IsLower(LowerStr(s)) && LowerStr(LowerStr(s)) == LowerStr(s)
  {
  }
}
