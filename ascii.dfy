/** ASCII letter case. The command words of noot are matched exactly, so a
    word that differs from a command only in letter case is a different word;
    this module gives the vocabulary to state that. */
module Ascii {

  /** An upper-case ASCII letter. */
  predicate IsUpper(ch: char) {
    'A' <= ch <= 'Z'
  }

  /** The lower-case form of one character: upper-case ASCII letters move down
      by 32 code points, every other character stays as it is. */
  function LowerChar(ch: char): (r: char)
    ensures !IsUpper(r)
    ensures IsUpper(ch) <==> r != ch
  {
    if IsUpper(ch) then (ch as int + 32) as char else ch
  }

  /** A string without upper-case ASCII letters. */
  predicate HasNoUpper(s: string) {
    forall i :: 0 <= i < |s| ==> !IsUpper(s[i])
  }

  /** The lower-case form of a string, character by character. */
  function Lower(s: string): (r: string)
    ensures |r| == |s|
    ensures forall i :: 0 <= i < |s| ==> r[i] == LowerChar(s[i])
    ensures HasNoUpper(r)
  {
    if s == [] then [] else [LowerChar(s[0])] + Lower(s[1..])
  }

  /** Lower-casing changes a string exactly when it holds an upper-case letter. */
  lemma LowerFixesExactlyLowercase(s: string)
    ensures Lower(s) == s <==> HasNoUpper(s)
  {
  }
}
