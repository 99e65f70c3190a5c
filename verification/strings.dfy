/**
 The two string primitives the key sanitizer of senv uses: replacing every
 occurrence of one character by another (Go's strings.ReplaceAll with a
 one-character pattern and replacement) and ASCII upper-casing (Go's
 strings.ToUpper restricted to ASCII input).
 */
module Strings {

  type String = seq<char>

  predicate IsLowerAscii(c: char) {
    'a' <= c <= 'z'
  }

  predicate IsAscii(s: String) {
    forall i :: 0 <= i < |s| ==> s[i] < 128 as char
  }

  /** Upper-case mapping of one character: ASCII letters 'a'..'z' move to
      'A'..'Z', every other character is left as it is. */
  function UpperChar(c: char): (u: char)
    ensures !IsLowerAscii(u)
    ensures IsLowerAscii(c) ==> 'A' <= u <= 'Z' && u as int + 32 == c as int
    ensures !IsLowerAscii(c) ==> u == c
  {
    if IsLowerAscii(c) then (c as int - 32) as char else c
  }

  /** Every occurrence of `pat` in `s` replaced by `rep`, scanning left to right. */
  function ReplaceChar(s: String, pat: char, rep: char): (r: String)
    ensures |r| == |s|
    ensures forall i :: 0 <= i < |s| ==> r[i] == (if s[i] == pat then rep else s[i])
  {
    if s == [] then []
    else [if s[0] == pat then rep else s[0]] + ReplaceChar(s[1..], pat, rep)
  }

  /** `s` with every ASCII lower-case letter upper-cased. */
  function ToUpper(s: String): (r: String)
    ensures |r| == |s|
    ensures forall i :: 0 <= i < |s| ==> r[i] == UpperChar(s[i])
  {
    if s == [] then [] else [UpperChar(s[0])] + ToUpper(s[1..])
  }
}
