/**
 Key sanitization: how senv turns a configuration property key into the
 name of an environment variable (senv/main.go, lines 86-91).

 The code assigns the dot-replaced key on one line and then overwrites it by
 replacing dashes in the ORIGINAL key on the next, so with sanitization on
 the name is the key with every '-' turned into '_' and then upper-cased;
 dots are kept. This module models that behaviour.
 */
module Sanitize {
  import opened Strings

  /** What sanitization does to one character of a key, as an independent
      reference for `EnvVarName`. */
  function SanitizedChar(c: char): char {
    if c == '-' then '_' else UpperChar(c)
  }

  /** The environment-variable name used for property `key`. */
  function EnvVarName(key: String, sanitize: bool): (name: String)
    ensures |name| == |key|
    ensures !sanitize ==> name == key
    ensures sanitize ==> forall i :: 0 <= i < |key| ==> name[i] == SanitizedChar(key[i])
  {
    if sanitize then ToUpper(ReplaceChar(key, '-', '_')) else key
  }

  /** A name sanitization leaves alone: no '-' and no ASCII lower-case letter. */
  predicate IsSanitized(name: String) {
    forall i :: 0 <= i < |name| ==> name[i] != '-' && !IsLowerAscii(name[i])
  }

  /** The shape of a sanitized name: same length as the key, no '-', no
      lower-case letter, every '.' of the key still in place, and ASCII
      when the key is. */
  lemma SanitizedShape(key: String)
    ensures |EnvVarName(key, true)| == |key|
    ensures IsSanitized(EnvVarName(key, true))
    ensures forall i :: 0 <= i < |key| && key[i] == '.' ==> EnvVarName(key, true)[i] == '.'
    ensures IsAscii(key) ==> IsAscii(EnvVarName(key, true))
  {
  }

  /** Sanitization leaves a name unchanged exactly when the name is already
      in sanitized form. */
  lemma SanitizeFixedPoint(name: String)
    ensures EnvVarName(name, true) == name <==> IsSanitized(name)
  {
  }

  /** Sanitizing twice gives the same name as sanitizing once. */
  lemma SanitizeIdempotent(key: String)
    ensures EnvVarName(EnvVarName(key, true), true) == EnvVarName(key, true)
  {
  }

  /** Sanitization is not injective: "a-b" and "A_B" are distinct keys that
      both become "A_B". */
  lemma SanitizeMergesKeys()
    ensures EnvVarName("a-b", true) == EnvVarName("A_B", true) == "A_B"
  {
  }

  /** With sanitization on, a dash becomes '_' but a dot stays a dot:
      "a.b-c" becomes "A.B_C", not "A_B_C". */
  lemma SanitizeKeepsDots()
    ensures EnvVarName("a.b-c", true) == "A.B_C"
  {
  }
}
