/** Identifiers accepted from callers and providers. */
module Identifiers {
  predicate IdentifierChar(c: char) {
    'a' <= c <= 'z' || 'A' <= c <= 'Z' || '0' <= c <= '9' || c == '-' || c == '_' || c == '.' || c == ':'
  }

  predicate ValidIdentifier(s: string) {
    0 < |s| <= 128 && forall i :: 0 <= i < |s| ==> IdentifierChar(s[i])
  }

  /** The bytes of an identifier by their ASCII numbers: letters, digits, and - . : _ */
  lemma IdentifierBytes(s: string)
    ensures ValidIdentifier(s) <==>
              && 1 <= |s| <= 128
              && forall i :: 0 <= i < |s| ==>
                   var n := s[i] as int; 65 <= n <= 90 || 97 <= n <= 122 || 48 <= n <= 58 || n in {45, 46, 95}
  {}
}
