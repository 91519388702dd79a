/** Prefix facts about strings. The verifier unfolds a string literal one
    character at a time, so facts about the start of a long literal are
    proved through a chain of shorter prefixes. */
module Strings {

  lemma PrefixOfAppend(a: string, b: string)
    ensures a <= a + b
  {
  }

  lemma PrefixTransitive(a: string, b: string, c: string)
    requires a <= b && b <= c
    ensures a <= c
  {
  }
}
