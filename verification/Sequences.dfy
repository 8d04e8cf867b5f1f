/** Prefixes and suffixes of sequences. */
module Sequences {

  lemma PrefixGrows<T>(s: seq<T>, i: nat)
    requires i < |s|
    ensures s[..i] + [s[i]] == s[..i + 1]
  {
  }

  lemma WholePrefix<T>(s: seq<T>)
    ensures s[..|s|] == s && s[0..] == s && s[|s|..] == []
  {
  }
}
