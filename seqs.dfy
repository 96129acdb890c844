/** Small facts about sequences that the proofs about the frame and the navigation history share. */
module Seqs {

  lemma AppendAssoc<T>(a: seq<T>, b: seq<T>, c: seq<T>)
    ensures (a + b) + c == a + (b + c)
  {
  }

  /** A sequence that starts with `a + b` starts with `a`, and after `a` comes `b`. */
  lemma PrefixSplit<T>(s: seq<T>, a: seq<T>, b: seq<T>)
    requires |a + b| <= |s| && s[..|a + b|] == a + b
    ensures s[..|a|] == a && s[|a|..] == b + s[|a + b|..]
  {
    assert s[..|a|] == s[..|a + b|][..|a|];
  }

  /** A sequence is what comes before index `i`, the element at `i`, and what comes after it. */
  lemma SplitAt<T>(s: seq<T>, i: nat)
    requires i < |s|
    ensures s == s[..i] + ([s[i]] + s[i + 1..])
  {
  }
}
