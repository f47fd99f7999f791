/** Facts about the fixed report sentences, which are built by joining a
    fixed lead, a ticker and a fixed tail. */
module Texts {

  /** Each of the three joined parts can be read back by slicing. */
  lemma ConcatParts(a: string, b: string, c: string)
    ensures |a + b + c| == |a| + |b| + |c|
    ensures (a + b + c)[..|a|] == a
    ensures (a + b + c)[|a|..|a| + |b|] == b
    ensures (a + b + c)[|a| + |b|..] == c
  {
  }
}
