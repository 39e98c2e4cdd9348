/**
 * Facts about sequences in general that the proofs about the parser's block
 * and user lists, and about the filtered license lines, rely on.
 */
module Seqs {
  /** Concatenation regroups; stated once so that proofs need not re-derive it element by element. */
  lemma AppendAssoc<T>(a: seq<T>, b: seq<T>, c: seq<T>)
    ensures a + b + c == a + (b + c)
  {
  }
}
