/** Order-preserving selection of elements from a sequence. */
module Sequences {

  /** `xs` can be obtained from `ys` by deleting elements, keeping the rest in order. */
  predicate IsSubsequence<T(==)>(xs: seq<T>, ys: seq<T>)
    decreases |ys|
  {
    && |xs| <= |ys|
    && (|| xs == []
        || (xs[0] == ys[0] && IsSubsequence(xs[1..], ys[1..]))
        || IsSubsequence(xs, ys[1..]))
  }

  /** No element occurs at two positions. */
  predicate NoDuplicates<T(==)>(xs: seq<T>)
  {
    forall i, j | 0 <= i < j < |xs| :: xs[i] != xs[j]
  }

  /** Every element of a subsequence is an element of the whole. */
  lemma {:induction false} SubsequenceMembers<T>(xs: seq<T>, ys: seq<T>)
    requires IsSubsequence(xs, ys)
    ensures forall x | x in xs :: x in ys
    decreases |ys|
  {
    if xs == [] {
    } else if xs[0] == ys[0] && IsSubsequence(xs[1..], ys[1..]) {
      SubsequenceMembers(xs[1..], ys[1..]);
      forall x | x in xs ensures x in ys {
        if x != xs[0] {
          assert x in xs[1..];
        }
      }
    } else {
      SubsequenceMembers(xs, ys[1..]);
    }
  }

  /** Deleting elements cannot introduce a repetition. */
  lemma {:induction false} SubsequenceKeepsNoDuplicates<T>(xs: seq<T>, ys: seq<T>)
    requires IsSubsequence(xs, ys)
    requires NoDuplicates(ys)
    ensures NoDuplicates(xs)
    decreases |ys|
  {
    if xs == [] {
    } else if xs[0] == ys[0] && IsSubsequence(xs[1..], ys[1..]) {
      assert NoDuplicates(ys[1..]);
      SubsequenceKeepsNoDuplicates(xs[1..], ys[1..]);
      SubsequenceMembers(xs[1..], ys[1..]);
      forall i, j | 0 <= i < j < |xs| ensures xs[i] != xs[j] {
        if i == 0 {
          assert xs[j] in xs[1..];
          assert ys[0] !in ys[1..];
        } else {
          assert xs[i] == xs[1..][i - 1] && xs[j] == xs[1..][j - 1];
        }
      }
    } else {
      assert NoDuplicates(ys[1..]);
      SubsequenceKeepsNoDuplicates(xs, ys[1..]);
    }
  }
}
