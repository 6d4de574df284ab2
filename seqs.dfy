/**
 * Facts about sequences that the proofs of the other modules call by name, so that the solver
 * does not have to rediscover them inside larger proofs.
 */
module Seqs {

  /** Concatenation regroups. */
  lemma Assoc3<T>(a: seq<T>, b: seq<T>, c: seq<T>)
    ensures a + b + c == a + (b + c)
  {
  }

  lemma Assoc4<T>(a: seq<T>, b: seq<T>, c: seq<T>, d: seq<T>)
    ensures a + b + c + d == a + (b + c + d)
  {
  }

  /** Appending nothing changes nothing. */
  lemma AppendNothing<T>(a: seq<T>)
    ensures a + [] == a
  {
  }

  /** Dropping inside the first part of a concatenation. */
  lemma DropAppend<T>(a: seq<T>, b: seq<T>, n: nat)
    requires n <= |a|
    ensures (a + b)[n..] == a[n..] + b
  {
  }

  /** Two drops in a row are one drop. */
  lemma SuffixShift<T>(s: seq<T>, i: nat, n: nat)
    requires i + n <= |s|
    ensures s[i..][n..] == s[i + n..]
  {
  }

  /** The whole sequence as a prefix and as a suffix; the empty suffix. */
  lemma TakeAll<T>(s: seq<T>)
    ensures s[..|s|] == s
  {
  }

  lemma DropNone<T>(s: seq<T>)
    ensures s[0..] == s
  {
  }

  lemma DropAll<T>(s: seq<T>)
    ensures s[|s|..] == []
  {
  }

  /** Dropping the last element of `a + b`, for a non-empty `b`, drops it from `b`. */
  lemma AppendLast<T>(a: seq<T>, b: seq<T>)
    requires b != []
    ensures (a + b)[..|a + b| - 1] == a + b[..|b| - 1]
    ensures (a + b)[|a + b| - 1] == b[|b| - 1]
  {
  }
}
