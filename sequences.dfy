/**
 * Generic facts about sequences that the recursive, last-element-first
 * definitions of the model rely on. Dafny proves each of them on its own;
 * they are stated as lemmas so that the larger proofs can call them instead
 * of asserting sequence equalities inline, which the solver handles poorly
 * in a big context.
 */
module Sequences {
  /** Dropping the last element of `a + b` drops the last element of `b`. */
  lemma DropLastOfAppend<T>(a: seq<T>, b: seq<T>)
    requires b != []
    ensures (a + b)[..|a + b| - 1] == a + b[..|b| - 1]
    ensures (a + b)[|a + b| - 1] == b[|b| - 1]
  {
  }

  /** Concatenation is associative. */
  lemma AppendAssoc<T>(x: seq<T>, y: seq<T>, z: seq<T>)
    ensures (x + y) + z == x + (y + z)
  {
  }

  /** Taking the whole of a sequence gives the sequence. */
  lemma TakeAll<T>(s: seq<T>)
    ensures s[..|s|] == s
  {
  }

  /** Appending the empty sequence changes nothing. */
  lemma AppendEmpty<T>(s: seq<T>)
    ensures s + [] == s
  {
  }

  /** The prefix of length `k + 1` is the prefix of length `k` followed by `s[k]`. */
  lemma PrefixStep<T>(s: seq<T>, k: nat)
    requires k < |s|
    ensures s[..k + 1][..k] == s[..k]
    ensures s[..k + 1][k] == s[k]
    ensures |s[..k + 1]| == k + 1
  {
  }

  /** The five parts of `a + b + c + d + e` can be sliced back out of it. */
  lemma FiveParts<T>(a: seq<T>, b: seq<T>, c: seq<T>, d: seq<T>, e: seq<T>)
    ensures var s := a + b + c + d + e;
      |s| == |a| + |b| + |c| + |d| + |e| &&
      s[..|a| + |b| + |c|] == a + b + c &&
      s[|a|..|a| + |b|] == b &&
      s[|a| + |b| + |c|..|s| - |e|] == d &&
      s[|s| - |e|..] == e
  {
  }

  /** The prefix of length `k + 1` extends the prefix of length `k` by `s[k]`. */
  lemma TakeStep<T>(s: seq<T>, k: nat)
    requires k < |s|
    ensures s[..k + 1] == s[..k] + [s[k]]
  {
  }

  /** A sequence is what comes before position `j`, `s[j]`, and what follows. */
  lemma SplitAt<T>(s: seq<T>, j: nat)
    requires j < |s|
    ensures s == s[..j] + [s[j]] + s[j + 1..]
  {
  }
}
