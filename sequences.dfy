/**
 * Facts about sequence concatenation and slicing, stated once for any element
 * type so that the proofs about candidates and checkpoints can cite them
 * instead of rediscovering them element by element.
 */
module Sequences {

  lemma AppendAssoc<T>(a: seq<T>, b: seq<T>, c: seq<T>)
    ensures a + b + c == a + (b + c)
  {
  }

  /** Dropping fewer elements than the left operand holds drops them from it alone. */
  lemma DropAppend<T>(a: seq<T>, b: seq<T>, n: nat)
    requires n <= |a|
    ensures (a + b)[n..] == a[n..] + b
  {
  }

  /** The first m elements from position k on are the slice k .. k + m. */
  lemma TakeOfDrop<T>(s: seq<T>, k: nat, m: nat)
    requires k + m <= |s|
    ensures s[k..][..m] == s[k .. k + m]
  {
  }

  /** A suffix r of the right operand of e == p + rest is the suffix of e from |p| + x on. */
  lemma SuffixOfAppend<T>(e: seq<T>, p: seq<T>, rest: seq<T>, r: seq<T>, x: nat, k: nat)
    requires e == p + rest && x <= |rest| && r == rest[x..] && k == |p| + x
    ensures k <= |e| && r == e[k..]
  {
  }

  /** A suffix is the slice up to any later point followed by the rest. */
  lemma SplitAt<T>(s: seq<T>, a: nat, b: nat)
    requires a <= b <= |s|
    ensures s[a..] == s[a..b] + s[b..]
  {
  }
}
