/** Generic sequence facts the solver does not always find by itself in
    a large context. */
module Seqs {

  lemma Associative<T>(a: seq<T>, b: seq<T>, c: seq<T>)
    ensures a + b + c == a + (b + c)
  {
  }

  /** A non-empty sequence is its front followed by its last element. */
  lemma FrontLast<T>(s: seq<T>)
    requires |s| > 0
    ensures s[..|s| - 1] + [s[|s| - 1]] == s
  {
  }

  /** An element of the front part keeps its index in the whole. */
  lemma AtFront<T>(a: seq<T>, b: seq<T>, i: nat, x: T)
    requires i < |a| && a[i] == x
    ensures i < |a + b| && (a + b)[i] == x
  {
  }

  /** The first element of the back part sits right after the front. */
  lemma AtJoin<T>(a: seq<T>, b: seq<T>, i: nat, x: T)
    requires i == |a| && |b| > 0 && b[0] == x
    ensures i < |a + b| && (a + b)[i] == x
  {
  }
}
