/** Building blocks for hand-written regular-expression scanners: greedy
    character runs, the rightmost position a greedy `.+` can end at, and
    the leftmost-match search a non-global `String.prototype.match`
    performs. JavaScript's `\s` is read as `Strs.IsSpace` and its `.` as any
    character other than a line terminator. */
module Scan {
  import opened Wrappers
  import opened Strs

  /** JavaScript line terminators, which `.` does not match. */
  predicate IsLineTerminator(c: char) {
    c == '\n' || c == '\r' || c == '\U{2028}' || c == '\U{2029}'
  }

  /** The end of the longest run of characters satisfying `p` that starts
      at `i`: what a greedy `[..]*` reaches. */
  function Skip(s: string, i: nat, p: char -> bool): (j: nat)
    requires i <= |s|
    ensures i <= j <= |s|
    ensures forall k :: i <= k < j ==> p(s[k])
    ensures j < |s| ==> !p(s[j])
    decreases |s| - i
  {
    if i < |s| && p(s[i]) then Skip(s, i + 1, p) else i
  }

  /** The last position in `[lo, hi)` holding a character that satisfies
      `p`. */
  function LastWhere(s: string, lo: nat, hi: nat, p: char -> bool): (r: Option<nat>)
    requires hi <= |s|
    ensures r.Some? ==> lo <= r.value < hi && p(s[r.value]) &&
                        forall k :: r.value < k < hi ==> !p(s[k])
    ensures r.None? ==> forall k :: lo <= k < hi ==> !p(s[k])
    decreases hi
  {
    if hi <= lo then None
    else if p(s[hi - 1]) then Some(hi - 1)
    else LastWhere(s, lo, hi - 1, p)
  }

  /** The leftmost position in `[i, n)` at which `at` reports a match,
      with the match: how the regex engine tries start positions. */
  function Leftmost<T>(n: nat, i: nat, at: nat -> Option<T>): (r: Option<(nat, T)>)
    requires i <= n
    ensures r.Some? ==> i <= r.value.0 < n && at(r.value.0) == Some(r.value.1)
    ensures r.Some? ==> forall k :: i <= k < r.value.0 ==> at(k).None?
    ensures r.None? ==> forall k :: i <= k < n ==> at(k).None?
    decreases n - i
  {
    if i == n then None
    else if at(i).Some? then Some((i, at(i).value))
    else Leftmost(n, i + 1, at)
  }

  /** A run ends exactly where the characters stop satisfying `p`. */
  lemma SkipExact(s: string, i: nat, j: nat, p: char -> bool)
    requires i <= j <= |s|
    requires forall k :: i <= k < j ==> p(s[k])
    requires j < |s| ==> !p(s[j])
    ensures Skip(s, i, p) == j
  {
  }

  /** Start positions that report no match can be skipped. */
  lemma {:induction false} LeftmostFrom<T>(n: nat, i: nat, j: nat, at: nat -> Option<T>)
    requires i <= j <= n
    requires forall k :: i <= k < j ==> at(k).None?
    ensures Leftmost(n, i, at) == Leftmost(n, j, at)
    decreases j - i
  {
    if i < j {
      assert at(i).None?;
      LeftmostFrom(n, i + 1, j, at);
    }
  }

  /** No match at `i` and one at `i + 1`: the search finds that one. */
  lemma LeftmostNext<T>(n: nat, i: nat, v: T, at: nat -> Option<T>)
    requires i + 1 < n && at(i).None? && at(i + 1) == Some(v)
    ensures Leftmost(n, i, at) == Some((i + 1, v))
  {
  }

  /** The leftmost match is the first start position that reports one. */
  lemma LeftmostIs<T>(n: nat, i: nat, k: nat, v: T, at: nat -> Option<T>)
    requires i <= k < n
    requires forall j :: i <= j < k ==> at(j).None?
    requires at(k) == Some(v)
    ensures Leftmost(n, i, at) == Some((k, v))
  {
  }
}
