/** Shared vocabulary of the model: an Option type, and the string searches
    that JavaScript's `includes`, `indexOf`, `replace` and a non-global
    regular-expression search perform. */
module Common {

  datatype Option<T> = None | Some(value: T)

  /** `lit` occurs in `s` starting at index `p`. */
  predicate HasAt(s: string, p: nat, lit: string) {
    p + |lit| <= |s| && s[p..p + |lit|] == lit
  }

  /** `sub` occurs somewhere in `s`. */
  ghost predicate Occurs(s: string, sub: string) {
    exists p: nat :: HasAt(s, p, sub)
  }

  /** The first index at or after `from` where `sub` occurs. */
  function IndexFrom(s: string, sub: string, from: nat): (r: Option<nat>)
    decreases |s| + 1 - from
    ensures r.Some? ==> from <= r.value && HasAt(s, r.value, sub)
    ensures r.Some? ==> forall q: nat :: from <= q < r.value ==> !HasAt(s, q, sub)
    ensures r.None? ==> forall q: nat :: from <= q ==> !HasAt(s, q, sub)
  {
    if from + |sub| > |s| then None
    else if HasAt(s, from, sub) then Some(from)
    else IndexFrom(s, sub, from + 1)
  }

  /** `s.indexOf(sub)`, with `None` for -1. */
  function IndexOf(s: string, sub: string): (r: Option<nat>)
    ensures r.Some? <==> Occurs(s, sub)
    ensures r.Some? ==> HasAt(s, r.value, sub) && forall q: nat :: q < r.value ==> !HasAt(s, q, sub)
  {
    IndexFrom(s, sub, 0)
  }

  /** `s.includes(sub)`. */
  function Includes(s: string, sub: string): (b: bool)
    ensures b <==> Occurs(s, sub)
  {
    IndexOf(s, sub).Some?
  }

  /** `s.replace(pat, rep)` with a string pattern: only the first occurrence
      of `pat` is replaced; without one, `s` is returned unchanged.
      (The replacement texts used in this model contain no `$` patterns.) */
  function ReplaceFirst(s: string, pat: string, rep: string): (r: string)
    ensures !Occurs(s, pat) ==> r == s
    ensures Occurs(s, pat) ==>
      exists i: nat :: HasAt(s, i, pat) && (forall q: nat :: q < i ==> !HasAt(s, q, pat))
                       && r == s[..i] + rep + s[i + |pat|..]
  {
    match IndexOf(s, pat)
    case None => s
    case Some(i) => s[..i] + rep + s[i + |pat|..]
  }

  /** The end of the longest run of characters satisfying `ok` that starts at
      `i`: what a greedy character-class repetition consumes. */
  function RunEnd(s: string, i: nat, ok: char -> bool): (e: nat)
    requires i <= |s|
    decreases |s| - i
    ensures i <= e <= |s|
    ensures forall k :: i <= k < e ==> ok(s[k])
    ensures e < |s| ==> !ok(s[e])
  {
    if i < |s| && ok(s[i]) then RunEnd(s, i + 1, ok) else i
  }

  /** The largest `j` with `lo <= j < hi` and `ok(j)`: where a greedy `.*` or
      `.+` ends once backtracking finds what must follow it. */
  function LastWhere(lo: nat, hi: nat, ok: nat -> bool): (r: Option<nat>)
    decreases hi
    ensures r.Some? ==> lo <= r.value < hi && ok(r.value)
    ensures r.Some? ==> forall j: nat :: r.value < j < hi ==> !ok(j)
    ensures r.None? ==> forall j: nat :: lo <= j < hi ==> !ok(j)
  {
    if hi <= lo then None
    else if ok(hi - 1) then Some(hi - 1)
    else LastWhere(lo, hi - 1, ok)
  }

  /** The leftmost start position `p >= from` at which the anchored matcher
      `m` succeeds, with what it captured: the match `s.match(re)` returns for
      a regular expression without the global flag. */
  function Leftmost<T>(s: string, from: nat, m: (string, nat) -> Option<T>): (r: Option<(nat, T)>)
    decreases |s| + 1 - from
    ensures r.Some? ==> from <= r.value.0 <= |s| && m(s, r.value.0) == Some(r.value.1)
    ensures r.Some? ==> forall q: nat :: from <= q < r.value.0 ==> m(s, q).None?
    ensures r.None? ==> forall q: nat :: from <= q <= |s| ==> m(s, q).None?
  {
    if from > |s| then None
    else match m(s, from)
      case Some(v) => Some((from, v))
      case None => Leftmost(s, from + 1, m)
  }
}
