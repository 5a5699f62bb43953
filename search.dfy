/**
 * Bounded searches over a range of positions, the backbone of the regex
 * engine's backtracking: a greedy part tries its candidates from the
 * longest down, the match start runs from the left.
 */
module Search {
  import opened Wrappers

  /** The largest `n` in `lo..hi` with `ok(n)`, if there is one. */
  function Last(ok: nat -> bool, lo: nat, hi: nat): (r: Option<nat>)
    requires lo <= hi
    ensures r.Some? ==> lo <= r.value <= hi && ok(r.value)
    ensures r.Some? ==> forall n :: r.value < n <= hi ==> !ok(n)
    ensures r.None? ==> forall n :: lo <= n <= hi ==> !ok(n)
    decreases hi
  {
    if ok(hi) then Some(hi)
    else if hi == lo then None
    else Last(ok, lo, hi - 1)
  }

  /** The smallest `n` in `lo..hi` with `ok(n)`, if there is one. */
  function First(ok: nat -> bool, lo: nat, hi: nat): (r: Option<nat>)
    requires lo <= hi
    ensures r.Some? ==> lo <= r.value <= hi && ok(r.value)
    ensures r.Some? ==> forall n :: lo <= n < r.value ==> !ok(n)
    ensures r.None? ==> forall n :: lo <= n <= hi ==> !ok(n)
    decreases hi - lo
  {
    if ok(lo) then Some(lo)
    else if lo == hi then None
    else First(ok, lo + 1, hi)
  }
}
