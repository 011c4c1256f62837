/** Pointer towers as pure data: which node follows which on every level, given
    the level-0 order and the height of each node's tower. */
module Towers {
  import opened Sequences

  /** The first index at or after `p` whose tower reaches level `i`; |hs| if none does. */
  function Next(hs: seq<nat>, i: nat, p: nat): (q: nat)
    requires p <= |hs|
    ensures p <= q <= |hs|
    ensures q < |hs| ==> hs[q] > i
    ensures forall r :: p <= r < q ==> hs[r] <= i
    decreases |hs| - p
  {
    if p == |hs| || hs[p] > i then p else Next(hs, i, p + 1)
  }

  lemma {:induction false} NextUnique(hs: seq<nat>, i: nat, p: nat, q: nat)
    requires p <= q <= |hs|
    requires q < |hs| ==> hs[q] > i
    requires forall r :: p <= r < q ==> hs[r] <= i
    ensures Next(hs, i, p) == q
  {
  }

  /** The successor seen from before index `k`: unchanged, the inserted tower, or renumbered. */
  function NextThrough(q: nat, k: nat, h: nat, i: nat): nat {
    if q < k then q else if h > i then k else q + 1
  }

  /** How one more tower of height `h` at index `k` changes `Next`. */
  lemma NextAfterInsert(hs: seq<nat>, k: nat, h: nat, i: nat, p: nat)
    requires p <= |hs| && k <= |hs|
    ensures var q := Next(hs, i, p);
            && (p > k ==> Next(InsertAt(hs, k, h), i, p + 1) == q + 1)
            && (p <= k ==> Next(InsertAt(hs, k, h), i, p) == NextThrough(q, k, h, i))
            && (p == k ==> Next(InsertAt(hs, k, h), i, k + 1) == q + 1)
  {
    var q := Next(hs, i, p);
    var hs' := InsertAt(hs, k, h);
    if p >= k {
      NextUnique(hs', i, p + 1, q + 1);
    }
    if p <= k {
      NextUnique(hs', i, p, NextThrough(q, k, h, i));
    }
  }
}
