/** Edits of sequences at one place. */
module Sequences {

  function InsertAt<X>(s: seq<X>, k: nat, x: X): (t: seq<X>)
    requires k <= |s|
    ensures |t| == |s| + 1 && t[k] == x
    ensures forall i {:trigger t[i]} :: 0 <= i < k ==> t[i] == s[i]
    ensures forall i :: k < i < |t| ==> t[i] == s[i - 1]
  {
    s[..k] + [x] + s[k..]
  }

  function RemoveAt<X>(s: seq<X>, k: nat): (t: seq<X>)
    requires k < |s|
    ensures |t| == |s| - 1
    ensures forall i {:trigger t[i]} :: 0 <= i < k ==> t[i] == s[i]
    ensures forall i :: k <= i < |t| ==> t[i] == s[i + 1]
  {
    s[..k] + s[k + 1..]
  }

  lemma InsertAtMultiset<X>(s: seq<X>, k: nat, x: X)
    requires k <= |s|
    ensures multiset(InsertAt(s, k, x)) == multiset(s) + multiset{x}
  {
    assert s == s[..k] + s[k..];
    assert InsertAt(s, k, x) == s[..k] + [x] + s[k..];
  }

  lemma RemoveAtMultiset<X>(s: seq<X>, k: nat)
    requires k < |s|
    ensures multiset(s) == multiset(RemoveAt(s, k)) + multiset{s[k]}
  {
    assert s == s[..k] + [s[k]] + s[k + 1..];
    assert RemoveAt(s, k) == s[..k] + s[k + 1..];
  }

  lemma InsertRemove<X>(s: seq<X>, k: nat, x: X)
    requires k <= |s|
    ensures RemoveAt(InsertAt(s, k, x), k) == s
  {
  }

  lemma RemoveInsert<X>(s: seq<X>, k: nat)
    requires k < |s|
    ensures InsertAt(RemoveAt(s, k), k, s[k]) == s
  {
  }

  lemma ConcatAssoc<X>(a: seq<X>, b: seq<X>, c: seq<X>)
    ensures a + b + c == a + (b + c)
  {
  }

  lemma SplitJoin<X>(s: seq<X>, k: nat)
    requires k <= |s|
    ensures s == s[..k] + s[k..]
  {
  }

  lemma SplitCons<X>(s: seq<X>, n: nat)
    requires n < |s|
    ensures s[..n + 1] == [s[0]] + s[1..][..n]
    ensures s[n + 1..] == s[1..][n..]
  {
  }

  lemma ConsTail<X>(x: X, t: seq<X>)
    ensures ([x] + t)[0] == x && ([x] + t)[1..] == t
  {
  }

  lemma HeadTail<X>(s: seq<X>)
    requires s != []
    ensures s == [s[0]] + s[1..]
  {
  }

  lemma Around<X>(s: seq<X>, i: nat)
    requires i < |s|
    ensures s == s[..i] + ([s[i]] + s[i + 1..])
  {
  }

  lemma Middle<X>(front: seq<X>, x: X, rest: seq<X>)
    ensures (front + ([x] + rest))[|front|] == x
    ensures (front + ([x] + rest))[|front| + 1..] == rest
  {
  }

  lemma DropOfConcat<X>(s: seq<X>, t: seq<X>, i: nat)
    requires i <= |s|
    ensures (s + t)[i..] == s[i..] + t
  {
  }

  lemma EmptyConcat<X>(s: seq<X>)
    ensures [] + s == s && s + [] == s
  {
  }

  lemma SliceTwice<X>(s: seq<X>, m: nat, n: nat)
    requires m <= n <= |s|
    ensures s[..m] + s[m..][..n - m] == s[..n]
    ensures s[m..][n - m..] == s[n..]
  {
  }

  lemma SliceSnoc<X>(s: seq<X>, a: nat, b: nat)
    requires a <= b < |s|
    ensures s[a..b + 1] == s[a..b] + [s[b]]
  {
  }

  lemma InsertAtMembers<X>(s: seq<X>, k: nat, x: X)
    requires k <= |s|
    ensures forall y {:trigger y in InsertAt(s, k, x)} :: y in InsertAt(s, k, x) <==> y in s || y == x
  {
    assert s == s[..k] + s[k..];
  }

  /** The header and what follows from index `k` on. */
  function Cut<X>(s: seq<X>, k: nat): (t: seq<X>)
    requires 1 <= k <= |s|
    ensures |t| == |s| - k + 1 && t[0] == s[0]
    ensures forall p :: 1 <= p < |t| ==> t[p] == s[k - 1 + p]
  {
    [s[0]] + s[k..]
  }

  lemma CutApart<X>(s: seq<X>, k: nat, front: seq<X>)
    requires 1 <= k <= |s| && front == s[1..k]
    requires forall p, q :: 0 <= p < q < |s| ==> s[p] != s[q]
    ensures forall p {:trigger Cut(s, k)[p]} :: 0 <= p < |Cut(s, k)| ==> Cut(s, k)[p] in s
    ensures forall j {:trigger front[j]} :: 0 <= j < |front| ==> front[j] == s[j + 1] && front[j] !in Cut(s, k)
  {
  }
}
