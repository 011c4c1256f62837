/** The abstract meaning of a score-ordered list: a sequence of entries kept in
    ascending score order, equal scores in the order they were inserted. */
module StableQueue {
  import opened Sequences

  datatype Entry<T> = Entry(score: int, item: T)

  ghost predicate Sorted<T>(q: seq<Entry<T>>) {
    forall i, j :: 0 <= i <= j < |q| ==> q[i].score <= q[j].score
  }

  /** The number of leading entries whose score is at most `bound`. */
  function CountLte<T>(q: seq<Entry<T>>, bound: int): (n: nat)
    ensures n <= |q|
    ensures forall i :: 0 <= i < n ==> q[i].score <= bound
    ensures n < |q| ==> q[n].score > bound
  {
    if q == [] || q[0].score > bound then 0 else 1 + CountLte(q[1..], bound)
  }

  /** Insertion behind every entry that scores no more than the new one. */
  function Insert<T>(q: seq<Entry<T>>, e: Entry<T>): seq<Entry<T>> {
    InsertAt(q, CountLte(q, e.score), e)
  }

  lemma SortedSplit<T>(q: seq<Entry<T>>, bound: int)
    requires Sorted(q)
    ensures forall i :: 0 <= i < |q| ==> (q[i].score <= bound <==> i < CountLte(q, bound))
  {
  }

  lemma CountLteUnique<T>(q: seq<Entry<T>>, bound: int, n: nat)
    requires n <= |q|
    requires forall i :: 0 <= i < n ==> q[i].score <= bound
    requires n < |q| ==> q[n].score > bound
    ensures CountLte(q, bound) == n
  {
  }

  lemma InsertSorted<T>(q: seq<Entry<T>>, e: Entry<T>)
    requires Sorted(q)
    ensures Sorted(Insert(q, e))
  {
    SortedSplit(q, e.score);
  }

  // ---- Stability ---------------------------------------------------------

  /** The entries of one score, in list order. */
  function OfScore<T>(q: seq<Entry<T>>, v: int): seq<Entry<T>> {
    if q == [] then []
    else (if q[0].score == v then [q[0]] else []) + OfScore(q[1..], v)
  }

  function InsertAll<T>(q: seq<Entry<T>>, es: seq<Entry<T>>): seq<Entry<T>>
    decreases |es|
  {
    if es == [] then q else InsertAll(Insert(q, es[0]), es[1..])
  }

  lemma {:induction false} OfScoreConcat<T>(a: seq<Entry<T>>, b: seq<Entry<T>>, v: int)
    ensures OfScore(a + b, v) == OfScore(a, v) + OfScore(b, v)
    decreases |a|
  {
    if a == [] {
      assert a + b == b;
    } else {
      assert (a + b)[0] == a[0] && (a + b)[1..] == a[1..] + b;
      OfScoreConcat(a[1..], b, v);
      ConcatAssoc(if a[0].score == v then [a[0]] else [], OfScore(a[1..], v), OfScore(b, v));
    }
  }

  lemma {:induction false} OfScoreNone<T>(q: seq<Entry<T>>, v: int)
    requires forall i :: 0 <= i < |q| ==> q[i].score != v
    ensures OfScore(q, v) == []
    decreases |q|
  {
    if q != [] {
      OfScoreNone(q[1..], v);
    }
  }

  lemma {:induction false} OfScoreBetween<T>(a: seq<Entry<T>>, e: Entry<T>, b: seq<Entry<T>>, v: int)
    requires e.score == v ==> forall i :: 0 <= i < |b| ==> b[i].score != v
    ensures OfScore(a + [e] + b, v) == OfScore(a + b, v) + (if e.score == v then [e] else [])
  {
    OfScoreConcat(a, b, v);
    OfScoreConcat(a + [e], b, v);
    OfScoreConcat(a, [e], v);
    if e.score == v {
      OfScoreNone(b, v);
    }
  }

  lemma {:induction false} InsertStable<T>(q: seq<Entry<T>>, e: Entry<T>, v: int)
    requires Sorted(q)
    ensures OfScore(Insert(q, e), v) == OfScore(q, v) + (if e.score == v then [e] else [])
  {
    var k := CountLte(q, e.score);
    SortedSplit(q, e.score);
    assert q == q[..k] + q[k..];
    assert Insert(q, e) == q[..k] + [e] + q[k..];
    OfScoreBetween(q[..k], e, q[k..], v);
  }

  /** Inserting any sequence one by one is a stable sort of it: the result is
      sorted, holds the same entries, and keeps the order within every score. */
  lemma {:induction false} InsertAllIsStableSort<T>(q: seq<Entry<T>>, es: seq<Entry<T>>)
    requires Sorted(q)
    ensures Sorted(InsertAll(q, es))
    ensures multiset(InsertAll(q, es)) == multiset(q) + multiset(es)
    ensures forall v :: OfScore(InsertAll(q, es), v) == OfScore(q, v) + OfScore(es, v)
    decreases |es|
  {
    if es != [] {
      assert es == [es[0]] + es[1..];
      InsertSorted(q, es[0]);
      InsertAtMultiset(q, CountLte(q, es[0].score), es[0]);
      InsertAllIsStableSort(Insert(q, es[0]), es[1..]);
      forall v
        ensures OfScore(InsertAll(q, es), v) == OfScore(q, v) + OfScore(es, v)
      {
        InsertStable(q, es[0], v);
        ConcatAssoc(OfScore(q, v), if es[0].score == v then [es[0]] else [], OfScore(es[1..], v));
      }
    }
  }

  /** Sorted, same entries per score in the same order: there is only one such list. */
  lemma {:induction false} StableSortUnique<T>(a: seq<Entry<T>>, b: seq<Entry<T>>)
    requires Sorted(a) && Sorted(b)
    requires forall v :: OfScore(a, v) == OfScore(b, v)
    ensures a == b
    decreases |a|
  {
    if b != [] {
      assert OfScore(b, b[0].score)[0] == b[0];
      FirstOfScore(a, b[0].score);
    }
    if a != [] {
      assert OfScore(a, a[0].score)[0] == a[0];
      FirstOfScore(b, a[0].score);
      assert a[0] == b[0];
      forall v
        ensures OfScore(a[1..], v) == OfScore(b[1..], v)
      {
        assert OfScore(a, v) == OfScore(b, v);
        var head := if a[0].score == v then [a[0]] else [];
        assert head + OfScore(a[1..], v) == head + OfScore(b[1..], v);
        assert OfScore(a[1..], v) == (head + OfScore(a[1..], v))[|head|..];
        assert OfScore(b[1..], v) == (head + OfScore(b[1..], v))[|head|..];
      }
      StableSortUnique(a[1..], b[1..]);
    }
  }

  lemma {:induction false} FirstOfScore<T>(q: seq<Entry<T>>, v: int)
    requires Sorted(q) && OfScore(q, v) != []
    ensures q != [] && q[0].score <= v
    decreases |q|
  {
    if q[0].score != v {
      FirstOfScore(q[1..], v);
    }
  }

  /** Splitting at `a` and then at `b >= a` takes together what one split at `b` takes. */
  lemma {:induction false} SplitTwice<T>(q: seq<Entry<T>>, a: int, b: int)
    requires Sorted(q) && a <= b
    ensures var m := CountLte(q, a);
            var n := CountLte(q, b);
            && m <= n
            && CountLte(q[m..], b) == n - m
            && q[..m] + q[m..][..n - m] == q[..n]
            && q[m..][n - m..] == q[n..]
  {
    SortedSplit(q, a);
    SortedSplit(q, b);
    var m, n := CountLte(q, a), CountLte(q, b);
    CountLteUnique(q[m..], b, n - m);
    SliceTwice(q, m, n);
  }
}
