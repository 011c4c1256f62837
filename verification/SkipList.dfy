/** The skip list of src/skiplist.h on the heap. Its levels are columns of pointers; two
    invariants over the columns say how much of the structure an operation keeps. */
module SkipLists {
  import opened Sequences
  import opened StableQueue
  import opened Towers

  /** A node: `forward` is the array embedded in it, `item` the struct it is embedded in. */
  class Node<T(0)> {
    var score: int
    var forward: seq<Node?<T>>
    const item: T

    constructor (level: nat, score: int, item: T)
      ensures this.score == score && this.item == item
      ensures |forward| == level && forall i :: 0 <= i < level ==> forward[i] == null
    {
      this.score := score;
      this.item := item;
      this.forward := seq(level, _ => null);
    }
  }

  /** The node at index `q` of a null-terminated chain. */
  function At<T(0)>(ns: seq<Node<T>>, q: nat): Node?<T> {
    if q < |ns| then ns[q] else null
  }

  /** Where node `p` must point on level `i`. */
  function Link<T(0)>(ns: seq<Node<T>>, hs: seq<nat>, i: nat, p: nat): Node?<T>
    requires |ns| == |hs| && p < |ns|
  {
    if hs[p] <= i then null else At(ns, Next(hs, i, p + 1))
  }

  /** An index at which `n` stands. */
  ghost function Slot<T(0)>(ns: seq<Node<T>>, n: Node<T>): nat {
    if n in ns then
      var k :| 0 <= k < |ns| && ns[k] == n;
      k
    else 0
  }

  /** No node stands at two indices. */
  ghost predicate Distinct<T(0)>(ns: seq<Node<T>>) {
    forall p {:trigger ns[p]} :: 0 <= p < |ns| ==> Slot(ns, ns[p]) == p
  }

  /** A pointer of the node at index `p` is null or leads to a listed node behind it. */
  ghost predicate LeadsOn<T(0)>(ns: seq<Node<T>>, p: nat, y: Node?<T>) {
    y == null || exists q :: p < q < |ns| && ns[q] == y
  }

  /** A level as a column: its pointers in level-0 order of their owners. Every one
      leads strictly forward to a listed node, and on level 0 to the successor. */
  ghost predicate WeakColumn<T(0)>(ns: seq<Node<T>>, col: seq<Node?<T>>, i: nat) {
    && |col| == |ns|
    && (forall p :: 0 <= p < |ns| ==> LeadsOn(ns, p, col[p]))
    && (i == 0 ==> forall p :: 0 <= p < |ns| ==> col[p] == At(ns, p + 1))
  }

  /** The column links exactly the nodes whose towers reach level `i`. */
  ghost predicate StrongColumn<T(0)>(ns: seq<Node<T>>, hs: seq<nat>, col: seq<Node?<T>>, i: nat) {
    && |col| == |ns| == |hs|
    && forall p {:trigger col[p]} :: 0 <= p < |ns| ==> col[p] == Link(ns, hs, i, p)
  }

  ghost predicate Tall<T(0)>(ns: seq<Node<T>>, level: nat)
    reads ns
  {
    forall p {:trigger ns[p].forward} :: 0 <= p < |ns| ==> |ns[p].forward| == level
  }

  ghost function Column<T(0)>(ns: seq<Node<T>>, level: nat, i: nat): (col: seq<Node?<T>>)
    requires Tall(ns, level) && i < level
    reads ns
    ensures |col| == |ns| && forall p {:trigger col[p]} :: 0 <= p < |ns| ==> col[p] == ns[p].forward[i]
  {
    seq(|ns|, p requires 0 <= p < |ns| && |ns[p].forward| == level reads ns => ns[p].forward[i])
  }

  lemma {:induction false} StrongStep<T(0)>(ns: seq<Node<T>>, hs: seq<nat>, col: seq<Node?<T>>, i: nat, p: nat, q: nat)
    requires Distinct(ns) && StrongColumn(ns, hs, col, i)
    requires p < |ns| && q < |ns| && ns[q] == col[p]
    ensures q == Next(hs, i, p + 1) && hs[q] > i
  {
    assert col[p] == Link(ns, hs, i, p);
  }

  lemma AtAfterInsert<T(0)>(ns: seq<Node<T>>, k: nat, n: Node<T>, q: nat)
    requires k <= |ns|
    ensures At(InsertAt(ns, k, n), if q < k then q else q + 1) == At(ns, q)
  {
  }

  lemma {:induction false} LinkAfterInsert<T(0)>(ns: seq<Node<T>>, hs: seq<nat>, k: nat, n: Node<T>, h: nat,
                                             i: nat, p: nat)
    requires |ns| == |hs| && k <= |ns| && p < |ns|
    ensures Link(InsertAt(ns, k, n), InsertAt(hs, k, h), i, if p < k then p else p + 1) ==
            if p < k && hs[p] > i && h > i && Next(hs, i, p + 1) >= k then n else Link(ns, hs, i, p)
  {
    var ns', hs' := InsertAt(ns, k, n), InsertAt(hs, k, h);
    if hs[p] > i {
      var q := Next(hs, i, p + 1);
      NextAfterInsert(hs, k, h, i, p + 1);
      AtAfterInsert(ns, k, n, q);
      if p < k {
        assert hs'[p] == hs[p] && Link(ns', hs', i, p) == At(ns', NextThrough(q, k, h, i));
      } else {
        assert hs'[p + 1] == hs[p] && Link(ns', hs', i, p + 1) == At(ns', q + 1);
      }
    }
  }

  lemma {:induction false} LinkOfInserted<T(0)>(ns: seq<Node<T>>, hs: seq<nat>, k: nat, n: Node<T>, h: nat, i: nat)
    requires |ns| == |hs| && k <= |ns|
    ensures Link(InsertAt(ns, k, n), InsertAt(hs, k, h), i, k) ==
            if h > i then At(ns, Next(hs, i, k)) else null
  {
    NextAfterInsert(hs, k, h, i, k);
    AtAfterInsert(ns, k, n, Next(hs, i, k));
  }

  lemma {:induction false} LinkNextTo<T(0)>(ns: seq<Node<T>>, hs: seq<nat>, k: nat, n: Node<T>, h: nat, i: nat,
                                        px: nat, p: nat)
    requires |ns| == |hs| && px < k <= |ns| && p < |ns|
    requires hs[px] > i && Next(hs, i, px + 1) >= k
    ensures Link(InsertAt(ns, k, n), InsertAt(hs, k, h), i, if p < k then p else p + 1) ==
            if p == px && h > i then n else Link(ns, hs, i, p)
  {
    LinkAfterInsert(ns, hs, k, n, h, i, p);
    if px < p < k {
      assert hs[p] <= i;
    }
  }

  /** Level `i` with one more node `n` of height `h` at index `k`: if the tower
      reaches the level, its predecessor `px` there points to `n` and `n` takes over
      the old pointer of `px`; every other pointer of the level stays. */
  lemma {:induction false} LinksAfterInsert<T(0)>(ns: seq<Node<T>>, hs: seq<nat>, k: nat, n: Node<T>, h: nat,
                                              i: nat, px: nat)
    requires |ns| == |hs| && px < k <= |ns|
    requires hs[px] > i && Next(hs, i, px + 1) >= k
    ensures var ns', hs' := InsertAt(ns, k, n), InsertAt(hs, k, h);
            && (forall p {:trigger Link(ns', hs', i, p)} :: 0 <= p < k ==>
                  Link(ns', hs', i, p) == (if p == px && h > i then n else Link(ns, hs, i, p)))
            && (forall p :: k < p < |ns'| ==> Link(ns', hs', i, p) == Link(ns, hs, i, p - 1))
            && Link(ns', hs', i, k) == if h > i then Link(ns, hs, i, px) else null
  {
    var ns', hs' := InsertAt(ns, k, n), InsertAt(hs, k, h);
    forall p | 0 <= p < k
      ensures Link(ns', hs', i, p) == (if p == px && h > i then n else Link(ns, hs, i, p))
    {
      LinkNextTo(ns, hs, k, n, h, i, px, p);
    }
    forall p | k < p < |ns'|
      ensures Link(ns', hs', i, p) == Link(ns, hs, i, p - 1)
    {
      LinkNextTo(ns, hs, k, n, h, i, px, p - 1);
    }
    LinkOfInserted(ns, hs, k, n, h, i);
    NextUnique(hs, i, k, Next(hs, i, px + 1));
  }

  /** The column after node `n` at index `k` took over the pointer of `px`. */
  ghost function Spliced<T(0)>(col: seq<Node?<T>>, k: nat, px: nat, n: Node<T>): seq<Node?<T>>
    requires px < k <= |col|
  {
    InsertAt(col, k, col[px])[px := n]
  }

  lemma LeadsOnAfterInsert<T(0)>(ns: seq<Node<T>>, k: nat, n: Node<T>, p: nat, y: Node?<T>)
    requires k <= |ns| && p < |ns| && LeadsOn(ns, p, y)
    ensures LeadsOn(InsertAt(ns, k, n), if p < k then p else p + 1, y)
  {
    if y != null {
      var q :| p < q < |ns| && ns[q] == y;
      assert InsertAt(ns, k, n)[if q < k then q else q + 1] == y;
    }
  }

  lemma SplicedIsWeak<T(0)>(ns: seq<Node<T>>, col: seq<Node?<T>>, i: nat, k: nat, px: nat, n: Node<T>)
    requires px < k <= |ns| && WeakColumn(ns, col, i)
    requires LeadsOn(ns, k - 1, col[px]) && (i == 0 ==> k == px + 1)
    ensures WeakColumn(InsertAt(ns, k, n), Spliced(col, k, px, n), i)
  {
    var ns', col' := InsertAt(ns, k, n), Spliced(col, k, px, n);
    forall p | 0 <= p < |ns'|
      ensures LeadsOn(ns', p, col'[p])
    {
      if p == px {
        assert ns'[k] == n;
      } else if p < k {
        LeadsOnAfterInsert(ns, k, n, p, col[p]);
      } else if p == k {
        if col[px] != null {
          var q :| k - 1 < q < |ns| && ns[q] == col[px];
          assert ns'[q + 1] == col[px];
        }
      } else {
        LeadsOnAfterInsert(ns, k, n, p - 1, col[p - 1]);
      }
    }
  }

  lemma {:induction false} SplicedIsStrong<T(0)>(ns: seq<Node<T>>, hs: seq<nat>, col: seq<Node?<T>>, i: nat,
                                             k: nat, h: nat, px: nat, n: Node<T>)
    requires StrongColumn(ns, hs, col, i) && px < k <= |ns| && hs[px] > i && h > i
    requires Next(hs, i, px + 1) >= k
    ensures StrongColumn(InsertAt(ns, k, n), InsertAt(hs, k, h), Spliced(col, k, px, n), i)
  {
    LinksAfterInsert(ns, hs, k, n, h, i, px);
  }

  lemma PaddedIsWeak<T(0)>(ns: seq<Node<T>>, col: seq<Node?<T>>, i: nat, k: nat, n: Node<T>)
    requires k <= |ns| && WeakColumn(ns, col, i) && i > 0
    ensures WeakColumn(InsertAt(ns, k, n), InsertAt(col, k, null), i)
  {
    var ns', col' := InsertAt(ns, k, n), InsertAt(col, k, null);
    forall p | 0 <= p < |ns'|
      ensures LeadsOn(ns', p, col'[p])
    {
      if p < k {
        LeadsOnAfterInsert(ns, k, n, p, col[p]);
      } else if p > k {
        LeadsOnAfterInsert(ns, k, n, p - 1, col[p - 1]);
      }
    }
  }

  lemma {:induction false} PaddedIsStrong<T(0)>(ns: seq<Node<T>>, hs: seq<nat>, col: seq<Node?<T>>, i: nat, k: nat,
                                            h: nat, px: nat, n: Node<T>)
    requires StrongColumn(ns, hs, col, i) && px < k <= |ns| && hs[px] > i && h <= i
    requires Next(hs, i, px + 1) >= k
    ensures StrongColumn(InsertAt(ns, k, n), InsertAt(hs, k, h), InsertAt(col, k, null), i)
  {
    LinksAfterInsert(ns, hs, k, n, h, i, px);
  }

  ghost predicate ColumnOk<T(0)>(ns: seq<Node<T>>, hs: seq<nat>, col: seq<Node?<T>>, i: nat, strong: bool) {
    WeakColumn(ns, col, i) && (strong ==> StrongColumn(ns, hs, col, i))
  }

  lemma {:induction false} SuccessorIsPast<T(0)>(ns: seq<Node<T>>, hs: seq<nat>, col: seq<Node?<T>>, i: nat,
                                             k: nat, px: nat)
    requires Distinct(ns) && StrongColumn(ns, hs, col, i) && px < k <= |ns| && hs[px] > i
    requires LeadsOn(ns, k - 1, col[px])
    ensures Next(hs, i, px + 1) >= k
  {
    assert col[px] == Link(ns, hs, i, px);
  }

  /** Level `i` stays well formed when `n` is put at index `k`, behind `px`, whose
      pointer leads past `k`: spliced in if its tower reaches the level, else padded. */
  lemma ColumnAfterInsert<T(0)>(ns: seq<Node<T>>, hs: seq<nat>, col: seq<Node?<T>>, i: nat, k: nat, h: nat,
                                px: nat, n: Node<T>, strong: bool)
    requires Distinct(ns) && px < k <= |ns| == |hs| && ColumnOk(ns, hs, col, i, strong)
    requires LeadsOn(ns, k - 1, col[px]) && (strong ==> hs[px] > i) && h > 0
    ensures ColumnOk(InsertAt(ns, k, n), InsertAt(hs, k, h),
                     if h > i then Spliced(col, k, px, n) else InsertAt(col, k, null), i, strong)
  {
    if strong {
      SuccessorIsPast(ns, hs, col, i, k, px);
    }
    if h > i {
      if i == 0 {
        assert col[px] == At(ns, px + 1);
      }
      SplicedIsWeak(ns, col, i, k, px, n);
      if strong {
        SplicedIsStrong(ns, hs, col, i, k, h, px, n);
      }
    } else {
      PaddedIsWeak(ns, col, i, k, n);
      if strong {
        PaddedIsStrong(ns, hs, col, i, k, h, px, n);
      }
    }
  }

  ghost function EntriesFrom<T(0)>(ns: seq<Node<T>>, a: nat): (q: seq<Entry<T>>)
    requires a <= |ns|
    reads ns
    ensures |q| == |ns| - a
    ensures forall p {:trigger q[p]} :: 0 <= p < |q| ==> q[p] == Entry(ns[a + p].score, ns[a + p].item)
  {
    seq(|ns| - a, p requires 0 <= p < |ns| - a reads ns => Entry(ns[a + p].score, ns[a + p].item))
  }

  /** The place insert finds lies behind every score <= the new one and before the rest. */
  lemma {:induction false} PlaceForScore<T(0)>(ns: seq<Node<T>>, bound: int, k: nat)
    requires |ns| >= 1 && Sorted(EntriesFrom(ns, 1))
    requires k == 1 + CountLte(EntriesFrom(ns, 1), bound)
    ensures k <= |ns|
    ensures forall p :: 1 <= p < |ns| ==> (ns[p].score <= bound <==> p < k)
  {
    var q := EntriesFrom(ns, 1);
    SortedSplit(q, bound);
    forall p | 1 <= p < |ns|
      ensures ns[p].score <= bound <==> p < k
    {
      assert ns[p].score == q[p - 1].score;
    }
  }

  lemma DistinctAfterInsert<T(0)>(ns: seq<Node<T>>, k: nat, n: Node<T>)
    requires k <= |ns| && n !in ns && Distinct(ns)
    ensures Distinct(InsertAt(ns, k, n))
  {
  }

  lemma EntriesAfterInsert<T(0)>(ns: seq<Node<T>>, k: nat, n: Node<T>)
    requires 1 <= k <= |ns|
    ensures EntriesFrom(InsertAt(ns, k, n), 1) == InsertAt(EntriesFrom(ns, 1), k - 1, Entry(n.score, n.item))
  {
    var q, t := EntriesFrom(InsertAt(ns, k, n), 1), InsertAt(EntriesFrom(ns, 1), k - 1, Entry(n.score, n.item));
    forall p | 0 <= p < |q|
      ensures q[p] == t[p]
    {
      assert InsertAt(ns, k, n)[1 + p] == if p + 1 < k then ns[1 + p] else if p + 1 == k then n else ns[p];
    }
  }

  lemma {:induction false} LinkWithout<T(0)>(rs: seq<Node<T>>, rh: seq<nat>, k: nat, n: Node<T>, h: nat, i: nat,
                                         py: nat, p: nat)
    requires |rs| == |rh| && py < k <= |rs| && p < |rs|
    requires h > i ==> rh[py] > i && Next(rh, i, py + 1) >= k
    ensures Link(rs, rh, i, p) ==
            Link(InsertAt(rs, k, n), InsertAt(rh, k, h), i, if p == py && h > i then k else if p < k then p else p + 1)
  {
    if h <= i {
      LinkAfterInsert(rs, rh, k, n, h, i, p);
    } else if p != py {
      LinkNextTo(rs, rh, k, n, h, i, py, p);
    } else {
      LinkOfInserted(rs, rh, k, n, h, i);
      NextUnique(rh, i, k, Next(rh, i, py + 1));
    }
  }

  lemma {:induction false} LinksAfterRemove<T(0)>(ns: seq<Node<T>>, hs: seq<nat>, i: nat, k: nat, py: nat, p: nat)
    requires |ns| == |hs| && py < k < |ns| && p < |ns| - 1
    requires hs[k] > i ==> hs[py] > i && Next(hs, i, py + 1) == k
    ensures Link(RemoveAt(ns, k), RemoveAt(hs, k), i, p) ==
            Link(ns, hs, i, if p == py && hs[k] > i then k else if p < k then p else p + 1)
  {
    RemoveInsert(ns, k);
    RemoveInsert(hs, k);
    NextAfterInsert(RemoveAt(hs, k), k, hs[k], i, py + 1);
    LinkWithout(RemoveAt(ns, k), RemoveAt(hs, k), k, ns[k], hs[k], i, py, p);
  }

  /** Level `i` without the node at index `k`: if the tower of that node reaches the
      level, its predecessor `py` inherits its pointer; nothing else changes. */
  lemma ColumnAfterRemove<T(0)>(ns: seq<Node<T>>, hs: seq<nat>, col: seq<Node?<T>>, i: nat, k: nat, py: nat)
    requires Distinct(ns) && StrongColumn(ns, hs, col, i) && py < k < |ns|
    requires hs[k] > i ==> col[py] == ns[k]
    ensures StrongColumn(RemoveAt(ns, k), RemoveAt(hs, k),
                         RemoveAt(if hs[k] > i then col[py := col[k]] else col, k), i)
  {
    var rs, rh := RemoveAt(ns, k), RemoveAt(hs, k);
    var rcol := RemoveAt(if hs[k] > i then col[py := col[k]] else col, k);
    assert col[py] == Link(ns, hs, i, py);
    forall p | 0 <= p < |rs|
      ensures rcol[p] == Link(rs, rh, i, p)
    {
      LinksAfterRemove(ns, hs, i, k, py, p);
    }
  }

  lemma NextAfterCut(hs: seq<nat>, k: nat, i: nat, p: nat)
    requires 1 <= k <= |hs| && k - 1 < p <= |hs|
    ensures Next(Cut(hs, k), i, p - (k - 1)) == Next(hs, i, p) - (k - 1)
  {
    NextUnique(Cut(hs, k), i, p - (k - 1), Next(hs, i, p) - (k - 1));
  }

  lemma CutIsWeak<T(0)>(ns: seq<Node<T>>, col: seq<Node?<T>>, i: nat, k: nat, py: nat)
    requires WeakColumn(ns, col, i) && py < k <= |ns|
    requires LeadsOn(ns, k - 1, col[py]) && (i == 0 ==> py == k - 1)
    ensures WeakColumn(Cut(ns, k), Cut(col[0 := col[py]], k), i)
  {
    var ns', col' := Cut(ns, k), Cut(col[0 := col[py]], k);
    forall p | 0 <= p < |ns'|
      ensures LeadsOn(ns', p, col'[p])
      ensures i == 0 ==> col'[p] == At(ns', p + 1)
    {
      if p == 0 {
        LeadsOnAfterCut(ns, k, k - 1, col[py]);
      } else {
        LeadsOnAfterCut(ns, k, k - 1 + p, col[k - 1 + p]);
      }
    }
  }

  lemma LinkAfterCut<T(0)>(ns: seq<Node<T>>, hs: seq<nat>, k: nat, i: nat, p: nat)
    requires 1 <= k <= |ns| == |hs| && 1 <= p < |ns| - k + 1
    ensures Link(Cut(ns, k), Cut(hs, k), i, p) == Link(ns, hs, i, k - 1 + p)
  {
    NextAfterCut(hs, k, i, k + p);
  }

  lemma {:induction false} CutIsStrong<T(0)>(ns: seq<Node<T>>, hs: seq<nat>, col: seq<Node?<T>>, i: nat, k: nat, py: nat)
    requires StrongColumn(ns, hs, col, i) && py < k <= |ns|
    requires Next(hs, i, py + 1) >= k && hs[py] > i && hs[0] > i
    ensures StrongColumn(Cut(ns, k), Cut(hs, k), Cut(col[0 := col[py]], k), i)
  {
    var ns', hs', col' := Cut(ns, k), Cut(hs, k), Cut(col[0 := col[py]], k);
    assert col[py] == Link(ns', hs', i, 0) by {
      assert col[py] == Link(ns, hs, i, py);
      NextUnique(hs, i, k, Next(hs, i, py + 1));
      NextAfterCut(hs, k, i, k);
    }
    forall p | 1 <= p < |ns'|
      ensures col'[p] == Link(ns', hs', i, p)
    {
      assert col[k - 1 + p] == Link(ns, hs, i, k - 1 + p);
      LinkAfterCut(ns, hs, k, i, p);
    }
  }

  /** Level `i` behind the cut: the header took over the pointer of `py`, the last node
      before the cut that the search reached on this level. */
  lemma ColumnAfterCut<T(0)>(ns: seq<Node<T>>, hs: seq<nat>, col: seq<Node?<T>>, i: nat, k: nat, py: nat, strong: bool)
    requires Distinct(ns) && |hs| == |ns| && ColumnOk(ns, hs, col, i, strong) && py < k <= |ns|
    requires LeadsOn(ns, k - 1, col[py]) && (i == 0 ==> py == k - 1)
    requires strong ==> hs[py] > i && hs[0] > i
    ensures ColumnOk(Cut(ns, k), Cut(hs, k), Cut(col[0 := col[py]], k), i, strong)
  {
    CutIsWeak(ns, col, i, k, py);
    if strong {
      SuccessorIsPast(ns, hs, col, i, k, py);
      CutIsStrong(ns, hs, col, i, k, py);
    }
  }

  lemma LeadsOnAfterCut<T(0)>(ns: seq<Node<T>>, k: nat, p: nat, y: Node?<T>)
    requires 1 <= k <= |ns| && k - 1 <= p < |ns| && LeadsOn(ns, p, y)
    ensures LeadsOn(Cut(ns, k), p - (k - 1), y)
  {
    if y != null {
      var q :| p < q < |ns| && ns[q] == y;
      assert Cut(ns, k)[q - (k - 1)] == y;
    }
  }

  /** Popping the first node keeps level `i` exact just when its tower reaches the level
      or no later tower does: its pointer there is all the header inherits. */
  lemma ShiftedIsStrong<T(0)>(ns: seq<Node<T>>, hs: seq<nat>, col: seq<Node?<T>>, i: nat)
    requires Distinct(ns) && ColumnOk(ns, hs, col, i, true) && |ns| >= 2 && hs[0] > i
    ensures StrongColumn(Cut(ns, 2), Cut(hs, 2), Cut(col[0 := col[1]], 2), i) <==>
            hs[1] > i || forall p :: 2 <= p < |hs| ==> hs[p] <= i
  {
    assert col[1] == Link(ns, hs, i, 1);
    if hs[1] > i {
      CutIsStrong(ns, hs, col, i, 2, 1);
    } else {
      NextAfterCut(hs, 2, i, 2);
      if Next(hs, i, 2) == |hs| {
        forall p | 1 <= p < |ns| - 1
          ensures col[1 + p] == Link(Cut(ns, 2), Cut(hs, 2), i, p)
        {
          assert col[1 + p] == Link(ns, hs, i, 1 + p);
          LinkAfterCut(ns, hs, 2, i, p);
        }
      }
    }
  }

  /** Linked by forward[0] in this order and null-terminated. */
  ghost predicate IsChain<T(0)>(c: seq<Node<T>>)
    reads c
  {
    forall j {:trigger c[j].forward} :: 0 <= j < |c| ==> |c[j].forward| > 0 && c[j].forward[0] == At(c, j + 1)
  }

  /** The height of a new tower: any, as far as anything proved here is concerned. */
  method RandomLevel() returns (r: nat)
    ensures r >= 1
  {
    r :| r >= 1;
  }

  class SkipList<T(0)> {
    /** The number of levels. */
    const L: nat
    const header: Node<T>
    /** The header and the listed nodes in level-0 order, and the height of every tower. */
    ghost var nodes: seq<Node<T>>
    ghost var hs: seq<nat>

    ghost predicate Shape()
      reads this, nodes
    {
      ShapeOf(nodes, hs)
    }

    /** `ns`, header first, in ascending score order, with a tower of height `h[p]` each. */
    ghost predicate ShapeOf(ns: seq<Node<T>>, h: seq<nat>)
      reads ns
    {
      Frame(ns, h) && Tall(ns, L) && Sorted(EntriesFrom(ns, 1))
    }

    /** The part of the shape no pointer or score enters into. */
    ghost predicate Frame(ns: seq<Node<T>>, h: seq<nat>) {
      && L >= 1
      && |h| == |ns| >= 1
      && ns[0] == header
      && h[0] == L
      && (forall p :: 0 <= p < |h| ==> 1 <= h[p] <= L)
      && Distinct(ns)
    }

    /** Every pointer leads to a later node; level 0 links the list. What shift keeps. */
    ghost predicate Weak()
      reads this, nodes
    {
      Shape() && forall i :: 0 <= i < L ==> WeakColumn(nodes, Column(nodes, L, i), i)
    }

    /** Every level links exactly the nodes whose towers reach it. */
    ghost predicate Strong()
      reads this, nodes
    {
      Shape() && forall i :: 0 <= i < L ==> StrongColumn(nodes, hs, Column(nodes, L, i), i)
    }

    /** The abstract value: scores and payloads behind the header, in level-0 order. */
    ghost function Entries(): (q: seq<Entry<T>>)
      requires |nodes| >= 1
      reads this, nodes
    {
      EntriesFrom(nodes, 1)
    }

    lemma StrongColumnIsWeak(ns: seq<Node<T>>, h: seq<nat>, col: seq<Node?<T>>, i: nat)
      requires StrongColumn(ns, h, col, i) && forall p :: 0 <= p < |h| ==> 1 <= h[p] <= L
      ensures ColumnOk(ns, h, col, i, true)
    {
      forall p | 0 <= p < |ns|
        ensures LeadsOn(ns, p, col[p])
        ensures i == 0 ==> col[p] == At(ns, p + 1)
      {
        assert col[p] == Link(ns, h, i, p);
        var q := Next(h, i, p + 1);
      }
    }

    lemma StrongIsWeak()
      requires Strong()
      ensures Weak()
    {
      forall i | 0 <= i < L
        ensures WeakColumn(nodes, Column(nodes, L, i), i)
      {
        StrongColumnIsWeak(nodes, hs, Column(nodes, L, i), i);
      }
    }

    /** Takes `ns` with tower heights `h` as the list the pointers now make up. */
    ghost method Commit(ns: seq<Node<T>>, h: seq<nat>, strong: bool)
      requires ShapeOf(ns, h)
      requires forall i :: 0 <= i < L ==> ColumnOk(ns, h, Column(ns, L, i), i, strong)
      modifies this`nodes, this`hs
      ensures nodes == ns && hs == h
      ensures Weak() && (strong ==> Strong())
      ensures Entries() == old(EntriesFrom(ns, 1))
      ensures Columns(ns) == old(Columns(ns))
    {
      nodes, hs := ns, h;
    }

    constructor (level: nat)
      requires level >= 1
      ensures L == level && Strong() && Entries() == []
      ensures fresh(header) && nodes == [header]
    {
      L := level;
      var h: T := *;
      header := new Node(level, 0, h);
      new;
      nodes, hs := [header], [L];
    }

    /** The inner loop of insert and extract_lte. */
    method Walk(x: Node<T>, i: nat, bound: int, ghost ns: seq<Node<T>>, ghost ghs: seq<nat>,
                ghost px: nat, ghost strong: bool)
      returns (y: Node<T>, ghost py: nat)
      requires i < L && px < |ns| && ns[px] == x && Distinct(ns)
      requires Tall(ns, L) && WeakColumn(ns, Column(ns, L, i), i)
      requires strong ==> StrongColumn(ns, ghs, Column(ns, L, i), i) && ghs[px] > i
      ensures px <= py < |ns| && ns[py] == y
      ensures py == px || y.score <= bound
      ensures y.forward[i] == null || y.forward[i].score > bound
      ensures strong ==> ghs[py] > i
    {
      y, py := x, px;
      ghost var col := Column(ns, L, i);
      while y.forward[i] != null && y.forward[i].score <= bound
        invariant px <= py < |ns| && ns[py] == y
        invariant py == px || y.score <= bound
        invariant strong ==> ghs[py] > i
        decreases |ns| - py
      {
        assert LeadsOn(ns, py, col[py]);
        ghost var q :| py < q < |ns| && ns[q] == y.forward[i];
        if strong {
          StrongStep(ns, ghs, col, i, py, q);
        }
        y, py := y.forward[i], q;
      }
    }

    ghost function Columns(ns: seq<Node<T>>): (cols: seq<seq<Node?<T>>>)
      requires Tall(ns, L)
      reads ns
      ensures |cols| == L && forall i {:trigger cols[i]} :: 0 <= i < L ==> cols[i] == Column(ns, L, i)
    {
      seq(L, i requires 0 <= i < L && Tall(ns, L) reads ns => Column(ns, L, i))
    }

    /** The two assignments that put `node` behind `x` on level `i`. */
    method Relink(x: Node<T>, node: Node<T>, i: nat, ghost k: nat, ghost px: nat, ghost ns: seq<Node<T>>)
      requires i < L && px < k <= |ns| && ns[px] == x && Distinct(ns) && node !in ns
      requires Tall(ns, L) && |node.forward| == L
      modifies x`forward, node`forward
      ensures |node.forward| == L && Tall(ns, L) && Tall(InsertAt(ns, k, node), L)
      ensures forall j :: 0 <= j < i ==> Column(ns, L, j) == old(Column(ns, L, j))
      ensures forall j :: i < j < L ==>
                Column(InsertAt(ns, k, node), L, j) == old(Column(InsertAt(ns, k, node), L, j))
      ensures Column(InsertAt(ns, k, node), L, i) == Spliced(old(Column(ns, L, i)), k, px, node)
    {
      node.forward := node.forward[i := x.forward[i]];
      x.forward := x.forward[i := node];
    }

    /** node.forward[i] = NULL on a level the new tower does not reach. */
    method Unlink(node: Node<T>, i: nat, ghost k: nat, ghost ns: seq<Node<T>>)
      requires i < L && k <= |ns| && node !in ns
      requires Tall(ns, L) && |node.forward| == L
      modifies node`forward
      ensures |node.forward| == L && Tall(ns, L) && Tall(InsertAt(ns, k, node), L)
      ensures forall j :: i < j < L ==>
                Column(InsertAt(ns, k, node), L, j) == old(Column(InsertAt(ns, k, node), L, j))
      ensures Column(InsertAt(ns, k, node), L, i) == InsertAt(old(Column(ns, L, i)), k, null)
    {
      node.forward := node.forward[i := null];
    }

    lemma StopIsPast(ns: seq<Node<T>>, k: nat, px: nat, y: Node?<T>, bound: int)
      requires px < k <= |ns| && LeadsOn(ns, px, y)
      requires y == null || y.score > bound
      requires forall p :: 1 <= p < k ==> ns[p].score <= bound
      ensures LeadsOn(ns, k - 1, y)
    {
    }

    lemma LevelStep(ns: seq<Node<T>>, ghs: seq<nat>, col: seq<Node?<T>>, i: nat, k: nat, h: nat, px: nat,
                    n: Node<T>, strong: bool)
      requires Distinct(ns) && px < k <= |ns| == |ghs| && ColumnOk(ns, ghs, col, i, strong)
      requires (strong ==> ghs[px] > i) && h > 0
      requires col[px] == null || col[px].score > n.score
      requires forall p :: 1 <= p < k ==> ns[p].score <= n.score
      ensures ColumnOk(InsertAt(ns, k, n), InsertAt(ghs, k, h),
                       if h > i then Spliced(col, k, px, n) else InsertAt(col, k, null), i, strong)
    {
      assert LeadsOn(ns, px, col[px]);
      StopIsPast(ns, k, px, col[px], n.score);
      ColumnAfterInsert(ns, ghs, col, i, k, h, px, n, strong);
    }

    /** Insert stands at `x` in front of level `i`, which is still that of the list `ns`. */
    ghost predicate BeforeLevel(x: Node<T>, node: Node<T>, i: nat, l: nat, k: nat, px: nat, strong: bool,
                                ns: seq<Node<T>>, ghs: seq<nat>)
      reads ns, node
    {
      && i < L && 0 < l && Distinct(ns) && px < k <= |ns| == |ghs| && ns[px] == x && node !in ns
      && Tall(ns, L) && |node.forward| == L
      && ColumnOk(ns, ghs, Column(ns, L, i), i, strong) && (strong ==> ghs[px] > i)
      && (forall p :: 1 <= p < k ==> ns[p].score <= node.score)
      && (forall p :: k <= p < |ns| ==> ns[p].score > node.score)
    }

    /** One round of the first loop of insert, on a level the new tower does not reach. */
    method PassLevel(x: Node<T>, node: Node<T>, i: nat, ghost l: nat, ghost k: nat, ghost px: nat, ghost strong: bool,
                     ghost ns: seq<Node<T>>, ghost ghs: seq<nat>) returns (y: Node<T>, ghost py: nat)
      requires BeforeLevel(x, node, i, l, k, px, strong, ns, ghs) && l <= i
      modifies node`forward
      ensures px <= py < k && ns[py] == y && (strong ==> ghs[py] > i)
      ensures |node.forward| == L && Tall(ns, L) && Tall(InsertAt(ns, k, node), L)
      ensures forall j :: 0 <= j < i ==> Column(ns, L, j) == old(Column(ns, L, j))
      ensures forall j :: i < j < L ==>
                Column(InsertAt(ns, k, node), L, j) == old(Column(InsertAt(ns, k, node), L, j))
      ensures ColumnOk(InsertAt(ns, k, node), InsertAt(ghs, k, l), Column(InsertAt(ns, k, node), L, i), i, strong)
    {
      ghost var col := Column(ns, L, i);
      y, py := Walk(x, i, node.score, ns, ghs, px, strong);
      LevelStep(ns, ghs, col, i, k, l, py, node, strong);
      Unlink(node, i, k, ns);
    }

    /** One round of the second loop of insert: walk, and put `node` behind the node reached. */
    method ThreadLevel(x: Node<T>, node: Node<T>, i: nat, ghost l: nat, ghost k: nat, ghost px: nat, ghost strong: bool,
                       ghost ns: seq<Node<T>>, ghost ghs: seq<nat>) returns (y: Node<T>, ghost py: nat)
      requires BeforeLevel(x, node, i, l, k, px, strong, ns, ghs) && i < l
      modifies ns`forward, node`forward
      ensures px <= py < k && ns[py] == y && (strong ==> ghs[py] > i)
      ensures |node.forward| == L && Tall(ns, L) && Tall(InsertAt(ns, k, node), L)
      ensures forall j :: 0 <= j < i ==> Column(ns, L, j) == old(Column(ns, L, j))
      ensures forall j :: i < j < L ==>
                Column(InsertAt(ns, k, node), L, j) == old(Column(InsertAt(ns, k, node), L, j))
      ensures ColumnOk(InsertAt(ns, k, node), InsertAt(ghs, k, l), Column(InsertAt(ns, k, node), L, i), i, strong)
    {
      ghost var col := Column(ns, L, i);
      y, py := Walk(x, i, node.score, ns, ghs, px, strong);
      LevelStep(ns, ghs, col, i, k, l, py, node, strong);
      Relink(y, node, i, k, py, ns);
    }

    /** Insert has dealt with the levels from `i` on and stands at `x`. */
    ghost predicate Threaded(x: Node<T>, node: Node<T>, i: nat, l: nat, k: nat, px: nat, strong: bool,
                             ns: seq<Node<T>>, ghs: seq<nat>, cols: seq<seq<Node?<T>>>)
      requires k <= |ns| == |ghs| && i <= L == |cols|
      reads ns, node
    {
      var ns', hs' := InsertAt(ns, k, node), InsertAt(ghs, k, l);
      && px < k && x == ns[px] && (strong ==> ghs[px] >= i)
      && |node.forward| == L && Tall(ns, L) && Tall(ns', L)
      && (forall j :: 0 <= j < i ==> Column(ns, L, j) == cols[j])
      && (forall j :: i <= j < L ==> ColumnOk(ns', hs', Column(ns', L, j), j, strong))
    }

    /** The first loop of insert. */
    method PassAbove(node: Node<T>, l: nat, ghost k: nat, ghost strong: bool,
                     ghost ns: seq<Node<T>>, ghost ghs: seq<nat>, ghost cols: seq<seq<Node?<T>>>)
      returns (x: Node<T>, ghost px: nat)
      requires k <= |ns| == |ghs| && 1 <= l <= L == |cols| && Distinct(ns) && node !in ns
      requires Threaded(header, node, L, l, k, 0, strong, ns, ghs, cols)
      requires forall j :: 0 <= j < L ==> ColumnOk(ns, ghs, cols[j], j, strong)
      requires forall p :: 1 <= p < k ==> ns[p].score <= node.score
      requires forall p :: k <= p < |ns| ==> ns[p].score > node.score
      modifies node`forward
      ensures Threaded(x, node, l, l, k, px, strong, ns, ghs, cols)
    {
      x, px := header, 0;
      for i := L downto l
        invariant Threaded(x, node, i, l, k, px, strong, ns, ghs, cols)
      {
        x, px := PassLevel(x, node, i, l, k, px, strong, ns, ghs);
      }
    }

    /** The second loop of insert. */
    method ThreadBelow(at: Node<T>, node: Node<T>, l: nat, ghost k: nat, ghost pat: nat, ghost strong: bool,
                       ghost ns: seq<Node<T>>, ghost ghs: seq<nat>, ghost cols: seq<seq<Node?<T>>>)
      requires k <= |ns| == |ghs| && 1 <= l <= L == |cols| && Distinct(ns) && node !in ns
      requires Threaded(at, node, l, l, k, pat, strong, ns, ghs, cols)
      requires forall j :: 0 <= j < L ==> ColumnOk(ns, ghs, cols[j], j, strong)
      requires forall p :: 1 <= p < k ==> ns[p].score <= node.score
      requires forall p :: k <= p < |ns| ==> ns[p].score > node.score
      modifies ns`forward, node`forward
      ensures Tall(InsertAt(ns, k, node), L)
      ensures forall i :: 0 <= i < L ==>
                ColumnOk(InsertAt(ns, k, node), InsertAt(ghs, k, l), Column(InsertAt(ns, k, node), L, i), i, strong)
    {
      var x := at;
      ghost var px := pat;
      for i := l downto 0
        invariant Threaded(x, node, i, l, k, px, strong, ns, ghs, cols)
      {
        x, px := ThreadLevel(x, node, i, l, k, px, strong, ns, ghs);
      }
    }

    /** Both loops of insert: thread `node` into every level below `l`. */
    method Thread(node: Node<T>, l: nat, ghost k: nat, ghost strong: bool,
                  ghost ns: seq<Node<T>>, ghost ghs: seq<nat>)
      requires |ns| == |ghs| && 1 <= k <= |ns| && ns[0] == header && ghs[0] == L
      requires Distinct(ns) && Tall(ns, L) && node !in ns && |node.forward| == L && 1 <= l <= L
      requires forall i :: 0 <= i < L ==> ColumnOk(ns, ghs, Column(ns, L, i), i, strong)
      requires forall p :: 1 <= p < k ==> ns[p].score <= node.score
      requires forall p :: k <= p < |ns| ==> ns[p].score > node.score
      modifies ns`forward, node`forward
      ensures Tall(InsertAt(ns, k, node), L)
      ensures forall i :: 0 <= i < L ==>
                ColumnOk(InsertAt(ns, k, node), InsertAt(ghs, k, l), Column(InsertAt(ns, k, node), L, i), i, strong)
    {
      ghost var cols := Columns(ns);
      assert forall j :: 0 <= j < L ==> ColumnOk(ns, ghs, cols[j], j, strong);
      var x;
      ghost var px;
      x, px := PassAbove(node, l, k, strong, ns, ghs, cols);
      ThreadBelow(x, node, l, k, px, strong, ns, ghs, cols);
    }

    lemma Placement(node: Node<T>, l: nat, k: nat)
      requires Shape() && node !in nodes && |node.forward| == L && 1 <= l <= L
      requires k == 1 + CountLte(Entries(), node.score)
      ensures k <= |nodes| && ShapeOf(InsertAt(nodes, k, node), InsertAt(hs, k, l))
      ensures forall p :: 1 <= p < k ==> nodes[p].score <= node.score
      ensures forall p :: k <= p < |nodes| ==> nodes[p].score > node.score
      ensures EntriesFrom(InsertAt(nodes, k, node), 1) == StableQueue.Insert(Entries(), Entry(node.score, node.item))
    {
      PlaceForScore(nodes, node.score, k);
      EntriesAfterInsert(nodes, k, node);
      InsertSorted(Entries(), Entry(node.score, node.item));
      DistinctAfterInsert(nodes, k, node);
    }

    /** insert with a tower of height `l`. */
    method InsertTower(node: Node<T>, l: nat) returns (ghost k: nat)
      requires Weak() && node !in nodes && |node.forward| == L && 1 <= l <= L
      modifies this`nodes, this`hs, nodes`forward, node`forward
      ensures Weak() && (old(Strong()) ==> Strong())
      ensures k == 1 + CountLte(old(Entries()), node.score)
      ensures nodes == InsertAt(old(nodes), k, node) && hs == InsertAt(old(hs), k, l)
      ensures Entries() == StableQueue.Insert(old(Entries()), Entry(node.score, node.item))
    {
      ghost var strong := Strong();
      k := 1 + CountLte(Entries(), node.score);
      Placement(node, l, k);
      ghost var q := EntriesFrom(InsertAt(nodes, k, node), 1);
      Thread(node, l, k, strong, nodes, hs);
      assert EntriesFrom(InsertAt(nodes, k, node), 1) == q;
      Commit(InsertAt(nodes, k, node), InsertAt(hs, k, l), strong);
    }

    /** insert: behind every node that scores no more, with a tower of any height. */
    method Insert(node: Node<T>) returns (ghost k: nat)
      requires Weak() && node !in nodes && |node.forward| == L
      modifies this`nodes, this`hs, nodes`forward, node`forward
      ensures Weak() && (old(Strong()) ==> Strong())
      ensures k == 1 + CountLte(old(Entries()), node.score)
      ensures nodes == InsertAt(old(nodes), k, node) && 1 <= k < |hs| && hs == InsertAt(old(hs), k, hs[k])
      ensures Entries() == StableQueue.Insert(old(Entries()), Entry(node.score, node.item))
    {
      var l := RandomLevel();
      if l > L {
        l := L;
      }
      k := InsertTower(node, l);
    }

    /** The first inner loop of delete. */
    method WalkBelow(x: Node<T>, i: nat, bound: int, ghost px: nat) returns (y: Node<T>, ghost py: nat)
      requires Shape() && i < L && px < |nodes| && nodes[px] == x
      requires StrongColumn(nodes, hs, Column(nodes, L, i), i) && hs[px] > i
      ensures px <= py < |nodes| && nodes[py] == y && hs[py] > i
      ensures py == px || y.score < bound
      ensures y.forward[i] == null || y.forward[i].score >= bound
    {
      y, py := x, px;
      ghost var col := Column(nodes, L, i);
      while y.forward[i] != null && y.forward[i].score < bound
        invariant px <= py < |nodes| && nodes[py] == y && hs[py] > i
        invariant py == px || y.score < bound
        decreases |nodes| - py
      {
        assert col[py] == Link(nodes, hs, i, py);
        y, py := y.forward[i], Next(hs, i, py + 1);
      }
    }

    lemma ScoreOrder(p: nat, q: nat)
      requires Shape() && 1 <= p <= q < |nodes|
      ensures nodes[p].score <= nodes[q].score
    {
      assert Entries()[p - 1].score <= Entries()[q - 1].score;
    }

    /** The second inner loop of delete, up to the break: the predecessor of `node` on
        level `i`, searched for within its run of equal scores, which starts at `f`. */
    method FindInRun(x: Node<T>, node: Node<T>, i: nat, ghost k: nat, ghost f: nat, ghost px: nat)
      returns (y: Node<T>, found: bool, ghost py: nat)
      requires |nodes| == |hs| >= 1 && Tall(nodes, L)
      requires i < L && px < k && px < |nodes| && nodes[px] == x
      requires StrongColumn(nodes, hs, Column(nodes, L, i), i) && hs[px] > i
      requires forall p :: 0 <= p < |nodes| ==> (nodes[p] == node <==> p == k)
      requires forall p :: 1 <= p < |nodes| ==> (nodes[p].score < node.score <==> p < f)
      requires forall p :: 1 <= p <= k < |nodes| ==> nodes[p].score <= node.score
      requires x.forward[i] == null || x.forward[i].score >= node.score
      ensures found <==> k < |nodes| && hs[k] > i
      ensures found ==> px <= py < k && nodes[py] == y && hs[py] > i && y.forward[i] == node
    {
      y, py := x, px;
      ghost var col, n := Column(nodes, L, i), Next(hs, i, px + 1);
      assert col[py] == Link(nodes, hs, i, py);
      while y.forward[i] != null && y.forward[i].score == node.score && y.forward[i] != node
        invariant px <= py < |nodes| && nodes[py] == y && hs[py] > i
        invariant n == Next(hs, i, py + 1) && y.forward[i] == At(nodes, n) && (n < |nodes| ==> n >= f)
        invariant k < |nodes| && hs[k] > i ==> py < n <= k
        decreases |nodes| - py
      {
        y, py := y.forward[i], n;
        n := Next(hs, i, py + 1);
        assert col[py] == Link(nodes, hs, i, py);
      }
      found := y.forward[i] == node;
    }

    /** y->forward[i] = node->forward[i]. */
    method Bypass(y: Node<T>, node: Node<T>, i: nat, ghost k: nat, ghost py: nat)
      requires Shape() && i < L && py < k < |nodes| && nodes[py] == y && nodes[k] == node
      modifies y`forward
      ensures Shape() && Entries() == old(Entries()) && node.forward == old(node.forward)
      ensures forall j :: 0 <= j < L && j != i ==> Column(nodes, L, j) == old(Column(nodes, L, j))
      ensures Column(nodes, L, i) == old(Column(nodes, L, i))[py := old(Column(nodes, L, i))[k]]
    {
      ghost var q := Entries();
      y.forward := y.forward[i := node.forward[i]];
      assert Entries() == q;
    }

    /** Where the scores reach that of `node`; up to its own place none exceeds it. */
    lemma RunStart(node: Node<T>, k: nat) returns (f: nat)
      requires Shape() && 0 < k && if k < |nodes| then nodes[k] == node else node !in nodes
      ensures forall p :: 0 <= p < |nodes| ==> (nodes[p] == node <==> p == k)
      ensures forall p :: 1 <= p < |nodes| ==> (nodes[p].score < node.score <==> p < f)
      ensures forall p :: 1 <= p <= k < |nodes| ==> nodes[p].score <= node.score
      ensures k < |nodes| ==> f <= k
    {
      f := 1 + CountLte(Entries(), node.score - 1);
      PlaceForScore(nodes, node.score - 1, f);
      forall p | 1 <= p <= k < |nodes|
        ensures nodes[p].score <= node.score
      {
        ScoreOrder(p, k);
      }
    }

    /** Both inner loops of delete. Also where x continues on the next level down. */
    method Locate(x: Node<T>, node: Node<T>, i: nat, ghost k: nat, ghost px: nat)
      returns (y: Node<T>, found: bool, ghost py: nat)
      requires Shape() && i < L && px < k && px < |nodes| && nodes[px] == x
      requires StrongColumn(nodes, hs, Column(nodes, L, i), i) && hs[px] > i
      requires if k < |nodes| then nodes[k] == node else node !in nodes
      ensures found <==> k < |nodes| && hs[k] > i
      ensures px <= py < k && py < |nodes| && nodes[py] == y && hs[py] > i
      ensures found ==> y.forward[i] == node
    {
      ghost var f := RunStart(node, k);
      y, py := WalkBelow(x, i, node.score, px);
      var z;
      ghost var pz;
      z, found, pz := FindInRun(y, node, i, k, f, py);
      if found {
        y, py := z, pz;
      }
    }

    /** One round of delete. */
    method DeleteLevel(x: Node<T>, node: Node<T>, i: nat, ghost k: nat, ghost px: nat)
      returns (y: Node<T>, ghost py: nat)
      requires Shape() && i < L && px < k && px < |nodes| && nodes[px] == x
      requires StrongColumn(nodes, hs, Column(nodes, L, i), i) && hs[px] > i
      requires if k < |nodes| then nodes[k] == node else node !in nodes
      modifies nodes`forward
      ensures Shape() && Entries() == old(Entries())
      ensures px <= py < k && py < |nodes| && nodes[py] == y && hs[py] > i
      ensures forall j :: 0 <= j < L && j != i ==> Column(nodes, L, j) == old(Column(nodes, L, j))
      ensures BypassedIn(old(Column(nodes, L, i)), Column(nodes, L, i), i, k)
      ensures node.forward == old(node.forward)
    {
      var found;
      ghost var col := Column(nodes, L, i);
      y, found, py := Locate(x, node, i, k, px);
      assert col[py] == y.forward[i];
      if found {
        Bypass(y, node, i, k, py);
      }
    }

    /** `after` is level `i` once a predecessor of the node at `k` took over its pointer;
        unchanged if no tower at `k` reaches the level. */
    ghost predicate BypassedIn(before: seq<Node?<T>>, after: seq<Node?<T>>, i: nat, k: nat)
      reads this
    {
      && |before| == |hs| == |nodes|
      && if k < |hs| && hs[k] > i
         then exists py :: 0 <= py < k && before[py] == nodes[k] && after == before[py := before[k]]
         else after == before
    }

    /** Where `node` stands, |nodes| if it is absent. */
    ghost function Find(node: Node<T>): (k: nat)
      reads this
      ensures k <= |nodes| && (k < |nodes| ==> nodes[k] == node) && (k == |nodes| ==> node !in nodes)
    {
      if node in nodes then
        var k :| 0 <= k < |nodes| && nodes[k] == node;
        k
      else |nodes|
    }

    /** All rounds of delete: on every level the node, if listed, is bypassed. */
    method BypassAll(node: Node<T>, ghost k: nat)
      requires Strong() && k == Find(node) && k > 0
      modifies nodes`forward
      ensures Shape() && Entries() == old(Entries())
      ensures forall j :: 0 <= j < L ==> BypassedIn(old(Column(nodes, L, j)), Column(nodes, L, j), j, k)
      ensures node.forward == old(node.forward)
    {
      var x := header;
      ghost var px, q := 0, Entries();
      ghost var cols := Columns(nodes);
      assert forall j :: 0 <= j < L ==> StrongColumn(nodes, hs, cols[j], j);
      for i := L downto 0
        invariant Shape() && Entries() == q
        invariant px < k && px < |nodes| && x == nodes[px] && hs[px] >= i
        invariant forall j :: 0 <= j < i ==> Column(nodes, L, j) == cols[j]
        invariant forall j :: i <= j < L ==> BypassedIn(cols[j], Column(nodes, L, j), j, k)
        invariant node.forward == old(node.forward)
      {
        assert Column(nodes, L, i) == cols[i];
        x, px := DeleteLevel(x, node, i, k, px);
      }
    }

    /** A level with the node at `k` bypassed is the level of the shorter list. */
    lemma BypassedIsRemoved(before: seq<Node?<T>>, after: seq<Node?<T>>, i: nat, k: nat)
      requires Shape() && 0 < k < |nodes| && StrongColumn(nodes, hs, before, i) && BypassedIn(before, after, i, k)
      ensures StrongColumn(RemoveAt(nodes, k), RemoveAt(hs, k), RemoveAt(after, k), i)
    {
      var py: nat := 0;
      if hs[k] > i {
        py :| 0 <= py < k && before[py] == nodes[k] && after == before[py := before[k]];
      }
      ColumnAfterRemove(nodes, hs, before, i, k, py);
    }

    lemma EntriesAfterRemove(k: nat)
      requires 0 < k < |nodes|
      ensures EntriesFrom(RemoveAt(nodes, k), 1) == RemoveAt(Entries(), k - 1)
    {
    }

    lemma ColumnAfterDrop(k: nat, i: nat)
      requires Tall(nodes, L) && k < |nodes| && i < L
      ensures Tall(RemoveAt(nodes, k), L)
      ensures Column(RemoveAt(nodes, k), L, i) == RemoveAt(Column(nodes, L, i), k)
    {
    }

    lemma SortedAfterRemove(q: seq<Entry<T>>, k: nat)
      requires Sorted(q) && k < |q|
      ensures Sorted(RemoveAt(q, k))
    {
    }

    /** delete: exactly this node, from every level; nothing if it is absent. */
    method Delete(node: Node<T>) returns (ghost k: nat)
      requires Strong() && node != header
      modifies this`nodes, this`hs, nodes`forward
      ensures Strong() && node.forward == old(node.forward)
      ensures k == old(Find(node))
      ensures if k < |old(nodes)|
              then nodes == RemoveAt(old(nodes), k) && hs == RemoveAt(old(hs), k)
              else nodes == old(nodes) && hs == old(hs) && Columns(nodes) == old(Columns(nodes))
      ensures Entries() == if k < |old(nodes)| then RemoveAt(old(Entries()), k - 1) else old(Entries())
    {
      k := Find(node);
      ghost var cols := Columns(nodes);
      assert forall j :: 0 <= j < L ==> StrongColumn(nodes, hs, cols[j], j);
      BypassAll(node, k);
      if k < |nodes| {
        DropIsStrong(k, cols);
        Commit(RemoveAt(nodes, k), RemoveAt(hs, k), true);
      } else {
        assert Columns(nodes) == cols;
      }
    }

    lemma DropIsStrong(k: nat, cols: seq<seq<Node?<T>>>)
      requires Shape() && 0 < k < |nodes| && |cols| == L
      requires forall j :: 0 <= j < L ==> StrongColumn(nodes, hs, cols[j], j)
      requires forall j :: 0 <= j < L ==> BypassedIn(cols[j], Column(nodes, L, j), j, k)
      ensures ShapeOf(RemoveAt(nodes, k), RemoveAt(hs, k))
      ensures EntriesFrom(RemoveAt(nodes, k), 1) == RemoveAt(Entries(), k - 1)
      ensures forall j :: 0 <= j < L ==>
                ColumnOk(RemoveAt(nodes, k), RemoveAt(hs, k), Column(RemoveAt(nodes, k), L, j), j, true)
    {
      EntriesAfterRemove(k);
      SortedAfterRemove(Entries(), k - 1);
      forall j | 0 <= j < L
        ensures Tall(RemoveAt(nodes, k), L)
        ensures ColumnOk(RemoveAt(nodes, k), RemoveAt(hs, k), Column(RemoveAt(nodes, k), L, j), j, true)
      {
        BypassedIsRemoved(cols[j], Column(nodes, L, j), j, k);
        ColumnAfterDrop(k, j);
        StrongColumnIsWeak(RemoveAt(nodes, k), RemoveAt(hs, k), Column(RemoveAt(nodes, k), L, j), j);
      }
    }

    /** `after` is level `i` once the header took over the pointer of the last node
        before index `k` that the search reached there. */
    ghost predicate CutIn(before: seq<Node?<T>>, after: seq<Node?<T>>, i: nat, k: nat, strong: bool)
      reads this
    {
      && |before| == |hs| == |nodes| && k <= |hs|
      && exists py ::
           && 0 <= py < k && after == before[0 := before[py]]
           && LeadsOn(nodes, k - 1, before[py]) && (i == 0 ==> py == k - 1) && (strong ==> hs[py] > i)
    }

    /** One round of extract_lte. */
    method CutLevel(x: Node<T>, i: nat, bound: int, ghost k: nat, ghost px: nat, ghost strong: bool)
      returns (y: Node<T>, ghost py: nat)
      requires Shape() && i < L && px < k <= |nodes| && nodes[px] == x
      requires ColumnOk(nodes, hs, Column(nodes, L, i), i, strong) && (strong ==> hs[px] > i)
      requires forall p :: 1 <= p < |nodes| ==> (nodes[p].score <= bound <==> p < k)
      modifies header`forward
      ensures Shape() && Entries() == old(Entries())
      ensures px <= py < k && nodes[py] == y && (strong ==> hs[py] > i) && (i == 0 ==> py == k - 1)
      ensures forall j :: 0 <= j < L && j != i ==> Column(nodes, L, j) == old(Column(nodes, L, j))
      ensures CutIn(old(Column(nodes, L, i)), Column(nodes, L, i), i, k, strong)
    {
      ghost var col, q := Column(nodes, L, i), Entries();
      y, py := Walk(x, i, bound, nodes, hs, px, strong);
      assert LeadsOn(nodes, py, col[py]);
      StopIsPast(nodes, k, py, col[py], bound);
      header.forward := header.forward[i := y.forward[i]];
      assert Entries() == q;
      assert Column(nodes, L, i) == col[0 := col[py]];
    }

    /** All rounds of extract_lte: the header skips every node before index `k`. */
    method CutAll(bound: int, ghost k: nat, ghost strong: bool) returns (last: Node<T>)
      requires Weak() && (strong ==> Strong()) && 1 <= k <= |nodes|
      requires forall p :: 1 <= p < |nodes| ==> (nodes[p].score <= bound <==> p < k)
      modifies header`forward
      ensures Shape() && Entries() == old(Entries())
      ensures last == nodes[k - 1]
      ensures forall j :: 0 <= j < L ==> CutIn(old(Column(nodes, L, j)), Column(nodes, L, j), j, k, strong)
    {
      last := header;
      ghost var px, q, cols := 0, Entries(), Columns(nodes);
      assert forall j :: 0 <= j < L ==> ColumnOk(nodes, hs, cols[j], j, strong);
      for i := L downto 0
        invariant Shape() && Entries() == q
        invariant px < k && last == nodes[px] && (strong ==> hs[px] >= i) && (i == 0 ==> px == k - 1)
        invariant forall j :: 0 <= j < i ==> Column(nodes, L, j) == cols[j]
        invariant forall j :: i <= j < L ==> CutIn(cols[j], Column(nodes, L, j), j, k, strong)
      {
        assert Column(nodes, L, i) == cols[i];
        last, px := CutLevel(last, i, bound, k, px, strong);
      }
    }

    /** A level once cut is, from the header on, the level of what remains. */
    lemma CutInIsRest(before: seq<Node?<T>>, after: seq<Node?<T>>, i: nat, k: nat, strong: bool)
      requires Shape() && 1 <= k <= |nodes| && i < L && ColumnOk(nodes, hs, before, i, strong)
      requires CutIn(before, after, i, k, strong)
      ensures ColumnOk(Cut(nodes, k), Cut(hs, k), Cut(after, k), i, strong)
    {
      var py :| 0 <= py < k && after == before[0 := before[py]] && LeadsOn(nodes, k - 1, before[py])
                && (i == 0 ==> py == k - 1) && (strong ==> hs[py] > i);
      ColumnAfterCut(nodes, hs, before, i, k, py, strong);
    }

    lemma CutShape(k: nat)
      requires Shape() && 1 <= k <= |nodes|
      ensures ShapeOf(Cut(nodes, k), Cut(hs, k))
      ensures EntriesFrom(Cut(nodes, k), 1) == Entries()[k - 1..]
      ensures forall j :: 0 <= j < L ==> Column(Cut(nodes, k), L, j) == Cut(Column(nodes, L, j), k)
    {
      assert EntriesFrom(Cut(nodes, k), 1) == Entries()[k - 1..];
    }

    lemma CutIsRest(k: nat, cols: seq<seq<Node?<T>>>, strong: bool)
      requires Shape() && 1 <= k <= |nodes| && |cols| == L
      requires forall j :: 0 <= j < L ==> ColumnOk(nodes, hs, cols[j], j, strong)
      requires forall j :: 0 <= j < L ==> CutIn(cols[j], Column(nodes, L, j), j, k, strong)
      ensures ShapeOf(Cut(nodes, k), Cut(hs, k))
      ensures EntriesFrom(Cut(nodes, k), 1) == Entries()[k - 1..]
      ensures forall j :: 0 <= j < L ==>
                ColumnOk(Cut(nodes, k), Cut(hs, k), Column(Cut(nodes, k), L, j), j, strong)
    {
      CutShape(k);
      forall j | 0 <= j < L
        ensures ColumnOk(Cut(nodes, k), Cut(hs, k), Column(Cut(nodes, k), L, j), j, strong)
      {
        CutInIsRest(cols[j], Column(nodes, L, j), j, k, strong);
      }
    }

    /** last->forward[0] = NULL: what precedes index `k` becomes a chain of its own. */
    method CloseChain(last: Node<T>, ghost k: nat)
      requires ShapeOf(nodes, hs) && 1 < k <= |nodes| && nodes[k - 1] == last
      requires ShapeOf(Cut(nodes, k), Cut(hs, k))
      requires forall p {:trigger nodes[p].forward} :: 1 <= p < |nodes| ==> nodes[p].forward[0] == At(nodes, p + 1)
      modifies last`forward
      ensures IsChain(nodes[1..k]) && Tall(nodes[1..k], L)
      ensures ShapeOf(Cut(nodes, k), Cut(hs, k))
      ensures EntriesFrom(Cut(nodes, k), 1) == old(EntriesFrom(Cut(nodes, k), 1))
      ensures forall j :: 0 <= j < L ==> Column(Cut(nodes, k), L, j) == old(Column(Cut(nodes, k), L, j))
    {
      ghost var q := EntriesFrom(Cut(nodes, k), 1);
      last.forward := last.forward[0 := null];
      assert EntriesFrom(Cut(nodes, k), 1) == q;
    }

    lemma Successors(before: seq<Node?<T>>, k: nat, strong: bool)
      requires Shape() && WeakColumn(nodes, before, 0)
      requires CutIn(before, Column(nodes, L, 0), 0, k, strong)
      ensures forall p {:trigger nodes[p].forward} :: 1 <= p < |nodes| ==> nodes[p].forward[0] == At(nodes, p + 1)
    {
      var after := Column(nodes, L, 0);
      assert forall p :: 1 <= p < |nodes| ==> after[p] == nodes[p].forward[0];
    }

    /** The loop of extract_lte: what the header then leads to is the rest of the list. */
    method SkipDue(bound: int, ghost k: nat, ghost strong: bool) returns (last: Node<T>)
      requires Weak() && (strong ==> Strong()) && 1 <= k <= |nodes|
      requires forall p :: 1 <= p < |nodes| ==> (nodes[p].score <= bound <==> p < k)
      modifies header`forward
      ensures Shape() && last == nodes[k - 1]
      ensures forall p {:trigger nodes[p].forward} :: 1 <= p < |nodes| ==> nodes[p].forward[0] == At(nodes, p + 1)
      ensures ShapeOf(Cut(nodes, k), Cut(hs, k))
      ensures EntriesFrom(Cut(nodes, k), 1) == old(Entries())[k - 1..]
      ensures forall j :: 0 <= j < L ==>
                ColumnOk(Cut(nodes, k), Cut(hs, k), Column(Cut(nodes, k), L, j), j, strong)
    {
      ghost var cols := Columns(nodes);
      assert forall j :: 0 <= j < L ==> ColumnOk(nodes, hs, cols[j], j, strong);
      last := CutAll(bound, k, strong);
      CutIsRest(k, cols, strong);
      Successors(cols[0], k, strong);
    }

    /** extract_lte on a list with at least one node. */
    method Detach(first: Node<T>, bound: int, ghost k: nat, ghost end: Node<T>, ghost strong: bool)
      returns (ret: Node?<T>)
      requires Weak() && (strong ==> Strong()) && 1 <= k <= |nodes| && end == nodes[k - 1]
      requires forall p :: 1 <= p < |nodes| ==> (nodes[p].score <= bound <==> p < k)
      requires |nodes| > 1 && first == nodes[1]
      modifies header`forward, end`forward
      ensures ret == At(nodes[1..k], 0) && IsChain(nodes[1..k]) && Tall(nodes[1..k], L)
      ensures ShapeOf(Cut(nodes, k), Cut(hs, k))
      ensures EntriesFrom(Cut(nodes, k), 1) == old(Entries())[k - 1..]
      ensures forall j :: 0 <= j < L ==>
                ColumnOk(Cut(nodes, k), Cut(hs, k), Column(Cut(nodes, k), L, j), j, strong)
    {
      var last := SkipDue(bound, k, strong);
      ret := null;
      if last != header {
        assert k > 1;
        ret := first;
        CloseChain(last, k);
      } else {
        assert k == 1;
      }
    }

    lemma FirstOfList()
      requires Weak()
      ensures header.forward[0] == At(nodes, 1)
      ensures |nodes| == 1 ==> Cut(nodes, 1) == nodes && Cut(hs, 1) == hs && Entries() == []
    {
      assert WeakColumn(nodes, Column(nodes, L, 0), 0);
      assert Column(nodes, L, 0)[0] == header.forward[0];
    }

    lemma EntriesFront(chain: seq<Node<T>>, front: seq<Entry<T>>)
      requires |chain| == |front|
      requires forall j {:trigger front[j]} :: 0 <= j < |front| ==> front[j] == Entry(chain[j].score, chain[j].item)
      ensures EntriesFrom(chain, 0) == front
    {
    }

    /** The same, and the list is what remains. */
    method TakeOff(first: Node<T>, bound: int, ghost k: nat, ghost end: Node<T>, ghost strong: bool)
      returns (ret: Node?<T>)
      requires Weak() && (strong ==> Strong()) && 1 <= k <= |nodes| && end == nodes[k - 1]
      requires forall p :: 1 <= p < |nodes| ==> (nodes[p].score <= bound <==> p < k)
      requires |nodes| > 1 && first == nodes[1]
      modifies this`nodes, this`hs, header`forward, end`forward
      ensures ret == At(old(nodes)[1..k], 0) && IsChain(old(nodes)[1..k]) && Tall(old(nodes)[1..k], L)
      ensures nodes == Cut(old(nodes), k) && hs == Cut(old(hs), k) && Entries() == old(Entries())[k - 1..]
      ensures Weak() && (strong ==> Strong())
    {
      ret := Detach(first, bound, k, end, strong);
      Commit(Cut(nodes, k), Cut(hs, k), strong);
    }

    /** The same on any list. */
    method TakeDue(bound: int, ghost k: nat, ghost strong: bool) returns (ret: Node?<T>)
      requires Weak() && (strong ==> Strong()) && 1 <= k <= |nodes|
      requires forall p :: 1 <= p < |nodes| ==> (nodes[p].score <= bound <==> p < k)
      modifies this`nodes, this`hs, nodes`forward
      ensures ret == At(old(nodes)[1..k], 0) && IsChain(old(nodes)[1..k]) && Tall(old(nodes)[1..k], L)
      ensures nodes == Cut(old(nodes), k) && hs == Cut(old(hs), k) && Entries() == old(Entries())[k - 1..]
      ensures Weak() && (strong ==> Strong())
      ensures forall n {:trigger n.forward} :: n in old(nodes) && n !in old(nodes)[1..k] && n != header ==>
                n.forward == old(n.forward)
    {
      FirstOfList();
      var first := header.forward[0];
      ret := null;
      if first != null {
        ghost var end := nodes[k - 1];
        assert end == header || end == nodes[1..k][k - 2];
        ret := TakeOff(first, bound, k, end, strong);
      }
    }

    /** extract_lte: the nodes that score at most `bound` become a chain of their own. */
    method ExtractLte(bound: int) returns (ret: Node?<T>, ghost chain: seq<Node<T>>)
      requires Weak()
      modifies this`nodes, this`hs, nodes`forward
      ensures Weak() && (old(Strong()) ==> Strong())
      ensures var m := CountLte(old(Entries()), bound);
              && chain == old(nodes)[1..m + 1]
              && nodes == Cut(old(nodes), m + 1) && hs == Cut(old(hs), m + 1)
              && Entries() == old(Entries())[m..] && EntriesFrom(chain, 0) == old(Entries())[..m]
      ensures ret == At(chain, 0) && IsChain(chain) && Tall(chain, L)
      ensures forall n {:trigger n.forward} :: n in old(nodes) && n !in chain && n != header ==>
                n.forward == old(n.forward)
    {
      ghost var q, m := Entries(), CountLte(Entries(), bound);
      PlaceForScore(nodes, bound, m + 1);
      chain := nodes[1..m + 1];
      ret := TakeDue(bound, m + 1, Strong());
      EntriesFront(chain, q[..m]);
    }

    /** The loop of shift: the header inherits every pointer of the first node. */
    method Inherit(first: Node<T>)
      requires Weak() && |nodes| >= 2 && nodes[1] == first
      modifies header`forward
      ensures Shape() && Entries() == old(Entries())
      ensures forall i :: 0 <= i < L ==>
                Column(nodes, L, i) == old(Column(nodes, L, i))[0 := old(Column(nodes, L, i))[1]]
    {
      ghost var q, cols := Entries(), Columns(nodes);
      for i := L downto 0
        invariant |header.forward| == L
        invariant forall j :: 0 <= j < i ==> header.forward[j] == cols[j][0]
        invariant forall j :: i <= j < L ==> header.forward[j] == first.forward[j]
        invariant first.forward == old(first.forward)
      {
        header.forward := header.forward[i := first.forward[i]];
      }
      assert Entries() == q;
      assert forall i :: 0 <= i < L ==> Column(nodes, L, i) == cols[i][0 := cols[i][1]];
    }

    lemma ShiftIsWeak(cols: seq<seq<Node?<T>>>)
      requires Shape() && |nodes| >= 2 && |cols| == L
      requires forall i :: 0 <= i < L ==> WeakColumn(nodes, cols[i], i)
      requires forall i :: 0 <= i < L ==> |cols[i]| > 1 && Column(nodes, L, i) == cols[i][0 := cols[i][1]]
      ensures ShapeOf(Cut(nodes, 2), Cut(hs, 2)) && EntriesFrom(Cut(nodes, 2), 1) == Entries()[1..]
      ensures forall i :: 0 <= i < L ==>
                ColumnOk(Cut(nodes, 2), Cut(hs, 2), Column(Cut(nodes, 2), L, i), i, false)
    {
      CutShape(2);
      forall i | 0 <= i < L
        ensures ColumnOk(Cut(nodes, 2), Cut(hs, 2), Column(Cut(nodes, 2), L, i), i, false)
      {
        assert LeadsOn(nodes, 1, cols[i][1]);
        ColumnAfterCut(nodes, hs, cols[i], i, 2, 1, false);
      }
    }

    ghost predicate FirstIsTallest(h: seq<nat>) {
      forall p :: 2 <= p < |h| ==> h[p] <= h[1]
    }

    lemma ShiftIsStrong(cols: seq<seq<Node?<T>>>, after: seq<seq<Node?<T>>>)
      requires Shape() && |nodes| >= 2 && |cols| == |after| == L
      requires forall i :: 0 <= i < L ==> ColumnOk(nodes, hs, cols[i], i, true)
      requires forall i :: 0 <= i < L ==> |cols[i]| == |nodes| && after[i] == Cut(cols[i][0 := cols[i][1]], 2)
      ensures (forall i :: 0 <= i < L ==> StrongColumn(Cut(nodes, 2), Cut(hs, 2), after[i], i)) <==> FirstIsTallest(hs)
    {
      forall i | 0 <= i < L
        ensures StrongColumn(Cut(nodes, 2), Cut(hs, 2), after[i], i) <==>
                hs[1] > i || forall p :: 2 <= p < |hs| ==> hs[p] <= i
      {
        ShiftedIsStrong(nodes, hs, cols[i], i);
      }
      if !FirstIsTallest(hs) {
        assert hs[1] < L;
        assert !StrongColumn(Cut(nodes, 2), Cut(hs, 2), after[hs[1]], hs[1]);
      }
    }

    /** shift on a list with at least one node. */
    method PopFirst(first: Node<T>, ghost strong: bool)
      requires Weak() && (strong ==> Strong()) && |nodes| >= 2 && nodes[1] == first
      modifies header`forward
      ensures ShapeOf(Cut(nodes, 2), Cut(hs, 2)) && EntriesFrom(Cut(nodes, 2), 1) == old(Entries())[1..]
      ensures forall i :: 0 <= i < L ==>
                ColumnOk(Cut(nodes, 2), Cut(hs, 2), Column(Cut(nodes, 2), L, i), i, strong && FirstIsTallest(hs))
      ensures strong && !FirstIsTallest(hs) ==>
                exists i :: 0 <= i < L && !StrongColumn(Cut(nodes, 2), Cut(hs, 2), Column(Cut(nodes, 2), L, i), i)
    {
      ghost var cols := Columns(nodes);
      assert forall i :: 0 <= i < L ==> ColumnOk(nodes, hs, cols[i], i, strong);
      Inherit(first);
      ShiftIsWeak(cols);
      if strong {
        CutShape(2);
        ShiftIsStrong(cols, Columns(Cut(nodes, 2)));
      }
    }

    /** shift: pops the first node; the upper levels survive only if none is taller. */
    method Shift() returns (ret: Node?<T>)
      requires Weak()
      modifies this`nodes, this`hs, header`forward
      ensures Weak()
      ensures ret == At(old(nodes), 1)
      ensures if |old(nodes)| > 1
              then nodes == Cut(old(nodes), 2) && hs == Cut(old(hs), 2)
              else nodes == old(nodes) && hs == old(hs)
      ensures Entries() == if old(Entries()) == [] then [] else old(Entries())[1..]
      ensures old(Strong()) ==> (Strong() <==> |old(nodes)| == 1 || FirstIsTallest(old(hs)))
    {
      ghost var strong := Strong();
      FirstOfList();
      ret := header.forward[0];
      if ret != null {
        PopFirst(ret, strong);
        ghost var exact, cols, ns, h := strong && FirstIsTallest(hs), Columns(Cut(nodes, 2)), Cut(nodes, 2), Cut(hs, 2);
        if strong && !exact {
          ghost var i :| 0 <= i < L && !StrongColumn(ns, h, Column(ns, L, i), i);
          assert !StrongColumn(ns, h, cols[i], i);
        }
        Commit(ns, h, exact);
        assert Strong() ==> forall i :: 0 <= i < L ==> StrongColumn(ns, h, cols[i], i);
      }
    }

    /** The walk of skiplist_for_each_clear: every node is handed over once, in order. */
    method VisitAll() returns (visited: seq<Node<T>>)
      requires Weak()
      ensures visited == nodes[1..]
    {
      ghost var p, col := 1, Column(nodes, L, 0);
      assert WeakColumn(nodes, col, 0);
      var node := header.forward[0];
      visited := [];
      assert node == col[0];
      while node != null
        invariant 1 <= p <= |nodes| && node == At(nodes, p) && visited == nodes[1..p]
        decreases |nodes| - p
      {
        assert node.forward[0] == col[p];
        var n := node.forward[0];
        SliceSnoc(nodes, 1, p);
        visited := visited + [node];
        node, p := n, p + 1;
      }
    }

    /** skiplist_for_each_clear */
    method Clear() returns (visited: seq<Node<T>>)
      requires Weak()
      modifies this`nodes, this`hs, header`forward, header`score
      ensures Strong() && nodes == [header] && Entries() == [] && header.score == 0
      ensures visited == old(nodes)[1..]
    {
      visited := VisitAll();
      header.score, header.forward := 0, seq(L, _ => null);
      nodes, hs := [header], [L];
    }
  }
}
