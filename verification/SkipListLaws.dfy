/** What holds of a skip list over its levels and over whole runs. */
module SkipListLaws {
  import opened Options
  import opened Sequences
  import opened StableQueue
  import opened Towers
  import opened SkipLists

  // ---- The levels as lists -----------------------------------------------

  /** The nodes from index `p` on whose towers reach level `i`. */
  ghost function LevelFrom<T(0)>(ns: seq<Node<T>>, hs: seq<nat>, i: nat, p: nat): seq<Node<T>>
    requires |ns| == |hs| && p <= |ns|
    decreases |ns| - p
  {
    if p == |ns| then []
    else (if hs[p] > i then [ns[p]] else []) + LevelFrom(ns, hs, i, p + 1)
  }

  ghost function Level<T(0)>(sl: SkipList<T>, i: nat): seq<Node<T>>
    requires sl.Shape()
    reads sl, sl.nodes
  {
    LevelFrom(sl.nodes, sl.hs, i, 1)
  }

  /** Following forward[i] from `x` visits exactly `s` and then ends in null. */
  ghost predicate Follows<T(0)>(x: Node?<T>, s: seq<Node<T>>, i: nat)
    reads s
    decreases |s|
  {
    if s == [] then x == null
    else x == s[0] && |s[0].forward| > i && Follows(s[0].forward[i], s[1..], i)
  }

  ghost predicate Subsequence<X>(a: seq<X>, b: seq<X>)
    decreases |b|
  {
    a == [] ||
    (b != [] && ((a[0] == b[0] && Subsequence(a[1..], b[1..])) || Subsequence(a, b[1..])))
  }

  lemma {:induction false} LevelIsFollowed<T(0)>(ns: seq<Node<T>>, hs: seq<nat>, i: nat, p: nat)
    requires |ns| == |hs| && p <= |ns|
    requires forall r :: 0 <= r < |ns| ==> |ns[r].forward| > i && ns[r].forward[i] == Link(ns, hs, i, r)
    ensures Follows(At(ns, Next(hs, i, p)), LevelFrom(ns, hs, i, p), i)
    decreases |ns| - p
  {
    if p < |ns| {
      LevelIsFollowed(ns, hs, i, p + 1);
      var rest := LevelFrom(ns, hs, i, p + 1);
      if hs[p] > i {
        assert LevelFrom(ns, hs, i, p) == [ns[p]] + rest;
        assert ([ns[p]] + rest)[1..] == rest;
        assert ns[p].forward[i] == At(ns, Next(hs, i, p + 1));
      } else {
        assert LevelFrom(ns, hs, i, p) == rest;
      }
    }
  }

  lemma {:induction false} LevelIsSubsequence<T(0)>(ns: seq<Node<T>>, hs: seq<nat>, i: nat, p: nat)
    requires |ns| == |hs| && p <= |ns|
    ensures Subsequence(LevelFrom(ns, hs, i + 1, p), LevelFrom(ns, hs, i, p))
    decreases |ns| - p
  {
    if p < |ns| {
      LevelIsSubsequence(ns, hs, i, p + 1);
      var a, b := LevelFrom(ns, hs, i + 1, p + 1), LevelFrom(ns, hs, i, p + 1);
      var x := [ns[p]];
      assert (x + a)[1..] == a && (x + b)[1..] == b;
      assert [] + a == a && [] + b == b;
      if hs[p] > i + 1 {
        assert Subsequence(x + a, x + b);
      } else if hs[p] > i {
        assert Subsequence(a, x + b);
      }
    }
  }

  lemma {:induction false} GroundLevel<T(0)>(ns: seq<Node<T>>, hs: seq<nat>, p: nat)
    requires |ns| == |hs| && p <= |ns| && forall r :: 0 <= r < |hs| ==> hs[r] >= 1
    ensures LevelFrom(ns, hs, 0, p) == ns[p..]
    decreases |ns| - p
  {
    if p < |ns| {
      GroundLevel(ns, hs, p + 1);
    }
  }

  /** Every level, followed from the header, is a null-terminated list, each level a
      subsequence of the one below, and level 0 is the whole sorted list. */
  lemma LevelsNest<T(0)>(sl: SkipList<T>, i: nat)
    requires sl.Strong() && i < sl.L
    ensures Follows(sl.header.forward[i], Level(sl, i), i)
    ensures Subsequence(Level(sl, i + 1), Level(sl, i))
    ensures Level(sl, 0) == sl.nodes[1..]
    ensures Sorted(sl.Entries())
  {
    var col := Column(sl.nodes, sl.L, i);
    assert StrongColumn(sl.nodes, sl.hs, col, i);
    forall r | 0 <= r < |sl.nodes|
      ensures |sl.nodes[r].forward| > i && sl.nodes[r].forward[i] == Link(sl.nodes, sl.hs, i, r)
    {
      assert col[r] == Link(sl.nodes, sl.hs, i, r);
    }
    LevelIsFollowed(sl.nodes, sl.hs, i, 1);
    LevelIsSubsequence(sl.nodes, sl.hs, i, 1);
    GroundLevel(sl.nodes, sl.hs, 1);
  }

  /** No pointer leaves the list: what was detached cannot be reached any more. */
  lemma NoEscape<T(0)>(sl: SkipList<T>, n: Node<T>, i: nat)
    requires sl.Weak() && n in sl.nodes && i < sl.L
    ensures n.forward[i] == null || (n.forward[i] in sl.nodes && n.forward[i] != sl.header)
  {
    var p :| 0 <= p < |sl.nodes| && sl.nodes[p] == n;
    var col := Column(sl.nodes, sl.L, i);
    assert LeadsOn(sl.nodes, p, col[p]);
  }

  // ---- Insert, then delete ------------------------------------------------

  /** Deleting what was just inserted restores every pointer of every other node, on
      every level, whatever the height drawn. */
  method InsertThenDelete<T(0)>(sl: SkipList<T>, node: Node<T>)
    requires sl.Strong() && node !in sl.nodes && |node.forward| == sl.L
    modifies sl, sl.nodes, node
    ensures sl.Strong() && sl.nodes == old(sl.nodes) && sl.hs == old(sl.hs)
    ensures sl.Columns(sl.nodes) == old(sl.Columns(sl.nodes))
  {
    ghost var ns, hs, cols := sl.nodes, sl.hs, sl.Columns(sl.nodes);
    assert forall i :: 0 <= i < sl.L ==> StrongColumn(ns, hs, cols[i], i);
    sl.StrongIsWeak();
    ghost var k := sl.Insert(node);
    FoundWhereInserted(sl, ns, hs, k, node);
    ghost var k' := sl.Delete(node);
    SamePointers(sl, cols);
  }

  lemma FoundWhereInserted<T(0)>(sl: SkipList<T>, ns: seq<Node<T>>, hs: seq<nat>, k: nat, node: Node<T>)
    requires sl.Shape() && k <= |ns| == |hs| && k < |sl.hs|
    requires sl.nodes == InsertAt(ns, k, node) && sl.hs == InsertAt(hs, k, sl.hs[k])
    ensures sl.Find(node) == k && RemoveAt(sl.nodes, k) == ns && RemoveAt(sl.hs, k) == hs
  {
    InsertRemove(ns, k, node);
    InsertRemove(hs, k, sl.hs[k]);
  }

  /** The exact structure determines every pointer. */
  lemma SamePointers<T(0)>(sl: SkipList<T>, cols: seq<seq<Node?<T>>>)
    requires sl.Strong() && |cols| == sl.L
    requires forall i :: 0 <= i < sl.L ==> StrongColumn(sl.nodes, sl.hs, cols[i], i)
    ensures sl.Columns(sl.nodes) == cols
  {
    forall i | 0 <= i < sl.L
      ensures Column(sl.nodes, sl.L, i) == cols[i]
    {
      assert StrongColumn(sl.nodes, sl.hs, Column(sl.nodes, sl.L, i), i);
    }
  }

  // ---- Whole runs ---------------------------------------------------------

  /** One call on the list, with the node it names as an index into a pool. */
  datatype Op = Insert(id: nat) | Delete(id: nat) | ExtractLte(bound: int) | Shift

  /** The abstract list and every node extracted so far. */
  datatype Run = Run(queue: seq<Entry<int>>, extracted: seq<Entry<int>>)

  function PlaceOfId(q: seq<Entry<int>>, id: int): (k: nat)
    ensures k <= |q|
    ensures k < |q| ==> q[k].item == id
    ensures forall j :: 0 <= j < k ==> q[j].item != id
  {
    if q == [] || q[0].item == id then 0 else 1 + PlaceOfId(q[1..], id)
  }

  function Step(r: Run, op: Op, scores: seq<int>): Run {
    match op
    case Insert(id) =>
      if id < |scores| then r.(queue := StableQueue.Insert(r.queue, Entry(scores[id], id))) else r
    case Delete(id) =>
      var k := PlaceOfId(r.queue, id);
      if k < |r.queue| then r.(queue := RemoveAt(r.queue, k)) else r
    case ExtractLte(bound) =>
      var m := CountLte(r.queue, bound);
      Run(r.queue[m..], r.extracted + r.queue[..m])
    case Shift => if r.queue == [] then r else Run(r.queue[1..], r.extracted + [r.queue[0]])
  }

  function After(r: Run, ops: seq<Op>, scores: seq<int>): Run
    decreases |ops|
  {
    if ops == [] then r else After(Step(r, ops[0], scores), ops[1..], scores)
  }

  /** Only pool nodes are named, none is inserted while it is listed, and none is deleted
      once the structure is no longer exact. */
  predicate LegalOp(q: seq<Entry<int>>, op: Op, scores: seq<int>, exact: bool) {
    match op
    case Insert(id) => id < |scores| && PlaceOfId(q, id) == |q|
    case Delete(id) => id < |scores| && exact
    case _ => true
  }

  predicate Legal(r: Run, ops: seq<Op>, scores: seq<int>, exact: bool)
    decreases |ops|
  {
    ops != [] ==>
      && LegalOp(r.queue, ops[0], scores, exact)
      && Legal(Step(r, ops[0], scores), ops[1..], scores, exact && !ops[0].Shift?)
  }

  /** No shift occurs. */
  predicate NoShift(ops: seq<Op>) {
    forall t :: 0 <= t < |ops| ==> !ops[t].Shift?
  }

  /** The structure an operation finds and leaves: always the weak one, the exact one too as
      long as there has been no shift. */
  ghost predicate Kept(sl: SkipList<int>, exact: bool)
    reads sl, sl.nodes
  {
    sl.Weak() && (exact ==> sl.Strong())
  }

  predicate Filed(pool: seq<Node<int>>, n: Node<int>) {
    0 <= n.item < |pool| && pool[n.item] == n
  }

  ghost predicate AllFiled(ns: seq<Node<int>>, pool: seq<Node<int>>) {
    forall p {:trigger ns[p]} :: 1 <= p < |ns| ==> Filed(pool, ns[p])
  }

  lemma FiledWith(ns: seq<Node<int>>, pool: seq<Node<int>>, k: nat, n: Node<int>)
    requires AllFiled(ns, pool) && 1 <= k <= |ns| && Filed(pool, n)
    ensures AllFiled(InsertAt(ns, k, n), pool)
  {
    var t := InsertAt(ns, k, n);
    forall p | 1 <= p < |t|
      ensures Filed(pool, t[p])
    {
      assert t[p] == if p < k then ns[p] else if p == k then n else ns[p - 1];
    }
  }

  lemma FiledWithout(ns: seq<Node<int>>, pool: seq<Node<int>>, k: nat)
    requires AllFiled(ns, pool) && 1 <= k < |ns|
    ensures AllFiled(RemoveAt(ns, k), pool)
  {
    var t := RemoveAt(ns, k);
    forall p | 1 <= p < |t|
      ensures Filed(pool, t[p])
    {
      assert t[p] == ns[if p < k then p else p + 1];
    }
  }

  lemma FiledBehind(ns: seq<Node<int>>, pool: seq<Node<int>>, k: nat)
    requires AllFiled(ns, pool) && 1 <= k <= |ns|
    ensures AllFiled(Cut(ns, k), pool)
  {
    var t := Cut(ns, k);
    forall p | 1 <= p < |t|
      ensures Filed(pool, t[p])
    {
      assert t[p] == ns[k - 1 + p];
    }
  }

  /** The pool nodes carry their index; the listed nodes are pool nodes. */
  ghost predicate Pooled(sl: SkipList<int>, pool: seq<Node<int>>, scores: seq<int>)
    reads sl, sl.nodes, pool
  {
    && Tall(pool, sl.L) && |scores| == |pool|
    && (forall id :: 0 <= id < |pool| ==>
          pool[id].item == id && pool[id].score == scores[id] && pool[id] != sl.header)
    && AllFiled(sl.nodes, pool)
  }

  /** The list of a run, if the structure is as it should be. */
  ghost function Held(sl: SkipList<int>, pool: seq<Node<int>>, scores: seq<int>, exact: bool): Option<seq<Entry<int>>>
    reads sl, sl.nodes, pool
  {
    if Kept(sl, exact) && Pooled(sl, pool, scores) then Some(sl.Entries()) else None
  }

  /** A node stands in the list where its index stands in the queue. */
  lemma {:induction false} FoundByIndex(sl: SkipList<int>, pool: seq<Node<int>>, scores: seq<int>, id: nat)
    requires sl.Shape() && Pooled(sl, pool, scores) && id < |pool|
    ensures sl.Find(pool[id]) == 1 + PlaceOfId(sl.Entries(), id)
  {
    var q, f := sl.Entries(), sl.Find(pool[id]);
    if f < |sl.nodes| {
      assert q[f - 1].item == id;
    }
  }

  /** skiplist_shift_lte: the loop that runs down the detached chain. */
  method Drain(first: Node?<int>, ghost chain: seq<Node<int>>) returns (out: seq<Entry<int>>)
    requires first == At(chain, 0) && IsChain(chain)
    ensures out == EntriesFrom(chain, 0)
  {
    out := [];
    var node := first;
    var n := if node != null then node.forward[0] else null;
    ghost var j := 0;
    while node != null
      invariant j <= |chain| && node == At(chain, j)
      invariant node != null ==> n == At(chain, j + 1)
      invariant out == EntriesFrom(chain, 0)[..j]
      decreases |chain| - j
    {
      out := out + [Entry(node.score, node.item)];
      node, j := n, j + 1;
      n := if node != null then node.forward[0] else null;
    }
  }

  method PlayInsert(sl: SkipList<int>, pool: seq<Node<int>>, id: nat, ghost scores: seq<int>, ghost exact: bool,
                    ghost q: seq<Entry<int>>)
    requires Held(sl, pool, scores, exact) == Some(q) && id < |pool| == |scores| && PlaceOfId(q, id) == |q|
    modifies sl, sl.header, pool
    ensures Held(sl, pool, scores, exact) == Some(StableQueue.Insert(q, Entry(scores[id], id)))
  {
    FoundByIndex(sl, pool, scores, id);
    ghost var ns := sl.nodes;
    ghost var k := sl.Insert(pool[id]);
    FiledWith(ns, pool, k, pool[id]);
    PoolStaysTall(sl.nodes, pool, sl.L);
    assert Pooled(sl, pool, scores);
  }

  /** Nodes of the pool keep their height: those of `ns` by `Tall`, the others untouched. */
  lemma PoolStaysTall(ns: seq<Node<int>>, pool: seq<Node<int>>, level: nat)
    requires Tall(ns, level)
    requires forall n {:trigger n.forward} :: n in pool && n !in ns ==> |n.forward| == level
    ensures Tall(pool, level)
  {
  }

  lemma TallWithout(ns: seq<Node<int>>, k: nat, level: nat)
    requires k < |ns| && Tall(RemoveAt(ns, k), level) && |ns[k].forward| == level
    ensures Tall(ns, level)
  {
    forall p | 0 <= p < |ns| && p != k
      ensures |ns[p].forward| == level
    {
      assert RemoveAt(ns, k)[if p < k then p else p - 1] == ns[p];
    }
  }

  method PlayDelete(sl: SkipList<int>, pool: seq<Node<int>>, id: nat, ghost scores: seq<int>,
                    ghost q: seq<Entry<int>>)
    requires Held(sl, pool, scores, true) == Some(q) && id < |pool|
    modifies sl, sl.header, pool
    ensures var k := PlaceOfId(q, id);
            Held(sl, pool, scores, true) == Some(if k < |q| then RemoveAt(q, k) else q)
  {
    ghost var ns := sl.nodes;
    FoundByIndex(sl, pool, scores, id);
    ghost var k := sl.Delete(pool[id]);
    if k < |ns| {
      FiledWithout(ns, pool, k);
      TallWithout(ns, k, sl.L);
    }
    PoolStaysTall(ns, pool, sl.L);
    assert Pooled(sl, pool, scores);
    sl.StrongIsWeak();
  }

  method PlayDetach(sl: SkipList<int>, pool: seq<Node<int>>, bound: int, ghost scores: seq<int>, ghost exact: bool,
                    ghost q: seq<Entry<int>>)
    returns (first: Node?<int>, ghost chain: seq<Node<int>>)
    requires Held(sl, pool, scores, exact) == Some(q)
    modifies sl, sl.header, pool
    ensures Held(sl, pool, scores, exact) == Some(q[CountLte(q, bound)..])
    ensures first == At(chain, 0) && IsChain(chain) && EntriesFrom(chain, 0) == q[..CountLte(q, bound)]
  {
    ghost var ns, k := sl.nodes, CountLte(q, bound) + 1;
    first, chain := sl.ExtractLte(bound);
    PooledBehind(sl, pool, scores, ns, k);
  }

  /** The pool after a front of the list has become a chain of its own. */
  lemma PooledBehind(sl: SkipList<int>, pool: seq<Node<int>>, scores: seq<int>, ns: seq<Node<int>>, k: nat)
    requires 1 <= k <= |ns| && sl.nodes == Cut(ns, k) && AllFiled(ns, pool)
    requires Tall(Cut(ns, k), sl.L) && Tall(ns[1..k], sl.L)
    requires forall n {:trigger n.forward} :: n in pool && n !in ns ==> |n.forward| == sl.L
    requires |scores| == |pool|
    requires forall id :: 0 <= id < |pool| ==>
               pool[id].item == id && pool[id].score == scores[id] && pool[id] != sl.header
    ensures Pooled(sl, pool, scores)
  {
    FiledBehind(ns, pool, k);
    TallInParts(ns, k, sl.L);
    PoolStaysTall(ns, pool, sl.L);
  }

  lemma TallInParts(ns: seq<Node<int>>, k: nat, level: nat)
    requires 1 <= k <= |ns| && Tall(Cut(ns, k), level) && Tall(ns[1..k], level)
    ensures Tall(ns, level)
  {
    forall p | 0 <= p < |ns|
      ensures |ns[p].forward| == level
    {
      if p == 0 {
        assert Cut(ns, k)[0] == ns[0];
      } else if p < k {
        assert ns[1..k][p - 1] == ns[p];
      } else {
        assert Cut(ns, k)[p - k + 1] == ns[p];
      }
    }
  }

  method PlayExtract(sl: SkipList<int>, pool: seq<Node<int>>, bound: int, ghost scores: seq<int>, ghost exact: bool,
                     ghost q: seq<Entry<int>>)
    returns (out: seq<Entry<int>>)
    requires Held(sl, pool, scores, exact) == Some(q)
    modifies sl, sl.header, pool
    ensures Held(sl, pool, scores, exact) == Some(q[CountLte(q, bound)..]) && out == q[..CountLte(q, bound)]
  {
    var first, chain := PlayDetach(sl, pool, bound, scores, exact, q);
    out := Drain(first, chain);
  }

  method PlayShift(sl: SkipList<int>, pool: seq<Node<int>>, ghost scores: seq<int>, ghost q: seq<Entry<int>>)
    returns (out: seq<Entry<int>>)
    requires Held(sl, pool, scores, false) == Some(q)
    modifies sl, sl.header, pool
    ensures Held(sl, pool, scores, false) == Some(if q == [] then [] else q[1..])
    ensures out == if q == [] then [] else [q[0]]
  {
    ghost var ns := sl.nodes;
    if |ns| > 1 {
      assert q[0] == Entry(ns[1].score, ns[1].item);
    }
    var ret := sl.Shift();
    out := if ret == null then [] else [Entry(ret.score, ret.item)];
    PoolStaysTall(ns, pool, sl.L);
  }

  method Play(sl: SkipList<int>, pool: seq<Node<int>>, op: Op, ghost scores: seq<int>, ghost exact: bool,
              ghost q: seq<Entry<int>>)
    returns (out: seq<Entry<int>>)
    requires Held(sl, pool, scores, exact) == Some(q) && |pool| == |scores| && LegalOp(q, op, scores, exact)
    modifies sl, sl.header, pool
    ensures Held(sl, pool, scores, exact && !op.Shift?) == Some(Step(Run(q, []), op, scores).queue)
    ensures out == Step(Run(q, []), op, scores).extracted
  {
    out := [];
    match op {
      case Insert(id) =>
        PlayInsert(sl, pool, id, scores, exact, q);
      case Delete(id) =>
        PlayDelete(sl, pool, id, scores, q);
      case ExtractLte(bound) =>
        out := PlayExtract(sl, pool, bound, scores, exact, q);
      case Shift =>
        out := PlayShift(sl, pool, scores, q);
    }
  }

  /** What a run has still to do from operation `t` on, and that it leads to `end`. */
  ghost predicate Playing(r: Run, ops: seq<Op>, t: nat, scores: seq<int>, exact: bool, end: Run)
    requires t <= |ops|
  {
    Legal(r, ops[t..], scores, exact) && After(r, ops[t..], scores) == end
  }

  lemma OnePlay(r: Run, ops: seq<Op>, t: nat, scores: seq<int>, exact: bool, end: Run)
    requires t < |ops| && Playing(r, ops, t, scores, exact, end)
    ensures LegalOp(r.queue, ops[t], scores, exact)
    ensures Playing(Step(r, ops[t], scores), ops, t + 1, scores, exact && !ops[t].Shift?, end)
  {
    assert ops[t..][0] == ops[t] && ops[t..][1..] == ops[t + 1..];
  }

  method PlayNext(sl: SkipList<int>, pool: seq<Node<int>>, ops: seq<Op>, t: nat, ghost scores: seq<int>,
                  ghost exact: bool, ghost r: Run, ghost end: Run) returns (out: seq<Entry<int>>)
    requires Held(sl, pool, scores, exact) == Some(r.queue)
    requires t < |ops| && Playing(r, ops, t, scores, exact, end)
    modifies sl, sl.header, pool
    ensures var r' := Step(r, ops[t], scores);
            && Held(sl, pool, scores, exact && !ops[t].Shift?) == Some(r'.queue) && r.extracted + out == r'.extracted
            && Playing(r', ops, t + 1, scores, exact && !ops[t].Shift?, end)
  {
    OnePlay(r, ops, t, scores, exact, end);
    StepAppends(r.queue, r.extracted, ops[t], scores);
    out := Play(sl, pool, ops[t], scores, exact, r.queue);
  }

  /** Any legal run of insert, delete, extract_lte and shift, whatever heights are drawn,
      keeps the weak structure, and the exact one if there is no shift, and yields the list
      and the extracted entries of the abstract run, in which no height appears: two lists
      with the same history hold the same nodes in the same order. Deletes are legal up to
      the first shift. */
  method Replay(sl: SkipList<int>, pool: seq<Node<int>>, ops: seq<Op>, ghost scores: seq<int>, ghost strong: bool)
    returns (extracted: seq<Entry<int>>)
    requires Kept(sl, strong) && Pooled(sl, pool, scores)
    requires Legal(Run(sl.Entries(), []), ops, scores, strong)
    modifies sl, sl.header, pool
    ensures sl.Weak() && (strong && NoShift(ops) ==> sl.Strong()) && Pooled(sl, pool, scores)
    ensures Run(sl.Entries(), extracted) == After(Run(old(sl.Entries()), []), ops, scores)
  {
    extracted := [];
    ghost var r, exact := Run(sl.Entries(), []), strong;
    ghost var end := After(r, ops, scores);
    assert ops[0..] == ops;
    for t := 0 to |ops|
      invariant Held(sl, pool, scores, exact) == Some(r.queue) && extracted == r.extracted
      invariant Playing(r, ops, t, scores, exact, end) && (strong && NoShift(ops) ==> exact)
    {
      var out := PlayNext(sl, pool, ops, t, scores, exact, r, end);
      extracted := extracted + out;
      r, exact := Step(r, ops[t], scores), exact && !ops[t].Shift?;
    }
  }

  lemma StepAppends(q: seq<Entry<int>>, extracted: seq<Entry<int>>, op: Op, scores: seq<int>)
    ensures var r := Step(Run(q, []), op, scores);
            Step(Run(q, extracted), op, scores) == Run(r.queue, extracted + r.extracted)
  {
  }
}
