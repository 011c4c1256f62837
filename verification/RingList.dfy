/** struct list_head: an intrusive doubly linked ring around a head node. */
module RingLists {
  import opened Sequences

  class ListHead<T(0)> {
    var next: ListHead?<T>
    var prev: ListHead?<T>
    /** The struct the node is embedded in. */
    const item: T

    constructor (item: T)
      ensures this.item == item && next == null && prev == null
    {
      this.item := item;
      next, prev := null, null;
    }
  }

  /** `head` followed by `s`, around and back to `head`, linked both ways. */
  ghost predicate Ring<T(0)>(head: ListHead<T>, s: seq<ListHead<T>>)
    reads head, s
  {
    Linked([head] + s)
  }

  ghost predicate Linked<T(0)>(r: seq<ListHead<T>>)
    reads r
  {
    && (forall i, j :: 0 <= i < j < |r| ==> r[i] != r[j])
    && (forall i {:trigger r[i].next} :: 0 <= i < |r| ==> r[i].next == r[Succ(i, |r|)])
    && (forall i {:trigger r[i].prev} :: 0 <= i < |r| ==> r[i].prev == r[Pred(i, |r|)])
  }

  function Succ(i: nat, n: nat): (j: nat)
    requires i < n
    ensures j < n
  {
    if i + 1 == n then 0 else i + 1
  }

  function Pred(i: nat, n: nat): (j: nat)
    requires i < n
    ensures j < n
  {
    if i == 0 then n - 1 else i - 1
  }

  /** All around a ring, next and prev undo each other. */
  lemma {:induction false} MutuallyInverse<T(0)>(head: ListHead<T>, s: seq<ListHead<T>>, i: nat)
    requires Ring(head, s) && i <= |s|
    ensures var n := ([head] + s)[i];
            n.next != null && n.next.prev == n && n.prev != null && n.prev.next == n
  {
    var r := [head] + s;
    var next, prev := Succ(i, |r|), Pred(i, |r|);
    assert r[i].next == r[next] && r[i].prev == r[prev];
    assert r[next].prev == r[Pred(next, |r|)] && r[prev].next == r[Succ(prev, |r|)];
  }

  method InitListHead<T(0)>(ptr: ListHead<T>)
    modifies ptr
    ensures Ring(ptr, [])
  {
    ptr.next := ptr;
    ptr.prev := ptr;
  }

  /** __list_add */
  method ListAddBetween<T(0)>(new_node: ListHead<T>, prev: ListHead<T>, next: ListHead<T>,
                              ghost r: seq<ListHead<T>>, ghost k: nat)
    requires Linked(r) && 1 <= k <= |r| && prev == r[k - 1] && next == r[Succ(k - 1, |r|)]
    requires new_node !in r
    modifies new_node, prev`next, next`prev
    ensures Linked(InsertAt(r, k, new_node))
  {
    next.prev := new_node;
    new_node.next := next;
    new_node.prev := prev;
    prev.next := new_node;
    ghost var t := InsertAt(r, k, new_node);
    forall i | 0 <= i < |t|
      ensures t[i].next == t[Succ(i, |t|)] && t[i].prev == t[Pred(i, |t|)]
    {
      if i != k {
        assert t[i] == r[if i < k then i else i - 1];
      }
    }
  }

  /** list_add: in front of everything. */
  method ListAdd<T(0)>(new_node: ListHead<T>, head: ListHead<T>, ghost s: seq<ListHead<T>>)
    requires Ring(head, s) && new_node !in [head] + s
    modifies new_node, head, s
    ensures Ring(head, [new_node] + s)
  {
    ghost var r := [head] + s;
    assert r[0].next == r[Succ(0, |r|)];
    ListAddBetween(new_node, head, head.next, r, 1);
    assert InsertAt(r, 1, new_node) == [head] + ([new_node] + s);
  }

  /** list_add_tail: behind everything. */
  method ListAddTail<T(0)>(new_node: ListHead<T>, head: ListHead<T>, ghost s: seq<ListHead<T>>)
    requires Ring(head, s) && new_node !in [head] + s
    modifies new_node, head, s
    ensures Ring(head, s + [new_node])
  {
    ghost var r := [head] + s;
    assert r[0].prev == r[Pred(0, |r|)];
    ListAddBetween(new_node, head.prev, head, r, |r|);
    assert InsertAt(r, |r|, new_node) == [head] + (s + [new_node]);
  }

  /** __list_del */
  method ListDelBetween<T(0)>(prev: ListHead<T>, next: ListHead<T>, ghost r: seq<ListHead<T>>, ghost k: nat)
    requires Linked(r) && 1 <= k < |r| && prev == r[k - 1] && next == r[Succ(k, |r|)]
    modifies prev`next, next`prev
    ensures Linked(RemoveAt(r, k))
  {
    next.prev := prev;
    prev.next := next;
    ghost var t := RemoveAt(r, k);
    forall i | 0 <= i < |t|
      ensures t[i].next == t[Succ(i, |t|)] && t[i].prev == t[Pred(i, |t|)]
    {
      assert t[i] == r[if i < k then i else i + 1];
    }
  }

  lemma NeighboursIn<T(0)>(head: ListHead<T>, s: seq<ListHead<T>>, k: nat)
    requires Ring(head, s) && k < |s|
    ensures s[k].prev == (if k == 0 then head else s[k - 1])
    ensures s[k].next == (if k + 1 == |s| then head else s[k + 1])
  {
    var r := [head] + s;
    assert s[k] == r[k + 1];
    assert r[k + 1].next == r[Succ(k + 1, |r|)] && r[k + 1].prev == r[Pred(k + 1, |r|)];
  }

  lemma HeadNeighbours<T(0)>(head: ListHead<T>, s: seq<ListHead<T>>)
    requires Ring(head, s)
    ensures head.next == (if s == [] then head else s[0])
    ensures head.prev == (if s == [] then head else s[|s| - 1])
  {
    var r := [head] + s;
    assert r[0].next == r[Succ(0, |r|)] && r[0].prev == r[Pred(0, |r|)];
  }

  lemma EntryLeaves<T(0)>(head: ListHead<T>, s: seq<ListHead<T>>, k: nat)
    requires Ring(head, s) && k < |s|
    ensures s[k] != head && s[k] !in RemoveAt(s, k) && head !in RemoveAt(s, k)
  {
    var r, t := [head] + s, RemoveAt(s, k);
    assert r[0] == head && r[k + 1] == s[k];
    forall i | 0 <= i < |t|
      ensures t[i] != s[k] && t[i] != head
    {
      assert t[i] == r[if i < k then i + 1 else i + 2];
    }
  }

  /** Takes the entry at index `k` out without touching it. */
  method Detach<T(0)>(entry: ListHead<T>, ghost head: ListHead<T>, ghost s: seq<ListHead<T>>, ghost k: nat)
    requires Ring(head, s) && k < |s| && s[k] == entry
    modifies head, RemoveAt(s, k)
    ensures Ring(head, RemoveAt(s, k))
  {
    ghost var r := [head] + s;
    NeighboursIn(head, s, k);
    assert r[k + 1] == entry;
    assert k > 0 ==> RemoveAt(s, k)[k - 1] == entry.prev;
    assert k + 1 < |s| ==> RemoveAt(s, k)[k] == entry.next;
    ListDelBetween(entry.prev, entry.next, r, k + 1);
    assert RemoveAt(r, k + 1) == [head] + RemoveAt(s, k);
  }

  /** list_del */
  method ListDel<T(0)>(entry: ListHead<T>, ghost head: ListHead<T>, ghost s: seq<ListHead<T>>, ghost k: nat)
    requires Ring(head, s) && k < |s| && s[k] == entry
    modifies head, s
    ensures Ring(head, RemoveAt(s, k)) && entry.next == null && entry.prev == null
  {
    EntryLeaves(head, s, k);
    Detach(entry, head, s, k);
    entry.next := null;
    entry.prev := null;
  }

  /** list_del_init */
  method ListDelInit<T(0)>(entry: ListHead<T>, ghost head: ListHead<T>, ghost s: seq<ListHead<T>>, ghost k: nat)
    requires Ring(head, s) && k < |s| && s[k] == entry
    modifies head, s
    ensures Ring(head, RemoveAt(s, k)) && Ring(entry, [])
  {
    EntryLeaves(head, s, k);
    Detach(entry, head, s, k);
    InitListHead(entry);
  }

  /** No node of the one ring is in the other. */
  ghost predicate Apart<T(0)>(p: ListHead<T>, s: seq<ListHead<T>>, q: ListHead<T>, t: seq<ListHead<T>>) {
    && p != q && p !in t && q !in s
    && (forall i, j :: 0 <= i < |s| && 0 <= j < |t| ==> s[i] != t[j])
  }

  lemma {:induction false} ApartWithout<T(0)>(p: ListHead<T>, s: seq<ListHead<T>>, k: nat, q: ListHead<T>,
                                          t: seq<ListHead<T>>)
    requires Apart(p, s, q, t) && k < |s|
    ensures Apart(p, RemoveAt(s, k), q, t)
    ensures s[k] != q && s[k] !in t
  {
    var v := RemoveAt(s, k);
    assert s[k] in s;
    forall i | 0 <= i < |v|
      ensures v[i] in s && v[i] != q && v[i] !in t
    {
      assert v[i] == s[if i < k then i else i + 1];
    }
  }

  /** list_move: out of its ring, to the front of the ring of `head`, which is the same
      ring or one that shares no node with it. */
  method ListMove<T(0)>(entry: ListHead<T>, head: ListHead<T>, ghost from: ListHead<T>, ghost s: seq<ListHead<T>>,
                        ghost k: nat, ghost t: seq<ListHead<T>>)
    requires Ring(from, s) && k < |s| && s[k] == entry
    requires if head == from then t == s else Ring(head, t) && Apart(from, s, head, t)
    modifies from, s, head, t
    ensures if head == from then Ring(head, [entry] + RemoveAt(s, k))
            else Ring(from, RemoveAt(s, k)) && Ring(head, [entry] + t)
  {
    ghost var v := RemoveAt(s, k);
    EntryLeaves(from, s, k);
    if head != from {
      ApartWithout(from, s, k, head, t);
    }
    Detach(entry, from, s, k);
    ListAdd(entry, head, if head == from then v else t);
  }

  /** list_move_tail: likewise to the back. */
  method ListMoveTail<T(0)>(entry: ListHead<T>, head: ListHead<T>, ghost from: ListHead<T>, ghost s: seq<ListHead<T>>,
                            ghost k: nat, ghost t: seq<ListHead<T>>)
    requires Ring(from, s) && k < |s| && s[k] == entry
    requires if head == from then t == s else Ring(head, t) && Apart(from, s, head, t)
    modifies from, s, head, t
    ensures if head == from then Ring(head, RemoveAt(s, k) + [entry])
            else Ring(from, RemoveAt(s, k)) && Ring(head, t + [entry])
  {
    ghost var v := RemoveAt(s, k);
    EntryLeaves(from, s, k);
    if head != from {
      ApartWithout(from, s, k, head, t);
    }
    Detach(entry, from, s, k);
    ListAddTail(entry, head, if head == from then v else t);
  }

  /** list_empty */
  method ListEmpty<T(0)>(head: ListHead<T>, ghost s: seq<ListHead<T>>) returns (b: bool)
    requires Ring(head, s)
    ensures b <==> s == []
  {
    HeadNeighbours(head, s);
    assert s != [] ==> s[0] == ([head] + s)[1] && head == ([head] + s)[0];
    b := head.next == head;
  }

  /** list_is_last */
  method ListIsLast<T(0)>(list: ListHead<T>, head: ListHead<T>, ghost s: seq<ListHead<T>>, ghost k: nat) returns (b: bool)
    requires Ring(head, s) && k < |s| && s[k] == list
    ensures b <==> k == |s| - 1
  {
    NeighboursIn(head, s, k);
    assert k + 1 < |s| ==> s[k + 1] == ([head] + s)[k + 2] && head == ([head] + s)[0];
    b := list.next == head;
  }

  /** Nodes that name their neighbours in order make a ring. */
  lemma {:induction false} RingOfNeighbours<T(0)>(head: ListHead<T>, s: seq<ListHead<T>>)
    requires head !in s && forall i, j :: 0 <= i < j < |s| ==> s[i] != s[j]
    requires head.next == (if s == [] then head else s[0])
    requires head.prev == (if s == [] then head else s[|s| - 1])
    requires forall i {:trigger s[i].next} :: 0 <= i < |s| ==> s[i].next == (if i + 1 == |s| then head else s[i + 1])
    requires forall i {:trigger s[i].prev} :: 0 <= i < |s| ==> s[i].prev == (if i == 0 then head else s[i - 1])
    ensures Ring(head, s)
  {
    var r := [head] + s;
    forall i | 0 <= i < |r|
      ensures r[i].next == r[Succ(i, |r|)] && r[i].prev == r[Pred(i, |r|)]
    {
      assert i > 0 ==> r[i] == s[i - 1];
    }
    assert forall i, j :: 0 <= i < j < |r| ==> r[j] == s[j - 1] && (i > 0 ==> r[i] == s[i - 1]);
  }

  lemma {:induction false} Neighbours<T(0)>(head: ListHead<T>, s: seq<ListHead<T>>)
    requires Ring(head, s)
    ensures head !in s && forall i, j :: 0 <= i < j < |s| ==> s[i] != s[j]
    ensures head.next == (if s == [] then head else s[0])
    ensures head.prev == (if s == [] then head else s[|s| - 1])
    ensures forall i {:trigger s[i].next} :: 0 <= i < |s| ==> s[i].next == (if i + 1 == |s| then head else s[i + 1])
    ensures forall i {:trigger s[i].prev} :: 0 <= i < |s| ==> s[i].prev == (if i == 0 then head else s[i - 1])
  {
    var r := [head] + s;
    HeadNeighbours(head, s);
    forall i {:trigger s[i]} | 0 <= i < |s|
      ensures s[i] == r[i + 1] && s[i] != r[0]
      ensures s[i].next == (if i + 1 == |s| then head else s[i + 1])
      ensures s[i].prev == (if i == 0 then head else s[i - 1])
    {
      assert s[i] == r[i + 1];
      NeighboursIn(head, s, i);
    }
  }

  /** __list_splice: the nodes of `list` go to the front of the ring of `head`. */
  method Splice<T(0)>(list: ListHead<T>, head: ListHead<T>, ghost s: seq<ListHead<T>>, ghost t: seq<ListHead<T>>)
    requires Ring(list, s) && Ring(head, t) && Apart(list, s, head, t) && s != []
    modifies s, head, t
    ensures Ring(head, s + t)
  {
    Neighbours(list, s);
    Neighbours(head, t);
    var first := list.next;
    var last := list.prev;
    var at := head.next;
    assert first == s[0] && last == s[|s| - 1] && at == (if t == [] then head else t[0]);
    first.prev := head;
    head.next := first;
    last.next := at;
    at.prev := last;
    ghost var u := s + t;
    forall i | 0 <= i < |u|
      ensures u[i].next == (if i + 1 == |u| then head else u[i + 1])
      ensures u[i].prev == (if i == 0 then head else u[i - 1])
    {
    }
    RingOfNeighbours(head, u);
  }

  /** list_splice */
  method ListSplice<T(0)>(list: ListHead<T>, head: ListHead<T>, ghost s: seq<ListHead<T>>, ghost t: seq<ListHead<T>>)
    requires Ring(list, s) && Ring(head, t) && Apart(list, s, head, t)
    modifies s, head, t
    ensures Ring(head, s + t)
  {
    var empty := ListEmpty(list, s);
    if !empty {
      Splice(list, head, s, t);
    } else {
      assert s + t == t;
    }
  }

  /** list_splice_init */
  method ListSpliceInit<T(0)>(list: ListHead<T>, head: ListHead<T>, ghost s: seq<ListHead<T>>, ghost t: seq<ListHead<T>>)
    requires Ring(list, s) && Ring(head, t) && Apart(list, s, head, t)
    modifies list, s, head, t
    ensures Ring(head, s + t) && Ring(list, [])
  {
    var empty := ListEmpty(list, s);
    if !empty {
      Neighbours(list, s);
      assert forall i :: 0 <= i < |s + t| ==> (s + t)[i] != list;
      Splice(list, head, s, t);
      InitListHead(list);
    } else {
      assert s + t == t;
    }
  }
}
