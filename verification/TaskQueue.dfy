/** ep_task_queue_t: callbacks queued on a ring and called in order, while the callbacks
    push more and cancel others. */
module TaskQueues {
  import opened Options
  import opened RingLists
  import opened Scripts
  import opened Sequences
  import opened TaskSpec

  class TaskQueue {
    const list: ListHead<Task>
    /** The pointers handed out so far, by push; what callers cancel by. */
    var handles: seq<ListHead<Task>>
    /** The nodes of the ring in order. */
    ghost var nodes: seq<ListHead<Task>>

    /** Every node of the ring was handed out under its id. */
    ghost predicate Known(ns: seq<ListHead<Task>>)
      reads this
    {
      forall i {:trigger ns[i]} :: 0 <= i < |ns| ==>
        ns[i].item.id < |handles| && handles[ns[i].item.id] == ns[i]
    }

    ghost predicate Valid()
      reads this, list, nodes
    {
      Ring(list, nodes) && Known(nodes) && WellFormed(View())
    }

    ghost function Tasks(): (q: seq<Task>)
      reads this
      ensures |q| == |nodes|
      ensures forall i {:trigger q[i]} :: 0 <= i < |q| ==> q[i] == nodes[i].item
    {
      seq(|nodes|, i requires 0 <= i < |nodes| reads this => nodes[i].item)
    }

    ghost function View(): Queue
      reads this
    {
      Queue(Tasks(), |handles|)
    }

    /** The view, if the queue is valid. */
    ghost function Snapshot(): Option<Queue>
      reads this, list, nodes
    {
      if Valid() then Some(View()) else None
    }

    /** Every node is one of `before` or has been allocated since. */
    twostate predicate Grown(new before: seq<ListHead<Task>>)
      reads this
    {
      forall i {:trigger nodes[i]} :: 0 <= i < |nodes| ==> nodes[i] in before || fresh(nodes[i])
    }

    /** No pointer that was handed out changes. */
    ghost predicate Extends(before: seq<ListHead<Task>>)
      reads this
    {
      |before| <= |handles| && forall id {:trigger handles[id]} :: 0 <= id < |before| ==> handles[id] == before[id]
    }

    /** ep_task_queue_init */
    constructor ()
      ensures Valid() && View() == Queue([], 0) && nodes == [] && fresh(list)
    {
      list := new ListHead<Task>(Task(0, 0));
      nodes, handles := [], [];
      new;
      InitListHead(list);
    }

    /** ep_task_queue_push */
    method Push(cb: int) returns (id: nat)
      requires Valid()
      modifies this, list, nodes
      ensures Valid() && Grown(old(nodes)) && Extends(old(handles)) && View() == Apply(old(View()), Edit.Push(cb))
      ensures id == |old(handles)| && id < |handles| && nodes == old(nodes) + [handles[id]]
    {
      id := |handles|;
      EditKeeps(View(), Edit.Push(cb));
      ghost var q := Apply(View(), Edit.Push(cb));
      var node := new ListHead<Task>(Task(id, cb));
      InitListHead(node);
      ListAddTail(node, list, nodes);
      nodes, handles := nodes + [node], handles + [node];
      assert View() == q;
    }

    /** list_del of the node at index `k`. */
    method Unlink(node: ListHead<Task>, ghost k: nat)
      requires Valid() && k < |nodes| && nodes[k] == node
      modifies this`nodes, list, nodes
      ensures Ring(list, nodes) && Known(nodes) && nodes == RemoveAt(old(nodes), k)
      ensures Tasks() == RemoveAt(old(Tasks()), k) && Grown(old(nodes))
    {
      ghost var q := RemoveAt(Tasks(), k);
      ListDel(node, list, nodes, k);
      nodes := RemoveAt(nodes, k);
      assert Tasks() == q;
    }

    /** ep_task_cancel of a queued task */
    method Cancel(id: nat)
      requires Valid() && IsQueued(View(), id)
      modifies this`nodes, list, nodes
      ensures Valid() && Grown(old(nodes)) && View() == Apply(old(View()), Edit.Cancel(id))
    {
      ghost var k := PlaceOfId(Tasks(), id);
      assert nodes[k].item == Tasks()[k];
      EditKeeps(View(), Edit.Cancel(id));
      Unlink(handles[id], k);
    }

    /** Takes the first node off the ring. */
    method TakeHead(pos: ListHead<Task>)
      requires Valid() && nodes != [] && nodes[0] == pos
      modifies this`nodes, list, nodes
      ensures Valid() && Grown(old(nodes)) && nodes == old(nodes)[1..]
      ensures View() == old(View()).(live := old(View()).live[1..])
    {
      TailKeeps(View());
      Unlink(pos, 0);
    }

    method Perform(e: Edit)
      requires Valid() && (e.Cancel? ==> IsQueued(View(), e.id))
      modifies this, list, nodes
      ensures Valid() && Grown(old(nodes)) && Extends(old(handles)) && View() == Apply(old(View()), e)
    {
      match e {
        case Push(cb) =>
          var id := Push(cb);
        case Cancel(id) =>
          Cancel(id);
      }
    }

    /** After `j` edits of a script: what is left leads to `end`. */
    ghost predicate Scripted(q: Queue, script: Script, j: nat, kept: Option<nat>, end: Queue)
      requires j <= |script|
    {
      Legal(q, script[j..], kept) && ApplyAll(q, script[j..]) == end
    }

    lemma OneEdit(q: Queue, script: Script, j: nat, kept: Option<nat>, end: Queue)
      requires j < |script| && Scripted(q, script, j, kept, end)
      ensures script[j].Cancel? ==> IsQueued(q, script[j].id)
      ensures Scripted(Apply(q, script[j]), script, j + 1, kept, end)
    {
      assert script[j..][0] == script[j] && script[j..][1..] == script[j + 1..];
    }

    /** What a callback, or the program, does to this queue. */
    method Callback(script: Script, ghost kept: Option<nat>)
      requires Valid() && Legal(View(), script, kept)
      modifies this, list, nodes
      ensures Valid() && Grown(old(nodes)) && Extends(old(handles)) && View() == ApplyAll(old(View()), script)
    {
      ghost var q, end := View(), ApplyAll(View(), script);
      for j := 0 to |script|
        invariant Snapshot() == Some(q) && Scripted(q, script, j, kept, end)
        invariant Grown(old(nodes)) && Extends(old(handles))
      {
        OneEdit(q, script, j, kept, end);
        Perform(script[j]);
        q := Apply(q, script[j]);
      }
    }

    /** ep_task_queue_fini */
    method Fini()
      requires Valid()
      modifies this`nodes, list, nodes
      ensures Valid() && View() == old(View()).(live := [])
    {
      Neighbours(list, nodes);
      var pos: ListHead<Task> := list.next;
      var n: ListHead?<Task> := pos.next;
      while pos != list
        invariant Valid() && Grown(old(nodes)) && handles == old(handles)
        invariant pos == (if nodes == [] then list else nodes[0]) && n == pos.next
        decreases |nodes|
      {
        Neighbours(list, nodes);
        TakeHead(pos);
        Neighbours(list, nodes);
        pos := n;
        n := pos.next;
      }
    }

    /** ep_task_queue_run. `scripts` says what the callback of each call does to the queue;
        `calls` is the record of the calls. */
    method Run(scripts: seq<Script>) returns (calls: seq<Task>)
      requires Valid() && LegalPass(View(), scripts)
      modifies this, list, nodes
      ensures Valid() && Grown(old(nodes))
      ensures RunPass(old(View()), scripts) == Pass(calls, View())
    {
      ghost var q0, q := View(), View();
      PassStarts(q0, scripts);
      Neighbours(list, nodes);
      var pos: ListHead<Task> := list.next;
      var n: ListHead?<Task> := pos.next;
      var rest := scripts;
      calls := [];
      while pos != list
        invariant Snapshot() == Some(q) && Grown(old(nodes)) && Passing(q0, scripts, q, rest, calls, pos == list)
        invariant pos != list ==> nodes != [] && pos == nodes[0] && n == pos.next
        decreases if pos == list then 0 else Work(q, rest)
      {
        PassTurn(q0, scripts, q, rest, calls);
        pos, n, calls := Turn(pos, n, calls, Next(rest), q);
        q, rest := Called(q, Next(rest)), Later(rest);
      }
    }

    /** Takes the first task off the queue and calls it. */
    method CallHead(pos: ListHead<Task>, script: Script, ghost q: Queue)
      requires Snapshot() == Some(q) && nodes != [] && pos == nodes[0]
      requires Legal(q.(live := q.live[1..]), script, Successor(q))
      modifies this, list, nodes
      ensures Snapshot() == Some(Called(q, script)) && Grown(old(nodes))
      ensures |q.live| > 1 ==> nodes != [] && nodes[0] == old(nodes)[1]
    {
      TakeHead(pos);
      ghost var q1, first := View(), nodes;
      if |q.live| > 1 {
        HeadStays(q1, script);
      }
      Callback(script, Successor(q));
      SameHead(q1, first);
    }

    /** One turn of the loop of ep_task_queue_run: the successor was saved before the call. */
    method Turn(pos: ListHead<Task>, n: ListHead?<Task>, calls: seq<Task>, script: Script, ghost q: Queue)
      returns (pos': ListHead<Task>, n': ListHead?<Task>, calls': seq<Task>)
      requires Snapshot() == Some(q) && nodes != [] && pos == nodes[0] && n == pos.next
      requires Legal(q.(live := q.live[1..]), script, Successor(q))
      modifies this, list, nodes
      ensures Snapshot() == Some(Called(q, script)) && Grown(old(nodes))
      ensures calls' == calls + [q.live[0]] && (pos' == list <==> |q.live| == 1)
      ensures pos' != list ==> nodes != [] && pos' == nodes[0] && n' == pos'.next
    {
      NeighboursIn(list, nodes, 0);
      calls' := calls + [pos.item];
      CallHead(pos, script, q);
      Neighbours(list, nodes);
      pos' := n;
      n' := pos'.next;
    }

    /** The node of a task that is still the first is still the first node. */
    lemma SameHead(q: Queue, ns: seq<ListHead<Task>>)
      requires Valid() && |ns| == |q.live| && Known(ns) && forall i :: 0 <= i < |ns| ==> ns[i].item == q.live[i]
      ensures q.live != [] && Tasks() != [] && Tasks()[0] == q.live[0] ==> nodes[0] == ns[0]
    {
    }

    /** `pos` is the node at index `i`, or the head behind the last. */
    ghost predicate StandsAt(pos: ListHead<Task>, i: nat)
      reads this
    {
      i <= |nodes| && pos == (if i == |nodes| then list else nodes[i])
    }

    /** ep_task_queue_run_keep */
    method RunKeep(scripts: seq<Script>) returns (calls: seq<Task>)
      requires Valid() && LegalWalk(View(), 0, scripts)
      modifies this, list, nodes
      ensures Valid() && Grown(old(nodes))
      ensures WellFormed(old(View())) && Walk(old(View()), 0, scripts) == Pass(calls, View())
    {
      ghost var q0, q := View(), View();
      ghost var i: nat := 0;
      var rest := scripts;
      WalkStarts(q0, scripts);
      HeadNeighbours(list, nodes);
      var pos: ListHead<Task> := list.next;
      calls := [];
      while pos != list
        invariant Snapshot() == Some(q) && Grown(old(nodes)) && StandsAt(pos, i)
        invariant UnderWay(q0, scripts, q, i, rest, calls)
        decreases Behind(q, i) + AllPushes(rest)
      {
        WalkTurn(q0, scripts, q, i, rest, calls);
        pos, calls := KeepTurn(pos, i, calls, Next(rest), q);
        q, i, rest := ApplyAll(q, Next(rest)), Onward(q, i, Next(rest)), Later(rest);
      }
      StandsBehind(i);
      WalkEnds(q0, scripts, q, i, rest, calls);
    }

    /** The head of the ring is none of its nodes. */
    lemma StandsBehind(i: nat)
      requires Valid() && StandsAt(list, i)
      ensures i == |nodes|
    {
      Neighbours(list, nodes);
    }

    /** One turn of the loop of ep_task_queue_run_keep: the successor is read after the call. */
    method KeepTurn(pos: ListHead<Task>, ghost i: nat, calls: seq<Task>, script: Script, ghost q: Queue)
      returns (pos': ListHead<Task>, calls': seq<Task>)
      requires Snapshot() == Some(q) && i < |nodes| && StandsAt(pos, i)
      requires Legal(q, script, Some(q.live[i].id)) && IsQueued(q, q.live[i].id)
      modifies this, list, nodes
      ensures Snapshot() == Some(ApplyAll(q, script)) && Grown(old(nodes))
      ensures calls' == calls + [q.live[i]] && StandsAt(pos', Onward(q, i, script))
    {
      var id := pos.item.id;
      calls' := calls + [pos.item];
      KeptStays(q, script, id);
      Callback(script, Some(id));
      ghost var k := PlaceOfId(Tasks(), id);
      assert Tasks()[k] == nodes[k].item;
      NeighboursIn(list, nodes, k);
      pos' := pos.next;
    }

    /** ep_task_queue_run_once */
    method RunOnce(script: Script) returns (calls: seq<Task>)
      requires Valid() && (View().live != [] ==> Legal(View().(live := View().live[1..]), script, None))
      modifies this, list, nodes
      ensures Valid() && Grown(old(nodes))
      ensures old(View()).live == [] ==> calls == [] && View() == old(View())
      ensures old(View()).live != [] ==> calls == [old(View()).live[0]] && View() == Called(old(View()), script)
    {
      calls := [];
      var empty := ListEmpty(list, nodes);
      if !empty {
        HeadNeighbours(list, nodes);
        var cb := list.next;
        TakeHead(cb);
        calls := [cb.item];
        Callback(script, None);
      }
    }
  }
}
