/** ep_timer_t: the scheduler on the skip list, proved against the abstract scheduler. */
module Timers {
  import opened Options
  import opened Scripts
  import opened Sequences
  import opened StableQueue
  import opened SkipLists
  import opened TimerSpec
  import opened WaitSpec

  const LEVELS: nat := 8

  class EpTimer {
    const sl: SkipList<Info>
    var now: u64
    /** The pointers handed out so far, by registration; what callers clear by. */
    var handles: seq<Node<Info>>
    /** The timers that a call has abandoned. */
    ghost var lost: set<nat>

    /** `n` was handed out under its id. */
    ghost predicate Known(n: Node<Info>)
      reads this
    {
      n.item.id < |handles| && handles[n.item.id] == n && n != sl.header
    }

    /** The nodes behind the header are known and bear deadlines. */
    ghost predicate Listed(ns: seq<Node<Info>>)
      reads this, ns
    {
      forall p {:trigger ns[p]} :: 1 <= p < |ns| ==> Known(ns[p]) && 0 <= ns[p].score < U64
    }

    ghost predicate Valid()
      reads this, sl, sl.nodes
    {
      && sl.L == LEVELS && sl.Strong()
      && Listed(sl.nodes)
      && (forall id {:trigger id in lost} :: id in lost ==>
            id < |handles| && handles[id] != sl.header && handles[id].item.id == id)
    }

    ghost function View(): State
      requires Valid()
      reads this, sl, sl.nodes
    {
      State(sl.Entries(), now, |handles|, lost)
    }

    /** The view, if the timer is valid. */
    ghost function Snapshot(): Option<State>
      reads this, sl, sl.nodes
    {
      if Valid() then Some(View()) else None
    }

    lemma ViewWellFormed()
      requires Valid()
      ensures WellFormed(View())
    {
      forall i, j | 0 <= i < j < |sl.Entries()|
        ensures sl.Entries()[i].item.id != sl.Entries()[j].item.id
      {
        assert sl.nodes[i + 1] != sl.nodes[j + 1];
      }
    }

    /** ep_timer_init */
    constructor (now: u64)
      ensures Valid() && View() == Fresh(now) == State([], now, 0, {}) && fresh(sl) && fresh(sl.nodes)
    {
      this.sl := new SkipList(LEVELS);
      this.now := now;
      this.handles := [];
      this.lost := {};
    }

    /** A known node stands in the list where its id stands in the queue. */
    lemma {:induction false} FoundById(id: nat)
      requires Valid() && (IsPending(View(), id) || id in lost)
      ensures id < |handles| && handles[id] != sl.header
      ensures sl.Find(handles[id]) == if IsPending(View(), id) then 1 + PlaceOfId(sl.Entries(), id) else |sl.nodes|
    {
      var k := 1 + PlaceOfId(sl.Entries(), id);
      if IsPending(View(), id) {
        assert sl.nodes[k].item.id == id;
      } else {
        forall p | 1 <= p < |sl.nodes|
          ensures sl.nodes[p] != handles[id]
        {
          assert sl.Entries()[p - 1].item.id != id;
        }
      }
    }

    /** Puts a known node that is not listed into the list. */
    method Enlist(node: Node<Info>)
      requires Valid() && Known(node) && node !in sl.nodes && |node.forward| == LEVELS && 0 <= node.score < U64
      modifies sl, sl.nodes, node`forward
      ensures Valid()
      ensures sl.Entries() == Insert(old(sl.Entries()), Entry(node.score, node.item))
      ensures forall p :: 0 <= p < |sl.nodes| ==> sl.nodes[p] in old(sl.nodes) || sl.nodes[p] == node
    {
      sl.StrongIsWeak();
      ghost var ns := sl.nodes;
      ghost var k := sl.Insert(node);
      InsertAtMembers(ns, k, node);
    }

    method Create(deadline: u64, ms: u64, cb: int) returns (id: nat)
      requires Valid()
      modifies this`handles, sl, sl.nodes
      ensures Valid() && id == |old(handles)| && |handles| == id + 1 && handles[..id] == old(handles)
      ensures fresh(handles[id])
      ensures sl.Entries() == Insert(old(sl.Entries()), Entry(deadline, Info(id, ms, cb)))
      ensures forall p :: 0 <= p < |sl.nodes| ==> sl.nodes[p] in old(sl.nodes) || sl.nodes[p] == handles[id]
    {
      id := |handles|;
      var node := new Node(LEVELS, deadline, Info(id, ms, cb));
      handles := handles + [node];
      Enlist(node);
    }

    /** ep_timer_run_after */
    method RunAfter(ms: u64, cb: int) returns (id: nat)
      requires Valid()
      modifies this`handles, sl, sl.nodes
      ensures Valid() && View() == Apply(old(View()), Action.RunAfter(ms, cb))
      ensures id == |old(handles)| && |handles| == id + 1 && handles[..id] == old(handles) && fresh(handles[id])
      ensures forall p :: 0 <= p < |sl.nodes| ==> sl.nodes[p] in old(sl.nodes) || sl.nodes[p] == handles[id]
    {
      id := Create(Add64(now, ms), 0, cb);
    }

    /** ep_timer_run_every */
    method RunEvery(ms: u64, cb: int) returns (id: nat)
      requires Valid()
      modifies this`handles, sl, sl.nodes
      ensures Valid() && View() == Apply(old(View()), Action.RunEvery(ms, cb))
      ensures id == |old(handles)| && |handles| == id + 1 && handles[..id] == old(handles) && fresh(handles[id])
      ensures forall p :: 0 <= p < |sl.nodes| ==> sl.nodes[p] in old(sl.nodes) || sl.nodes[p] == handles[id]
    {
      id := Create(Add64(now, ms), ms, cb);
    }

    lemma ListedWithout(ns: seq<Node<Info>>, k: nat)
      requires Listed(ns) && 1 <= k < |ns|
      ensures Listed(RemoveAt(ns, k))
      ensures forall p {:trigger RemoveAt(ns, k)[p]} :: 0 <= p < |ns| - 1 ==> RemoveAt(ns, k)[p] in ns
    {
      var t := RemoveAt(ns, k);
      forall p | 0 <= p < |t|
        ensures t[p] in ns && (p > 0 ==> Known(t[p]) && 0 <= t[p].score < U64)
      {
        assert t[p] == ns[if p < k then p else p + 1];
      }
    }

    lemma ListedBehind(ns: seq<Node<Info>>, k: nat)
      requires Listed(ns) && 1 <= k <= |ns|
      ensures Listed(Cut(ns, k))
    {
      var t := Cut(ns, k);
      forall p | 1 <= p < |t|
        ensures Known(t[p]) && 0 <= t[p].score < U64
      {
        assert t[p] == ns[k - 1 + p];
      }
    }

    /** skiplist_delete */
    method Remove(node: Node<Info>) returns (ghost k: nat)
      requires Valid() && node != sl.header
      modifies sl, sl.nodes
      ensures sl.Strong() && Listed(sl.nodes)
      ensures k == old(sl.Find(node)) && (forall p :: 0 <= p < |sl.nodes| ==> sl.nodes[p] in old(sl.nodes))
      ensures sl.Entries() == if k < |old(sl.nodes)| then RemoveAt(old(sl.Entries()), k - 1) else old(sl.Entries())
    {
      ghost var ns := sl.nodes;
      k := sl.Delete(node);
      assert Listed(ns);
      if k < |ns| {
        ListedWithout(ns, k);
      }
    }

    lemma Cleared(s: State, id: nat, k: nat, q: seq<Timer>)
      requires k == if IsPending(s, id) then 1 + PlaceOfId(s.pending, id) else 1 + |s.pending|
      requires q == if k < 1 + |s.pending| then RemoveAt(s.pending, k - 1) else s.pending
      ensures Apply(s, Action.Clear(id)) == s.(pending := q, lost := if IsPending(s, id) then s.lost else s.lost - {id})
    {
    }

    /** ep_timer_clear of a pending timer, or of one that was abandoned and is not listed. */
    method Clear(id: nat)
      requires Valid() && (IsPending(View(), id) || id in lost)
      modifies this`lost, sl, sl.nodes
      ensures Valid() && View() == Apply(old(View()), Action.Clear(id))
      ensures forall p :: 0 <= p < |sl.nodes| ==> sl.nodes[p] in old(sl.nodes)
    {
      ghost var s := View();
      FoundById(id);
      ghost var k := Remove(handles[id]);
      lost := if IsPending(s, id) then lost else lost - {id};
      Cleared(s, id, k, sl.Entries());
    }

    /** ep_timer_updatetime: `t` is what the clock says. */
    method UpdateTime(t: u64)
      requires Valid()
      modifies this`now
      ensures Valid() && View() == Apply(old(View()), Action.UpdateTime(t))
    {
      now := t;
    }

    /** One action of a callback. */
    method Perform(a: Action)
      requires Valid() && Legal(View(), [a])
      modifies this, sl, sl.nodes
      ensures Valid() && View() == Apply(old(View()), a)
      ensures |handles| >= |old(handles)| && handles[..|old(handles)|] == old(handles)
      ensures forall p :: 0 <= p < |sl.nodes| ==> sl.nodes[p] in old(sl.nodes) || fresh(sl.nodes[p])
    {
      match a {
        case RunAfter(ms, cb) =>
          var id := RunAfter(ms, cb);
        case RunEvery(ms, cb) =>
          var id := RunEvery(ms, cb);
        case Clear(id) =>
          Clear(id);
        case UpdateTime(t) =>
          UpdateTime(t);
      }
    }

    /** After `j` actions of a script: what is left leads to `end`. */
    ghost predicate Scripted(s: State, script: Script, j: nat, end: State)
      requires j <= |script|
    {
      Legal(s, script[j..]) && ApplyAll(s, script[j..]) == end
    }

    lemma OneAction(s: State, script: Script, j: nat, end: State)
      requires j < |script| && Scripted(s, script, j, end)
      ensures Legal(s, [script[j]]) && Scripted(Apply(s, script[j]), script, j + 1, end)
    {
      assert script[j..][0] == script[j] && script[j..][1..] == script[j + 1..];
    }

    method PerformNext(script: Script, j: nat, ghost s: State, ghost end: State)
      requires Snapshot() == Some(s) && j < |script| && Scripted(s, script, j, end)
      modifies this, sl, sl.nodes
      ensures Snapshot() == Some(Apply(s, script[j])) && Scripted(Apply(s, script[j]), script, j + 1, end)
      ensures |handles| >= |old(handles)| && handles[..|old(handles)|] == old(handles)
      ensures forall p :: 0 <= p < |sl.nodes| ==> sl.nodes[p] in old(sl.nodes) || fresh(sl.nodes[p])
    {
      OneAction(s, script, j, end);
      Perform(script[j]);
    }

    /** A callback: what it does to the timers is its script. */
    method Callback(script: Script)
      requires Valid() && Legal(View(), script)
      modifies this, sl, sl.nodes
      ensures Valid() && View() == ApplyAll(old(View()), script)
      ensures |handles| >= |old(handles)| && handles[..|old(handles)|] == old(handles)
      ensures forall p :: 0 <= p < |sl.nodes| ==> sl.nodes[p] in old(sl.nodes) || fresh(sl.nodes[p])
    {
      ghost var s, end := View(), ApplyAll(View(), script);
      for j := 0 to |script|
        invariant Snapshot() == Some(s) && Scripted(s, script, j, end)
        invariant |handles| >= |old(handles)| && handles[..|old(handles)|] == old(handles)
        invariant forall p :: 0 <= p < |sl.nodes| ==> sl.nodes[p] in old(sl.nodes) || fresh(sl.nodes[p])
      {
        PerformNext(script, j, s, end);
        s := Apply(s, script[j]);
      }
    }

    /** What the loop of execute does with a timer after its callback: an interval gets its
        next deadline and goes back into the list. */
    method Rearm(node: Node<Info>)
      requires Valid() && Known(node) && node !in sl.nodes && |node.forward| == LEVELS && 0 <= node.score < U64
      modifies sl, sl.nodes, node
      ensures Valid() && View() == Settle(old(View()), old(Entry(node.score, node.item)))
      ensures forall p :: 0 <= p < |sl.nodes| ==> sl.nodes[p] in old(sl.nodes) || sl.nodes[p] == node
    {
      if node.item.ms > 0 {
        node.score := Add64(node.score, node.item.ms);
        Enlist(node);
      }
    }

    /** One turn of the loop of execute: the callback, then re-arm or destroy. */
    method FireOne(node: Node<Info>, script: Script)
      requires Valid() && Legal(View(), script)
      requires Known(node) && node !in sl.nodes && |node.forward| == LEVELS && 0 <= node.score < U64
      modifies this, sl, sl.nodes, node
      ensures Valid()
      ensures View() == Settle(ApplyAll(old(View()), script), old(Entry(node.score, node.item)))
      ensures |handles| >= |old(handles)| && handles[..|old(handles)|] == old(handles)
      ensures forall p :: 0 <= p < |sl.nodes| ==>
                sl.nodes[p] in old(sl.nodes) || sl.nodes[p] == node || fresh(sl.nodes[p])
    {
      Callback(script);
      Rearm(node);
    }

    /** The nodes of a detached chain from index `c` on: linked to the end, out of the
        list, unchanged since they were detached. */
    ghost predicate Waiting(chain: seq<Node<Info>>, due: seq<Timer>, c: nat)
      reads this, sl, chain
    {
      && Distinct(chain) && |due| == |chain|
      && (forall j {:trigger chain[j]} :: c <= j < |chain| ==>
            && chain[j] !in sl.nodes && Known(chain[j]) && 0 <= chain[j].score < U64
            && Entry(chain[j].score, chain[j].item) == due[j])
      && (forall j {:trigger chain[j].forward} :: c <= j < |chain| ==>
            |chain[j].forward| == LEVELS && chain[j].forward[0] == At(chain, j + 1))
    }

    /** The list without its due front, and that front as a chain. */
    method Split(bound: u64, ghost m: nat) returns (first: Node?<Info>, ghost chain: seq<Node<Info>>)
      requires Valid() && m == CountLte(View().pending, bound)
      modifies sl, sl.nodes
      ensures Snapshot() == Some(Undue(old(View()), bound))
      ensures m < |old(sl.nodes)| && chain == old(sl.nodes)[1..m + 1] && sl.nodes == Cut(old(sl.nodes), m + 1)
      ensures first == At(chain, 0) && IsChain(chain) && Tall(chain, LEVELS)
      ensures EntriesFrom(chain, 0) == Due(old(View()), bound)
    {
      sl.StrongIsWeak();
      ghost var ns := sl.nodes;
      first, chain := sl.ExtractLte(bound);
      assert Listed(ns);
      ListedBehind(ns, m + 1);
    }

    lemma ChainWaits(ns: seq<Node<Info>>, m: nat, chain: seq<Node<Info>>, due: seq<Timer>)
      requires m < |ns| && chain == ns[1..m + 1] && sl.nodes == Cut(ns, m + 1) && Distinct(ns)
      requires IsChain(chain) && Tall(chain, LEVELS) && EntriesFrom(chain, 0) == due
      requires forall p :: 1 <= p < |ns| ==> Known(ns[p])
      requires forall j :: 0 <= j < |due| ==> 0 <= due[j].score < U64
      ensures Waiting(chain, due, 0)
    {
      CutApart(ns, m + 1, chain);
      assert forall j :: 0 <= j < m ==> due[j] == Entry(chain[j].score, chain[j].item);
    }

    /** The extract_lte in front of the loop of ep_timer_execute. */
    method DetachDue(bound: u64) returns (first: Node?<Info>, ghost chain: seq<Node<Info>>)
      requires Valid()
      modifies sl, sl.nodes
      ensures Snapshot() == Some(Undue(old(View()), bound))
      ensures first == At(chain, 0) && Waiting(chain, Due(old(View()), bound), 0)
      ensures forall p :: 0 <= p < |sl.nodes| ==> sl.nodes[p] in old(sl.nodes)
      ensures forall j :: 0 <= j < |chain| ==> chain[j] in old(sl.nodes)
    {
      ghost var ns, m, due := sl.nodes, CountLte(View().pending, bound), Due(View(), bound);
      ViewWellFormed();
      assert Distinct(ns) && forall p :: 1 <= p < |ns| ==> Known(ns[p]);
      CutApart(ns, m + 1, ns[1..m + 1]);
      first, chain := Split(bound, m);
      ChainWaits(ns, m, chain, due);
    }

    /** The turn of the loop of execute for the node at index `c` of the chain. */
    method Turn(node: Node<Info>, script: Script, ghost chain: seq<Node<Info>>, ghost due: seq<Timer>, ghost c: nat)
      requires Valid() && Legal(View(), script)
      requires c < |chain| && chain[c] == node && Waiting(chain, due, c)
      modifies this, sl, sl.nodes, node
      ensures Snapshot() == Some(Settle(ApplyAll(old(View()), script), due[c]))
      ensures Waiting(chain, due, c + 1)
      ensures forall p :: 0 <= p < |sl.nodes| ==>
                sl.nodes[p] in old(sl.nodes) || sl.nodes[p] == node || fresh(sl.nodes[p])
    {
      FireOne(node, script);
    }

    /** The loop is at index `c`: what it still has to do leads to `end`. */
    ghost predicate Running(s: State, due: seq<Timer>, c: nat, max: int, scripts: seq<Script>,
                            fired: seq<Timer>, end: Outcome)
      requires c <= |due|
    {
      var o := Fire(s, due[c..], max, scripts);
      LegalFire(s, due[c..], max, scripts) && end.state == o.state && end.fired == fired + o.fired
    }

    lemma {:induction false} OneTurn(s: State, due: seq<Timer>, c: nat, max: int, scripts: seq<Script>,
                                     fired: seq<Timer>, end: Outcome)
      requires c < |due| && Running(s, due, c, max, scripts, fired, end)
      ensures Legal(s, Next(scripts))
      ensures var s' := Settle(ApplyAll(s, Next(scripts)), due[c]);
              if Stops(max) then end.state == Abandon(s', due[c + 1..]) && end.fired == fired + [due[c]]
              else Running(s', due, c + 1, Countdown(max), Later(scripts), fired + [due[c]], end)
    {
      assert due[c..][0] == due[c] && due[c..][1..] == due[c + 1..];
    }

    /** What the break leaves behind: the timers from index `c` of the chain on. */
    ghost method GiveUp(chain: seq<Node<Info>>, due: seq<Timer>, c: nat)
      requires Valid() && c <= |chain| && Waiting(chain, due, c)
      modifies this`lost
      ensures Snapshot() == Some(Abandon(old(View()), due[c..]))
    {
      var rest := Ids(due[c..]);
      forall id | id in rest
        ensures id < |handles| && handles[id] != sl.header && handles[id].item.id == id
      {
        var j :| 0 <= j < |rest| && rest[j] == id;
        assert Known(chain[c + j]) && chain[c + j].item == due[c..][j].item;
      }
      lost := lost + set id | id in rest;
    }

    /** One round of the loop of ep_timer_execute, at index `c` of the chain. */
    method Round(node: Node<Info>, max: int, rest: seq<Script>, fired: seq<Timer>, ghost chain: seq<Node<Info>>,
                 ghost due: seq<Timer>, ghost c: nat, ghost s: State, ghost end: Outcome)
      returns (fired': seq<Timer>, ghost s': State)
      requires Snapshot() == Some(s) && c < |chain| && chain[c] == node && Waiting(chain, due, c)
      requires Running(s, due, c, max, rest, fired, end)
      modifies this, sl, sl.nodes, node
      ensures Stops(max) ==> Snapshot() == Some(end.state) && fired' == end.fired
      ensures !Stops(max) ==> Snapshot() == Some(s') && Waiting(chain, due, c + 1)
      ensures !Stops(max) ==> Running(s', due, c + 1, Countdown(max), Later(rest), fired', end)
      ensures forall p :: 0 <= p < |sl.nodes| ==>
                sl.nodes[p] in old(sl.nodes) || sl.nodes[p] == node || fresh(sl.nodes[p])
    {
      OneTurn(s, due, c, max, rest, fired, end);
      fired' := fired + [Entry(node.score, node.item)];
      Turn(node, Next(rest), chain, due, c);
      s' := Settle(ApplyAll(s, Next(rest)), due[c]);
      if Stops(max) {
        GiveUp(chain, due, c + 1);
      }
    }

    /** The loop of ep_timer_execute down the detached chain. */
    method RunChain(first: Node?<Info>, maxTimes: int, scripts: seq<Script>, ghost chain: seq<Node<Info>>,
                    ghost due: seq<Timer>, ghost end: Outcome, ghost home: seq<Node<Info>>) returns (fired: seq<Timer>)
      requires Valid() && Waiting(chain, due, 0) && first == At(chain, 0)
      requires Running(View(), due, 0, maxTimes, scripts, [], end)
      requires forall p :: 0 <= p < |sl.nodes| ==> sl.nodes[p] in home
      requires forall j :: 0 <= j < |chain| ==> chain[j] in home
      modifies this, sl, home
      ensures Snapshot() == Some(end.state) && fired == end.fired
      ensures forall p :: 0 <= p < |sl.nodes| ==> sl.nodes[p] in home || fresh(sl.nodes[p])
    {
      var node := first;
      var n := if node != null then node.forward[0] else null;
      var max, rest := maxTimes, scripts;
      ghost var c, s := 0, View();
      fired := [];
      while node != null
        invariant Snapshot() == Some(s) && Waiting(chain, due, c)
        invariant c <= |chain| && node == At(chain, c) && (node != null ==> n == At(chain, c + 1))
        invariant forall p :: 0 <= p < |sl.nodes| ==> sl.nodes[p] in home || fresh(sl.nodes[p])
        invariant Running(s, due, c, max, rest, fired, end)
        decreases |chain| - c
      {
        fired, s := Round(node, max, rest, fired, chain, due, c, s, end);
        if Stops(max) {
          break;
        }
        max, rest := Countdown(max), Later(rest);
        node, c := n, c + 1;
        n := if node != null then node.forward[0] else null;
      }
    }

    /** ep_timer_execute. `scripts` says what the callback of each firing does; `fired` is
        the record of the callbacks run. */
    method Execute(bound: u64, maxTimes: int, scripts: seq<Script>) returns (fired: seq<Timer>)
      requires Valid() && LegalExecute(View(), bound, maxTimes, scripts)
      modifies this, sl, sl.nodes
      ensures Valid() && View() == TimerSpec.Execute(old(View()), bound, maxTimes, scripts).state
      ensures fired == TimerSpec.Execute(old(View()), bound, maxTimes, scripts).fired
      ensures forall p :: 0 <= p < |sl.nodes| ==> sl.nodes[p] in old(sl.nodes) || fresh(sl.nodes[p])
    {
      ghost var s, home := View(), sl.nodes;
      var first, chain := DetachDue(bound);
      assert Due(s, bound)[0..] == Due(s, bound);
      ghost var end := TimerSpec.Execute(s, bound, maxTimes, scripts);
      fired := RunChain(first, maxTimes, scripts, chain, Due(s, bound), end, home);
    }

    /** ep_timer_execute_now: `t` is what the clock says. */
    method ExecuteNow(t: u64, limit: int, scripts: seq<Script>) returns (fired: seq<Timer>)
      requires Valid() && LegalExecute(View().(now := t), t, limit, scripts)
      modifies this, sl, sl.nodes
      ensures Valid()
      ensures var o := TimerSpec.Execute(old(View()).(now := t), t, limit, scripts);
              View() == o.state && fired == o.fired
      ensures forall p :: 0 <= p < |sl.nodes| ==> sl.nodes[p] in old(sl.nodes) || fresh(sl.nodes[p])
    {
      UpdateTime(t);
      fired := Execute(t, limit, scripts);
    }

    /** One event of a run. */
    method Handle(event: Event) returns (fired: seq<Timer>)
      requires Valid() && LegalEvent(View(), event)
      modifies this, sl, sl.nodes
      ensures Valid() && Calls(View(), fired) == RunEvent(old(View()), event)
      ensures forall p :: 0 <= p < |sl.nodes| ==> sl.nodes[p] in old(sl.nodes) || fresh(sl.nodes[p])
    {
      fired := [];
      match event {
        case Act(a) =>
          Perform(a);
        case ExecuteAt(t, max, scripts) =>
          fired := Execute(t, max, scripts);
        case ExecuteNow(t, max, scripts) =>
          fired := ExecuteNow(t, max, scripts);
      }
    }

    /** After `j` events of a run: what is left leads to `end`. */
    ghost predicate Driving(s: State, events: seq<Event>, j: nat, fired: seq<Timer>, end: Calls)
      requires j <= |events|
    {
      var rest := RunEvents(s, events[j..]);
      LegalRun(s, events[j..]) && end.state == rest.state && end.fired == fired + rest.fired
    }

    lemma {:induction false} OneEvent(s: State, events: seq<Event>, j: nat, fired: seq<Timer>, end: Calls)
      requires j < |events| && Driving(s, events, j, fired, end)
      ensures LegalEvent(s, events[j])
      ensures var r := RunEvent(s, events[j]);
              Driving(r.state, events, j + 1, fired + r.fired, end)
    {
      assert events[j..][0] == events[j] && events[j..][1..] == events[j + 1..];
      var r := RunEvent(s, events[j]);
      var rest := RunEvents(r.state, events[j + 1..]).fired;
      assert fired + (r.fired + rest) == fired + r.fired + rest;
    }

    /** Whole runs: on any legal sequence of events the heap object does what the abstract
        scheduler does, so its theorems are theorems about this object. */
    method Drive(events: seq<Event>) returns (fired: seq<Timer>)
      requires Valid() && LegalRun(View(), events)
      modifies this, sl, sl.nodes
      ensures Valid() && Calls(View(), fired) == RunEvents(old(View()), events)
    {
      ghost var s, end := View(), RunEvents(View(), events);
      fired := [];
      assert events[0..] == events;
      for j := 0 to |events|
        invariant Snapshot() == Some(s) && Driving(s, events, j, fired, end)
        invariant forall p :: 0 <= p < |sl.nodes| ==> sl.nodes[p] in old(sl.nodes) || fresh(sl.nodes[p])
      {
        OneEvent(s, events, j, fired, end);
        s := RunEvent(s, events[j]).state;
        var more := Handle(events[j]);
        fired := fired + more;
      }
    }

    /** ep_timer_nearest_diff: the head of level 0 decides. */
    method NearestDiff() returns (d: i32)
      requires Valid()
      ensures WellFormed(View()) && d == WaitSpec.NearestDiff(View())
    {
      ViewWellFormed();
      sl.StrongIsWeak();
      sl.FirstOfList();
      var head := sl.header.forward[0];
      if head != null {
        assert sl.Entries()[0].score == head.score;
        d := ToInt32(if head.score > now then head.score - now else 0);
      } else {
        d := -1;
      }
    }

    /** ep_timer_fini: every pending timer is destroyed once, in order. */
    method Fini() returns (destroyed: seq<Node<Info>>)
      requires Valid()
      modifies sl, sl.header`forward, sl.header`score
      ensures Valid() && View() == old(View()).(pending := [])
      ensures |destroyed| == |old(View()).pending|
      ensures forall j :: 0 <= j < |destroyed| ==> destroyed[j].item == old(View()).pending[j].item
    {
      sl.StrongIsWeak();
      ghost var q := sl.Entries();
      destroyed := sl.Clear();
    }
  }
}
