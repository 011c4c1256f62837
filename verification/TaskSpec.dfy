/** A queue of tasks on abstract states. What the callback of a call does to its own queue,
    pushes and cancels, is an arbitrary script per call, so a theorem over all scripts is
    one over all callbacks. */
module TaskSpec {
  import opened Options
  import opened Scripts
  import opened Sequences

  /** A queued callback. `id` numbers the pushes and stands for the pointer handed out. */
  datatype Task = Task(id: nat, cb: int)

  /** The queued tasks in order, and how many have ever been pushed. */
  datatype Queue = Queue(live: seq<Task>, pushed: nat)

  datatype Edit = Push(cb: int) | Cancel(id: nat)

  type Script = seq<Edit>

  function PlaceOfId(s: seq<Task>, id: nat): (k: nat)
    ensures k <= |s|
    ensures k < |s| ==> s[k].id == id
    ensures forall j :: 0 <= j < k ==> s[j].id != id
  {
    if s == [] || s[0].id == id then 0 else 1 + PlaceOfId(s[1..], id)
  }

  predicate IsQueued(q: Queue, id: nat) {
    PlaceOfId(q.live, id) < |q.live|
  }

  function Apply(q: Queue, e: Edit): Queue {
    match e
    case Push(cb) => Queue(q.live + [Task(q.pushed, cb)], q.pushed + 1)
    case Cancel(id) => if IsQueued(q, id) then q.(live := RemoveAt(q.live, PlaceOfId(q.live, id))) else q
  }

  function ApplyAll(q: Queue, script: Script): Queue
    decreases |script|
  {
    if script == [] then q else ApplyAll(Apply(q, script[0]), script[1..])
  }

  /** Only a task queued at that moment is cancelled, and never `kept`, which the caller of
      the callback is going to use: the running task, or the saved successor. */
  predicate Legal(q: Queue, script: Script, kept: Option<nat>)
    decreases |script|
  {
    script != [] ==>
      && (script[0].Cancel? ==> IsQueued(q, script[0].id) && kept != Some(script[0].id))
      && Legal(Apply(q, script[0]), script[1..], kept)
  }

  /** Tasks stand in the order of their pushes. */
  ghost predicate Ascending(s: seq<Task>) {
    forall i, j :: 0 <= i < j < |s| ==> s[i].id < s[j].id
  }

  ghost predicate WellFormed(q: Queue) {
    Ascending(q.live) && forall i :: 0 <= i < |q.live| ==> q.live[i].id < q.pushed
  }

  // ---- Tasks minus the cancelled ones ----------------------------------------

  function Minus(s: seq<Task>, cancelled: set<nat>): seq<Task> {
    if s == [] then []
    else (if s[0].id in cancelled then [] else [s[0]]) + Minus(s[1..], cancelled)
  }

  lemma {:induction false} MinusConcat(s: seq<Task>, t: seq<Task>, c: set<nat>)
    ensures Minus(s + t, c) == Minus(s, c) + Minus(t, c)
  {
    if s == [] {
      assert s + t == t;
    } else {
      assert (s + t)[1..] == s[1..] + t;
      MinusConcat(s[1..], t, c);
    }
  }

  /** Sets that agree on the ids of `s` take the same tasks away. */
  lemma {:induction false} MinusAgrees(s: seq<Task>, c: set<nat>, d: set<nat>)
    requires forall i :: 0 <= i < |s| ==> (s[i].id in c <==> s[i].id in d)
    ensures Minus(s, c) == Minus(s, d)
  {
    if s != [] {
      MinusAgrees(s[1..], c, d);
    }
  }

  lemma {:induction false} MinusNone(s: seq<Task>, c: set<nat>)
    requires forall i :: 0 <= i < |s| ==> s[i].id !in c
    ensures Minus(s, c) == s
  {
    if s != [] {
      MinusNone(s[1..], c);
    }
  }

  lemma {:induction false} MinusTwice(s: seq<Task>, c: set<nat>, d: set<nat>)
    ensures Minus(Minus(s, c), d) == Minus(s, c + d)
  {
    if s != [] {
      MinusTwice(s[1..], c, d);
      var rest := Minus(s[1..], c);
      assert ([s[0]] + rest)[1..] == rest && [] + rest == rest;
    }
  }

  lemma {:induction false} MinusMembers(s: seq<Task>, c: set<nat>, t: Task)
    ensures t in Minus(s, c) <==> t in s && t.id !in c
  {
    if s != [] {
      MinusMembers(s[1..], c, t);
    }
  }

  lemma {:induction false} MinusAscends(s: seq<Task>, c: set<nat>)
    requires Ascending(s)
    ensures Ascending(Minus(s, c))
  {
    if s != [] {
      var rest := Minus(s[1..], c);
      MinusAscends(s[1..], c);
      forall i | 0 <= i < |rest|
        ensures s[0].id < rest[i].id
      {
        MinusMembers(s[1..], c, rest[i]);
      }
    }
  }

  lemma {:induction false} MinusOne(s: seq<Task>, k: nat)
    requires Ascending(s) && k < |s|
    ensures Minus(s, {s[k].id}) == RemoveAt(s, k)
  {
    var c := {s[k].id};
    if k == 0 {
      MinusNone(s[1..], c);
      assert RemoveAt(s, 0) == s[1..];
    } else {
      MinusOne(s[1..], k - 1);
      assert RemoveAt(s, k) == [s[0]] + RemoveAt(s[1..], k - 1);
    }
  }

  // ---- What happens to a queue ---------------------------------------------------

  /** What was pushed in some stretch of a run, and the ids that were cancelled. */
  datatype Ledger = Ledger(pushed: seq<Task>, cancelled: set<nat>)

  const NOTHING := Ledger([], {})

  function Plus(a: Ledger, b: Ledger): Ledger {
    Ledger(a.pushed + b.pushed, a.cancelled + b.cancelled)
  }

  lemma PlusNothing(l: Ledger)
    ensures Plus(NOTHING, l) == l && Plus(l, NOTHING) == l
  {
    EmptyConcat(l.pushed);
    assert {} + l.cancelled == l.cancelled && l.cancelled + {} == l.cancelled;
  }

  function EditLedger(q: Queue, e: Edit): Ledger {
    match e
    case Push(cb) => Ledger([Task(q.pushed, cb)], {})
    case Cancel(id) => Ledger([], {id})
  }

  function ScriptLedger(q: Queue, script: Script): Ledger
    decreases |script|
  {
    if script == [] then NOTHING
    else Plus(EditLedger(q, script[0]), ScriptLedger(Apply(q, script[0]), script[1..]))
  }

  ghost predicate Numbered(s: seq<Task>, n: nat) {
    forall i :: 0 <= i < |s| ==> s[i].id == n + i
  }

  /** Only tasks that were queued or are pushed meanwhile are cancelled. */
  ghost predicate Cancellable(l: Ledger, q: Queue) {
    forall id :: id in l.cancelled ==> IsQueued(q, id) || q.pushed <= id < q.pushed + |l.pushed|
  }

  /** From `a` to `b`, with `calls` taken from the front meanwhile: the calls and then the
      queue are what was queued and then what was pushed, in that order, without what was
      cancelled. */
  ghost predicate Settled(a: Queue, calls: seq<Task>, l: Ledger, b: Queue) {
    && WellFormed(a) && WellFormed(b)
    && Numbered(l.pushed, a.pushed) && b.pushed == a.pushed + |l.pushed| && Cancellable(l, a)
    && calls + b.live == Minus(a.live + l.pushed, l.cancelled)
  }

  lemma SettledNothing(q: Queue)
    requires WellFormed(q)
    ensures Settled(q, [], NOTHING, q)
  {
    MinusNone(q.live, {});
    EmptyConcat(q.live);
  }

  /** The head of the queue is taken out and called. */
  lemma SettledHead(q: Queue)
    requires WellFormed(q) && q.live != []
    ensures Settled(q, [q.live[0]], NOTHING, q.(live := q.live[1..]))
  {
    TailKeeps(q);
    MinusNone(q.live, {});
    EmptyConcat(q.live);
    HeadTail(q.live);
  }

  lemma TailKeeps(q: Queue)
    requires WellFormed(q) && q.live != []
    ensures WellFormed(q.(live := q.live[1..]))
  {
  }

  lemma PlacedAt(s: seq<Task>, k: nat)
    requires Ascending(s) && k < |s|
    ensures PlaceOfId(s, s[k].id) == k
  {
  }

  lemma EditKeeps(q: Queue, e: Edit)
    requires WellFormed(q)
    ensures WellFormed(Apply(q, e))
  {
  }

  lemma {:induction false} ScriptKeeps(q: Queue, script: Script)
    requires WellFormed(q)
    ensures WellFormed(ApplyAll(q, script))
    decreases |script|
  {
    if script != [] {
      EditKeeps(q, script[0]);
      ScriptKeeps(Apply(q, script[0]), script[1..]);
    }
  }

  lemma EditSettles(q: Queue, e: Edit)
    requires WellFormed(q) && (e.Cancel? ==> IsQueued(q, e.id))
    ensures Settled(q, [], EditLedger(q, e), Apply(q, e))
  {
    EditKeeps(q, e);
    EmptyConcat(Apply(q, e).live);
    match e {
      case Push(cb) =>
        MinusNone(q.live + [Task(q.pushed, cb)], {});
      case Cancel(id) =>
        MinusOne(q.live, PlaceOfId(q.live, id));
        EmptyConcat(q.live);
    }
  }

  lemma AllAscending(q: Queue, pushed: seq<Task>)
    requires WellFormed(q) && Numbered(pushed, q.pushed)
    ensures Ascending(q.live + pushed)
  {
  }

  /** What a stretch calls and what it leaves queued was queued or pushed, and is not
      cancelled; what it calls is not queued behind it. */
  lemma StretchMembers(a: Queue, f: seq<Task>, l: Ledger, b: Queue, t: Task)
    requires Settled(a, f, l, b) && (t in f || t in b.live)
    ensures (t in a.live || t in l.pushed) && t.id !in l.cancelled
  {
    assert t in f + b.live;
    MinusMembers(a.live + l.pushed, l.cancelled, t);
  }

  lemma CalledIsNotQueued(a: Queue, f: seq<Task>, l: Ledger, b: Queue, i: nat)
    requires Settled(a, f, l, b) && i < |f|
    ensures !IsQueued(b, f[i].id) && f[i].id < b.pushed
  {
    var all := f + b.live;
    AllAscending(a, l.pushed);
    MinusAscends(a.live + l.pushed, l.cancelled);
    assert all[i] == f[i] && forall j :: 0 <= j < |b.live| ==> b.live[j] == all[|f| + j];
    StretchMembers(a, f, l, b, f[i]);
  }

  lemma QueuedWasThere(a: Queue, f: seq<Task>, l: Ledger, b: Queue, id: nat)
    requires Settled(a, f, l, b) && IsQueued(b, id)
    ensures IsQueued(a, id) || a.pushed <= id < a.pushed + |l.pushed|
  {
    var t := b.live[PlaceOfId(b.live, id)];
    StretchMembers(a, f, l, b, t);
    if t in a.live {
      var k :| 0 <= k < |a.live| && a.live[k] == t;
      PlacedAt(a.live, k);
    }
  }

  lemma CancelledIsOld(a: Queue, f: seq<Task>, l: Ledger, b: Queue, id: nat)
    requires Settled(a, f, l, b) && id in l.cancelled
    ensures id < b.pushed
  {
    if IsQueued(a, id) {
      assert a.live[PlaceOfId(a.live, id)].id == id;
    }
  }

  /** Of two stretches in a row: what the first called or cancelled the second does not
      cancel, and what the second pushes the first has not cancelled. */
  lemma StretchesApart(a: Queue, f: seq<Task>, l: Ledger, b: Queue, l': Ledger)
    requires Settled(a, f, l, b) && Numbered(l'.pushed, b.pushed) && Cancellable(l', b)
    ensures forall i :: 0 <= i < |f| ==> f[i].id !in l'.cancelled
    ensures forall i :: 0 <= i < |l'.pushed| ==> l'.pushed[i].id !in l.cancelled
    ensures Cancellable(Plus(l, l'), a)
  {
    forall i | 0 <= i < |f|
      ensures f[i].id !in l'.cancelled
    {
      CalledIsNotQueued(a, f, l, b, i);
    }
    forall id | id in l'.cancelled && IsQueued(b, id)
      ensures IsQueued(a, id) || a.pushed <= id < a.pushed + |l.pushed|
    {
      QueuedWasThere(a, f, l, b, id);
    }
    forall id | id in l.cancelled
      ensures id < b.pushed
    {
      CancelledIsOld(a, f, l, b, id);
    }
  }

  /** Two stretches in a row are one. */
  lemma SettledTwice(a: Queue, f: seq<Task>, l: Ledger, b: Queue, f': seq<Task>, l': Ledger, c: Queue)
    requires Settled(a, f, l, b) && Settled(b, f', l', c)
    ensures Settled(a, f + f', Plus(l, l'), c)
  {
    var s, both := a.live + l.pushed, l.cancelled + l'.cancelled;
    StretchesApart(a, f, l, b, l');
    calc {
      Minus(a.live + (l.pushed + l'.pushed), both);
      { ConcatAssoc(a.live, l.pushed, l'.pushed); MinusConcat(s, l'.pushed, both); }
      Minus(s, both) + Minus(l'.pushed, both);
      { MinusTwice(s, l.cancelled, l'.cancelled); MinusAgrees(l'.pushed, both, l'.cancelled); }
      Minus(f + b.live, l'.cancelled) + Minus(l'.pushed, l'.cancelled);
      { MinusConcat(f, b.live, l'.cancelled); MinusNone(f, l'.cancelled); }
      f + Minus(b.live, l'.cancelled) + Minus(l'.pushed, l'.cancelled);
      { ConcatAssoc(f, Minus(b.live, l'.cancelled), Minus(l'.pushed, l'.cancelled));
        MinusConcat(b.live, l'.pushed, l'.cancelled); }
      f + (f' + c.live);
      { ConcatAssoc(f, f', c.live); }
      f + f' + c.live;
    }
  }

  /** After any legal history the queue is what was queued and what was pushed, in the order
      of the pushes, without what was cancelled. */
  lemma {:induction false} ScriptSettles(q: Queue, script: Script, kept: Option<nat>)
    requires WellFormed(q) && Legal(q, script, kept)
    ensures Settled(q, [], ScriptLedger(q, script), ApplyAll(q, script))
    decreases |script|
  {
    if script == [] {
      SettledNothing(q);
    } else {
      var q' := Apply(q, script[0]);
      EditSettles(q, script[0]);
      ScriptSettles(q', script[1..], kept);
      SettledTwice(q, [], EditLedger(q, script[0]), q', [], ScriptLedger(q', script[1..]), ApplyAll(q, script));
    }
  }

  // ---- One pass of ep_task_queue_run ---------------------------------------------

  /** The queue after its first task has been taken out and called. */
  function Called(q: Queue, script: Script): Queue
    requires q.live != []
  {
    ApplyAll(q.(live := q.live[1..]), script)
  }

  function Pushes(script: Script): nat {
    if script == [] then 0 else (if script[0].Push? then 1 else 0) + Pushes(script[1..])
  }

  function AllPushes(scripts: seq<Script>): nat {
    if scripts == [] then 0 else Pushes(scripts[0]) + AllPushes(scripts[1..])
  }

  lemma {:induction false} Grows(q: Queue, script: Script)
    ensures |ApplyAll(q, script).live| <= |q.live| + Pushes(script)
    decreases |script|
  {
    if script != [] {
      Grows(Apply(q, script[0]), script[1..]);
    }
  }

  /** A bound on the calls to come: one per queued task and one per push to come. */
  function Work(q: Queue, scripts: seq<Script>): nat {
    |q.live| + AllPushes(scripts)
  }

  lemma WorkDone(q: Queue, scripts: seq<Script>)
    requires q.live != []
    ensures Work(Called(q, Next(scripts)), Later(scripts)) < Work(q, scripts)
  {
    Grows(q.(live := q.live[1..]), Next(scripts));
  }

  /** What one ep_task_queue_run, or a walk, calls, and the queue it leaves. */
  datatype Pass = Pass(calls: seq<Task>, queue: Queue)

  /** The successor that is saved before the first task is called. */
  function Successor(q: Queue): Option<nat> {
    if |q.live| > 1 then Some(q.live[1].id) else None
  }

  /** A task that is alone when it is called is the last of the pass, whatever it pushes:
      its saved successor is the head of the ring. */
  function RunPass(q: Queue, scripts: seq<Script>): Pass
    decreases Work(q, scripts)
  {
    if q.live == [] then Pass([], q)
    else
      WorkDone(q, scripts);
      var q' := Called(q, Next(scripts));
      if |q.live| == 1 then Pass([q.live[0]], q')
      else
        var rest := RunPass(q', Later(scripts));
        Pass([q.live[0]] + rest.calls, rest.queue)
  }

  predicate LegalPass(q: Queue, scripts: seq<Script>)
    decreases Work(q, scripts)
  {
    q.live == [] ||
    (WorkDone(q, scripts);
     && Legal(q.(live := q.live[1..]), Next(scripts), Successor(q))
     && (|q.live| > 1 ==> LegalPass(Called(q, Next(scripts)), Later(scripts))))
  }

  function CallLedger(q: Queue, script: Script): Ledger
    requires q.live != []
  {
    ScriptLedger(q.(live := q.live[1..]), script)
  }

  function PassLedger(q: Queue, scripts: seq<Script>): Ledger
    decreases Work(q, scripts)
  {
    if q.live == [] then NOTHING
    else
      WorkDone(q, scripts);
      var l := CallLedger(q, Next(scripts));
      if |q.live| == 1 then l else Plus(l, PassLedger(Called(q, Next(scripts)), Later(scripts)))
  }

  lemma CallSettles(q: Queue, script: Script, kept: Option<nat>)
    requires WellFormed(q) && q.live != [] && Legal(q.(live := q.live[1..]), script, kept)
    ensures Settled(q, [q.live[0]], CallLedger(q, script), Called(q, script))
  {
    var t, q1 := q.live[0], q.(live := q.live[1..]);
    SettledHead(q);
    ScriptSettles(q1, script, kept);
    SettledTwice(q, [t], NOTHING, q1, [], ScriptLedger(q1, script), Called(q, script));
    PlusNothing(ScriptLedger(q1, script));
    assert [t] + [] == [t];
  }

  /** First in, first out: the calls and then the queue that is left are the queue as it was
      and then all pushes, in that order, without what was cancelled. */
  lemma {:induction false} PassIsFifo(q: Queue, scripts: seq<Script>)
    requires WellFormed(q) && LegalPass(q, scripts)
    ensures Settled(q, RunPass(q, scripts).calls, PassLedger(q, scripts), RunPass(q, scripts).queue)
    decreases Work(q, scripts)
  {
    if q.live == [] {
      SettledNothing(q);
    } else {
      var q', l := Called(q, Next(scripts)), CallLedger(q, Next(scripts));
      WorkDone(q, scripts);
      CallSettles(q, Next(scripts), Successor(q));
      if |q.live| > 1 {
        var rest := RunPass(q', Later(scripts));
        PassIsFifo(q', Later(scripts));
        SettledTwice(q, [q.live[0]], l, q', rest.calls, PassLedger(q', Later(scripts)), rest.queue);
      }
    }
  }

  /** The queue after the first `n` calls, the stopping rule aside. */
  function AfterCalls(q: Queue, scripts: seq<Script>, n: nat): Queue
    decreases n
  {
    if n == 0 || q.live == [] then q else AfterCalls(Called(q, Next(scripts)), Later(scripts), n - 1)
  }

  /** `calls` takes tasks from the front and ends with the first that is alone in the queue. */
  ghost predicate StopsWhenAlone(q: Queue, scripts: seq<Script>, calls: seq<Task>) {
    && |calls| > 0
    && (forall n: nat {:trigger AfterCalls(q, scripts, n)} :: n < |calls| ==>
          var front := AfterCalls(q, scripts, n).live;
          front != [] && front[0] == calls[n] && (|front| == 1 <==> n == |calls| - 1))
  }

  /** A task that may not be cancelled stays where it is at the head of the queue. */
  lemma {:induction false} HeadStays(q: Queue, script: Script)
    requires q.live != [] && Legal(q, script, Some(q.live[0].id))
    ensures ApplyAll(q, script).live != [] && ApplyAll(q, script).live[0] == q.live[0]
    decreases |script|
  {
    if script != [] {
      HeadStays(Apply(q, script[0]), script[1..]);
    }
  }

  /** A legal pass obeys the stopping rule, and leaves what its last call leaves. */
  lemma {:induction false} PassStops(q: Queue, scripts: seq<Script>)
    requires q.live != [] && LegalPass(q, scripts)
    ensures StopsWhenAlone(q, scripts, RunPass(q, scripts).calls)
    ensures RunPass(q, scripts).queue == AfterCalls(q, scripts, |RunPass(q, scripts).calls|)
    decreases Work(q, scripts)
  {
    WorkDone(q, scripts);
    var q', calls := Called(q, Next(scripts)), RunPass(q, scripts).calls;
    if |q.live| > 1 {
      HeadStays(q.(live := q.live[1..]), Next(scripts));
      PassStops(q', Later(scripts));
      forall n: nat {:trigger AfterCalls(q, scripts, n)} | 0 < n < |calls|
        ensures AfterCalls(q, scripts, n) == AfterCalls(q', Later(scripts), n - 1)
      {
      }
    }
  }

  /** Nothing else obeys it. */
  lemma {:induction false} PassUnique(q: Queue, scripts: seq<Script>, calls: seq<Task>)
    requires q.live != [] && StopsWhenAlone(q, scripts, calls)
    ensures calls == RunPass(q, scripts).calls
    decreases Work(q, scripts)
  {
    WorkDone(q, scripts);
    assert AfterCalls(q, scripts, 0) == q;
    if |q.live| > 1 {
      var q', rest := Called(q, Next(scripts)), calls[1..];
      assert AfterCalls(q, scripts, 1) == AfterCalls(q', Later(scripts), 0) == q';
      forall n: nat {:trigger AfterCalls(q', Later(scripts), n)} | n < |rest|
        ensures AfterCalls(q', Later(scripts), n) == AfterCalls(q, scripts, n + 1)
      {
      }
      PassUnique(q', Later(scripts), rest);
    }
  }

  function ScriptAt(scripts: seq<Script>, n: nat): Script {
    if n < |scripts| then scripts[n] else []
  }

  /** Exactly what the last callback pushed, and did not cancel again, is left. */
  lemma {:induction false} LeftByLastCall(q: Queue, scripts: seq<Script>)
    requires q.live != [] && WellFormed(q) && LegalPass(q, scripts)
    ensures var n := |RunPass(q, scripts).calls| - 1;
            && n >= 0
            && RunPass(q, scripts).queue == ApplyAll(Queue([], AfterCalls(q, scripts, n).pushed), ScriptAt(scripts, n))
    decreases Work(q, scripts)
  {
    WorkDone(q, scripts);
    var q' := Called(q, Next(scripts));
    if |q.live| == 1 {
      assert AfterCalls(q, scripts, 0) == q;
      assert q.live[1..] == [];
      assert RunPass(q, scripts).queue == ApplyAll(Queue([], q.pushed), Next(scripts));
    } else {
      HeadStays(q.(live := q.live[1..]), Next(scripts));
      ScriptKeeps(q.(live := q.live[1..]), Next(scripts));
      LeftByLastCall(q', Later(scripts));
      var n := |RunPass(q, scripts).calls| - 1;
      assert AfterCalls(q, scripts, n) == AfterCalls(q', Later(scripts), n - 1);
      assert ScriptAt(scripts, n) == ScriptAt(Later(scripts), n - 1);
    }
  }

  // ---- Passes in a row --------------------------------------------------------------

  /** Calls from the front until the queue is empty. */
  function Drained(q: Queue, scripts: seq<Script>): Pass
    decreases Work(q, scripts)
  {
    if q.live == [] then Pass([], q)
    else
      WorkDone(q, scripts);
      var rest := Drained(Called(q, Next(scripts)), Later(scripts));
      Pass([q.live[0]] + rest.calls, rest.queue)
  }

  function LaterBy(scripts: seq<Script>, n: nat): seq<Script>
    decreases n
  {
    if n == 0 then scripts else LaterBy(Later(scripts), n - 1)
  }

  /** `times` passes, one after another, each with the scripts the earlier ones left. */
  function RunPasses(q: Queue, scripts: seq<Script>, times: nat): Pass
    decreases times
  {
    if times == 0 then Pass([], q)
    else
      var first := RunPass(q, scripts);
      var rest := RunPasses(first.queue, LaterBy(scripts, |first.calls|), times - 1);
      Pass(first.calls + rest.calls, rest.queue)
  }

  /** A pass makes the first calls of the drain, and leaves the others to be made. */
  lemma {:induction false} PassOfDrain(q: Queue, scripts: seq<Script>)
    ensures var p := RunPass(q, scripts);
            var d := Drained(p.queue, LaterBy(scripts, |p.calls|));
            Drained(q, scripts) == Pass(p.calls + d.calls, d.queue)
    decreases Work(q, scripts)
  {
    if q.live != [] {
      WorkDone(q, scripts);
      var q', p := Called(q, Next(scripts)), RunPass(q, scripts);
      if |q.live| == 1 {
      } else {
        var p' := RunPass(q', Later(scripts));
        PassOfDrain(q', Later(scripts));
        ConcatAssoc([q.live[0]], p'.calls, Drained(p.queue, LaterBy(scripts, |p.calls|)).calls);
      }
    }
  }

  lemma {:induction false} LaterByTwice(scripts: seq<Script>, a: nat, b: nat)
    ensures LaterBy(LaterBy(scripts, a), b) == LaterBy(scripts, a + b)
    decreases a
  {
    if a > 0 {
      LaterByTwice(Later(scripts), a - 1, b);
    }
  }

  /** So do any number of passes. */
  lemma {:induction false} PassesOfDrain(q: Queue, scripts: seq<Script>, times: nat)
    ensures var p := RunPasses(q, scripts, times);
            var d := Drained(p.queue, LaterBy(scripts, |p.calls|));
            Drained(q, scripts) == Pass(p.calls + d.calls, d.queue)
    decreases times
  {
    if times == 0 {
      EmptyConcat(Drained(q, scripts).calls);
    } else {
      var first := RunPass(q, scripts);
      var later := LaterBy(scripts, |first.calls|);
      var rest := RunPasses(first.queue, later, times - 1);
      PassOfDrain(q, scripts);
      PassesOfDrain(first.queue, later, times - 1);
      LaterByTwice(scripts, |first.calls|, |rest.calls|);
      var d := Drained(rest.queue, LaterBy(later, |rest.calls|));
      assert Drained(first.queue, later) == Pass(rest.calls + d.calls, d.queue);
      ConcatAssoc(first.calls, rest.calls, d.calls);
    }
  }

  lemma {:induction false} PassWorks(q: Queue, scripts: seq<Script>)
    ensures var p := RunPass(q, scripts);
            Work(p.queue, LaterBy(scripts, |p.calls|)) < Work(q, scripts) || (q.live == [] && p == Pass([], q))
    decreases Work(q, scripts)
  {
    if q.live != [] {
      WorkDone(q, scripts);
      var q' := Called(q, Next(scripts));
      if |q.live| == 1 {
        assert LaterBy(scripts, 1) == LaterBy(Later(scripts), 0);
      } else {
        PassWorks(q', Later(scripts));
      }
    }
  }

  lemma {:induction false} PassesEmpty(q: Queue, scripts: seq<Script>, times: nat)
    requires times >= Work(q, scripts)
    ensures RunPasses(q, scripts, times).queue.live == []
    decreases times
  {
    if times > 0 {
      var p := RunPass(q, scripts);
      PassWorks(q, scripts);
      if q.live == [] {
        PassesIdle(q, scripts, times);
      } else {
        PassesEmpty(p.queue, LaterBy(scripts, |p.calls|), times - 1);
      }
    }
  }

  lemma {:induction false} PassesIdle(q: Queue, scripts: seq<Script>, times: nat)
    requires q.live == []
    ensures RunPasses(q, scripts, times) == Pass([], q)
    decreases times
  {
    if times > 0 {
      PassesIdle(q, LaterBy(scripts, 0), times - 1);
    }
  }

  /** Enough passes drain the queue: one per task queued or pushed is always enough. */
  lemma {:induction false} PassesDrain(q: Queue, scripts: seq<Script>, times: nat)
    requires times >= Work(q, scripts)
    ensures RunPasses(q, scripts, times) == Drained(q, scripts) && Drained(q, scripts).queue.live == []
  {
    PassesEmpty(q, scripts, times);
    PassesOfDrain(q, scripts, times);
    EmptyConcat(RunPasses(q, scripts, times).calls);
  }

  predicate LegalDrain(q: Queue, scripts: seq<Script>)
    decreases Work(q, scripts)
  {
    q.live == [] ||
    (WorkDone(q, scripts);
     && Legal(q.(live := q.live[1..]), Next(scripts), Successor(q))
     && LegalDrain(Called(q, Next(scripts)), Later(scripts)))
  }

  function DrainLedger(q: Queue, scripts: seq<Script>): Ledger
    decreases Work(q, scripts)
  {
    if q.live == [] then NOTHING
    else
      WorkDone(q, scripts);
      Plus(CallLedger(q, Next(scripts)), DrainLedger(Called(q, Next(scripts)), Later(scripts)))
  }

  /** A drain calls every task that was queued or pushed, and not cancelled, exactly once, in
      the order of the pushes. */
  lemma {:induction false} DrainIsFifo(q: Queue, scripts: seq<Script>)
    requires WellFormed(q) && LegalDrain(q, scripts)
    ensures var d, l := Drained(q, scripts), DrainLedger(q, scripts);
            Settled(q, d.calls, l, d.queue) && d.calls == Minus(q.live + l.pushed, l.cancelled)
    decreases Work(q, scripts)
  {
    if q.live == [] {
      SettledNothing(q);
    } else {
      WorkDone(q, scripts);
      var q', l := Called(q, Next(scripts)), CallLedger(q, Next(scripts));
      CallSettles(q, Next(scripts), Successor(q));
      var rest := Drained(q', Later(scripts));
      DrainIsFifo(q', Later(scripts));
      SettledTwice(q, [q.live[0]], l, q', rest.calls, DrainLedger(q', Later(scripts)), rest.queue);
    }
    DrainEnds(q, scripts);
    EmptyConcat(Drained(q, scripts).calls);
  }

  lemma {:induction false} DrainEnds(q: Queue, scripts: seq<Script>)
    ensures Drained(q, scripts).queue.live == []
    decreases Work(q, scripts)
  {
    if q.live != [] {
      WorkDone(q, scripts);
      DrainEnds(Called(q, Next(scripts)), Later(scripts));
    }
  }

  // ---- One walk of ep_task_queue_run_keep ---------------------------------------------

  function Behind(q: Queue, i: nat): nat {
    if i < |q.live| then |q.live| - i else 0
  }

  /** Where the walk stands after the call of the task at index `i`: behind that task, which
      has moved to the front if tasks in front of it have been cancelled. */
  function Onward(q: Queue, i: nat, script: Script): nat
    requires i < |q.live|
  {
    PlaceOfId(ApplyAll(q, script).live, q.live[i].id) + 1
  }

  lemma {:induction false} BehindShrinks(q: Queue, id: nat, script: Script)
    ensures |ApplyAll(q, script).live| - PlaceOfId(ApplyAll(q, script).live, id)
            <= |q.live| - PlaceOfId(q.live, id) + Pushes(script)
    decreases |script|
  {
    if script != [] {
      EditBehind(q, id, script[0]);
      BehindShrinks(Apply(q, script[0]), id, script[1..]);
    }
  }

  lemma EditBehind(q: Queue, id: nat, e: Edit)
    ensures |Apply(q, e).live| - PlaceOfId(Apply(q, e).live, id)
            <= |q.live| - PlaceOfId(q.live, id) + (if e.Push? then 1 else 0)
  {
    var p, t := PlaceOfId(q.live, id), Apply(q, e).live;
    if e.Push? {
      assert forall j :: 0 <= j < p ==> t[j].id != id;
    } else if IsQueued(q, e.id) {
      var k := PlaceOfId(q.live, e.id);
      assert forall j :: 0 <= j < p && j < |t| ==> j < k ==> t[j].id != id;
      assert forall j :: k <= j < p - 1 ==> t[j] == q.live[j + 1];
    }
  }

  lemma WalkWorks(q: Queue, i: nat, scripts: seq<Script>)
    requires WellFormed(q) && i < |q.live|
    ensures WellFormed(ApplyAll(q, Next(scripts)))
    ensures Behind(ApplyAll(q, Next(scripts)), Onward(q, i, Next(scripts))) + AllPushes(Later(scripts))
            < Behind(q, i) + AllPushes(scripts)
  {
    ScriptKeeps(q, Next(scripts));
    PlacedAt(q.live, i);
    BehindShrinks(q, q.live[i].id, Next(scripts));
  }

  /** A walk that stands at index `i`; the tasks stay queued. */
  ghost function Walk(q: Queue, i: nat, scripts: seq<Script>): Pass
    requires WellFormed(q)
    decreases Behind(q, i) + AllPushes(scripts)
  {
    if i >= |q.live| then Pass([], q)
    else
      WalkWorks(q, i, scripts);
      var rest := Walk(ApplyAll(q, Next(scripts)), Onward(q, i, Next(scripts)), Later(scripts));
      Pass([q.live[i]] + rest.calls, rest.queue)
  }

  /** The callbacks of a walk may cancel any queued task but the one that is running. */
  ghost predicate LegalWalk(q: Queue, i: nat, scripts: seq<Script>)
    requires WellFormed(q)
    decreases Behind(q, i) + AllPushes(scripts)
  {
    i < |q.live| ==>
      (WalkWorks(q, i, scripts);
       && Legal(q, Next(scripts), Some(q.live[i].id))
       && LegalWalk(ApplyAll(q, Next(scripts)), Onward(q, i, Next(scripts)), Later(scripts)))
  }

  ghost function WalkLedger(q: Queue, i: nat, scripts: seq<Script>): Ledger
    requires WellFormed(q)
    decreases Behind(q, i) + AllPushes(scripts)
  {
    if i >= |q.live| then NOTHING
    else
      WalkWorks(q, i, scripts);
      Plus(ScriptLedger(q, Next(scripts)),
           WalkLedger(ApplyAll(q, Next(scripts)), Onward(q, i, Next(scripts)), Later(scripts)))
  }

  /** The ids above that of a task: cancelled by its callback, they are cancelled before
      their turn. */
  function Above(id: nat, cancelled: set<nat>): set<nat> {
    set c | c in cancelled && c > id
  }

  /** What is cancelled before the walk reaches it. */
  ghost function Skipped(q: Queue, i: nat, scripts: seq<Script>): set<nat>
    requires WellFormed(q)
    decreases Behind(q, i) + AllPushes(scripts)
  {
    if i >= |q.live| then {}
    else
      WalkWorks(q, i, scripts);
      Above(q.live[i].id, ScriptLedger(q, Next(scripts)).cancelled)
      + Skipped(ApplyAll(q, Next(scripts)), Onward(q, i, Next(scripts)), Later(scripts))
  }

  /** Over a walk the queue becomes what was queued and pushed, without what was cancelled. */
  lemma {:induction false} WalkSettles(q: Queue, i: nat, scripts: seq<Script>)
    requires WellFormed(q) && LegalWalk(q, i, scripts)
    ensures Settled(q, [], WalkLedger(q, i, scripts), Walk(q, i, scripts).queue)
    decreases Behind(q, i) + AllPushes(scripts)
  {
    if i >= |q.live| {
      SettledNothing(q);
    } else {
      var q', j := ApplyAll(q, Next(scripts)), Onward(q, i, Next(scripts));
      WalkWorks(q, i, scripts);
      ScriptSettles(q, Next(scripts), Some(q.live[i].id));
      WalkSettles(q', j, Later(scripts));
      SettledTwice(q, [], ScriptLedger(q, Next(scripts)), q', [],
                   WalkLedger(q', j, Later(scripts)), Walk(q', j, Later(scripts)).queue);
    }
  }

  lemma {:induction false} KeptIsNotCancelled(q: Queue, script: Script, id: nat)
    requires Legal(q, script, Some(id))
    ensures id !in ScriptLedger(q, script).cancelled
    decreases |script|
  {
    if script != [] {
      KeptIsNotCancelled(Apply(q, script[0]), script[1..], id);
    }
  }

  lemma {:induction false} SkippedAbove(q: Queue, i: nat, scripts: seq<Script>, c: nat)
    requires WellFormed(q) && c in Skipped(q, i, scripts)
    ensures i < |q.live| && c > q.live[i].id
    decreases Behind(q, i) + AllPushes(scripts)
  {
    var q', j, l := ApplyAll(q, Next(scripts)), Onward(q, i, Next(scripts)), ScriptLedger(q, Next(scripts));
    WalkWorks(q, i, scripts);
    if c !in Above(q.live[i].id, l.cancelled) {
      SkippedAbove(q', j, Later(scripts), c);
      assert q'.live[j - 1].id < q'.live[j].id;
    }
  }

  /** Behind a task that is not cancelled stands what stood behind it and what was pushed,
      without what was cancelled. */
  lemma MinusBehind(s: seq<Task>, i: nat, c: set<nat>)
    requires Ascending(s) && i < |s| && s[i].id !in c
    ensures var k := PlaceOfId(Minus(s, c), s[i].id);
            k < |Minus(s, c)| && Minus(s, c)[k + 1..] == Minus(s[i + 1..], c)
  {
    var front, rest := Minus(s[..i], c), Minus(s[i + 1..], c);
    Around(s, i);
    MinusConcat(s[..i], [s[i]] + s[i + 1..], c);
    ConsTail(s[i], s[i + 1..]);
    assert Minus(s, c) == front + ([s[i]] + rest);
    Middle(front, s[i], rest);
    MinusAscends(s, c);
    PlacedAt(Minus(s, c), |front|);
  }

  lemma MinusOnlyAbove(s: seq<Task>, id: nat, c: set<nat>)
    requires forall k :: 0 <= k < |s| ==> s[k].id > id
    ensures Minus(s, c) == Minus(s, Above(id, c))
  {
    MinusAgrees(s, c, Above(id, c));
  }

  lemma TailAbove(s: seq<Task>, p: seq<Task>, i: nat)
    requires Ascending(s + p) && i < |s|
    ensures forall k {:trigger (s[i + 1..] + p)[k]} :: 0 <= k < |s[i + 1..] + p| ==> (s[i + 1..] + p)[k].id > s[i].id
  {
    var all, b := s + p, s[i + 1..] + p;
    forall k | 0 <= k < |b|
      ensures b[k].id > s[i].id
    {
      assert b[k] == all[i + 1 + k] && all[i] == s[i];
    }
  }

  lemma BehindTask(s: seq<Task>, p: seq<Task>, i: nat, c: set<nat>)
    requires Ascending(s + p) && i < |s| && s[i].id !in c
    ensures var t := Minus(s + p, c);
            var k := PlaceOfId(t, s[i].id);
            k < |t| && t[k + 1..] == Minus(s[i + 1..] + p, Above(s[i].id, c))
  {
    assert (s + p)[i] == s[i];
    MinusBehind(s + p, i, c);
    DropOfConcat(s, p, i + 1);
    TailAbove(s, p, i);
    MinusOnlyAbove(s[i + 1..] + p, s[i].id, c);
  }

  lemma ScriptLeaves(q: Queue, script: Script, kept: Option<nat>)
    requires WellFormed(q) && Legal(q, script, kept)
    ensures var l := ScriptLedger(q, script);
            ApplyAll(q, script).live == Minus(q.live + l.pushed, l.cancelled) && Ascending(q.live + l.pushed)
  {
    ScriptSettles(q, script, kept);
    EmptyConcat(ApplyAll(q, script).live);
    AllAscending(q, ScriptLedger(q, script).pushed);
  }

  lemma OneStepOn(q: Queue, i: nat, script: Script)
    requires WellFormed(q) && i < |q.live| && Legal(q, script, Some(q.live[i].id))
    ensures var q', j := ApplyAll(q, script), Onward(q, i, script);
            var l := ScriptLedger(q, script);
            j <= |q'.live| && q'.live[j..] == Minus(q.live[i + 1..] + l.pushed, Above(q.live[i].id, l.cancelled))
  {
    var l := ScriptLedger(q, script);
    ScriptLeaves(q, script, Some(q.live[i].id));
    KeptIsNotCancelled(q, script, q.live[i].id);
    BehindTask(q.live, l.pushed, i, l.cancelled);
  }

  /** A walk calls every task that is queued, or pushed during the walk, exactly once in the
      order of the pushes, but for those that are cancelled before their turn. */
  lemma {:induction false} WalkCalls(q: Queue, i: nat, scripts: seq<Script>)
    requires WellFormed(q) && i <= |q.live| && LegalWalk(q, i, scripts)
    ensures Walk(q, i, scripts).calls
            == Minus(q.live[i..] + WalkLedger(q, i, scripts).pushed, Skipped(q, i, scripts))
    decreases Behind(q, i) + AllPushes(scripts)
  {
    if i < |q.live| {
      WalkWorks(q, i, scripts);
      var t, q', j := q.live[i], ApplyAll(q, Next(scripts)), Onward(q, i, Next(scripts));
      var l, l' := ScriptLedger(q, Next(scripts)), WalkLedger(q', j, Later(scripts));
      var d, d' := Above(t.id, l.cancelled), Skipped(q', j, Later(scripts));
      OneStepOn(q, i, Next(scripts));
      WalkCalls(q', j, Later(scripts));
      WalkSettles(q', j, Later(scripts));
      ScriptSettles(q, Next(scripts), Some(t.id));
      StretchesApart(q, [], l, q', l');
      NotSkipped(q, i, scripts);
      SkipJoins(t, q.live[i + 1..], l.pushed, d, l'.pushed, d');
      HeadTail(q.live[i..]);
    }
  }

  lemma NotSkipped(q: Queue, i: nat, scripts: seq<Script>)
    requires WellFormed(q) && i < |q.live|
    ensures q.live[i].id !in Skipped(q, i, scripts)
  {
    if q.live[i].id in Skipped(q, i, scripts) {
      SkippedAbove(q, i, scripts, q.live[i].id);
    }
  }

  lemma SkipJoins(t: Task, b: seq<Task>, p: seq<Task>, d: set<nat>, p': seq<Task>, d': set<nat>)
    requires t.id !in d + d' && forall k :: 0 <= k < |p'| ==> p'[k].id !in d
    ensures [t] + Minus(Minus(b + p, d) + p', d') == Minus([t] + b + (p + p'), d + d')
  {
    calc {
      Minus([t] + b + (p + p'), d + d');
      { assert [t] + b + (p + p') == [t] + (b + p + p'); MinusConcat([t], b + p + p', d + d'); MinusNone([t], d + d'); }
      [t] + Minus(b + p + p', d + d');
      { MinusConcat(b + p, p', d + d'); MinusTwice(b + p, d, d'); MinusAgrees(p', d + d', d'); }
      [t] + (Minus(Minus(b + p, d), d') + Minus(p', d'));
      { MinusConcat(Minus(b + p, d), p', d'); }
      [t] + Minus(Minus(b + p, d) + p', d');
    }
  }

  lemma {:induction false} QuietWalk(q: Queue, i: nat)
    requires WellFormed(q) && i <= |q.live|
    ensures LegalWalk(q, i, []) && Walk(q, i, []) == Pass(q.live[i..], q)
    decreases |q.live| - i
  {
    if i < |q.live| {
      PlacedAt(q.live, i);
      QuietWalk(q, i + 1);
      HeadTail(q.live[i..]);
    }
  }

  /** After any legal history of a new queue a walk whose callbacks leave the queue alone
      calls exactly the pushes that were not cancelled, in the order of the pushes. */
  lemma {:induction false} HistoryThenWalk(script: Script)
    requires Legal(Queue([], 0), script, None)
    ensures var q, l := ApplyAll(Queue([], 0), script), ScriptLedger(Queue([], 0), script);
            WellFormed(q) && Walk(q, 0, []) == Pass(Minus(l.pushed, l.cancelled), q)
  {
    var q, l := ApplyAll(Queue([], 0), script), ScriptLedger(Queue([], 0), script);
    ScriptLeaves(Queue([], 0), script, None);
    ScriptKeeps(Queue([], 0), script);
    EmptyConcat(l.pushed);
    QuietWalk(q, 0);
  }

  // ---- The loops, turn by turn ----------------------------------------------------------

  /** A pass that started on `q0` has made `calls`; the queue is now `q`, and `scripts` are
      left. */
  ghost predicate Passing(q0: Queue, scripts0: seq<Script>, q: Queue, scripts: seq<Script>, calls: seq<Task>,
                          stopped: bool)
  {
    if stopped then RunPass(q0, scripts0) == Pass(calls, q)
    else
      && q.live != [] && LegalPass(q, scripts)
      && RunPass(q0, scripts0) == Pass(calls + RunPass(q, scripts).calls, RunPass(q, scripts).queue)
  }

  lemma PassStarts(q: Queue, scripts: seq<Script>)
    requires LegalPass(q, scripts)
    ensures Passing(q, scripts, q, scripts, [], q.live == [])
  {
    EmptyConcat(RunPass(q, scripts).calls);
  }

  lemma PassTurn(q0: Queue, scripts0: seq<Script>, q: Queue, scripts: seq<Script>, calls: seq<Task>)
    requires Passing(q0, scripts0, q, scripts, calls, false)
    ensures Legal(q.(live := q.live[1..]), Next(scripts), Successor(q))
    ensures Work(Called(q, Next(scripts)), Later(scripts)) < Work(q, scripts)
    ensures Passing(q0, scripts0, Called(q, Next(scripts)), Later(scripts), calls + [q.live[0]], |q.live| == 1)
  {
    WorkDone(q, scripts);
    if |q.live| > 1 {
      HeadStays(q.(live := q.live[1..]), Next(scripts));
      ConcatAssoc(calls, [q.live[0]], RunPass(Called(q, Next(scripts)), Later(scripts)).calls);
    }
  }

  /** A walk that started on `q0` has made `calls` and stands at index `i` of what is now `q`. */
  ghost predicate UnderWay(q0: Queue, scripts0: seq<Script>, q: Queue, i: nat, scripts: seq<Script>, calls: seq<Task>) {
    && WellFormed(q0) && WellFormed(q) && i <= |q.live| && LegalWalk(q, i, scripts)
    && Walk(q0, 0, scripts0) == Pass(calls + Walk(q, i, scripts).calls, Walk(q, i, scripts).queue)
  }

  lemma {:induction false} KeptStays(q: Queue, script: Script, id: nat)
    requires Legal(q, script, Some(id)) && IsQueued(q, id)
    ensures IsQueued(ApplyAll(q, script), id)
    decreases |script|
  {
    if script != [] {
      EditKeepsQueued(q, script[0], id);
      KeptStays(Apply(q, script[0]), script[1..], id);
    }
  }

  lemma EditKeepsQueued(q: Queue, e: Edit, id: nat)
    requires IsQueued(q, id) && e != Cancel(id)
    ensures IsQueued(Apply(q, e), id)
  {
    var p, t := PlaceOfId(q.live, id), Apply(q, e).live;
    if e.Cancel? && IsQueued(q, e.id) {
      var k := PlaceOfId(q.live, e.id);
      assert t[if p < k then p else p - 1] == q.live[p];
    } else {
      assert t[p] == q.live[p];
    }
  }

  lemma WalkTurn(q0: Queue, scripts0: seq<Script>, q: Queue, i: nat, scripts: seq<Script>, calls: seq<Task>)
    requires UnderWay(q0, scripts0, q, i, scripts, calls) && i < |q.live|
    ensures Legal(q, Next(scripts), Some(q.live[i].id)) && IsQueued(q, q.live[i].id)
    ensures var q', j := ApplyAll(q, Next(scripts)), Onward(q, i, Next(scripts));
            && Behind(q', j) + AllPushes(Later(scripts)) < Behind(q, i) + AllPushes(scripts)
            && j <= |q'.live| && UnderWay(q0, scripts0, q', j, Later(scripts), calls + [q.live[i]])
  {
    WalkWorks(q, i, scripts);
    PlacedAt(q.live, i);
    KeptStays(q, Next(scripts), q.live[i].id);
    ConcatAssoc(calls, [q.live[i]],
                Walk(ApplyAll(q, Next(scripts)), Onward(q, i, Next(scripts)), Later(scripts)).calls);
  }

  lemma WalkStarts(q: Queue, scripts: seq<Script>)
    requires WellFormed(q) && LegalWalk(q, 0, scripts)
    ensures UnderWay(q, scripts, q, 0, scripts, [])
  {
    EmptyConcat(Walk(q, 0, scripts).calls);
  }

  lemma WalkEnds(q0: Queue, scripts0: seq<Script>, q: Queue, i: nat, scripts: seq<Script>, calls: seq<Task>)
    requires UnderWay(q0, scripts0, q, i, scripts, calls) && i == |q.live|
    ensures Walk(q0, 0, scripts0) == Pass(calls, q)
  {
    EmptyConcat(calls);
  }

  // ---- Runs ---------------------------------------------------------------------------------

  lemma {:induction false} PassKeeps(q: Queue, scripts: seq<Script>)
    requires WellFormed(q)
    ensures WellFormed(RunPass(q, scripts).queue)
    decreases Work(q, scripts)
  {
    if q.live != [] {
      WorkDone(q, scripts);
      TailKeeps(q);
      ScriptKeeps(q.(live := q.live[1..]), Next(scripts));
      if |q.live| > 1 {
        PassKeeps(Called(q, Next(scripts)), Later(scripts));
      }
    }
  }

  lemma {:induction false} WalkKeeps(q: Queue, i: nat, scripts: seq<Script>)
    requires WellFormed(q)
    ensures WellFormed(Walk(q, i, scripts).queue)
    decreases Behind(q, i) + AllPushes(scripts)
  {
    if i < |q.live| {
      WalkWorks(q, i, scripts);
      WalkKeeps(ApplyAll(q, Next(scripts)), Onward(q, i, Next(scripts)), Later(scripts));
    }
  }

  /** A walk after any stretch: it calls exactly what was queued before the stretch or pushed
      since, in the order of the pushes, without what was cancelled before its turn. */
  lemma WalkAfter(a: Queue, l: Ledger, q: Queue, scripts: seq<Script>)
    requires Settled(a, [], l, q) && LegalWalk(q, 0, scripts)
    ensures Walk(q, 0, scripts).calls
            == Minus(a.live + (l.pushed + WalkLedger(q, 0, scripts).pushed), l.cancelled + Skipped(q, 0, scripts))
  {
    var p, d := WalkLedger(q, 0, scripts).pushed, Skipped(q, 0, scripts);
    WalkCalls(q, 0, scripts);
    WalkSettles(q, 0, scripts);
    StretchesApart(a, [], l, q, WalkLedger(q, 0, scripts));
    EmptyConcat(q.live);
    assert q.live[0..] == q.live;
    calc {
      Minus(a.live + (l.pushed + p), l.cancelled + d);
      { ConcatAssoc(a.live, l.pushed, p); MinusConcat(a.live + l.pushed, p, l.cancelled + d); }
      Minus(a.live + l.pushed, l.cancelled + d) + Minus(p, l.cancelled + d);
      { MinusTwice(a.live + l.pushed, l.cancelled, d); MinusAgrees(p, l.cancelled + d, d); }
      Minus(q.live, d) + Minus(p, d);
      { MinusConcat(q.live, p, d); }
      Minus(q.live + p, d);
    }
  }
}
