/** The life of a single timer over whole runs: it fires in the first call that reaches its
    deadline, and once it is gone it never fires again. */
module TimerLives {
  import opened Scripts
  import opened Sequences
  import opened StableQueue
  import opened TimerSpec
  import opened TimerLaws

  // ---- The beginning -------------------------------------------------------------------

  /** The timer `t` has joined the pending ones, as number `s.nextId`. */
  ghost predicate Joins(s: State, t: Timer, s': State) {
    && multiset(s'.pending) == multiset(s.pending) + multiset{t} && t.item.id == s.nextId
    && s'.nextId == s.nextId + 1 && s'.now == s.now && s'.lost == s.lost
  }

  lemma RegisterJoins(s: State, ms: u64, info: Info, d: int)
    requires info.id == s.nextId && d == (s.now + ms) % 0x1_0000_0000_0000_0000
    ensures Joins(s, Entry(d, info), Register(s, ms, info))
  {
    var q, t := s.pending, Entry(d, info);
    assert Add64(s.now, ms) == d;
    InsertAtMultiset(q, CountLte(q, d), t);
    assert Register(s, ms, info).pending == InsertAt(q, CountLte(q, d), t);
  }

  /** A registration is for the stored time plus `ms`, in the arithmetic of 64 bits; a
      one-shot timer has period 0, an interval `ms`. */
  lemma RegistersAt(s: State, ms: u64, cb: int, d: int)
    requires d == (s.now + ms) % 0x1_0000_0000_0000_0000
    ensures Joins(s, Entry(d, Info(s.nextId, 0, cb)), Apply(s, RunAfter(ms, cb)))
    ensures Joins(s, Entry(d, Info(s.nextId, ms, cb)), Apply(s, RunEvery(ms, cb)))
  {
    RegisterJoins(s, ms, Info(s.nextId, 0, cb), d);
    RegisterJoins(s, ms, Info(s.nextId, ms, cb), d);
  }

  /** ep_settimeout: `t` is what the clock says. */
  lemma SetsTimeout(s: State, t: u64, ms: u64, cb: int, d: int)
    requires d == (t + ms) % 0x1_0000_0000_0000_0000
    ensures Joins(s.(now := t), Entry(d, Info(s.nextId, 0, cb)), ApplyAll(s, [UpdateTime(t), RunAfter(ms, cb)]))
  {
    RegisterJoins(s.(now := t), ms, Info(s.nextId, 0, cb), d);
    TwoActions(s, t, RunAfter(ms, cb));
  }

  /** ep_setinterval */
  lemma SetsInterval(s: State, t: u64, ms: u64, cb: int, d: int)
    requires d == (t + ms) % 0x1_0000_0000_0000_0000
    ensures Joins(s.(now := t), Entry(d, Info(s.nextId, ms, cb)), ApplyAll(s, [UpdateTime(t), RunEvery(ms, cb)]))
  {
    RegisterJoins(s.(now := t), ms, Info(s.nextId, ms, cb), d);
    TwoActions(s, t, RunEvery(ms, cb));
  }

  lemma OneAction(s: State, a: Action)
    ensures ApplyAll(s, [a]) == Apply(s, a)
  {
    assert [a][1..] == [];
  }

  lemma TwoActions(s: State, t: u64, a: Action)
    ensures ApplyAll(s, [UpdateTime(t), a]) == Apply(s.(now := t), a)
  {
    assert [UpdateTime(t), a][1..] == [a];
    OneAction(s.(now := t), a);
  }

  /** A fired interval moves on by its period, in the arithmetic of 64 bits, from the deadline
      that it had. */
  lemma RearmsAt(t: Timer)
    ensures Rearm(t) == Entry((t.score + t.item.ms) % 0x1_0000_0000_0000_0000, t.item)
  {
  }

  /** What the first callback of a call registers is for the time that ep_timer_execute_now has
      read, or for the time that was stored before ep_timer_execute. */
  lemma CallbackRegistersAt(s: State, call: Event, ms: u64, cb: int, d: int)
    requires !call.Act? && Due(Entered(s, call), call.bound) != [] && call.scripts == [[RunAfter(ms, cb)]]
    requires d == ((if call.ExecuteNow? then call.bound else s.now) + ms) % 0x1_0000_0000_0000_0000
    ensures Entry(d, Info(s.nextId, 0, cb)) in RunEvent(s, call).state.pending
  {
    var e, a := Entered(s, call), RunAfter(ms, cb);
    var u, t := Undue(e, call.bound), Entry(d, Info(s.nextId, 0, cb));
    RegistersAt(u, ms, cb, d);
    assert t in multiset(Apply(u, a).pending);
    OneAction(u, a);
    FirstCallbackHas(u, Due(e, call.bound), call.max, [a], t);
  }

  lemma FirstCallbackHas(s: State, due: seq<Timer>, max: int, script: Script, t: Timer)
    requires due != [] && t in ApplyAll(s, script).pending
    ensures t in Fire(s, due, max, [script]).state.pending
  {
    var s' := Settle(ApplyAll(s, script), due[0]);
    SettleHas(ApplyAll(s, script), due[0], t);
    assert [script][1..] == [];
    if !Stops(max) {
      QuietFireHas(s', due[1..], Countdown(max), t);
    }
  }

  lemma SettleHas(s: State, u: Timer, t: Timer)
    requires t in s.pending
    ensures t in Settle(s, u).pending
  {
    if u.item.ms > 0 {
      InsertAtMembers(s.pending, CountLte(s.pending, Rearm(u).score), Rearm(u));
    }
  }

  /** Callbacks that do nothing leave the pending timers pending. */
  lemma {:induction false} QuietFireHas(s: State, due: seq<Timer>, max: int, t: Timer)
    requires t in s.pending
    ensures t in Fire(s, due, max, []).state.pending
    decreases |due|
  {
    if due != [] {
      SettleHas(s, due[0], t);
      if !Stops(max) {
        QuietFireHas(Settle(s, due[0]), due[1..], Countdown(max), t);
      }
    }
  }

  /** `r` is `q` with `t` behind all that score no more. */
  ghost predicate PutsBehind(q: seq<Timer>, t: Timer, r: seq<Timer>) {
    exists k :: 0 <= k <= |q| && r == q[..k] + [t] + q[k..]
                && (forall i :: 0 <= i < k ==> q[i].score <= t.score) && (k < |q| ==> q[k].score > t.score)
  }

  /** An interval goes behind everything that its own callback has left pending with the same
      deadline: it is re-armed after the callback. */
  lemma RearmedGoesLast(s: State, bound: int, max: int, scripts: seq<Script>, t: Timer, d: int)
    requires Due(s, bound) == [t] && t.item.ms > 0 && d == (t.score + t.item.ms) % 0x1_0000_0000_0000_0000
    ensures PutsBehind(ApplyAll(Undue(s, bound), Next(scripts)).pending, Entry(d, t.item),
                       Execute(s, bound, max, scripts).state.pending)
  {
    var q := ApplyAll(Undue(s, bound), Next(scripts)).pending;
    OneDueFires(Undue(s, bound), Due(s, bound), max, scripts);
    RearmsAt(t);
    InsertPutsBehind(q, Entry(d, t.item));
  }

  lemma InsertPutsBehind(q: seq<Timer>, t: Timer)
    ensures PutsBehind(q, t, Insert(q, t))
  {
    var k := CountLte(q, t.score);
    assert InsertAt(q, k, t) == q[..k] + [t] + q[k..];
  }

  lemma OneDueFires(s: State, due: seq<Timer>, max: int, scripts: seq<Script>)
    requires |due| == 1
    ensures Fire(s, due, max, scripts).state.pending == Settle(ApplyAll(s, Next(scripts)), due[0]).pending
  {
    var s' := Settle(ApplyAll(s, Next(scripts)), due[0]);
    assert due[1..] == [] && Fire(s', [], Countdown(max), Later(scripts)).state == s';
  }

  // ---- Before the deadline -------------------------------------------------------------

  /** A call before the deadline leaves a timer alone that no callback clears. */
  lemma NotDueStays(s: State, bound: int, max: int, scripts: seq<Script>, t: Timer)
    requires WellFormed(s) && t in s.pending && bound < t.score
    requires AllSpare(scripts, t.item.id) && Retains(Execute(s, bound, max, scripts), t.item.id)
    ensures var o := Execute(s, bound, max, scripts);
            t in o.state.pending && Firings(o.fired, t.item.id) == 0
  {
    DueFires(s, bound, max, scripts, t);
    Conservation(s, bound, max, scripts, t);
    FireClearsNot(Undue(s, bound), Due(s, bound), max, scripts, t);
  }

  /** No call of the run reaches time `d`. */
  ghost predicate AllBefore(events: seq<Event>, d: int) {
    forall i :: 0 <= i < |events| && !events[i].Act? ==> events[i].bound < d
  }

  /** An undisturbed timer, one-shot or interval, is pending and has not fired as long as no
      call reaches its deadline. */
  lemma {:induction false} StaysUntilDue(s: State, events: seq<Event>, t: Timer)
    requires WellFormed(s) && t in s.pending
    requires Undisturbed(s, events, t.item) && AllBefore(events, t.score)
    ensures var r := RunEvents(s, events);
            WellFormed(r.state) && t in r.state.pending && Firings(r.fired, t.item.id) == 0
    decreases |events|
  {
    if events != [] {
      var e := events[0];
      EventKeeps(s, e);
      if e.Act? {
        ActionSpares(s, e.action, t);
      } else {
        NotDueStays(Entered(s, e), e.bound, e.max, e.scripts, t);
      }
      var first := RunEvent(s, e);
      StaysUntilDue(first.state, events[1..], t);
      FiringsConcat(first.fired, RunEvents(first.state, events[1..]).fired, t.item.id);
    }
  }

  /** It fires, for the first time and once, in the first call that reaches its deadline. */
  lemma FiresWhenDue(s: State, events: seq<Event>, call: Event, t: Timer)
    requires WellFormed(s) && t in s.pending
    requires Undisturbed(s, events, t.item) && AllBefore(events, t.score)
    requires !call.Act? && Retains(Called(RunEvents(s, events).state, call), t.item.id)
    ensures var r := RunEvents(s, events);
            var o := Called(r.state, call);
            && Firings(r.fired, t.item.id) == 0
            && (t in o.fired <==> call.bound >= t.score)
            && Firings(o.fired, t.item.id) == if call.bound >= t.score then 1 else 0
  {
    StaysUntilDue(s, events, t);
    DueFires(Entered(RunEvents(s, events).state, call), call.bound, call.max, call.scripts, t);
  }

  // ---- Gone for good ---------------------------------------------------------------------

  lemma DetachKeeps(s: State, bound: int)
    requires WellFormed(s)
    ensures WellFormedWith(Undue(s, bound), Due(s, bound))
  {
  }

  /** No timer of the list has that id. */
  ghost predicate Lacks(q: seq<Timer>, id: nat) {
    forall i :: 0 <= i < |q| ==> q[i].item.id != id
  }

  /** The id was handed out, and its timer is not pending any more. */
  ghost predicate Gone(s: State, id: nat) {
    id < s.nextId && Lacks(s.pending, id)
  }

  lemma ActionKeepsGone(s: State, a: Action, id: nat)
    requires Gone(s, id)
    ensures Gone(Apply(s, a), id)
  {
    match a {
      case RunAfter(ms, cb) => InsertLacks(s.pending, Entry(Add64(s.now, ms), Info(s.nextId, 0, cb)), id);
      case RunEvery(ms, cb) => InsertLacks(s.pending, Entry(Add64(s.now, ms), Info(s.nextId, ms, cb)), id);
      case Clear(_) =>
      case UpdateTime(_) =>
    }
  }

  lemma InsertLacks(q: seq<Timer>, t: Timer, id: nat)
    requires Lacks(q, id) && t.item.id != id
    ensures Lacks(Insert(q, t), id)
  {
  }

  lemma {:induction false} ScriptKeepsGone(s: State, script: Script, id: nat)
    requires Gone(s, id)
    ensures Gone(ApplyAll(s, script), id)
    decreases |script|
  {
    if script != [] {
      ActionKeepsGone(s, script[0], id);
      ScriptKeepsGone(Apply(s, script[0]), script[1..], id);
    }
  }

  lemma {:induction false} FireKeepsGone(s: State, due: seq<Timer>, max: int, scripts: seq<Script>, id: nat)
    requires Gone(s, id) && Lacks(due, id)
    ensures var o := Fire(s, due, max, scripts);
            Gone(o.state, id) && Firings(o.fired, id) == 0
    decreases |due|
  {
    if due != [] {
      var s1 := ApplyAll(s, Next(scripts));
      ScriptKeepsGone(s, Next(scripts), id);
      SettleKeepsGone(s1, due[0], id);
      assert Lacks(due[1..], id);
      if !Stops(max) {
        FireKeepsGone(Settle(s1, due[0]), due[1..], Countdown(max), Later(scripts), id);
      } else {
        assert [due[0]][1..] == [];
      }
    }
  }

  lemma EventKeepsGone(s: State, event: Event, id: nat)
    requires Gone(s, id)
    ensures Gone(RunEvent(s, event).state, id) && Firings(RunEvent(s, event).fired, id) == 0
  {
    if event.Act? {
      ActionKeepsGone(s, event.action, id);
    } else {
      var e := Entered(s, event);
      FireKeepsGone(Undue(e, event.bound), Due(e, event.bound), event.max, event.scripts, id);
    }
  }

  /** A timer that is not pending any more never fires again, whatever the run. */
  lemma {:induction false} GoneForGood(s: State, events: seq<Event>, id: nat)
    requires Gone(s, id)
    ensures Gone(RunEvents(s, events).state, id) && Firings(RunEvents(s, events).fired, id) == 0
    decreases |events|
  {
    if events != [] {
      var first := RunEvent(s, events[0]);
      EventKeepsGone(s, events[0], id);
      GoneForGood(first.state, events[1..], id);
      FiringsConcat(first.fired, RunEvents(first.state, events[1..]).fired, id);
    }
  }

  /** Clearing a timer makes it go. */
  lemma ClearRetires(s: State, id: nat)
    requires WellFormed(s) && IsPending(s, id)
    ensures Gone(Apply(s, Clear(id)), id)
  {
  }

  /** So does a call that fires a one-shot timer or abandons any. */
  lemma {:induction false} FireRetires(s: State, due: seq<Timer>, max: int, scripts: seq<Script>, t: Timer)
    requires WellFormedWith(s, due)
    requires var o := Fire(s, due, max, scripts);
             t in o.abandoned || (t in o.fired && t.item.ms == 0)
    ensures Gone(Fire(s, due, max, scripts).state, t.item.id)
    decreases |due|
  {
    var s1 := ApplyAll(s, Next(scripts));
    ApplyAllKeeps(s, Next(scripts), due);
    SettleKeeps(s1, due);
    var s2, rest := Settle(s1, due[0]), due[1..];
    if t == due[0] && t.item.ms == 0 {
      assert Gone(s2, t.item.id) && Lacks(rest, t.item.id);
      FireKeepsGone(s2, rest, Countdown(max), Later(scripts), t.item.id);
    } else if Stops(max) {
      WaitingIsGone(s2, rest, t);
    } else {
      FireRetires(s2, rest, Countdown(max), Later(scripts), t);
    }
  }

  /** The timers of the chain are not pending. */
  lemma WaitingIsGone(s: State, due: seq<Timer>, t: Timer)
    requires WellFormedWith(s, due) && t in due
    ensures Gone(s, t.item.id)
  {
    var i :| 0 <= i < |due| && due[i] == t;
    assert due[i].item.id < s.nextId;
  }

  lemma CallRetires(s: State, bound: int, max: int, scripts: seq<Script>, t: Timer)
    requires WellFormed(s)
    requires var o := Execute(s, bound, max, scripts);
             t in o.abandoned || (t in o.fired && t.item.ms == 0)
    ensures Gone(Execute(s, bound, max, scripts).state, t.item.id)
  {
    DetachKeeps(s, bound);
    FireRetires(Undue(s, bound), Due(s, bound), max, scripts, t);
  }

  lemma ActRetires(s: State, a: Action, t: Timer)
    requires WellFormed(s) && t in ActionLedger(s, a).cleared
    ensures Gone(Apply(s, a), t.item.id)
  {
    assert a == Clear(t.item.id);
    ClearRetires(s, t.item.id);
  }

  /** So does a clear in a callback, of a timer that is pending at that moment. */
  lemma {:induction false} ScriptClears(s: State, due: seq<Timer>, script: Script, x: Timer)
    requires WellFormedWith(s, due) && x in ScriptLedger(s, script).cleared
    ensures Gone(ApplyAll(s, script), x.item.id) && Lacks(due, x.item.id)
    decreases |script|
  {
    var s' := Apply(s, script[0]);
    ApplyKeeps(s, script[0], due);
    if x in ActionLedger(s, script[0]).cleared {
      ActRetires(s, script[0], x);
      ScriptKeepsGone(s', script[1..], x.item.id);
    } else {
      ScriptClears(s', due, script[1..], x);
    }
  }

  lemma {:induction false} FireClears(s: State, due: seq<Timer>, max: int, scripts: seq<Script>, x: Timer)
    requires WellFormedWith(s, due) && x in FireLedger(s, due, max, scripts).cleared
    ensures Gone(Fire(s, due, max, scripts).state, x.item.id)
    decreases |due|
  {
    var s1 := ApplyAll(s, Next(scripts));
    ApplyAllKeeps(s, Next(scripts), due);
    SettleKeeps(s1, due);
    var s2, rest := Settle(s1, due[0]), due[1..];
    if x in ScriptLedger(s, Next(scripts)).cleared {
      ScriptClears(s, due, Next(scripts), x);
      SettleKeepsGone(s1, due[0], x.item.id);
      FireKeepsGone(s2, rest, Countdown(max), Later(scripts), x.item.id);
    } else {
      FireClears(s2, rest, Countdown(max), Later(scripts), x);
    }
  }

  lemma SettleKeepsGone(s: State, u: Timer, id: nat)
    requires Gone(s, id) && u.item.id != id
    ensures Gone(Settle(s, u), id)
  {
    if u.item.ms > 0 {
      InsertLacks(s.pending, Rearm(u), id);
    }
  }

  /** Fired as a one-shot, abandoned, or cleared. */
  ghost predicate RetiredBy(s: State, event: Event, t: Timer) {
    || t in EventLedger(s, event).moves.cleared || t in EventLedger(s, event).abandoned
    || (t in RunEvent(s, event).fired && t.item.ms == 0)
  }

  lemma ClearInCallRetires(s: State, bound: int, max: int, scripts: seq<Script>, t: Timer)
    requires WellFormed(s) && t in ExecuteLedger(s, bound, max, scripts).cleared
    ensures Gone(Execute(s, bound, max, scripts).state, t.item.id)
  {
    DetachKeeps(s, bound);
    FireClears(Undue(s, bound), Due(s, bound), max, scripts, t);
  }

  lemma StepRetires(s: State, event: Event, t: Timer)
    requires WellFormed(s) && RetiredBy(s, event, t)
    ensures Gone(RunEvent(s, event).state, t.item.id)
  {
    if event.Act? {
      ActRetires(s, event.action, t);
    } else if t in EventLedger(s, event).moves.cleared {
      ClearInCallRetires(Entered(s, event), event.bound, event.max, event.scripts, t);
    } else {
      CallRetires(Entered(s, event), event.bound, event.max, event.scripts, t);
    }
  }

  /** A timer that one step of a run retires has no firing in the rest of the run. */
  lemma NeverAgain(s: State, event: Event, events: seq<Event>, t: Timer)
    requires WellFormed(s) && RetiredBy(s, event, t)
    ensures var r := RunEvents(RunEvent(s, event).state, events);
            Gone(r.state, t.item.id) && Firings(r.fired, t.item.id) == 0
  {
    StepRetires(s, event, t);
    GoneForGood(RunEvent(s, event).state, events, t.item.id);
  }

  /** A pending timer stays pending until it goes. */
  ghost predicate KeptOrGone(s: State, t: Timer) {
    t in s.pending || Gone(s, t.item.id)
  }

  lemma ActionKeepsOrGone(s: State, a: Action, t: Timer)
    requires WellFormed(s) && KeptOrGone(s, t)
    ensures KeptOrGone(Apply(s, a), t)
  {
    if Gone(s, t.item.id) {
      ActionKeepsGone(s, a, t.item.id);
    } else if a == Clear(t.item.id) {
      var i :| 0 <= i < |s.pending| && s.pending[i] == t;
      assert IsPending(s, t.item.id);
      ClearRetires(s, t.item.id);
    } else {
      ActionSpares(s, a, t);
    }
  }

  lemma {:induction false} ScriptKeepsOrGone(s: State, script: Script, t: Timer)
    requires WellFormed(s) && KeptOrGone(s, t)
    ensures KeptOrGone(ApplyAll(s, script), t)
    decreases |script|
  {
    if script != [] {
      ApplyKeeps(s, script[0], []);
      ActionKeepsOrGone(s, script[0], t);
      ScriptKeepsOrGone(Apply(s, script[0]), script[1..], t);
    }
  }

  lemma SettleKeepsOrGone(s: State, u: Timer, t: Timer)
    requires KeptOrGone(s, t) && u.item.id != t.item.id
    ensures KeptOrGone(Settle(s, u), t)
  {
    if u.item.ms > 0 {
      InsertAtMembers(s.pending, CountLte(s.pending, Rearm(u).score), Rearm(u));
    }
    if Gone(s, t.item.id) {
      SettleKeepsGone(s, u, t.item.id);
    }
  }

  lemma {:induction false} FireKeepsOrGone(s: State, due: seq<Timer>, max: int, scripts: seq<Script>, t: Timer)
    requires WellFormedWith(s, due) && KeptOrGone(s, t) && Lacks(due, t.item.id)
    ensures KeptOrGone(Fire(s, due, max, scripts).state, t)
    decreases |due|
  {
    if due != [] {
      var s1 := ApplyAll(s, Next(scripts));
      ApplyAllKeeps(s, Next(scripts), due);
      ScriptKeepsOrGone(s, Next(scripts), t);
      SettleKeeps(s1, due);
      SettleKeepsOrGone(s1, due[0], t);
      assert Lacks(due[1..], t.item.id);
      if !Stops(max) {
        FireKeepsOrGone(Settle(s1, due[0]), due[1..], Countdown(max), Later(scripts), t);
      }
    }
  }

  lemma {:induction false} LackedNeverFires(q: seq<Timer>, id: nat)
    requires Lacks(q, id)
    ensures Firings(q, id) == 0
  {
    if q != [] {
      LackedNeverFires(q[1..], id);
    }
  }

  /** What is not due stays in the list when the due timers are taken out. */
  lemma UndueHas(s: State, bound: int, t: Timer)
    requires WellFormed(s) && t in s.pending && bound < t.score
    ensures t in Undue(s, bound).pending && Lacks(Due(s, bound), t.item.id)
  {
    var i :| 0 <= i < |s.pending| && s.pending[i] == t;
    SortedSplit(s.pending, bound);
    assert s.pending[CountLte(s.pending, bound)..][i - CountLte(s.pending, bound)] == t;
  }

  /** Not due, a pending timer does not fire in the call. */
  lemma NotDueKeptOrGone(s: State, bound: int, max: int, scripts: seq<Script>, t: Timer)
    requires WellFormed(s) && t in s.pending && bound < t.score
    ensures var o := Execute(s, bound, max, scripts);
            KeptOrGone(o.state, t) && Firings(o.fired, t.item.id) == 0
  {
    var u, due := Undue(s, bound), Due(s, bound);
    UndueHas(s, bound, t);
    DetachKeeps(s, bound);
    FireKeepsOrGone(u, due, max, scripts, t);
    FireTakesPrefix(u, due, max, scripts);
    LackedNeverFires(due[..Quota(max, |due|)], t.item.id);
  }

  /** Due, a one-shot timer fires or is abandoned, and goes. */
  lemma DueGoes(s: State, bound: int, max: int, scripts: seq<Script>, t: Timer)
    requires WellFormed(s) && t in s.pending && t.score <= bound && t.item.ms == 0
    ensures var o := Execute(s, bound, max, scripts);
            Gone(o.state, t.item.id) && Firings(o.fired, t.item.id) <= 1
  {
    var o := Execute(s, bound, max, scripts);
    FiresDuePrefix(s, bound, max, scripts);
    FiringsDistinct(o.fired, t.item.id);
    if Retains(o, t.item.id) {
      DueFires(s, bound, max, scripts, t);
    } else {
      AbandonedOne(s, bound, max, scripts, t);
    }
    CallRetires(s, bound, max, scripts, t);
  }

  lemma SameId(q: seq<Timer>, a: Timer, b: Timer)
    requires DistinctIds(q) && a in q && b in q && a.item.id == b.item.id
    ensures a == b
  {
  }

  lemma AbandonedWasPending(s: State, bound: int, max: int, scripts: seq<Script>, x: Timer)
    requires x in Execute(s, bound, max, scripts).abandoned
    ensures x in s.pending
  {
    FireTakesPrefix(Undue(s, bound), Due(s, bound), max, scripts);
    assert x in Due(s, bound);
  }

  lemma AbandonedOne(s: State, bound: int, max: int, scripts: seq<Script>, t: Timer)
    requires WellFormed(s) && t in s.pending && !Retains(Execute(s, bound, max, scripts), t.item.id)
    ensures t in Execute(s, bound, max, scripts).abandoned
  {
    var lost := Execute(s, bound, max, scripts).abandoned;
    var j :| 0 <= j < |lost| && lost[j].item.id == t.item.id;
    AbandonedWasPending(s, bound, max, scripts, lost[j]);
    SameId(s.pending, lost[j], t);
  }

  /** A call either leaves a pending one-shot timer alone or makes it go. */
  lemma CallFiresOnce(s: State, bound: int, max: int, scripts: seq<Script>, t: Timer)
    requires WellFormed(s) && t in s.pending && t.item.ms == 0
    ensures var o := Execute(s, bound, max, scripts);
            || (t in o.state.pending && Firings(o.fired, t.item.id) == 0)
            || (Gone(o.state, t.item.id) && Firings(o.fired, t.item.id) <= 1)
  {
    if t.score <= bound {
      DueGoes(s, bound, max, scripts, t);
    } else {
      NotDueKeptOrGone(s, bound, max, scripts, t);
    }
  }

  lemma StepFiresOnce(s: State, event: Event, t: Timer)
    requires WellFormed(s) && t in s.pending && t.item.ms == 0
    ensures var r := RunEvent(s, event);
            || (t in r.state.pending && Firings(r.fired, t.item.id) == 0)
            || (Gone(r.state, t.item.id) && Firings(r.fired, t.item.id) <= 1)
  {
    if event.Act? {
      ActionKeepsOrGone(s, event.action, t);
    } else {
      CallFiresOnce(Entered(s, event), event.bound, event.max, event.scripts, t);
    }
  }

  /** Over any run a one-shot timer is still pending and has not fired, or it has fired at most
      once and is gone. */
  lemma {:induction false} OneShotFiresOnce(s: State, events: seq<Event>, t: Timer)
    requires WellFormed(s) && t in s.pending && t.item.ms == 0
    ensures var r := RunEvents(s, events);
            || (t in r.state.pending && Firings(r.fired, t.item.id) == 0)
            || (Gone(r.state, t.item.id) && Firings(r.fired, t.item.id) <= 1)
    decreases |events|
  {
    if events != [] {
      var first := RunEvent(s, events[0]);
      EventKeeps(s, events[0]);
      StepFiresOnce(s, events[0], t);
      FiringsConcat(first.fired, RunEvents(first.state, events[1..]).fired, t.item.id);
      if t in first.state.pending {
        OneShotFiresOnce(first.state, events[1..], t);
      } else {
        GoneForGood(first.state, events[1..], t.item.id);
      }
    }
  }

  // ---- Handles ------------------------------------------------------------------------------

  /** A timer that a call abandons may still be cleared, once; a cleared one may not. */
  lemma AbandonedMayBeCleared(s: State, bound: int, max: int, scripts: seq<Script>, t: Timer)
    requires WellFormed(s) && t in Execute(s, bound, max, scripts).abandoned
    ensures var s' := Execute(s, bound, max, scripts).state;
            Legal(s', [Clear(t.item.id)]) && !Legal(s', [Clear(t.item.id), Clear(t.item.id)])
  {
    var s' := Execute(s, bound, max, scripts).state;
    var a := Clear(t.item.id);
    FireLoses(Undue(s, bound), Due(s, bound), max, scripts, t);
    CallRetires(s, bound, max, scripts, t);
    assert [a][1..] == [] && [a, a][1..] == [a];
  }

  lemma {:induction false} FireLoses(s: State, due: seq<Timer>, max: int, scripts: seq<Script>, t: Timer)
    requires t in Fire(s, due, max, scripts).abandoned
    ensures t.item.id in Fire(s, due, max, scripts).state.lost
    decreases |due|
  {
    var s' := Settle(ApplyAll(s, Next(scripts)), due[0]);
    if Stops(max) {
      var i :| 0 <= i < |due| - 1 && due[1..][i] == t;
      assert Ids(due[1..])[i] == t.item.id;
    } else {
      FireLoses(s', due[1..], Countdown(max), Later(scripts), t);
    }
  }

  /** A pending timer may be cleared once. */
  lemma PendingMayBeCleared(s: State, id: nat)
    requires WellFormed(s) && IsPending(s, id) && id !in s.lost
    ensures Legal(s, [Clear(id)]) && !Legal(s, [Clear(id), Clear(id)])
  {
    var a := Clear(id);
    ClearRetires(s, id);
    assert [a][1..] == [] && [a, a][1..] == [a];
  }
}
