/** Theorems about the abstract scheduler: conservation, intervals, order. */
module TimerLaws {
  import opened Scripts
  import opened Sequences
  import opened StableQueue
  import opened TimerSpec

  // ---- Conservation ----------------------------------------------------------

  /** Every timer registered and every timer cleared, as it was at that moment. */
  datatype Ledger = Ledger(added: multiset<Timer>, cleared: multiset<Timer>)

  function Plus(a: Ledger, b: Ledger): Ledger {
    Ledger(a.added + b.added, a.cleared + b.cleared)
  }

  function ActionLedger(s: State, a: Action): Ledger {
    match a
    case RunAfter(ms, cb) => Ledger(multiset{Entry(Add64(s.now, ms), Info(s.nextId, 0, cb))}, multiset{})
    case RunEvery(ms, cb) => Ledger(multiset{Entry(Add64(s.now, ms), Info(s.nextId, ms, cb))}, multiset{})
    case Clear(id) =>
      var k := PlaceOfId(s.pending, id);
      Ledger(multiset{}, if k < |s.pending| then multiset{s.pending[k]} else multiset{})
    case UpdateTime(_) => Ledger(multiset{}, multiset{})
  }

  function ScriptLedger(s: State, script: Script): Ledger
    decreases |script|
  {
    if script == [] then Ledger(multiset{}, multiset{})
    else Plus(ActionLedger(s, script[0]), ScriptLedger(Apply(s, script[0]), script[1..]))
  }

  function FireLedger(s: State, due: seq<Timer>, max: int, scripts: seq<Script>): Ledger
    decreases |due|
  {
    if due == [] then Ledger(multiset{}, multiset{})
    else
      var first := ScriptLedger(s, Next(scripts));
      if Stops(max) then first
      else
        Plus(first, FireLedger(Settle(ApplyAll(s, Next(scripts)), due[0]), due[1..], Countdown(max), Later(scripts)))
  }

  /** The intervals among the fired timers, each with its next deadline. */
  function Rearmed(fired: seq<Timer>): multiset<Timer> {
    if fired == [] then multiset{}
    else (if fired[0].item.ms > 0 then multiset{Rearm(fired[0])} else multiset{}) + Rearmed(fired[1..])
  }

  lemma ActionBalance(s: State, a: Action)
    ensures var l := ActionLedger(s, a);
            multiset(s.pending) + l.added == multiset(Apply(s, a).pending) + l.cleared
  {
    match a {
      case RunAfter(ms, cb) =>
        var t := Entry(Add64(s.now, ms), Info(s.nextId, 0, cb));
        InsertAtMultiset(s.pending, CountLte(s.pending, t.score), t);
      case RunEvery(ms, cb) =>
        var t := Entry(Add64(s.now, ms), Info(s.nextId, ms, cb));
        InsertAtMultiset(s.pending, CountLte(s.pending, t.score), t);
      case Clear(id) =>
        if IsPending(s, id) {
          RemoveAtMultiset(s.pending, PlaceOfId(s.pending, id));
        }
      case UpdateTime(_) =>
    }
  }

  lemma {:induction false} ScriptBalance(s: State, script: Script, x: Timer)
    ensures var l := ScriptLedger(s, script);
            multiset(s.pending)[x] + l.added[x] == multiset(ApplyAll(s, script).pending)[x] + l.cleared[x]
    decreases |script|
  {
    if script != [] {
      var l, s' := ActionLedger(s, script[0]), Apply(s, script[0]);
      ActionBalance(s, script[0]);
      assert (multiset(s.pending) + l.added)[x] == (multiset(s'.pending) + l.cleared)[x];
      ScriptBalance(s', script[1..], x);
    }
  }

  lemma SettleBalance(s: State, t: Timer)
    ensures multiset(Settle(s, t).pending) == multiset(s.pending) + Rearmed([t])
  {
    if t.item.ms > 0 {
      InsertAtMultiset(s.pending, CountLte(s.pending, Rearm(t).score), Rearm(t));
    }
  }

  lemma {:induction false} FireBalance(s: State, due: seq<Timer>, max: int, scripts: seq<Script>, x: Timer)
    ensures var o := Fire(s, due, max, scripts);
            var l := FireLedger(s, due, max, scripts);
            multiset(s.pending)[x] + multiset(due)[x] + l.added[x] + Rearmed(o.fired)[x] ==
            multiset(o.state.pending)[x] + multiset(o.fired)[x] + l.cleared[x] + multiset(o.abandoned)[x]
    decreases |due|
  {
    if due != [] {
      var s1 := ApplyAll(s, Next(scripts));
      var s2 := Settle(s1, due[0]);
      ScriptBalance(s, Next(scripts), x);
      SettleBalance(s1, due[0]);
      assert multiset(s2.pending)[x] == multiset(s1.pending)[x] + Rearmed([due[0]])[x];
      assert due == [due[0]] + due[1..];
      if !Stops(max) {
        var rest := Fire(s2, due[1..], Countdown(max), Later(scripts)).fired;
        FireBalance(s2, due[1..], Countdown(max), Later(scripts), x);
        RearmedCons(due[0], rest);
      }
    }
  }

  lemma {:induction false} RearmedCons(t: Timer, rest: seq<Timer>)
    ensures Rearmed([t] + rest) == Rearmed([t]) + Rearmed(rest)
  {
    assert ([t] + rest)[0] == t && ([t] + rest)[1..] == rest;
  }

  function ExecuteLedger(s: State, now: int, max: int, scripts: seq<Script>): Ledger {
    FireLedger(Undue(s, now), Due(s, now), max, scripts)
  }

  /** Conservation over one call: of any timer `x`, as many are pending before, registered
      or re-armed by the call as are pending after, fired, cleared, or abandoned. */
  lemma Conservation(s: State, now: int, max: int, scripts: seq<Script>, x: Timer)
    ensures var o := Execute(s, now, max, scripts);
            var l := ExecuteLedger(s, now, max, scripts);
            multiset(s.pending)[x] + l.added[x] + Rearmed(o.fired)[x] ==
            multiset(o.state.pending)[x] + multiset(o.fired)[x] + l.cleared[x] + multiset(o.abandoned)[x]
  {
    var m := CountLte(s.pending, now);
    assert s.pending == s.pending[..m] + s.pending[m..];
    FireBalance(Undue(s, now), Due(s, now), max, scripts, x);
  }

  /** What a run registers, clears, and abandons. */
  datatype RunLedger = RunLedger(moves: Ledger, abandoned: multiset<Timer>)

  function EventLedger(s: State, event: Event): RunLedger {
    if event.Act? then RunLedger(ActionLedger(s, event.action), multiset{})
    else
      RunLedger(ExecuteLedger(Entered(s, event), event.bound, event.max, event.scripts),
                multiset(Called(s, event).abandoned))
  }

  function LedgerOf(s: State, events: seq<Event>): RunLedger
    decreases |events|
  {
    if events == [] then RunLedger(Ledger(multiset{}, multiset{}), multiset{})
    else
      var first := EventLedger(s, events[0]);
      var rest := LedgerOf(RunEvent(s, events[0]).state, events[1..]);
      RunLedger(Plus(first.moves, rest.moves), first.abandoned + rest.abandoned)
  }

  /** From `before` to `after` with the firings and the ledger between them no copy of `x`
      appears or disappears. */
  ghost predicate Balanced(before: State, fired: seq<Timer>, l: RunLedger, after: State, x: Timer) {
    multiset(before.pending)[x] + l.moves.added[x] + Rearmed(fired)[x] ==
    multiset(after.pending)[x] + multiset(fired)[x] + l.moves.cleared[x] + l.abandoned[x]
  }

  lemma EventBalance(s: State, event: Event, x: Timer)
    ensures Balanced(s, RunEvent(s, event).fired, EventLedger(s, event), RunEvent(s, event).state, x)
  {
    if event.Act? {
      var l := ActionLedger(s, event.action);
      ActionBalance(s, event.action);
      assert (multiset(s.pending) + l.added)[x] == (multiset(Apply(s, event.action).pending) + l.cleared)[x];
    } else {
      Conservation(Entered(s, event), event.bound, event.max, event.scripts, x);
    }
  }

  lemma {:induction false} RearmedConcat(a: seq<Timer>, b: seq<Timer>)
    ensures Rearmed(a + b) == Rearmed(a) + Rearmed(b)
  {
    if a == [] {
      assert a + b == b;
    } else {
      assert (a + b)[1..] == a[1..] + b;
      RearmedConcat(a[1..], b);
    }
  }

  lemma BalancedTwice(a: State, f: seq<Timer>, l: RunLedger, b: State, f': seq<Timer>, l': RunLedger, c: State, x: Timer)
    requires Balanced(a, f, l, b, x) && Balanced(b, f', l', c, x)
    ensures Balanced(a, f + f', RunLedger(Plus(l.moves, l'.moves), l.abandoned + l'.abandoned), c, x)
  {
    RearmedConcat(f, f');
  }

  /** Conservation over any run: of every timer `x`, as many were pending at the start,
      registered, or re-armed as are pending at the end, fired, were cleared, or abandoned. */
  lemma {:induction false} RunConservation(s: State, events: seq<Event>, x: Timer)
    ensures Balanced(s, RunEvents(s, events).fired, LedgerOf(s, events), RunEvents(s, events).state, x)
    decreases |events|
  {
    if events != [] {
      var first := RunEvent(s, events[0]);
      var rest := RunEvents(first.state, events[1..]);
      EventBalance(s, events[0], x);
      RunConservation(first.state, events[1..], x);
      BalancedTwice(s, first.fired, EventLedger(s, events[0]), first.state,
                    rest.fired, LedgerOf(first.state, events[1..]), rest.state, x);
    }
  }

  // ---- Intervals ---------------------------------------------------------------

  ghost predicate Spares(script: Script, id: nat) {
    forall j :: 0 <= j < |script| ==> script[j] != Clear(id)
  }

  ghost predicate AllSpare(scripts: seq<Script>, id: nat) {
    forall k :: 0 <= k < |scripts| ==> Spares(scripts[k], id)
  }

  lemma {:induction false} ScriptClearsNot(s: State, script: Script, x: Timer)
    requires Spares(script, x.item.id)
    ensures ScriptLedger(s, script).cleared[x] == 0
    decreases |script|
  {
    if script != [] {
      assert script[0] != Clear(x.item.id);
      assert Spares(script[1..], x.item.id);
      ScriptClearsNot(Apply(s, script[0]), script[1..], x);
    }
  }

  lemma {:induction false} FireClearsNot(s: State, due: seq<Timer>, max: int, scripts: seq<Script>, x: Timer)
    requires AllSpare(scripts, x.item.id)
    ensures FireLedger(s, due, max, scripts).cleared[x] == 0
    decreases |due|
  {
    if due != [] {
      assert Spares(Next(scripts), x.item.id);
      ScriptClearsNot(s, Next(scripts), x);
      if !Stops(max) {
        FireClearsNot(Settle(ApplyAll(s, Next(scripts)), due[0]), due[1..], Countdown(max), Later(scripts), x);
      }
    }
  }

  lemma {:induction false} RearmedHas(fired: seq<Timer>, t: Timer)
    requires t in fired && t.item.ms > 0
    ensures Rearmed(fired)[Rearm(t)] > 0
    decreases |fired|
  {
    if fired[0] != t {
      RearmedHas(fired[1..], t);
    }
  }

  lemma OnlyOneWithId(q: seq<Timer>, t: Timer, x: Timer)
    requires DistinctIds(q) && t in q && x.item.id == t.item.id && x != t
    ensures multiset(q)[x] == 0
  {
    assert x !in q;
  }

  lemma RearmMoves(t: Timer)
    requires 0 <= t.score < U64 && t.item.ms > 0
    ensures Rearm(t) != t
  {
  }

  /** A fired interval is pending again, its deadline moved on by exactly its period,
      unless a later callback of the same call cleared it. */
  lemma FiredIntervalIsPending(s: State, now: int, max: int, scripts: seq<Script>, t: Timer)
    requires WellFormed(s) && t.item.ms > 0
    requires t in Execute(s, now, max, scripts).fired
    ensures Rearm(t) in Execute(s, now, max, scripts).state.pending
            || Rearm(t) in ExecuteLedger(s, now, max, scripts).cleared
  {
    var o := Execute(s, now, max, scripts);
    FiresDuePrefix(s, now, max, scripts);
    RearmMoves(t);
    OnlyOneWithId(s.pending, t, Rearm(t));
    Conservation(s, now, max, scripts, Rearm(t));
    RearmedHas(o.fired, t);
    assert Rearm(t) !in o.fired && Rearm(t) !in o.abandoned;
  }

  function Firings(fired: seq<Timer>, id: nat): nat {
    if fired == [] then 0 else (if fired[0].item.id == id then 1 else 0) + Firings(fired[1..], id)
  }

  lemma {:induction false} FiringsConcat(a: seq<Timer>, b: seq<Timer>, id: nat)
    ensures Firings(a + b, id) == Firings(a, id) + Firings(b, id)
    decreases |a|
  {
    if a == [] {
      assert a + b == b;
    } else {
      assert (a + b)[0] == a[0] && (a + b)[1..] == a[1..] + b;
      FiringsConcat(a[1..], b, id);
    }
  }

  lemma {:induction false} FiringsDistinct(q: seq<Timer>, id: nat)
    requires DistinctIds(q)
    ensures Firings(q, id) == if exists i :: 0 <= i < |q| && q[i].item.id == id then 1 else 0
    decreases |q|
  {
    if q != [] {
      FiringsDistinct(q[1..], id);
      if q[0].item.id == id {
        assert Firings(q[1..], id) == 0;
      } else if exists i :: 0 <= i < |q| && q[i].item.id == id {
        var i :| 0 <= i < |q| && q[i].item.id == id;
        assert q[1..][i - 1].item.id == id;
      }
    }
  }

  /** The call does not abandon timer `id`. */
  ghost predicate Retains(o: Outcome, id: nat) {
    forall i :: 0 <= i < |o.abandoned| ==> o.abandoned[i].item.id != id
  }

  lemma NotAbandoned(s: State, now: int, max: int, scripts: seq<Script>, i: nat)
    requires WellFormed(s) && i < |s.pending| && s.pending[i].score <= now
    requires Retains(Execute(s, now, max, scripts), s.pending[i].item.id)
    ensures i < |Execute(s, now, max, scripts).fired|
  {
    var o := Execute(s, now, max, scripts);
    var n := |o.fired|;
    FiresDuePrefix(s, now, max, scripts);
    SortedSplit(s.pending, now);
    forall j | n <= j < CountLte(s.pending, now)
      ensures s.pending[j].item.id != s.pending[i].item.id
    {
      assert s.pending[j] == o.abandoned[j - n];
    }
  }

  lemma {:induction false} DueFires(s: State, now: int, max: int, scripts: seq<Script>, t: Timer)
    requires WellFormed(s) && t in s.pending && Retains(Execute(s, now, max, scripts), t.item.id)
    ensures t.score <= now <==> t in Execute(s, now, max, scripts).fired
    ensures Firings(Execute(s, now, max, scripts).fired, t.item.id) == if t.score <= now then 1 else 0
  {
    var o := Execute(s, now, max, scripts);
    var i :| 0 <= i < |s.pending| && s.pending[i] == t;
    FiresDuePrefix(s, now, max, scripts);
    FiringsDistinct(o.fired, t.item.id);
    if t.score <= now {
      NotAbandoned(s, now, max, scripts, i);
      assert o.fired[i] == t;
    } else {
      SortedSplit(s.pending, now);
      assert forall j :: 0 <= j < |o.fired| ==> o.fired[j] == s.pending[j] && j != i;
    }
  }

  /** One call on an interval that no callback clears and the limit does not abandon: due,
      it fires once and moves on by its period; not due, it stays as it is. */
  lemma IntervalCall(s: State, now: int, max: int, scripts: seq<Script>, t: Timer)
    requires WellFormed(s) && t in s.pending && t.item.ms > 0
    requires AllSpare(scripts, t.item.id) && Retains(Execute(s, now, max, scripts), t.item.id)
    ensures var o := Execute(s, now, max, scripts);
            && (if t.score <= now then Rearm(t) else t) in o.state.pending
            && Firings(o.fired, t.item.id) == if t.score <= now then 1 else 0
  {
    DueFires(s, now, max, scripts, t);
    if t.score <= now {
      FiredIntervalIsPending(s, now, max, scripts, t);
      FireClearsNot(Undue(s, now), Due(s, now), max, scripts, Rearm(t));
    } else {
      Conservation(s, now, max, scripts, t);
      FireClearsNot(Undue(s, now), Due(s, now), max, scripts, t);
    }
  }

  /** Nothing in the step clears the interval, abandons it, or lets its deadline wrap. */
  ghost predicate SparedBy(s: State, event: Event, info: Info) {
    if event.Act? then event.action != Clear(info.id)
    else
      && AllSpare(event.scripts, info.id) && Retains(Called(s, event), info.id)
      && event.bound + info.ms < U64
  }

  ghost predicate Undisturbed(s: State, events: seq<Event>, info: Info)
    decreases |events|
  {
    events != [] ==> SparedBy(s, events[0], info) && Undisturbed(RunEvent(s, events[0]).state, events[1..], info)
  }

  /** How often an interval with deadline `d` comes due up to `now`. */
  function Arrears(d: int, ms: int, now: int): nat
    requires ms > 0
  {
    if d > now then 0 else (now - d) / ms + 1
  }

  lemma MulMonotone(x: int, y: int, b: int)
    requires x <= y && b >= 0
    ensures x * b <= y * b
  {
  }

  lemma DivUnique(a: int, b: int, q: int, r: int)
    requires a == q * b + r && 0 <= r < b
    ensures a / b == q
  {
    var q', r' := a / b, a % b;
    assert a == q' * b + r' && (q' + 1) * b == q' * b + b && (q + 1) * b == q * b + b;
    if q > q' {
      MulMonotone(q' + 1, q, b);
    } else if q < q' {
      MulMonotone(q + 1, q', b);
    }
  }

  lemma ArrearsStep(d: int, ms: int, now: int)
    requires ms > 0 && d <= now
    ensures Arrears(d, ms, now) == 1 + Arrears(d + ms, ms, now)
  {
    var x := now - d - ms;
    if x >= 0 {
      assert (x / ms + 1) * ms == (x / ms) * ms + ms;
      DivUnique(now - d, ms, x / ms + 1, x % ms);
    } else {
      DivUnique(now - d, ms, 0, now - d);
    }
  }

  lemma ArrearsEnd(d: int, ms: int, now: int)
    requires ms > 0 && d <= now
    ensures now < d + Arrears(d, ms, now) * ms <= now + ms
  {
    var k := (now - d) / ms;
    assert now - d == k * ms + (now - d) % ms;
    assert (k + 1) * ms == k * ms + ms;
  }

  /** How often it fires over `calls` calls at time `now`: once a call until caught up. */
  function CatchUpFirings(d: int, ms: int, now: int, calls: nat): nat
    requires ms > 0
  {
    if calls < Arrears(d, ms, now) then calls else Arrears(d, ms, now)
  }

  lemma CountsAddUp(d: int, ms: int, now: int, calls: nat)
    requires ms > 0
    ensures CatchUpFirings(d, ms, now, calls + 1) ==
            if d <= now then 1 + CatchUpFirings(d + ms, ms, now, calls) else 0
  {
    if d <= now {
      ArrearsStep(d, ms, now);
    }
  }

  function Advanced(t: Timer, n: nat): Timer {
    t.(score := t.score + n * t.item.ms)
  }

  lemma AdvancedTwice(t: Timer, n: nat)
    ensures Advanced(Advanced(t, 1), n) == Advanced(t, n + 1)
    ensures Advanced(t, 0) == t
  {
    assert (n + 1) * t.item.ms == n * t.item.ms + t.item.ms;
  }

  lemma AdvancedMore(t: Timer, n: nat, k: nat)
    ensures Advanced(Advanced(t, n), k) == Advanced(t, n + k)
  {
    assert (n + k) * t.item.ms == n * t.item.ms + k * t.item.ms;
  }

  lemma AdvancedIn(t: Timer, n: nat, k: nat, m: nat, q: seq<Timer>)
    requires Advanced(Advanced(t, n), k) in q && m == n + k
    ensures Advanced(t, m) in q
  {
    AdvancedMore(t, n, k);
  }

  lemma AdvanceStep(t: Timer, now: int, calls: nat)
    requires t.item.ms > 0 && calls > 0
    ensures var t' := if t.score <= now then Advanced(t, 1) else t;
            var n' := CatchUpFirings(t'.score, t.item.ms, now, calls - 1);
            && CatchUpFirings(t.score, t.item.ms, now, calls) == (if t.score <= now then 1 else 0) + n'
            && Advanced(t', n') == Advanced(t, CatchUpFirings(t.score, t.item.ms, now, calls))
  {
    CountsAddUp(t.score, t.item.ms, now, calls - 1);
    AdvancedTwice(t, CatchUpFirings(t.score + t.item.ms, t.item.ms, now, calls - 1));
  }

  lemma ActionSpares(s: State, a: Action, t: Timer)
    requires WellFormed(s) && t in s.pending && a != Clear(t.item.id)
    ensures t in Apply(s, a).pending
  {
    match a {
      case RunAfter(ms, cb) =>
        var e := Entry(Add64(s.now, ms), Info(s.nextId, 0, cb));
        InsertAtMembers(s.pending, CountLte(s.pending, e.score), e);
      case RunEvery(ms, cb) =>
        var e := Entry(Add64(s.now, ms), Info(s.nextId, ms, cb));
        InsertAtMembers(s.pending, CountLte(s.pending, e.score), e);
      case Clear(id) =>
        if IsPending(s, id) {
          var k := PlaceOfId(s.pending, id);
          var i :| 0 <= i < |s.pending| && s.pending[i] == t;
          assert RemoveAt(s.pending, k)[if i < k then i else i - 1] == t;
        }
      case UpdateTime(_) =>
    }
  }

  lemma CallAdvances(s: State, bound: int, max: int, scripts: seq<Script>, t: Timer)
    requires WellFormed(s) && t in s.pending && t.item.ms > 0 && bound + t.item.ms < U64
    requires AllSpare(scripts, t.item.id) && Retains(Execute(s, bound, max, scripts), t.item.id)
    ensures var o := Execute(s, bound, max, scripts);
            var n := if t.score <= bound then 1 else 0;
            Advanced(t, n) in o.state.pending && Firings(o.fired, t.item.id) == n
  {
    IntervalCall(s, bound, max, scripts, t);
    AdvancedTwice(t, 0);
    var i :| 0 <= i < |s.pending| && s.pending[i] == t;
    if t.score <= bound {
      assert Rearm(t) == Advanced(t, 1);
    }
  }

  lemma EventKeeps(s: State, event: Event)
    requires WellFormed(s)
    ensures WellFormed(RunEvent(s, event).state)
  {
    if event.Act? {
      ApplyKeeps(s, event.action, []);
    } else {
      ExecuteKeeps(Entered(s, event), event.bound, event.max, event.scripts);
    }
  }

  /** One step of a run: an undisturbed interval fires once if it is due in a call, and its
      deadline has moved by as many periods as it fired. */
  lemma StepAdvances(s: State, event: Event, t: Timer)
    requires WellFormed(s) && t in s.pending && t.item.ms > 0 && SparedBy(s, event, t.item)
    ensures var r := RunEvent(s, event);
            var n := if event.Act? || t.score > event.bound then 0 else 1;
            && WellFormed(r.state) && Advanced(t, n) in r.state.pending && Firings(r.fired, t.item.id) == n
  {
    EventKeeps(s, event);
    if event.Act? {
      AdvancedTwice(t, 0);
      ActionSpares(s, event.action, t);
    } else {
      CallAdvances(Entered(s, event), event.bound, event.max, event.scripts, t);
    }
  }

  /** Drift-free: over any run, with any clock readings and anything else going on in
      between, the deadline of an undisturbed interval is its first deadline plus exactly
      its period for every time it has fired. */
  lemma {:induction false} DriftFree(s: State, events: seq<Event>, t: Timer)
    requires WellFormed(s) && t in s.pending && t.item.ms > 0 && Undisturbed(s, events, t.item)
    ensures Advanced(t, Firings(RunEvents(s, events).fired, t.item.id)) in RunEvents(s, events).state.pending
    decreases |events|
  {
    AdvancedTwice(t, 0);
    if events != [] {
      var first := RunEvent(s, events[0]);
      var rest := RunEvents(first.state, events[1..]);
      var n := Firings(first.fired, t.item.id);
      StepAdvances(s, events[0], t);
      DriftFree(first.state, events[1..], Advanced(t, n));
      FiringsConcat(first.fired, rest.fired, t.item.id);
      AdvancedIn(t, n, Firings(rest.fired, t.item.id), Firings(first.fired + rest.fired, t.item.id), rest.state.pending);
    }
  }

  function CallsIn(events: seq<Event>): nat {
    if events == [] then 0 else (if events[0].Act? then 0 else 1) + CallsIn(events[1..])
  }

  /** Every call of the run is made for time `now`. */
  ghost predicate AllAt(events: seq<Event>, now: int) {
    forall i :: 0 <= i < |events| && !events[i].Act? ==> events[i].bound == now
  }

  /** Catch-up: in a run whose calls are all made for one time an undisturbed interval fires
      once per call until it has caught up, and no more. */
  lemma {:induction false} CatchUp(s: State, now: int, events: seq<Event>, t: Timer)
    requires WellFormed(s) && t in s.pending && t.item.ms > 0
    requires Undisturbed(s, events, t.item) && AllAt(events, now)
    ensures Firings(RunEvents(s, events).fired, t.item.id)
            == CatchUpFirings(t.score, t.item.ms, now, CallsIn(events))
    decreases |events|
  {
    if events != [] {
      var first := RunEvent(s, events[0]);
      var rest := RunEvents(first.state, events[1..]);
      var t' := Advanced(t, Firings(first.fired, t.item.id));
      StepAdvances(s, events[0], t);
      AdvancedTwice(t, 0);
      CatchUp(first.state, now, events[1..], t');
      FiringsConcat(first.fired, rest.fired, t.item.id);
      if !events[0].Act? {
        AdvanceStep(t, now, CallsIn(events));
      }
    }
  }

  /** After floor((now - d) / ms) + 1 calls it has caught up: it has fired that often and its
      deadline lies within one period after `now`. */
  lemma {:induction false} CaughtUp(s: State, now: int, events: seq<Event>, t: Timer)
    requires WellFormed(s) && t in s.pending && t.item.ms > 0 && t.score <= now
    requires Undisturbed(s, events, t.item) && AllAt(events, now)
    requires CallsIn(events) >= (now - t.score) / t.item.ms + 1
    ensures exists t' :: t' in RunEvents(s, events).state.pending && t'.item == t.item
                         && now < t'.score <= now + t.item.ms
    ensures Firings(RunEvents(s, events).fired, t.item.id) == (now - t.score) / t.item.ms + 1
  {
    CatchUp(s, now, events, t);
    DriftFree(s, events, t);
    ArrearsEnd(t.score, t.item.ms, now);
    var k := Arrears(t.score, t.item.ms, now);
    assert Advanced(t, k) in RunEvents(s, events).state.pending;
  }

  // ---- Whole runs of one-shot timers ---------------------------------------------

  /** Earlier deadline first, ties in the order of registration. */
  predicate Precedes(a: Timer, b: Timer) {
    a.score < b.score || (a.score == b.score && a.item.id < b.item.id)
  }

  ghost predicate InOrder(q: seq<Timer>) {
    forall i, j :: 0 <= i < j < |q| ==> Precedes(q[i], q[j])
  }

  /** Only one-shot timers are registered, no deadline wraps, the clock never goes back. */
  predicate Timely(s: State, a: Action) {
    match a
    case RunAfter(ms, _) => s.now + ms < U64
    case RunEvery(ms, _) => ms == 0
    case Clear(_) => true
    case UpdateTime(t) => s.now <= t
  }

  predicate TimelyScript(s: State, script: Script)
    decreases |script|
  {
    script != [] ==> Timely(s, script[0]) && TimelyScript(Apply(s, script[0]), script[1..])
  }

  predicate TimelyFire(s: State, due: seq<Timer>, max: int, scripts: seq<Script>)
    decreases |due|
  {
    due != [] ==>
      && TimelyScript(s, Next(scripts))
      && (!Stops(max) ==>
            TimelyFire(Settle(ApplyAll(s, Next(scripts)), due[0]), due[1..], Countdown(max), Later(scripts)))
  }

  /** A call for a given time is not made for one that lies ahead of the clock. */
  predicate TimelyEvent(s: State, event: Event) {
    if event.Act? then Timely(s, event.action)
    else
      var s' := Entered(s, event);
      && s.now <= s'.now && event.bound <= s'.now
      && TimelyFire(Undue(s', event.bound), Due(s', event.bound), event.max, event.scripts)
  }

  predicate TimelyRun(s: State, events: seq<Event>)
    decreases |events|
  {
    events != [] ==> TimelyEvent(s, events[0]) && TimelyRun(RunEvent(s, events[0]).state, events[1..])
  }

  /** `done`, fired or detached for firing, then what is pending: one line in order. */
  ghost predicate OneLine(done: seq<Timer>, s: State) {
    && InOrder(done + s.pending)
    && (forall i :: 0 <= i < |done| ==> done[i].score <= s.now && done[i].item.id < s.nextId && done[i].item.ms == 0)
    && (forall i :: 0 <= i < |s.pending| ==> s.pending[i].item.id < s.nextId && s.pending[i].item.ms == 0)
  }

  lemma OneLineParts(done: seq<Timer>, q: seq<Timer>)
    ensures InOrder(done + q) <==>
            InOrder(done) && InOrder(q) && forall i, j :: 0 <= i < |done| && 0 <= j < |q| ==> Precedes(done[i], q[j])
  {
    var l := done + q;
    if InOrder(l) {
      assert forall i :: 0 <= i < |done| ==> done[i] == l[i];
      assert forall j :: 0 <= j < |q| ==> q[j] == l[|done| + j];
    }
  }

  lemma InsertInLine(done: seq<Timer>, s: State, t: Timer)
    requires OneLine(done, s) && t.score >= s.now && t.item.id == s.nextId && t.item.ms == 0
    ensures OneLine(done, s.(pending := Insert(s.pending, t), nextId := s.nextId + 1))
  {
    OneLineParts(done, s.pending);
    OneLineParts(done, Insert(s.pending, t));
  }

  lemma ApplyInLine(done: seq<Timer>, s: State, a: Action)
    requires OneLine(done, s) && Timely(s, a)
    ensures OneLine(done, Apply(s, a)) && Apply(s, a).now >= s.now
  {
    match a {
      case RunAfter(ms, cb) =>
        InsertInLine(done, s, Entry(Add64(s.now, ms), Info(s.nextId, 0, cb)));
      case RunEvery(ms, cb) =>
        InsertInLine(done, s, Entry(Add64(s.now, ms), Info(s.nextId, ms, cb)));
      case Clear(id) =>
        OneLineParts(done, s.pending);
        if IsPending(s, id) {
          OneLineParts(done, RemoveAt(s.pending, PlaceOfId(s.pending, id)));
        }
      case UpdateTime(_) =>
    }
  }

  lemma {:induction false} ScriptInLine(done: seq<Timer>, s: State, script: Script)
    requires OneLine(done, s) && TimelyScript(s, script)
    ensures OneLine(done, ApplyAll(s, script))
    decreases |script|
  {
    if script != [] {
      ApplyInLine(done, s, script[0]);
      ScriptInLine(done, Apply(s, script[0]), script[1..]);
    }
  }

  lemma {:induction false} FireInLine(done: seq<Timer>, s: State, due: seq<Timer>, max: int, scripts: seq<Script>)
    requires OneLine(done, s) && TimelyFire(s, due, max, scripts)
    requires forall i :: 0 <= i < |due| ==> due[i].item.ms == 0
    ensures OneLine(done, Fire(s, due, max, scripts).state)
    decreases |due|
  {
    if due != [] {
      ScriptInLine(done, s, Next(scripts));
      if !Stops(max) {
        FireInLine(done, Settle(ApplyAll(s, Next(scripts)), due[0]), due[1..], Countdown(max), Later(scripts));
      }
    }
  }

  lemma DetachInLine(done: seq<Timer>, s: State, bound: int)
    requires OneLine(done, s) && bound <= s.now
    ensures OneLine(done + Due(s, bound), Undue(s, bound))
    ensures forall i :: 0 <= i < |Due(s, bound)| ==> Due(s, bound)[i].item.ms == 0
  {
    var k := CountLte(s.pending, bound);
    SplitJoin(s.pending, k);
    ConcatAssoc(done, s.pending[..k], s.pending[k..]);
  }

  lemma DropAbandoned(done: seq<Timer>, fired: seq<Timer>, abandoned: seq<Timer>, s: State)
    requires OneLine(done + (fired + abandoned), s)
    ensures OneLine(done + fired, s)
  {
    OneLineParts(done + (fired + abandoned), s.pending);
    OneLineParts(done + fired, s.pending);
    var all, kept := done + (fired + abandoned), done + fired;
    assert forall i :: 0 <= i < |kept| ==> kept[i] == all[i];
  }

  lemma {:induction false} ExecuteInLine(done: seq<Timer>, s: State, bound: int, max: int, scripts: seq<Script>)
    requires OneLine(done, s) && bound <= s.now && TimelyFire(Undue(s, bound), Due(s, bound), max, scripts)
    ensures var o := Execute(s, bound, max, scripts);
            OneLine(done + o.fired, o.state)
  {
    var due := Due(s, bound);
    var o := Execute(s, bound, max, scripts);
    DetachInLine(done, s, bound);
    FireInLine(done + due, Undue(s, bound), due, max, scripts);
    FireTakesPrefix(Undue(s, bound), due, max, scripts);
    SplitJoin(due, Quota(max, |due|));
    DropAbandoned(done, o.fired, o.abandoned, o.state);
  }

  lemma {:induction false} EventInLine(done: seq<Timer>, s: State, event: Event)
    requires OneLine(done, s) && TimelyEvent(s, event)
    ensures OneLine(done + RunEvent(s, event).fired, RunEvent(s, event).state)
  {
    if event.Act? {
      ApplyInLine(done, s, event.action);
      assert done + [] == done;
    } else {
      ExecuteInLine(done, Entered(s, event), event.bound, event.max, event.scripts);
    }
  }

  lemma {:induction false} RunInLine(done: seq<Timer>, s: State, events: seq<Event>)
    requires OneLine(done, s) && TimelyRun(s, events)
    ensures OneLine(done + RunEvents(s, events).fired, RunEvents(s, events).state)
    decreases |events|
  {
    if events == [] {
      assert done + [] == done;
    } else {
      var first := RunEvent(s, events[0]);
      var rest := RunEvents(first.state, events[1..]);
      EventInLine(done, s, events[0]);
      RunInLine(done + first.fired, first.state, events[1..]);
      ConcatAssoc(done, first.fired, rest.fired);
    }
  }

  /** Over any run with a clock that never goes back, the firings of all calls together and
      then what is still pending are in order of deadline, ties in order of registration. */
  lemma {:induction false} OneShotRunInOrder(done: seq<Timer>, s: State, events: seq<Event>)
    requires OneLine(done, s) && TimelyRun(s, events)
    ensures InOrder(done + RunEvents(s, events).fired + RunEvents(s, events).state.pending)
  {
    RunInLine(done, s, events);
  }

  lemma {:induction false} NoneRearmed(fired: seq<Timer>)
    requires forall i :: 0 <= i < |fired| ==> fired[i].item.ms == 0
    ensures Rearmed(fired) == multiset{}
  {
    if fired != [] {
      NoneRearmed(fired[1..]);
    }
  }

  lemma OneShotsFire(s: State, events: seq<Event>)
    requires OneLine([], s) && TimelyRun(s, events)
    ensures forall i {:trigger RunEvents(s, events).fired[i]} :: 0 <= i < |RunEvents(s, events).fired| ==>
              RunEvents(s, events).fired[i].item.ms == 0
  {
    RunInLine([], s, events);
    EmptyConcat(RunEvents(s, events).fired);
  }

  lemma OneShotCounts(s: State, events: seq<Event>, x: Timer)
    requires s.pending == [] && OneLine([], s) && TimelyRun(s, events)
    ensures var r, l := RunEvents(s, events), LedgerOf(s, events);
            multiset(r.fired)[x] + multiset(r.state.pending)[x] + l.moves.cleared[x] + l.abandoned[x] == l.moves.added[x]
  {
    var r := RunEvents(s, events);
    OneShotsFire(s, events);
    NoneRearmed(r.fired);
    RunConservation(s, events, x);
  }

  /** From a new timer: the trace and what is pending are in order, and they are together
      exactly the timers that were registered and neither cleared nor abandoned. */
  lemma {:induction false} OneShotTraceSorted(now: u64, events: seq<Event>, x: Timer)
    requires TimelyRun(Fresh(now), events)
    ensures var r, l := RunEvents(Fresh(now), events), LedgerOf(Fresh(now), events);
            && InOrder(r.fired + r.state.pending)
            && multiset(r.fired)[x] + multiset(r.state.pending)[x] + l.moves.cleared[x] + l.abandoned[x]
               == l.moves.added[x]
  {
    var r := RunEvents(Fresh(now), events);
    OneShotRunInOrder([], Fresh(now), events);
    assert [] + r.fired == r.fired;
    OneShotCounts(Fresh(now), events, x);
  }
}
