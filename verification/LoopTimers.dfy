/** The timers inside of runs of the event loop. */
module LoopTimers {
  import opened LoopSpec
  import opened SelectSpec
  import opened Sequences
  import L = TimerLaws
  import SQ = StableQueue
  import T = TimerSpec
  import V = TimerLives
  import W = WaitSpec

  function Acts(script: T.Script): seq<T.Event> {
    seq(|script|, j requires 0 <= j < |script| => T.Act(script[j]))
  }

  /** What one iteration that waits does to the timers. */
  function TurnEvents(turn: Turn): seq<T.Event> {
    Acts(turn.ticked.timers) + Acts(turn.walked.timers) + [T.ExecuteNow(turn.clock, LIMIT, turn.scripts)]
    + Acts(turn.fired.timers) + [T.Act(T.UpdateTime(turn.later))]
  }

  function StepEvents(s: Loop, step: Step): seq<T.Event> {
    match step
    case Iteration(_, turn) => if s.poll.ready > 0 then [] else TurnEvents(turn)
    case Each(_, turn, _, body) => TurnEvents(turn) + Acts(body.timers)
    case Outside(e) => Acts(e.timers)
  }

  /** The run of the timers inside of a run of the loop. */
  ghost function TimerEvents(s: Loop, steps: seq<Step>): seq<T.Event>
    requires WellFormed(s)
    decreases |steps|
  {
    if steps == [] then [] else StepEvents(s, steps[0]) + TimerEvents(RunStep(s, steps[0]).state, steps[1..])
  }

  function FiredIn(log: seq<Log>): seq<T.Timer> {
    if log == [] then [] else FiredBy(log[0]) + FiredIn(log[1..])
  }

  function FiredBy(l: Log): seq<T.Timer> {
    if l.Fetched? then [] else l.wait.fired
  }

  lemma OneLog(l: Log)
    ensures FiredIn([l]) == FiredBy(l)
  {
    EmptyConcat(FiredBy(l));
  }

  /** From `s` the events lead to `s'` and fire `fired`. */
  predicate Leads(s: T.State, events: seq<T.Event>, s': T.State, fired: seq<T.Timer>) {
    T.RunEvents(s, events) == T.Calls(s', fired)
  }

  lemma {:induction false} LeadsFurther(s: T.State, a: seq<T.Event>, s': T.State, f: seq<T.Timer>,
                                   b: seq<T.Event>, s'': T.State, f': seq<T.Timer>)
    requires Leads(s, a, s', f) && Leads(s', b, s'', f')
    ensures Leads(s, a + b, s'', f + f')
    decreases |a|
  {
    if a == [] {
      EmptyConcat(b);
      EmptyConcat(f');
    } else {
      assert (a + b)[1..] == a[1..] + b;
      var one := T.RunEvent(s, a[0]);
      var more := T.RunEvents(one.state, a[1..]).fired;
      LeadsFurther(one.state, a[1..], s', more, b, s'', f');
      ConcatAssoc(one.fired, more, f');
    }
  }

  lemma OneEvent(s: T.State, e: T.Event)
    ensures Leads(s, [e], T.RunEvent(s, e).state, T.RunEvent(s, e).fired)
  {
    assert [e][1..] == [];
    EmptyConcat(T.RunEvent(s, e).fired);
  }

  lemma {:induction false} ActsRun(s: T.State, script: T.Script)
    ensures Leads(s, Acts(script), T.ApplyAll(s, script), [])
    decreases |script|
  {
    if script != [] {
      assert Acts(script)[1..] == Acts(script[1..]);
      ActsRun(T.Apply(s, script[0]), script[1..]);
    }
  }

  lemma TurnRun(s: Loop, turn: Turn)
    requires WellFormed(s)
    ensures Leads(s.timers, TurnEvents(turn), Waiting(s, turn).timers,
                  Expire(Walked(Ticked(s, turn), turn).timers, turn).fired)
  {
    var s1 := Ticked(s, turn).timers;
    var s2 := Walked(Ticked(s, turn), turn).timers;
    var o := Expire(s2, turn);
    ActsRun(s.timers, turn.ticked.timers);
    ActsRun(s1, turn.walked.timers);
    ActsRun(o.state, turn.fired.timers);
    TurnParts(s.timers, turn, s1, s2, o, T.ApplyAll(o.state, turn.fired.timers));
  }

  lemma TurnParts(s: T.State, turn: Turn, s1: T.State, s2: T.State, o: T.Outcome, s4: T.State)
    requires Leads(s, Acts(turn.ticked.timers), s1, [])
    requires Leads(s1, Acts(turn.walked.timers), s2, [])
    requires o == Expire(s2, turn)
    requires Leads(o.state, Acts(turn.fired.timers), s4, [])
    ensures Leads(s, TurnEvents(turn), s4.(now := turn.later), o.fired)
  {
    var a, b := Acts(turn.ticked.timers), Acts(turn.walked.timers);
    var c := T.ExecuteNow(turn.clock, LIMIT, turn.scripts);
    var d, e := Acts(turn.fired.timers), T.Act(T.UpdateTime(turn.later));
    LeadsFurther(s, a, s1, [], b, s2, []);
    OneEvent(s2, c);
    LeadsFurther(s, a + b, s2, [], [c], o.state, o.fired);
    LeadsFurther(s, a + b + [c], o.state, o.fired, d, s4, []);
    OneEvent(s4, e);
    LeadsFurther(s, a + b + [c] + d, s4, o.fired, [e], s4.(now := turn.later), []);
    EmptyConcat(o.fired);
  }

  lemma BodyLeads(s: Loop, step: Step)
    requires WellFormed(s) && step.Each?
    requires var w, fired := Waiting(s, step.turn).timers, WaitLog(s, step.hint, step.turn).fired;
             Leads(s.timers, TurnEvents(step.turn), w, fired)
    ensures var fired := WaitLog(s, step.hint, step.turn).fired;
            Leads(s.timers, StepEvents(s, step), RunStep(s, step).state.timers, fired)
  {
    var w, fired := Waiting(s, step.turn).timers, WaitLog(s, step.hint, step.turn).fired;
    ActsRun(w, step.body.timers);
    LeadsFurther(s.timers, TurnEvents(step.turn), w, fired, Acts(step.body.timers), T.ApplyAll(w, step.body.timers), []);
    EmptyConcat(fired);
  }

  lemma StepLeads(s: Loop, step: Step)
    requires WellFormed(s)
    ensures var r := RunStep(s, step);
            Leads(s.timers, StepEvents(s, step), r.state.timers, FiredIn(r.log))
  {
    if step.Outside? {
      ActsRun(s.timers, step.effects.timers);
    } else if Turns(s, step) {
      TurnRun(s, step.turn);
      OneLog(RunStep(s, step).log[0]);
      if step.Each? {
        BodyLeads(s, step);
      }
    }
  }

  lemma {:induction false} FiredConcat(a: seq<Log>, b: seq<Log>)
    ensures FiredIn(a + b) == FiredIn(a) + FiredIn(b)
  {
    if a == [] {
      EmptyConcat(b);
      EmptyConcat(FiredIn(b));
    } else {
      assert (a + b)[1..] == a[1..] + b;
      FiredConcat(a[1..], b);
      ConcatAssoc(FiredBy(a[0]), FiredIn(a[1..]), FiredIn(b));
    }
  }

  /** Seen from the timers a run of the loop is a run of the scheduler. */
  lemma {:induction false} LoopDrivesTimers(s: Loop, steps: seq<Step>)
    requires WellFormed(s)
    ensures Leads(s.timers, TimerEvents(s, steps), Run(s, steps).state.timers, FiredIn(Run(s, steps).log))
    decreases |steps|
  {
    if steps != [] {
      var first := RunStep(s, steps[0]);
      var rest := Run(first.state, steps[1..]);
      LoopDrivesTimers(first.state, steps[1..]);
      StepLeads(s, steps[0]);
      LeadsFurther(s.timers, StepEvents(s, steps[0]), first.state.timers, FiredIn(first.log),
              TimerEvents(first.state, steps[1..]), rest.state.timers, FiredIn(rest.log));
      FiredConcat(first.log, rest.log);
    }
  }

  lemma FiredInOrder(now: T.u64, events: seq<T.Event>, s: T.State, fired: seq<T.Timer>, x: T.Timer)
    requires L.TimelyRun(T.Fresh(now), events) && Leads(T.Fresh(now), events, s, fired)
    ensures var l := L.LedgerOf(T.Fresh(now), events);
            && L.InOrder(fired + s.pending)
            && multiset(fired)[x] + multiset(s.pending)[x] + l.moves.cleared[x] + l.abandoned[x] == l.moves.added[x]
  {
    L.OneShotTraceSorted(now, events, x);
  }

  /** Over the whole run of a loop without timers yet the one-shot timers that fire, wherever
      they were registered, and then those still pending are in order of deadline, ties in
      order of registration; and they are all that was registered and neither cleared nor
      abandoned. */
  lemma LoopFiresInOrder(s: Loop, now: T.u64, steps: seq<Step>, x: T.Timer)
    requires WellFormed(s) && s.timers == T.Fresh(now)
    requires L.TimelyRun(s.timers, TimerEvents(s, steps))
    ensures var r, l := Run(s, steps), L.LedgerOf(s.timers, TimerEvents(s, steps));
            && L.InOrder(FiredIn(r.log) + r.state.timers.pending)
            && multiset(FiredIn(r.log))[x] + multiset(r.state.timers.pending)[x] + l.moves.cleared[x] + l.abandoned[x]
               == l.moves.added[x]
  {
    var r := Run(s, steps);
    LoopDrivesTimers(s, steps);
    FiredInOrder(now, TimerEvents(s, steps), r.state.timers, FiredIn(r.log), x);
  }

  /** Intervals do not drift in a run of the loop either. */
  lemma LoopIsDriftFree(s: Loop, steps: seq<Step>, t: T.Timer)
    requires WellFormed(s) && t in s.timers.pending && t.item.ms > 0
    requires L.Undisturbed(s.timers, TimerEvents(s, steps), t.item)
    ensures L.Advanced(t, L.Firings(FiredIn(Run(s, steps).log), t.item.id)) in Run(s, steps).state.timers.pending
  {
    LoopDrivesTimers(s, steps);
    L.DriftFree(s.timers, TimerEvents(s, steps), t);
  }

  // ---- A timer and the turns of the loop -----------------------------------------------

  lemma {:induction false} UndisturbedParts(s: T.State, a: seq<T.Event>, b: seq<T.Event>, info: T.Info)
    requires L.Undisturbed(s, a + b, info)
    ensures L.Undisturbed(s, a, info) && L.Undisturbed(T.RunEvents(s, a).state, b, info)
    decreases |a|
  {
    if a == [] {
      EmptyConcat(b);
    } else {
      assert (a + b)[0] == a[0] && (a + b)[1..] == a[1..] + b;
      UndisturbedParts(T.RunEvent(s, a[0]).state, a[1..], b, info);
    }
  }

  lemma BeforeActs(events: seq<T.Event>, script: T.Script, d: int)
    requires V.AllBefore(events, d)
    ensures V.AllBefore(events + Acts(script), d)
  {
    var all := events + Acts(script);
    assert forall i :: 0 <= i < |events| ==> all[i] == events[i];
    assert forall i :: |events| <= i < |all| ==> all[i] == Acts(script)[i - |events|];
  }

  /** What happens to the timers up to the call of ep_timer_execute_now in a turn behind a
      run, and from that call on. */
  function Before(turn: Turn): seq<T.Event> {
    Acts(turn.ticked.timers) + Acts(turn.walked.timers)
  }

  function Call(turn: Turn): T.Event {
    T.ExecuteNow(turn.clock, LIMIT, turn.scripts)
  }

  function After(turn: Turn): seq<T.Event> {
    Acts(turn.fired.timers) + [T.Act(T.UpdateTime(turn.later))]
  }

  lemma TurnSplits(events: seq<T.Event>, turn: Turn)
    ensures events + TurnEvents(turn) == (events + Before(turn)) + ([Call(turn)] + After(turn))
  {
    var c, d, e := [Call(turn)], Acts(turn.fired.timers), [T.Act(T.UpdateTime(turn.later))];
    ConcatAssoc(Before(turn) + c, d, e);
    ConcatAssoc(Before(turn), c, d + e);
    ConcatAssoc(events, Before(turn), c + (d + e));
  }

  /** Up to the call in a turn behind a run. */
  lemma LeadsToCall(s: Loop, steps: seq<Step>, turn: Turn)
    requires WellFormed(s)
    ensures var e := Run(s, steps).state;
            Leads(s.timers, TimerEvents(s, steps) + Before(turn), Walked(Ticked(e, turn), turn).timers,
                  FiredIn(Run(s, steps).log))
  {
    var e, fired := Run(s, steps).state, FiredIn(Run(s, steps).log);
    var s1 := Ticked(e, turn).timers;
    var s2 := Walked(Ticked(e, turn), turn).timers;
    LoopDrivesTimers(s, steps);
    ActsRun(e.timers, turn.ticked.timers);
    ActsRun(s1, turn.walked.timers);
    LeadsFurther(e.timers, Acts(turn.ticked.timers), s1, [], Acts(turn.walked.timers), s2, []);
    EmptyConcat(fired);
    LeadsFurther(s.timers, TimerEvents(s, steps), e.timers, fired, Before(turn), s2, []);
  }

  /** In the first turn whose clock reaches its deadline an undisturbed timer fires, for the
      first time. */
  lemma {:induction false} LoopFiresWhenDue(s: Loop, steps: seq<Step>, hint: W.i32, turn: Turn, t: T.Timer)
    requires WellFormed(s) && t in s.timers.pending
    requires L.Undisturbed(s.timers, TimerEvents(s, steps) + TurnEvents(turn), t.item)
    requires V.AllBefore(TimerEvents(s, steps), t.score)
    ensures var r := Run(s, steps);
            && L.Firings(FiredIn(r.log), t.item.id) == 0
            && (t in WaitLog(r.state, hint, turn).fired <==> turn.clock >= t.score)
  {
    var events := TimerEvents(s, steps) + Before(turn);
    TurnSplits(TimerEvents(s, steps), turn);
    UndisturbedParts(s.timers, events, [Call(turn)] + After(turn), t.item);
    BeforeActs(TimerEvents(s, steps), turn.ticked.timers, t.score);
    BeforeActs(TimerEvents(s, steps) + Acts(turn.ticked.timers), turn.walked.timers, t.score);
    ConcatAssoc(TimerEvents(s, steps), Acts(turn.ticked.timers), Acts(turn.walked.timers));
    LeadsToCall(s, steps, turn);
    V.FiresWhenDue(s.timers, events, Call(turn), t);
  }

  /** In every turn whose clock does not reach it, it is among the timers that the wait looks
      at; so the wait ends before its deadline, unless the nearest deadline is too far ahead
      for an int and there is no hint. */
  lemma {:induction false} LoopWakesFor(s: Loop, steps: seq<Step>, hint: W.i32, turn: Turn, t: T.Timer)
    requires WellFormed(s) && t in s.timers.pending
    requires L.Undisturbed(s.timers, TimerEvents(s, steps) + TurnEvents(turn), t.item)
    requires V.AllBefore(TimerEvents(s, steps), t.score) && turn.clock < t.score
    ensures var w := WaitLog(Run(s, steps).state, hint, turn);
            && t in w.timers.pending
            && (hint >= 0 || W.Ahead(w.timers.pending[0], w.timers.now) % W.I32 < W.I31 ==>
                  0 <= w.timeout <= W.Ahead(t, w.timers.now))
  {
    var e, events := Run(s, steps).state, TimerEvents(s, steps);
    var w := Waiting(e, turn).timers;
    LoopDrivesTimers(s, steps);
    TurnRun(e, turn);
    LeadsFurther(s.timers, events, e.timers, FiredIn(Run(s, steps).log), TurnEvents(turn), w,
                 Expire(Walked(Ticked(e, turn), turn).timers, turn).fired);
    TurnBefore(events, turn, t.score);
    V.StaysUntilDue(s.timers, events + TurnEvents(turn), t);
    W.WakesInTimeIff(w, hint);
  }

  lemma TurnBefore(events: seq<T.Event>, turn: Turn, d: int)
    requires V.AllBefore(events, d) && turn.clock < d
    ensures V.AllBefore(events + TurnEvents(turn), d)
  {
    var a, b, c := Acts(turn.ticked.timers), Acts(turn.walked.timers), [Call(turn)];
    var e := [T.Act(T.UpdateTime(turn.later))];
    BeforeActs(events, turn.ticked.timers, d);
    BeforeActs(events + a, turn.walked.timers, d);
    BeforeOne(events + a + b, Call(turn), d);
    BeforeActs(events + a + b + c, turn.fired.timers, d);
    BeforeOne(events + a + b + c + Acts(turn.fired.timers), e[0], d);
    assert events + TurnEvents(turn) == events + a + b + c + Acts(turn.fired.timers) + e;
  }

  lemma BeforeOne(events: seq<T.Event>, e: T.Event, d: int)
    requires V.AllBefore(events, d) && (!e.Act? ==> e.bound < d)
    ensures V.AllBefore(events + [e], d)
  {
  }

  /** A timer that has gone never fires again in any run of the loop. */
  lemma LoopNeverAgain(s: Loop, steps: seq<Step>, id: nat)
    requires WellFormed(s) && V.Gone(s.timers, id)
    ensures L.Firings(FiredIn(Run(s, steps).log), id) == 0
  {
    LoopDrivesTimers(s, steps);
    V.GoneForGood(s.timers, TimerEvents(s, steps), id);
  }

  // ---- How many timers a turn fires --------------------------------------------------------

  /** The pending timers whose deadline a turn's clock has reached, by number. */
  ghost predicate DueCount(q: seq<T.Timer>, clock: int, due: nat) {
    due <= |q| && forall i :: 0 <= i < |q| ==> (q[i].score <= clock <==> i < due)
  }

  lemma ExpiryFires(s: T.State, turn: Turn, due: nat)
    requires T.WellFormed(s) && DueCount(s.pending, turn.clock, due)
    ensures var o := Expire(s, turn);
            && o.fired == s.pending[..if due <= 128 then due else 128]
            && (forall i :: 128 <= i < due ==> V.Gone(o.state, s.pending[i].item.id))
  {
    var s' := s.(now := turn.clock);
    var o := Expire(s, turn);
    T.FiresDuePrefix(s', turn.clock, LIMIT, turn.scripts);
    SQ.CountLteUnique(s.pending, turn.clock, due);
    forall i | 128 <= i < due
      ensures V.Gone(o.state, s.pending[i].item.id)
    {
      assert o.abandoned[i - 128] == s.pending[i];
      V.CallRetires(s', turn.clock, LIMIT, turn.scripts, s.pending[i]);
    }
  }

  /** In a turn behind any run, of the timers that are pending when it calls
      ep_timer_execute_now and are due, exactly the first 128 fire; all of them if and only if
      they are no more; the others are gone and never fire again. */
  lemma {:induction false} TurnFires(s: Loop, steps: seq<Step>, hint: W.i32, turn: Turn, due: nat)
    requires WellFormed(s)
    requires DueCount(Walked(Ticked(Run(s, steps).state, turn), turn).timers.pending, turn.clock, due)
    ensures var e := Run(s, steps).state;
            var q, fired := Walked(Ticked(e, turn), turn).timers.pending, WaitLog(e, hint, turn).fired;
            && fired == q[..if due <= 128 then due else 128]
            && ((forall i :: 0 <= i < due ==> q[i] in fired) <==> due <= 128)
            && (forall i :: 128 <= i < due ==> V.Gone(Waiting(e, turn).timers, q[i].item.id))
  {
    var e := Run(s, steps).state;
    var v := Walked(Ticked(e, turn), turn).timers;
    ExpiryFires(v, turn, due);
    if due > 128 {
      NotInFront(v.pending, 128);
    }
    forall i | 128 <= i < due
      ensures V.Gone(Waiting(e, turn).timers, v.pending[i].item.id)
    {
      V.ScriptKeepsGone(Expire(v, turn).state, turn.fired.timers, v.pending[i].item.id);
    }
  }

  lemma NotInFront(q: seq<T.Timer>, k: nat)
    requires T.DistinctIds(q) && k < |q|
    ensures q[k] !in q[..k]
  {
  }
}
