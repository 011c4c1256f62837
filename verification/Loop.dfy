/** ep_state_t: the event loop on the task queues, the timer and the select back end. */
module Loops {
  import opened LoopSpec
  import opened Options
  import opened RingLists
  import opened Selects
  import opened SelectSpec
  import opened Sequences
  import opened TaskQueues
  import opened Timers
  import Q = TaskSpec
  import T = TimerSpec
  import W = WaitSpec

  class EpState {
    const ps: SelectState
    const nexttick: TaskQueue
    const everytick: TaskQueue
    const timer: EpTimer

    /** The loop and all objects it is made of. */
    ghost var Repr: set<object>

    /** The objects that are not nodes belong to the loop. */
    ghost predicate Holds()
      reads this
    {
      && this in Repr && ps in Repr && ps.data in Repr && ps.ee in Repr && timer in Repr && timer.sl in Repr
      && nexttick in Repr && nexttick.list in Repr && everytick in Repr && everytick.list in Repr
    }

    /** Each part is valid, and the two queues share nothing. */
    ghost predicate Parts()
      reads this, ps, nexttick, nexttick.list, nexttick.nodes, everytick, everytick.list, everytick.nodes
      reads timer, timer.sl, timer.sl.nodes
    {
      && ps.Valid() && nexttick.Valid() && everytick.Valid() && timer.Valid()
      && nexttick != everytick && Apart(nexttick.list, nexttick.nodes, everytick.list, everytick.nodes)
    }

    ghost predicate Valid()
      reads this, Repr
    {
      && Holds()
      && (forall p :: 0 <= p < |nexttick.nodes| ==> nexttick.nodes[p] in Repr)
      && (forall p :: 0 <= p < |everytick.nodes| ==> everytick.nodes[p] in Repr)
      && (forall p :: 0 <= p < |timer.sl.nodes| ==> timer.sl.nodes[p] in Repr)
      && Parts()
    }

    ghost function View(): Loop
      requires Valid()
      reads this, Repr
    {
      Loop(nexttick.View(), everytick.View(), timer.View(), ps.View())
    }

    /** All objects are old ones or new. */
    twostate predicate Grown()
      reads this
    {
      forall o {:trigger o in Repr} :: o in Repr ==> o in old(Repr) || fresh(o)
    }

    /** The view, if the loop is valid. */
    ghost function Snapshot(): Option<Loop>
      reads this, Repr
    {
      if Valid() then Some(View()) else None
    }

    /** The nodes made meanwhile belong to the loop. */
    ghost method Adopt(s: Loop)
      requires Holds() && Parts() && s == Loop(nexttick.View(), everytick.View(), timer.View(), ps.View())
      modifies this`Repr
      ensures Snapshot() == Some(s)
      ensures forall o {:trigger o in Repr} :: o in Repr ==>
                o in old(Repr) || o in nexttick.nodes || o in everytick.nodes || o in timer.sl.nodes
    {
      Repr := Repr + (set o | o in nexttick.nodes) + (set o | o in everytick.nodes) + (set o | o in timer.sl.nodes);
    }

    lemma ViewWellFormed()
      requires Valid()
      ensures LoopSpec.WellFormed(View())
    {
      timer.ViewWellFormed();
    }

    /** ep_init */
    constructor (now: T.u64)
      ensures Valid() && fresh(Repr)
      ensures View() == Loop(Q.Queue([], 0), Q.Queue([], 0), T.State([], now, 0, {}), ps.View())
      ensures ps.View().want == Interest({}, {}, {}) && ps.View().ready == 0
    {
      var p, n, e, t;
      ghost var own;
      p, n, e, t, own := Pieces(now);
      ps, nexttick, everytick, timer := p, n, e, t;
      new;
      Repr := {this} + own;
      assert Parts();
    }

    static method Pieces(now: T.u64)
      returns (p: SelectState, n: TaskQueue, e: TaskQueue, t: EpTimer, ghost own: set<object>)
      ensures fresh(own) && p in own && p.data in own && p.ee in own && p.Valid()
      ensures n in own && n.list in own && n.Valid() && n.nodes == [] && n.View() == Q.Queue([], 0)
      ensures e in own && e.list in own && e.Valid() && e.nodes == [] && e.View() == Q.Queue([], 0)
      ensures n != e && n.list != e.list
      ensures t in own && t.sl in own && t.Valid() && t.View() == T.Fresh(now)
      ensures forall k :: 0 <= k < |t.sl.nodes| ==> t.sl.nodes[k] in own
      ensures p.View().want == Interest({}, {}, {}) && p.View().ready == 0
    {
      p := new SelectState();
      ghost var some := {p, p.data, p.ee};
      assert fresh(some);
      n, e, t, own := QueuesAndTimers(now);
      own := own + some;
    }

    static method QueuesAndTimers(now: T.u64)
      returns (n: TaskQueue, e: TaskQueue, t: EpTimer, ghost own: set<object>)
      ensures fresh(own) && n != e && n.list != e.list
      ensures n in own && n.list in own && n.Valid() && n.nodes == [] && n.View() == Q.Queue([], 0)
      ensures e in own && e.list in own && e.Valid() && e.nodes == [] && e.View() == Q.Queue([], 0)
      ensures t in own && t.sl in own && t.Valid() && t.View() == T.Fresh(now)
      ensures forall k :: 0 <= k < |t.sl.nodes| ==> t.sl.nodes[k] in own
    {
      ghost var some;
      n, e, own := Queues();
      t, some := Timers(now);
      own := own + some;
    }

    static method Queues() returns (n: TaskQueue, e: TaskQueue, ghost own: set<object>)
      ensures fresh(own) && n != e && n.list != e.list
      ensures n in own && n.list in own && n.Valid() && n.nodes == [] && n.View() == Q.Queue([], 0)
      ensures e in own && e.list in own && e.Valid() && e.nodes == [] && e.View() == Q.Queue([], 0)
    {
      n := new TaskQueue();
      e := new TaskQueue();
      own := {n, n.list, e, e.list};
    }

    static method Timers(now: T.u64) returns (t: EpTimer, ghost own: set<object>)
      ensures fresh(own) && t in own && t.sl in own && t.Valid() && t.View() == T.Fresh(now)
      ensures forall k :: 0 <= k < |t.sl.nodes| ==> t.sl.nodes[k] in own
    {
      t := new EpTimer(now);
      own := {t, t.sl};
      own := own + set o | o in t.sl.nodes;
    }

    /** Callbacks, or the program, edit the two queues, act on the timers, and register
        descriptors. */
    method EditNext(script: Q.Script, ghost s: Loop)
      requires Snapshot() == Some(s) && Q.Legal(s.next, script, None)
      modifies Repr
      ensures Snapshot() == Some(s.(next := Q.ApplyAll(s.next, script))) && Grown()
    {
      nexttick.Callback(script, None);
      Adopt(s.(next := Q.ApplyAll(s.next, script)));
    }

    method EditEvery(script: Q.Script, ghost s: Loop)
      requires Snapshot() == Some(s) && Q.Legal(s.every, script, None)
      modifies Repr
      ensures Snapshot() == Some(s.(every := Q.ApplyAll(s.every, script))) && Grown()
    {
      everytick.Callback(script, None);
      Adopt(s.(every := Q.ApplyAll(s.every, script)));
    }

    method Act(script: T.Script, ghost s: Loop)
      requires Snapshot() == Some(s) && T.Legal(s.timers, script)
      modifies Repr
      ensures Snapshot() == Some(s.(timers := T.ApplyAll(s.timers, script))) && Grown()
    {
      timer.Callback(script);
      Adopt(s.(timers := T.ApplyAll(s.timers, script)));
    }

    /** After `j` registrations: what is left leads to `end`. */
    ghost predicate Registering(p: Poll, rs: seq<Registration>, j: nat, end: Poll)
      requires j <= |rs|
    {
      RegisterAll(p, rs[j..]) == end
    }

    lemma OneRegistration(p: Poll, rs: seq<Registration>, j: nat, end: Poll)
      requires j < |rs| && Registering(p, rs, j, end)
      ensures Registering(Register(p, rs[j]), rs, j + 1, end)
    {
      assert rs[j..][0] == rs[j] && rs[j..][1..] == rs[j + 1..];
    }

    /** ep_add, ep_mod and ep_del */
    method RegisterDescriptors(rs: seq<Registration>, ghost s: Loop)
      requires Snapshot() == Some(s) && forall j :: 0 <= j < |rs| ==> LegalRegistration(rs[j])
      modifies ps, ps.data
      ensures Snapshot() == Some(s.(poll := RegisterAll(s.poll, rs))) && Repr == old(Repr)
    {
      ghost var p, end := s.poll, RegisterAll(s.poll, rs);
      for j := 0 to |rs|
        invariant ps.Valid() && ps.View() == p && Registering(p, rs, j, end)
      {
        OneRegistration(p, rs, j, end);
        var ret := ps.Do(rs[j]);
        p := Register(p, rs[j]);
      }
    }

    method DoTasks(e: Effects, ghost s: Loop)
      requires Snapshot() == Some(s) && LegalEffects(s, e)
      modifies Repr
      ensures Snapshot() == Some(s.(next := Q.ApplyAll(s.next, e.next), every := Q.ApplyAll(s.every, e.every)))
      ensures Grown()
    {
      EditNext(e.next, s);
      EditEvery(e.every, s.(next := Q.ApplyAll(s.next, e.next)));
    }

    method Do(e: Effects, ghost s: Loop)
      requires Snapshot() == Some(s) && LegalEffects(s, e)
      modifies Repr
      ensures Snapshot() == Some(LoopSpec.Do(s, e)) && Grown()
    {
      ghost var s1 := s.(next := Q.ApplyAll(s.next, e.next), every := Q.ApplyAll(s.every, e.every));
      DoTasks(e, s);
      Act(e.timers, s1);
      RegisterDescriptors(e.polls, s1.(timers := T.ApplyAll(s.timers, e.timers)));
    }

    /** ep_task_queue_run on the tasks of the next tick. */
    method RunNext(scripts: seq<Q.Script>, ghost s: Loop) returns (ticks: seq<Q.Task>)
      requires Snapshot() == Some(s) && Q.LegalPass(s.next, scripts)
      modifies Repr
      ensures Snapshot() == Some(s.(next := Q.RunPass(s.next, scripts).queue)) && Grown()
      ensures ticks == Q.RunPass(s.next, scripts).calls
    {
      ticks := nexttick.Run(scripts);
      Adopt(s.(next := Q.RunPass(s.next, scripts).queue));
    }

    /** ep_task_queue_run_keep on the tasks of every tick. */
    method RunEvery(scripts: seq<Q.Script>, ghost s: Loop) returns (walk: seq<Q.Task>)
      requires Snapshot() == Some(s) && Q.WellFormed(s.every) && Q.LegalWalk(s.every, 0, scripts)
      modifies Repr
      ensures Snapshot() == Some(s.(every := Q.Walk(s.every, 0, scripts).queue)) && Grown()
      ensures walk == Q.Walk(s.every, 0, scripts).calls
    {
      walk := everytick.RunKeep(scripts);
      Adopt(s.(every := Q.Walk(s.every, 0, scripts).queue));
    }

    /** ep_timer_execute_now with the limit of the loop. */
    method RunTimers(turn: Turn, ghost s: Loop) returns (fired: seq<T.Timer>)
      requires Snapshot() == Some(s)
      requires T.LegalExecute(s.timers.(now := turn.clock), turn.clock, LIMIT, turn.scripts)
      modifies Repr
      ensures Snapshot() == Some(s.(timers := Expire(s.timers, turn).state)) && Grown()
      ensures fired == Expire(s.timers, turn).fired
    {
      ghost var o := Expire(s.timers, turn);
      ghost var next, every, poll := nexttick.View(), everytick.View(), ps.View();
      fired := timer.ExecuteNow(turn.clock, LIMIT, turn.scripts);
      assert unchanged(nexttick) && nexttick.View() == next;
      assert unchanged(everytick) && everytick.View() == every;
      assert unchanged(ps, ps.data, ps.ee) && ps.View() == poll;
      Adopt(s.(timers := o.state));
    }

    /** ep__waittime */
    method WaitTime(later: T.u64, hint: W.i32) returns (waittime: W.i32)
      requires Valid()
      modifies timer`now
      ensures Valid() && View() == old(View()).(timers := old(View()).timers.(now := later))
      ensures T.WellFormed(View().timers) && waittime == W.WaitTime(View().timers, hint)
    {
      timer.UpdateTime(later);
      timer.ViewWellFormed();
      waittime := timer.NearestDiff();
      if waittime < 0 {
        waittime := hint;
      } else {
        waittime := if hint < 0 || waittime < hint then waittime else hint;
      }
    }

    /** The three phases in front of a wait, each with what its callbacks do elsewhere. */
    method NextPhase(turn: Turn, ghost s: Loop) returns (ticks: seq<Q.Task>)
      requires Snapshot() == Some(s) && LoopSpec.WellFormed(s) && LegalTicks(s, turn)
      modifies Repr
      ensures Snapshot() == Some(Ticked(s, turn)) && Grown()
      ensures ticks == Q.RunPass(s.next, turn.ticking).calls
    {
      ticks := RunNext(turn.ticking, s);
      Do(turn.ticked, s.(next := Q.RunPass(s.next, turn.ticking).queue));
    }

    method EveryPhase(turn: Turn, ghost s: Loop) returns (walk: seq<Q.Task>)
      requires Snapshot() == Some(s) && LoopSpec.WellFormed(s) && LegalWalk(s, turn)
      modifies Repr
      ensures Snapshot() == Some(Walked(s, turn)) && Grown()
      ensures walk == Walking(s, turn).calls
    {
      walk := RunEvery(turn.walking, s);
      Do(turn.walked, s.(every := Walking(s, turn).queue));
    }

    method TimerPhase(turn: Turn, ghost s: Loop) returns (fired: seq<T.Timer>)
      requires Snapshot() == Some(s) && LoopSpec.WellFormed(s) && LegalExpiry(s, turn)
      modifies Repr
      ensures Snapshot() == Some(Expired(s, turn)) && Grown()
      ensures fired == Expire(s.timers, turn).fired
    {
      fired := RunTimers(turn, s);
      Do(turn.fired, s.(timers := Expire(s.timers, turn).state));
    }

    method TaskPhases(turn: Turn, ghost s: Loop) returns (ticks: seq<Q.Task>, walk: seq<Q.Task>)
      requires Snapshot() == Some(s) && LoopSpec.WellFormed(s)
      requires LegalTicks(s, turn) && LegalWalk(Ticked(s, turn), turn)
      modifies Repr
      ensures Snapshot() == Some(Walked(Ticked(s, turn), turn)) && Grown()
      ensures ticks == Q.RunPass(s.next, turn.ticking).calls
      ensures walk == Walking(Ticked(s, turn), turn).calls
    {
      ticks := NextPhase(turn, s);
      walk := EveryPhase(turn, Ticked(s, turn));
    }

    /** The tick tasks and the timers, as ep_iterate and ep__for_each_start run them before
        they wait. */
    method RunTicks(turn: Turn, ghost s: Loop) returns (ticks: seq<Q.Task>, walk: seq<Q.Task>, fired: seq<T.Timer>)
      requires Snapshot() == Some(s) && LoopSpec.WellFormed(s) && LegalTurn(s, turn)
      modifies Repr
      ensures Snapshot() == Some(Expired(Walked(Ticked(s, turn), turn), turn)) && Grown()
      ensures ticks == Q.RunPass(s.next, turn.ticking).calls
      ensures walk == Walking(Ticked(s, turn), turn).calls
      ensures fired == Expire(Walked(Ticked(s, turn), turn).timers, turn).fired
    {
      ticks, walk := TaskPhases(turn, s);
      fired := TimerPhase(turn, Walked(Ticked(s, turn), turn));
    }

    /** ep_pollapi_wait */
    method PollFor(polled: Polled, ghost s: Loop) returns (ret: int)
      requires Snapshot() == Some(s) && Promised(polled)
      modifies ps, ps.ee
      ensures Snapshot() == Some(s.(poll := WaitFor(s.poll, polled))) && ret == polled.ret
    {
      ret := ps.Wait(polled);
    }

    /** The wait behind the ticks: as long as the nearest timer and the hint allow. */
    method WaitForEvents(hint: W.i32, turn: Turn, ghost s: Loop) returns (ret: int, timeout: W.i32)
      requires Snapshot() == Some(s) && T.WellFormed(s.timers) && Promised(turn.polled)
      modifies timer`now, ps, ps.ee
      ensures Snapshot() == Some(s.(timers := s.timers.(now := turn.later), poll := WaitFor(s.poll, turn.polled)))
      ensures Repr == old(Repr)
      ensures ret == turn.polled.ret && timeout == W.WaitTime(s.timers.(now := turn.later), hint)
    {
      timeout := WaitTime(turn.later, hint);
      ret := PollFor(turn.polled, s.(timers := s.timers.(now := turn.later)));
    }

    /** ep__for_each_start, and the same four calls in ep_iterate. */
    method TickAndWait(hint: W.i32, turn: Turn, ghost s: Loop) returns (ret: int, ghost wait: Wait)
      requires Snapshot() == Some(s) && LoopSpec.WellFormed(s) && LegalTurn(s, turn)
      modifies Repr
      ensures Snapshot() == Some(Polling(s, turn)) && Grown()
      ensures ret == turn.polled.ret && wait == WaitLog(s, hint, turn)
    {
      ghost var w := Expired(Walked(Ticked(s, turn), turn), turn);
      var ticks, walk, fired := RunTicks(turn, s);
      var timeout;
      ret, timeout := WaitForEvents(hint, turn, w);
      wait := LoopSpec.Wait(hint, ticks, walk, fired, w.timers.(now := turn.later), timeout, w.poll, turn.polled,
                            Batch(w.poll, turn.polled));
    }

    /** ep_pollapi_fetch */
    method Fetch(ghost s: Loop) returns (ret: int, event: Delivery)
      requires Snapshot() == Some(s)
      modifies ps`ready
      ensures Snapshot() == Some(s.(poll := FetchFrom(s.poll))) && Repr == old(Repr)
      ensures ret == |Buffer(s.poll)| && event == Last(Buffer(s.poll))
    {
      ret, event := ps.Fetch();
    }

    /** The part of ep_iterate behind a fetch that found nothing. */
    method WaitAndFetch(hint: W.i32, turn: Turn, ghost s: Loop)
      returns (ret: int, event: Delivery, ghost wait: Wait)
      requires Snapshot() == Some(s) && LoopSpec.WellFormed(s) && LegalTurn(s, turn)
      modifies Repr
      ensures Snapshot() == Some(Polling(s, turn).(poll := FetchFrom(Polling(s, turn).poll)))
      ensures Grown() && wait == WaitLog(s, hint, turn)
      ensures ret == turn.polled.ret && event == Last(Buffer(Polling(s, turn).poll))
    {
      event := Nothing;
      ret, wait := TickAndWait(hint, turn, s);
      if ret > 0 {
        var n;
        n, event := Fetch(Polling(s, turn));
      }
    }

    /** ep_iterate */
    method Iterate(hint: W.i32, turn: Turn, ghost s: Loop) returns (ret: int, event: Delivery, ghost log: Log)
      requires Snapshot() == Some(s) && LoopSpec.WellFormed(s) && LegalStep(s, Iteration(hint, turn))
      modifies Repr
      ensures Snapshot() == Some(LoopSpec.Iterate(s, hint, turn).state) && Grown()
      ensures [log] == LoopSpec.Iterate(s, hint, turn).log && ret == log.ret && event == log.event
    {
      ret, event := Fetch(s);
      if ret <= 0 {
        ghost var wait;
        ret, event, wait := WaitAndFetch(hint, turn, s);
        log := Waited(ret, event, wait);
      } else {
        log := Fetched(ret, event);
      }
    }

    /** The fetches of ep_for_each. */
    method Sweep(stop: nat, ghost s: Loop) returns (events: seq<Delivery>)
      requires Snapshot() == Some(s)
      modifies ps`ready
      ensures Snapshot() == Some(s.(poll := FetchTimes(s.poll, stop + 1))) && Repr == old(Repr)
      ensures events == Taken(Buffer(s.poll), stop + 1)
    {
      var rets;
      events, rets := ps.Sweep(stop);
    }

    method WaitAndSweep(hint: W.i32, turn: Turn, stop: nat, ghost s: Loop)
      returns (events: seq<Delivery>, ghost wait: Wait)
      requires Snapshot() == Some(s) && LoopSpec.WellFormed(s) && LegalTurn(s, turn)
      modifies Repr
      ensures Snapshot() == Some(Sweeping(s, turn, stop)) && Grown()
      ensures events == Taken(Buffer(Polling(s, turn).poll), stop + 1) && wait == WaitLog(s, hint, turn)
    {
      var ret;
      ret, wait := TickAndWait(hint, turn, s);
      events := Sweep(stop, Polling(s, turn));
    }

    /** ep_for_each with a body that breaks out of it in round `stop`, if there are so many,
        and does `body` over its rounds. Slots left over from before are lost. */
    method ForEach(hint: W.i32, turn: Turn, stop: nat, body: Effects, ghost s: Loop)
      returns (events: seq<Delivery>, ghost log: Log)
      requires Snapshot() == Some(s) && LoopSpec.WellFormed(s) && LegalStep(s, Each(hint, turn, stop, body))
      modifies Repr
      ensures Snapshot() == Some(LoopSpec.ForEach(s, hint, turn, stop, body).state) && Grown()
      ensures [log] == LoopSpec.ForEach(s, hint, turn, stop, body).log && events == log.events
    {
      ghost var end, wait := LoopSpec.ForEach(s, hint, turn, stop, body), WaitLog(s, hint, turn);
      log := Swept(Buffer(s.poll), Taken(Buffer(Polling(s, turn).poll), stop + 1), wait);
      assert end == Result(LoopSpec.Do(Sweeping(s, turn, stop), body), [log]);
      events, wait := WaitAndSweep(hint, turn, stop, s);
      Do(body, Sweeping(s, turn, stop));
    }

    /** One step of a run. */
    method Take(step: Step, ghost s: Loop) returns (ghost log: seq<Log>)
      requires Snapshot() == Some(s) && LoopSpec.WellFormed(s) && LegalStep(s, step)
      modifies Repr
      ensures Snapshot() == Some(RunStep(s, step).state) && log == RunStep(s, step).log
      ensures Grown()
    {
      match step {
        case Iteration(hint, turn) =>
          var ret, event, l := Iterate(hint, turn, s);
          log := [l];
        case Each(hint, turn, stop, body) =>
          var events, l := ForEach(hint, turn, stop, body, s);
          log := [l];
        case Outside(e) =>
          Do(e, s);
          log := [];
      }
    }

    /** After `j` steps of a run: what is left leads to `end`. */
    ghost predicate Driving(s: Loop, steps: seq<Step>, j: nat, log: seq<Log>, end: Result)
      requires j <= |steps|
    {
      && LoopSpec.WellFormed(s) && LegalRun(s, steps[j..])
      && end.state == Run(s, steps[j..]).state && end.log == log + Run(s, steps[j..]).log
    }

    lemma {:induction false} OneStep(s: Loop, steps: seq<Step>, j: nat, log: seq<Log>, end: Result)
      requires j < |steps| && Driving(s, steps, j, log, end)
      ensures LegalStep(s, steps[j])
      ensures var r := RunStep(s, steps[j]);
              Driving(r.state, steps, j + 1, log + r.log, end)
    {
      assert steps[j..][0] == steps[j] && steps[j..][1..] == steps[j + 1..];
      var r := RunStep(s, steps[j]);
      ConcatAssoc(log, r.log, Run(r.state, steps[j + 1..]).log);
    }

    method Advance(steps: seq<Step>, j: nat, ghost s: Loop, ghost log: seq<Log>, ghost end: Result)
      returns (ghost s': Loop, ghost log': seq<Log>)
      requires Snapshot() == Some(s) && j < |steps| && Driving(s, steps, j, log, end)
      modifies Repr
      ensures Snapshot() == Some(s') && Grown() && Driving(s', steps, j + 1, log', end)
    {
      OneStep(s, steps, j, log, end);
      ghost var more := Take(steps[j], s);
      s', log' := RunStep(s, steps[j]).state, log + more;
    }

    method DriveFrom(steps: seq<Step>, j: nat, ghost s: Loop, ghost log: seq<Log>, ghost end: Result)
      returns (ghost log': seq<Log>)
      requires Snapshot() == Some(s) && j <= |steps| && Driving(s, steps, j, log, end)
      modifies Repr
      ensures Snapshot() == Some(end.state) && log' == end.log
      decreases |steps| - j
    {
      log' := log;
      if j < |steps| {
        ghost var s', log'' := Advance(steps, j, s, log, end);
        log' := DriveFrom(steps, j + 1, s', log'', end);
      }
    }

    /** Whole runs: on any legal sequence of iterations and outside calls the objects do what
        the abstract loop does, so its theorems are theorems about them. */
    method Drive(steps: seq<Step>) returns (ghost log: seq<Log>)
      requires Valid() && LoopSpec.WellFormed(View()) && LegalRun(View(), steps)
      modifies Repr
      ensures Valid() && Result(View(), log) == Run(old(View()), steps)
    {
      assert steps[0..] == steps;
      log := DriveFrom(steps, 0, View(), [], Run(View(), steps));
    }

    /** ep_fini */
    method Fini()
      requires Valid()
      modifies Repr
      ensures Valid()
      ensures var was := old(View());
              View() == was.(next := was.next.(live := []), every := was.every.(live := []),
                             timers := was.timers.(pending := []))
    {
      FiniTimers();
      FiniNext();
      FiniEvery();
    }

    method FiniNext()
      requires Valid()
      modifies Repr
      ensures Valid() && Repr == old(Repr) && View() == old(View()).(next := old(View()).next.(live := []))
    {
      nexttick.Fini();
    }

    method FiniEvery()
      requires Valid()
      modifies Repr
      ensures Valid() && Repr == old(Repr) && View() == old(View()).(every := old(View()).every.(live := []))
    {
      everytick.Fini();
    }

    method FiniTimers()
      requires Valid()
      modifies Repr
      ensures Valid() && Repr == old(Repr) && View() == old(View()).(timers := old(View()).timers.(pending := []))
    {
      var destroyed := timer.Fini();
    }
  }
}
