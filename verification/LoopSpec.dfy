/** The event loop on abstract states: the two queues, the timers as the abstract scheduler,
    and the poll back end with its buffer. */
module LoopSpec {
  import opened Options
  import opened SelectSpec
  import Q = TaskSpec
  import T = TimerSpec
  import W = WaitSpec

  const LIMIT: nat := 128

  datatype Loop = Loop(next: Q.Queue, every: Q.Queue, timers: T.State, poll: Poll)

  ghost predicate WellFormed(s: Loop) {
    Q.WellFormed(s.next) && Q.WellFormed(s.every) && T.WellFormed(s.timers)
  }

  /** What code outside of a structure does to it. Callbacks of one phase of the loop touch
      the structures of the other phases in this way; no phase reads those, so it is all
      the same to apply it when the phase is over. */
  datatype Effects = Effects(next: Q.Script, every: Q.Script, timers: T.Script, polls: seq<Registration>)

  /** The surroundings of one wait: what the tick callbacks do to their own queues, call by
      call; the effects of the callbacks of each phase on the other structures; the two
      readings of the clock; and what select reports. */
  datatype Turn = Turn(ticking: seq<Q.Script>, ticked: Effects, walking: seq<Q.Script>, walked: Effects,
                       clock: T.u64, scripts: seq<T.Script>, fired: Effects, later: T.u64, polled: Polled)

  /** What the loop ran in front of a wait, and what it waited for. */
  datatype Wait = Wait(hint: W.i32, ticks: seq<Q.Task>, walk: seq<Q.Task>, fired: seq<T.Timer>, timers: T.State,
                       timeout: W.i32, poll: Poll, polled: Polled, batch: seq<Delivery>)

  /** What an ep_iterate returns, having fetched only or having waited; and what an
      ep_for_each gave to its body, and the slots that its wait overwrote. */
  datatype Log =
    | Fetched(ret: int, event: Delivery)
    | Waited(ret: int, event: Delivery, wait: Wait)
    | Swept(lost: seq<Delivery>, events: seq<Delivery>, wait: Wait)

  function Do(s: Loop, e: Effects): Loop {
    Loop(Q.ApplyAll(s.next, e.next), Q.ApplyAll(s.every, e.every), T.ApplyAll(s.timers, e.timers),
         RegisterAll(s.poll, e.polls))
  }

  predicate LegalEffects(s: Loop, e: Effects) {
    && Q.Legal(s.next, e.next, None) && Q.Legal(s.every, e.every, None) && T.Legal(s.timers, e.timers)
    && forall j :: 0 <= j < |e.polls| ==> LegalRegistration(e.polls[j])
  }

  lemma DoKeeps(s: Loop, e: Effects)
    requires WellFormed(s)
    ensures WellFormed(Do(s, e))
  {
    Q.ScriptKeeps(s.next, e.next);
    Q.ScriptKeeps(s.every, e.every);
    T.ApplyAllKeeps(s.timers, e.timers, []);
  }

  // ---- One turn: the phases in front of a wait -----------------------------------------

  ghost function Ticked(s: Loop, turn: Turn): (r: Loop)
    requires WellFormed(s)
    ensures WellFormed(r)
  {
    Q.PassKeeps(s.next, turn.ticking);
    var s' := s.(next := Q.RunPass(s.next, turn.ticking).queue);
    DoKeeps(s', turn.ticked);
    Do(s', turn.ticked)
  }

  /** The walk over the tasks of every tick, and the loop after it. */
  ghost function Walking(s: Loop, turn: Turn): Q.Pass
    requires WellFormed(s)
  {
    Q.Walk(s.every, 0, turn.walking)
  }

  ghost function Walked(s: Loop, turn: Turn): (r: Loop)
    requires WellFormed(s)
    ensures WellFormed(r)
  {
    Q.WalkKeeps(s.every, 0, turn.walking);
    var s' := s.(every := Walking(s, turn).queue);
    DoKeeps(s', turn.walked);
    Do(s', turn.walked)
  }

  function Expire(timers: T.State, turn: Turn): T.Outcome {
    T.Execute(timers.(now := turn.clock), turn.clock, LIMIT, turn.scripts)
  }

  ghost function Expired(s: Loop, turn: Turn): (r: Loop)
    requires WellFormed(s)
    ensures WellFormed(r)
  {
    T.ExecuteKeeps(s.timers.(now := turn.clock), turn.clock, LIMIT, turn.scripts);
    var s' := s.(timers := Expire(s.timers, turn).state);
    DoKeeps(s', turn.fired);
    Do(s', turn.fired)
  }

  /** The loop when it asks how long to wait. */
  ghost function Waiting(s: Loop, turn: Turn): (r: Loop)
    requires WellFormed(s)
    ensures WellFormed(r)
  {
    var s' := Expired(Walked(Ticked(s, turn), turn), turn);
    s'.(timers := s'.timers.(now := turn.later))
  }

  /** The loop after the wait. */
  ghost function Polling(s: Loop, turn: Turn): (r: Loop)
    requires WellFormed(s)
    ensures WellFormed(r)
  {
    var w := Waiting(s, turn);
    w.(poll := WaitFor(w.poll, turn.polled))
  }

  ghost predicate LegalTicks(s: Loop, turn: Turn) {
    && Q.LegalPass(s.next, turn.ticking)
    && LegalEffects(s.(next := Q.RunPass(s.next, turn.ticking).queue), turn.ticked)
  }

  ghost predicate LegalWalk(s: Loop, turn: Turn)
    requires WellFormed(s)
  {
    && Q.LegalWalk(s.every, 0, turn.walking)
    && LegalEffects(s.(every := Walking(s, turn).queue), turn.walked)
  }

  predicate LegalExpiry(s: Loop, turn: Turn) {
    && T.LegalExecute(s.timers.(now := turn.clock), turn.clock, LIMIT, turn.scripts)
    && LegalEffects(s.(timers := Expire(s.timers, turn).state), turn.fired)
  }

  /** select keeps its promise and reports on nothing it was not asked about. */
  predicate LegalReport(poll: Poll, polled: Polled) {
    Promised(polled) && Reports(Watched(poll), polled)
  }

  ghost predicate LegalTurn(s: Loop, turn: Turn)
    requires WellFormed(s)
  {
    && LegalTicks(s, turn) && LegalWalk(Ticked(s, turn), turn)
    && LegalExpiry(Walked(Ticked(s, turn), turn), turn) && LegalReport(Waiting(s, turn).poll, turn.polled)
  }

  // ---- Runs ------------------------------------------------------------------------------

  datatype Result = Result(state: Loop, log: seq<Log>)

  /** What a wait records. */
  ghost function WaitLog(s: Loop, hint: W.i32, turn: Turn): Wait
    requires WellFormed(s)
  {
    var s1 := Ticked(s, turn);
    var w := Waiting(s, turn);
    Wait(hint, Q.RunPass(s.next, turn.ticking).calls, Walking(s1, turn).calls,
         Expire(Walked(s1, turn).timers, turn).fired, w.timers, W.WaitTime(w.timers, hint),
         w.poll, turn.polled, Batch(w.poll, turn.polled))
  }

  /** ep_iterate */
  ghost function Iterate(s: Loop, hint: W.i32, turn: Turn): (r: Result)
    requires WellFormed(s)
    ensures WellFormed(r.state)
  {
    if s.poll.ready > 0 then
      Result(s.(poll := FetchFrom(s.poll)), [Fetched(|Buffer(s.poll)|, Last(Buffer(s.poll)))])
    else
      var w := Polling(s, turn);
      Result(w.(poll := FetchFrom(w.poll)), [Waited(turn.polled.ret, Last(Buffer(w.poll)), WaitLog(s, hint, turn))])
  }

  /** The loop when an ep_for_each is left whose body breaks out of it in round `stop`, if it
      comes to that, the first being round 0. */
  ghost function Sweeping(s: Loop, turn: Turn, stop: nat): (r: Loop)
    requires WellFormed(s)
    ensures WellFormed(r)
  {
    var w := Polling(s, turn);
    w.(poll := FetchTimes(w.poll, stop + 1))
  }

  /** ep_for_each, with what its body does; fetches do not look at that. */
  ghost function ForEach(s: Loop, hint: W.i32, turn: Turn, stop: nat, body: Effects): (r: Result)
    requires WellFormed(s)
    ensures WellFormed(r.state)
  {
    DoKeeps(Sweeping(s, turn, stop), body);
    Result(Do(Sweeping(s, turn, stop), body),
           [Swept(Buffer(s.poll), Taken(Buffer(Polling(s, turn).poll), stop + 1), WaitLog(s, hint, turn))])
  }

  /** A step of the program around the loop: an iteration, an ep_for_each, or what it does in
      between. */
  datatype Step =
    | Iteration(hint: W.i32, turn: Turn)
    | Each(hint: W.i32, turn: Turn, stop: nat, body: Effects)
    | Outside(effects: Effects)

  /** Whether the step runs what is due and waits. */
  predicate Turns(s: Loop, step: Step) {
    step.Each? || (step.Iteration? && s.poll.ready <= 0)
  }

  ghost predicate LegalStep(s: Loop, step: Step)
    requires WellFormed(s)
  {
    && (Turns(s, step) ==> LegalTurn(s, step.turn))
    && (step.Each? ==> LegalEffects(Sweeping(s, step.turn, step.stop), step.body))
    && (step.Outside? ==> LegalEffects(s, step.effects))
  }

  ghost function RunStep(s: Loop, step: Step): (r: Result)
    requires WellFormed(s)
    ensures WellFormed(r.state)
  {
    match step
    case Iteration(hint, turn) => Iterate(s, hint, turn)
    case Each(hint, turn, stop, body) => ForEach(s, hint, turn, stop, body)
    case Outside(e) =>
      DoKeeps(s, e);
      Result(Do(s, e), [])
  }

  ghost function Run(s: Loop, steps: seq<Step>): (r: Result)
    requires WellFormed(s)
    ensures WellFormed(r.state)
    decreases |steps|
  {
    if steps == [] then Result(s, [])
    else
      var first := RunStep(s, steps[0]);
      var rest := Run(first.state, steps[1..]);
      Result(rest.state, first.log + rest.log)
  }

  ghost predicate LegalRun(s: Loop, steps: seq<Step>)
    requires WellFormed(s)
    decreases |steps|
  {
    steps != [] ==> LegalStep(s, steps[0]) && LegalRun(RunStep(s, steps[0]).state, steps[1..])
  }
}
