/** The descriptors inside of runs of the event loop: what every wait asks about, and whose data
    it delivers. */
module LoopPolls {
  import opened LoopSpec
  import opened SelectLaws
  import opened SelectSpec
  import opened Sequences
  import W = WaitSpec

  /** The registrations that callbacks make in a turn before it waits. */
  function TurnPolls(turn: Turn): seq<Registration> {
    turn.ticked.polls + turn.walked.polls + turn.fired.polls
  }

  function StepPolls(s: Loop, step: Step): seq<Registration> {
    match step
    case Iteration(_, turn) => if s.poll.ready > 0 then [] else TurnPolls(turn)
    case Each(_, turn, _, body) => TurnPolls(turn) + body.polls
    case Outside(e) => e.polls
  }

  /** All registrations of a run, by callbacks of any phase, by bodies of ep_for_each, and from
      outside, in their order. */
  ghost function PollsIn(s: Loop, steps: seq<Step>): seq<Registration>
    requires WellFormed(s)
    decreases |steps|
  {
    if steps == [] then [] else StepPolls(s, steps[0]) + PollsIn(RunStep(s, steps[0]).state, steps[1..])
  }

  /** From `p` the registrations lead to the same descriptors and data as in `q`; the buffers
      may differ. */
  predicate Registers(p: Poll, rs: seq<Registration>, q: Poll) {
    var r := RegisterAll(p, rs);
    r.want == q.want && r.maxfd == q.maxfd && r.data == q.data
  }

  lemma {:induction false} SameRegistered(p: Poll, q: Poll, rs: seq<Registration>)
    requires Registers(p, [], q)
    ensures Registers(p, rs, RegisterAll(q, rs))
    decreases |rs|
  {
    if rs != [] {
      SameRegistered(Register(p, rs[0]), Register(q, rs[0]), rs[1..]);
    }
  }

  lemma {:induction false} AllConcat(p: Poll, a: seq<Registration>, b: seq<Registration>)
    ensures RegisterAll(p, a + b) == RegisterAll(RegisterAll(p, a), b)
    decreases |a|
  {
    if a == [] {
      EmptyConcat(b);
    } else {
      assert (a + b)[0] == a[0] && (a + b)[1..] == a[1..] + b;
      AllConcat(Register(p, a[0]), a[1..], b);
    }
  }

  lemma RegistersOn(p: Poll, a: seq<Registration>, q: Poll, b: seq<Registration>, r: Poll)
    requires Registers(p, a, q) && Registers(q, b, r)
    ensures Registers(p, a + b, r)
  {
    AllConcat(p, a, b);
    SameRegistered(RegisterAll(p, a), q, b);
  }

  lemma TurnRegisters(s: Loop, turn: Turn)
    requires WellFormed(s)
    ensures Registers(s.poll, TurnPolls(turn), Waiting(s, turn).poll)
  {
    AllConcat(s.poll, turn.ticked.polls, turn.walked.polls);
    AllConcat(s.poll, turn.ticked.polls + turn.walked.polls, turn.fired.polls);
  }

  lemma EachRegisters(s: Loop, step: Step)
    requires WellFormed(s) && step.Each?
    ensures Registers(s.poll, StepPolls(s, step), RunStep(s, step).state.poll)
  {
    var q := Sweeping(s, step.turn, step.stop).poll;
    TurnRegisters(s, step.turn);
    RegistersOn(s.poll, TurnPolls(step.turn), q, step.body.polls, RegisterAll(q, step.body.polls));
  }

  lemma StepRegisters(s: Loop, step: Step)
    requires WellFormed(s)
    ensures Registers(s.poll, StepPolls(s, step), RunStep(s, step).state.poll)
  {
    if step.Each? {
      EachRegisters(s, step);
    } else if Turns(s, step) {
      TurnRegisters(s, step.turn);
    }
  }

  lemma {:induction false} RunRegisters(s: Loop, steps: seq<Step>)
    requires WellFormed(s)
    ensures Registers(s.poll, PollsIn(s, steps), Run(s, steps).state.poll)
    decreases |steps|
  {
    if steps != [] {
      var first := RunStep(s, steps[0]).state;
      StepRegisters(s, steps[0]);
      RunRegisters(first, steps[1..]);
      RegistersOn(s.poll, StepPolls(s, steps[0]), first.poll, PollsIn(first, steps[1..]), Run(s, steps).state.poll);
    }
  }

  /** All registrations before the wait of a turn behind a run. */
  ghost function PollsBefore(s: Loop, steps: seq<Step>, turn: Turn): seq<Registration>
    requires WellFormed(s)
  {
    PollsIn(s, steps) + TurnPolls(turn)
  }

  lemma WaitRegisters(s: Loop, steps: seq<Step>, turn: Turn)
    requires WellFormed(s)
    ensures Registers(s.poll, PollsBefore(s, steps, turn), Waiting(Run(s, steps).state, turn).poll)
  {
    var e := Run(s, steps).state;
    RunRegisters(s, steps);
    TurnRegisters(e, turn);
    RegistersOn(s.poll, PollsIn(s, steps), e.poll, TurnPolls(turn), Waiting(e, turn).poll);
  }

  /** Every wait of a run, with any steps in front of it, asks about exactly the descriptors
      that an add or mod wanted and no later del or mod dropped, or that were wanted at the
      start and never dropped, as far as they are not above the largest one; and it has the
      data of the last add or mod. */
  lemma {:induction false} EveryWaitAsks(s: Loop, steps: seq<Step>, hint: W.i32, turn: Turn, kind: Kind, fd: int)
    requires WellFormed(s) && 0 <= fd < FD_SETSIZE
    ensures var p, rs := WaitLog(Run(s, steps).state, hint, turn).poll, PollsBefore(s, steps, turn);
            && (In(p.want, kind, fd) <==> WantedAfter(rs, kind, fd, In(s.poll.want, kind, fd)))
            && (In(Watched(p), kind, fd) <==>
                  WantedAfter(rs, kind, fd, In(s.poll.want, kind, fd)) && fd <= Top(rs, s.poll.maxfd))
            && DataAfter(rs, fd, s.poll.data[fd], p.data[fd])
  {
    var p, rs := Waiting(Run(s, steps).state, turn).poll, PollsBefore(s, steps, turn);
    WaitRegisters(s, steps, turn);
    RegisteredLast(s.poll, rs, kind, fd);
    RegisteredTop(s.poll, rs);
    WatchedIs(p, kind, fd);
  }

  /** What select reports on was asked for. */
  lemma {:induction false} ReportedWasAsked(s: Loop, steps: seq<Step>, turn: Turn, kind: Kind, fd: int)
    requires WellFormed(s) && LegalTurn(Run(s, steps).state, turn)
    requires 0 <= fd < FD_SETSIZE && Ready(turn.polled, kind, fd)
    ensures var rs := PollsBefore(s, steps, turn);
            WantedAfter(rs, kind, fd, In(s.poll.want, kind, fd)) && fd <= Top(rs, s.poll.maxfd)
  {
    EveryWaitAsks(s, steps, 0, turn, kind, fd);
    assert In(Watched(Waiting(Run(s, steps).state, turn).poll), kind, fd);
  }

  /** From the registration to the delivery: the slot that a wait fills for a ready descriptor
      holds the data of its last add or mod in the run, and a mask with exactly the bits of the
      events that select reports for it; each of them was asked for. */
  lemma {:induction false} DeliversLastData(s: Loop, steps: seq<Step>, hint: W.i32, turn: Turn, k: nat)
    requires WellFormed(s) && LegalTurn(Run(s, steps).state, turn)
    requires turn.polled.ret >= 0 && k < |Fds(turn.polled, FD_SETSIZE)|
    ensures var w, rs := WaitLog(Run(s, steps).state, hint, turn), PollsBefore(s, steps, turn);
            var fd := Fds(turn.polled, FD_SETSIZE)[k];
            && k < |w.batch| && w.batch[k].Delivered?
            && DataAfter(rs, fd, s.poll.data[fd], w.batch[k].event.data)
            && Tells(w.batch[k].event.events, turn.polled, fd)
            && forall kind :: Asks(w.batch[k].event.events, kind) ==>
                 WantedAfter(rs, kind, fd, In(s.poll.want, kind, fd)) && fd <= Top(rs, s.poll.maxfd)
  {
    var p, fd := Waiting(Run(s, steps).state, turn).poll, Fds(turn.polled, FD_SETSIZE)[k];
    BatchTellsFirst(p, turn.polled);
    assert IsFor(Batch(p, turn.polled)[k], turn.polled, p.data, fd);
    EveryWaitAsks(s, steps, hint, turn, Readable, fd);
    forall kind | Ready(turn.polled, kind, fd)
      ensures WantedAfter(PollsBefore(s, steps, turn), kind, fd, In(s.poll.want, kind, fd))
      ensures fd <= Top(PollsBefore(s, steps, turn), s.poll.maxfd)
    {
      ReportedWasAsked(s, steps, turn, kind, fd);
    }
  }
}
