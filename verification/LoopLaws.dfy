/** Theorems about whole runs of the event loop. */
module LoopLaws {
  import opened LoopSpec
  import opened Options
  import opened SelectSpec
  import opened Sequences
  import Q = TaskSpec
  import T = TimerSpec
  import W = WaitSpec

  // ---- Waits and fetches ----------------------------------------------------------

  /** A wait fills as many slots as select counted. They list each ready descriptor once
      with its mask and data if and only if none is in two sets, and none is if the program
      has registered none in two. No slot lies behind the buffer unless select counts more
      bits than there are entries, which it cannot if no more are registered. The wait could
      not sleep past a pending timer unless the nearest one is so far ahead that its
      distance does not fit in an int and there is no hint. Without a pending timer it is as
      long as the hint says; with one less than 2^31 ms ahead it lasts up to its deadline or as
      long as a hint that is not negative says, whichever is shorter. */
  ghost predicate SoundWait(w: Wait) {
    && |w.batch| == (if w.polled.ret > 0 then w.polled.ret else 0)
    && (w.polled.ret >= 0 ==>
          (w.batch == AsDelivered(Listing(w.polled, w.poll.data, FD_SETSIZE)) <==> OneSetEach(w.polled)))
    && (Disjoint(Watched(w.poll)) ==> OneSetEach(w.polled))
    && (Beyond in w.batch <==> w.polled.ret > FD_SETSIZE)
    && (Bits(Watched(w.poll)) <= FD_SETSIZE ==> w.polled.ret <= FD_SETSIZE)
    && T.WellFormed(w.timers)
    && (W.WakesInTime(w.timers, w.timeout) <==>
          w.timers.pending == [] || w.hint >= 0 || W.Ahead(w.timers.pending[0], w.timers.now) % W.I32 < W.I31)
    && (w.timers.pending == [] ==> w.timeout == w.hint)
    && (w.timers.pending != [] && w.timers.pending[0].score - w.timers.now < 0x8000_0000 ==>
          var d := w.timers.pending[0].score;
          var gap := if d <= w.timers.now then 0 else d - w.timers.now;
          w.timeout == if 0 <= w.hint < gap then w.hint else gap)
  }

  /** What one step returned fits the slots that its wait filled: ep_iterate delivers the
      last one, ep_for_each some or all from the last on. */
  ghost predicate Sound(l: Log) {
    match l
    case Fetched(_, _) => true
    case Waited(ret, event, w) => SoundWait(w) && ret == w.polled.ret && event == Last(w.batch)
    case Swept(_, events, w) => SoundWait(w) && events == Taken(w.batch, |events|)
  }

  /** With the slots `b` still to be fetched ep_iterate fetches the last one and returns how
      many there were; with none it waits; and ep_for_each loses them all. */
  ghost predicate Follows(b: seq<Delivery>, l: Log) {
    match l
    case Fetched(_, _) => b != [] && l == Fetched(|b|, Last(b))
    case Waited(_, _, _) => b == []
    case Swept(lost, _, _) => lost == b
  }

  /** The slots still to be fetched after one step. */
  function LeftBy(b: seq<Delivery>, l: Log): seq<Delivery> {
    match l
    case Fetched(_, _) => Front(b)
    case Waited(_, _, w) => Front(w.batch)
    case Swept(_, events, w) => Untaken(w.batch, |events|)
  }

  /** Steps in a row, the first with the slots `b` still to be fetched. */
  ghost predicate Chained(b: seq<Delivery>, log: seq<Log>)
    decreases |log|
  {
    log != [] ==> Follows(b, log[0]) && Sound(log[0]) && Chained(LeftBy(b, log[0]), log[1..])
  }

  /** The slots still to be fetched after the steps of the log. */
  function Left(b: seq<Delivery>, log: seq<Log>): seq<Delivery>
    decreases |log|
  {
    if log == [] then b else Left(LeftBy(b, log[0]), log[1..])
  }

  lemma TurnSound(s: Loop, hint: W.i32, turn: Turn)
    requires WellFormed(s) && LegalTurn(s, turn)
    ensures SoundWait(WaitLog(s, hint, turn)) && WaitLog(s, hint, turn).hint == hint
    ensures WaitLog(s, hint, turn).timers.now == turn.later && WaitLog(s, hint, turn).polled == turn.polled
  {
    var w := Waiting(s, turn);
    if w.timers.pending == [] {
      W.WaitIsHint(w.timers, hint);
    } else if w.timers.pending[0].score - w.timers.now < 0x8000_0000 {
      W.WaitIs(w.timers, hint, w.timers.pending[0]);
    }
    if turn.polled.ret >= 0 {
      BatchIsListing(w.poll, turn.polled);
    }
    if Disjoint(Watched(w.poll)) {
      DisjointReports(Watched(w.poll), turn.polled);
    }
    BeyondIff(w.poll, turn.polled);
    ReportsFit(Watched(w.poll), turn.polled);
    W.WakesInTimeIff(w.timers, hint);
  }

  /** One step that is no outside call. */
  lemma StepSound(s: Loop, step: Step)
    requires WellFormed(s) && LegalStep(s, step) && !step.Outside?
    ensures var r := RunStep(s, step);
            && |r.log| == 1 && Follows(Buffer(s.poll), r.log[0]) && Sound(r.log[0])
            && Buffer(r.state.poll) == LeftBy(Buffer(s.poll), r.log[0])
  {
    if step.Each? {
      TurnSound(s, step.hint, step.turn);
      SweepSound(s, step.hint, step.turn, step.stop, step.body);
    } else if Turns(s, step) {
      TurnSound(s, step.hint, step.turn);
      FetchTakesLast(Polling(s, step.turn).poll);
    } else {
      FetchTakesLast(s.poll);
    }
  }

  lemma SweepSound(s: Loop, hint: W.i32, turn: Turn, stop: nat, body: Effects)
    requires WellFormed(s) && LegalTurn(s, turn)
    ensures var r := ForEach(s, hint, turn, stop, body);
            var b := Buffer(Polling(s, turn).poll);
            && r.log[0].events == Taken(b, |r.log[0].events|)
            && Buffer(r.state.poll) == Untaken(b, |r.log[0].events|)
  {
    OutsideKeepsBuffer(Sweeping(s, turn, stop), body);
    FetchTakesTimes(Polling(s, turn).poll, stop + 1);
  }

  lemma {:induction false} RunChained(s: Loop, steps: seq<Step>)
    requires WellFormed(s) && LegalRun(s, steps)
    ensures Chained(Buffer(s.poll), Run(s, steps).log)
    ensures Left(Buffer(s.poll), Run(s, steps).log) == Buffer(Run(s, steps).state.poll)
    decreases |steps|
  {
    if steps != [] {
      var first := RunStep(s, steps[0]);
      RunChained(first.state, steps[1..]);
      var rest := Run(first.state, steps[1..]).log;
      if steps[0].Outside? {
        OutsideKeepsBuffer(s, steps[0].effects);
        EmptyConcat(rest);
      } else {
        StepSound(s, steps[0]);
        ConsTail(first.log[0], rest);
        assert first.log + rest == [first.log[0]] + rest;
      }
    }
  }

  lemma OutsideKeepsBuffer(s: Loop, e: Effects)
    ensures Buffer(Do(s, e).poll) == Buffer(s.poll)
  {
    RegisterKeepsBuffer(s.poll, e.polls);
  }

  ghost predicate NoSweep(log: seq<Log>, i: nat, k: nat)
    requires i <= k <= |log|
  {
    forall j :: i <= j < k ==> !log[j].Swept?
  }

  /** From index `i` on, as long as no ep_for_each comes between, the log fetches the slots
      `b` from the last to the first, returning |b|, |b| - 1 and so on to 1, and then waits;
      an ep_for_each loses those not yet fetched. */
  ghost predicate Drains(log: seq<Log>, i: nat, b: seq<Delivery>) {
    forall k {:trigger log[k]} :: i <= k < |log| && k <= i + |b| && NoSweep(log, i, k) ==>
      Follows(b[..i + |b| - k], log[k])
  }

  lemma DrainsBehind(l: Log, log: seq<Log>, i: nat, b: seq<Delivery>)
    requires Drains(log, i, b)
    ensures Drains([l] + log, i + 1, b)
  {
    var all := [l] + log;
    forall k {:trigger all[k]} | i + 1 <= k < |all| && k <= i + 1 + |b| && NoSweep(all, i + 1, k)
      ensures Follows(b[..i + 1 + |b| - k], all[k])
    {
      assert forall j :: i <= j < k - 1 ==> log[j] == all[j + 1];
      assert NoSweep(log, i, k - 1) && all[k] == log[k - 1];
    }
  }

  lemma FetchDrains(b: seq<Delivery>, log: seq<Log>)
    requires log != [] && log[0].Fetched? && Follows(b, log[0]) && Drains(log, 1, Front(b))
    ensures Drains(log, 0, b)
  {
    assert b[..|b|] == b;
    forall k {:trigger log[k]} | 0 < k < |log| && k <= |b| && NoSweep(log, 0, k)
      ensures Follows(b[..|b| - k], log[k])
    {
      assert NoSweep(log, 1, k) && Front(b)[..|b| - k] == b[..|b| - k];
    }
  }

  lemma {:induction false} ChainDrains(b: seq<Delivery>, log: seq<Log>)
    requires Chained(b, log)
    ensures Drains(log, 0, b)
    decreases |log|
  {
    if log != [] {
      HeadTail(log);
      if log[0].Fetched? {
        ChainDrains(Front(b), log[1..]);
        DrainsBehind(log[0], log[1..], 0, Front(b));
        FetchDrains(b, log);
      } else {
        assert b[..|b|] == b;
        assert forall k :: 0 < k <= |log| && NoSweep(log, 0, k) ==> log[0].Waited?;
      }
    }
  }

  lemma FirstWaits(b: seq<Delivery>, log: seq<Log>)
    requires Chained(b, log) && log != []
    ensures Sound(log[0]) && Drains(log, 1, LeftBy(b, log[0]))
  {
    HeadTail(log);
    ChainDrains(LeftBy(b, log[0]), log[1..]);
    DrainsBehind(log[0], log[1..], 0, LeftBy(b, log[0]));
  }

  lemma {:induction false} ChainWaits(b: seq<Delivery>, log: seq<Log>, i: nat)
    requires Chained(b, log) && i < |log| && !log[i].Fetched?
    ensures Sound(log[i]) && Drains(log, i + 1, LeftBy([], log[i]))
    decreases |log|
  {
    HeadTail(log);
    if i == 0 {
      FirstWaits(b, log);
    } else {
      ChainWaits(LeftBy(b, log[0]), log[1..], i - 1);
      DrainsBehind(log[0], log[1..], i, LeftBy([], log[i]));
    }
  }

  /** Along every run every wait is sound, and the iterations after it return the slots that
      it filled and nobody has taken yet, each once, before the loop waits again; only an
      ep_for_each in between loses the others. */
  lemma {:induction false} EveryWait(s: Loop, steps: seq<Step>, i: nat)
    requires WellFormed(s) && LegalRun(s, steps)
    requires i < |Run(s, steps).log| && !Run(s, steps).log[i].Fetched?
    ensures Sound(Run(s, steps).log[i])
    ensures Drains(Run(s, steps).log, i + 1, LeftBy([], Run(s, steps).log[i]))
  {
    RunChained(s, steps);
    ChainWaits(Buffer(s.poll), Run(s, steps).log, i);
  }

  /** A run that begins with slots still to be fetched begins by fetching them. */
  lemma {:induction false} RunDrains(s: Loop, steps: seq<Step>)
    requires WellFormed(s) && LegalRun(s, steps)
    ensures Drains(Run(s, steps).log, 0, Buffer(s.poll))
  {
    RunChained(s, steps);
    ChainDrains(Buffer(s.poll), Run(s, steps).log);
  }

  /** What a log delivered. */
  function DeliveredIn(log: seq<Log>): seq<Delivery> {
    if log == [] then [] else DeliveredBy(log[0]) + DeliveredIn(log[1..])
  }

  function DeliveredBy(l: Log): seq<Delivery> {
    if l.Swept? then l.events else if l.ret > 0 then [l.event] else []
  }

  /** What the waits of a log put into the buffer. */
  function BatchesIn(log: seq<Log>): seq<Delivery> {
    if log == [] then [] else ListedBy(log[0]) + BatchesIn(log[1..])
  }

  function ListedBy(l: Log): seq<Delivery> {
    if l.Fetched? then [] else l.wait.batch
  }

  /** What was left in the buffer when an ep_for_each began. */
  function LostIn(log: seq<Log>): seq<Delivery> {
    if log == [] then [] else LostBy(log[0]) + LostIn(log[1..])
  }

  function LostBy(l: Log): seq<Delivery> {
    if l.Swept? then l.lost else []
  }

  /** Between the buffers `before` and `after` the log neither drops nor repeats a slot but
      for those that an ep_for_each has lost. */
  ghost predicate Balanced(before: seq<Delivery>, log: seq<Log>, after: seq<Delivery>) {
    multiset(DeliveredIn(log)) + multiset(LostIn(log)) + multiset(after) == multiset(before) + multiset(BatchesIn(log))
  }

  lemma OneBalanced(b: seq<Delivery>, l: Log)
    requires Follows(b, l) && Sound(l)
    ensures multiset(DeliveredBy(l)) + multiset(LostBy(l)) + multiset(LeftBy(b, l))
            == multiset(b) + multiset(ListedBy(l))
  {
    match l {
      case Fetched(_, _) => LastAndFront(b);
      case Waited(_, _, w) => LastAndFront(w.batch);
      case Swept(_, events, w) => TakenOnce(w.batch, |events|);
    }
  }

  lemma BalancedCons(a: seq<Delivery>, l: Log, b: seq<Delivery>, rest: seq<Log>, c: seq<Delivery>)
    requires multiset(DeliveredBy(l)) + multiset(LostBy(l)) + multiset(b) == multiset(a) + multiset(ListedBy(l))
    requires Balanced(b, rest, c)
    ensures Balanced(a, [l] + rest, c)
  {
    ConsTail(l, rest);
    Telescope(multiset(DeliveredBy(l)) + multiset(LostBy(l)), multiset(DeliveredIn(rest)) + multiset(LostIn(rest)),
              multiset(a), multiset(b), multiset(c), multiset(ListedBy(l)), multiset(BatchesIn(rest)));
    Shuffled(multiset(DeliveredBy(l)), multiset(LostBy(l)), multiset(DeliveredIn(rest)), multiset(LostIn(rest)));
  }

  lemma Shuffled(m: multiset<Delivery>, l: multiset<Delivery>, m': multiset<Delivery>, l': multiset<Delivery>)
    ensures (m + l) + (m' + l') == (m + m') + (l + l')
  {
  }

  lemma Telescope(m: multiset<Delivery>, m': multiset<Delivery>, a: multiset<Delivery>,
                  b: multiset<Delivery>, c: multiset<Delivery>, n: multiset<Delivery>, n': multiset<Delivery>)
    requires m + b == a + n && m' + c == b + n'
    ensures m + m' + c == a + (n + n')
  {
    forall x
      ensures (m + m' + c)[x] == (a + (n + n'))[x]
    {
      assert (m + b)[x] == (a + n)[x] && (m' + c)[x] == (b + n')[x];
    }
  }

  lemma {:induction false} ChainBalanced(b: seq<Delivery>, log: seq<Log>)
    requires Chained(b, log)
    ensures Balanced(b, log, Left(b, log))
    decreases |log|
  {
    if log != [] {
      var l, rest, b' := log[0], log[1..], LeftBy(b, log[0]);
      HeadTail(log);
      OneBalanced(b, l);
      ChainBalanced(b', rest);
      BalancedCons(b, l, b', rest, Left(b', rest));
    }
  }

  lemma LastAndFront(b: seq<Delivery>)
    ensures multiset(b) == multiset(Front(b)) + (if b == [] then multiset{} else multiset{Last(b)})
  {
    if b != [] {
      assert b == b[..|b| - 1] + [b[|b| - 1]];
    }
  }

  /** Nothing comes twice, and nothing is dropped unnoticed: what was delivered, what an
      ep_for_each has lost, and what is still to be fetched is what had been left before and
      what the waits put into the buffer. */
  lemma {:induction false} EachSlotOnce(s: Loop, steps: seq<Step>)
    requires WellFormed(s) && LegalRun(s, steps)
    ensures Balanced(Buffer(s.poll), Run(s, steps).log, Buffer(Run(s, steps).state.poll))
  {
    RunChained(s, steps);
    ChainBalanced(Buffer(s.poll), Run(s, steps).log);
  }

  // ---- The tasks of the next tick -------------------------------------------------------

  /** The tasks of the next tick that a log called. */
  function TicksIn(log: seq<Log>): seq<Q.Task> {
    if log == [] then [] else TicksBy(log[0]) + TicksIn(log[1..])
  }

  function TicksBy(l: Log): seq<Q.Task> {
    if l.Fetched? then [] else l.wait.ticks
  }

  /** What a turn pushes for the next tick, and what it cancels. */
  ghost function TurnNextMoves(s: Loop, turn: Turn): Q.Ledger
    requires WellFormed(s)
  {
    var q := Q.RunPass(s.next, turn.ticking).queue;
    var s1 := Ticked(s, turn);
    var s2 := Walked(s1, turn);
    Q.Plus(Q.Plus(Q.Plus(Q.PassLedger(s.next, turn.ticking), Q.ScriptLedger(q, turn.ticked.next)),
                  Q.ScriptLedger(s1.next, turn.walked.next)),
           Q.ScriptLedger(s2.next, turn.fired.next))
  }

  /** What a step pushes and cancels. */
  ghost function NextMoves(s: Loop, step: Step): Q.Ledger
    requires WellFormed(s)
  {
    match step
    case Iteration(_, turn) => if s.poll.ready > 0 then Q.NOTHING else TurnNextMoves(s, turn)
    case Each(_, turn, _, body) => Q.Plus(TurnNextMoves(s, turn), Q.ScriptLedger(Waiting(s, turn).next, body.next))
    case Outside(e) => Q.ScriptLedger(s.next, e.next)
  }

  ghost function NextLedger(s: Loop, steps: seq<Step>): Q.Ledger
    requires WellFormed(s)
    decreases |steps|
  {
    if steps == [] then Q.NOTHING
    else Q.Plus(NextMoves(s, steps[0]), NextLedger(RunStep(s, steps[0]).state, steps[1..]))
  }

  /** A stretch and then a script. */
  lemma ScriptFollows(a: Q.Queue, f: seq<Q.Task>, l: Q.Ledger, b: Q.Queue, script: Q.Script)
    requires Q.Settled(a, f, l, b) && Q.Legal(b, script, None)
    ensures Q.Settled(a, f, Q.Plus(l, Q.ScriptLedger(b, script)), Q.ApplyAll(b, script))
  {
    Q.ScriptSettles(b, script, None);
    Q.SettledTwice(a, f, l, b, [], Q.ScriptLedger(b, script), Q.ApplyAll(b, script));
    EmptyConcat(f);
  }

  lemma TurnTicks(s: Loop, turn: Turn)
    requires WellFormed(s) && LegalTurn(s, turn)
    ensures Q.Settled(s.next, Q.RunPass(s.next, turn.ticking).calls, TurnNextMoves(s, turn), Waiting(s, turn).next)
  {
    var p, l := Q.RunPass(s.next, turn.ticking), Q.PassLedger(s.next, turn.ticking);
    var s1 := Ticked(s, turn);
    var s2 := Walked(s1, turn);
    Q.PassIsFifo(s.next, turn.ticking);
    ScriptFollows(s.next, p.calls, l, p.queue, turn.ticked.next);
    var l1 := Q.Plus(l, Q.ScriptLedger(p.queue, turn.ticked.next));
    ScriptFollows(s.next, p.calls, l1, s1.next, turn.walked.next);
    ScriptFollows(s.next, p.calls, Q.Plus(l1, Q.ScriptLedger(s1.next, turn.walked.next)), s2.next, turn.fired.next);
  }

  lemma StepTicks(s: Loop, step: Step)
    requires WellFormed(s) && LegalStep(s, step)
    ensures var r := RunStep(s, step);
            Q.Settled(s.next, TicksIn(r.log), NextMoves(s, step), r.state.next)
  {
    if step.Outside? {
      Q.ScriptSettles(s.next, step.effects.next, None);
    } else if !Turns(s, step) {
      Q.SettledNothing(s.next);
    } else {
      TurnTicks(s, step.turn);
      OneLog(RunStep(s, step).log[0]);
      if step.Each? {
        ScriptFollows(s.next, Q.RunPass(s.next, step.turn.ticking).calls, TurnNextMoves(s, step.turn),
                      Waiting(s, step.turn).next, step.body.next);
      }
    }
  }

  lemma OneLog(l: Log)
    ensures TicksIn([l]) == TicksBy(l)
  {
    EmptyConcat(TicksBy(l));
  }

  lemma {:induction false} TicksConcat(a: seq<Log>, b: seq<Log>)
    ensures TicksIn(a + b) == TicksIn(a) + TicksIn(b)
  {
    if a == [] {
      EmptyConcat(b);
      EmptyConcat(TicksIn(b));
    } else {
      assert (a + b)[1..] == a[1..] + b;
      TicksConcat(a[1..], b);
      ConcatAssoc(TicksBy(a[0]), TicksIn(a[1..]), TicksIn(b));
    }
  }

  /** Over every run the tasks for the next tick that are called, and then those still
      queued, are the tasks queued at the start and then all that were pushed, by callbacks
      of any phase or from outside, in the order of the pushes, without those cancelled. */
  lemma {:induction false} TicksAreFifo(s: Loop, steps: seq<Step>)
    requires WellFormed(s) && LegalRun(s, steps)
    ensures var r := Run(s, steps);
            Q.Settled(s.next, TicksIn(r.log), NextLedger(s, steps), r.state.next)
    decreases |steps|
  {
    if steps == [] {
      Q.SettledNothing(s.next);
    } else {
      var first := RunStep(s, steps[0]);
      var rest := Run(first.state, steps[1..]);
      StepTicks(s, steps[0]);
      TicksAreFifo(first.state, steps[1..]);
      TicksConcat(first.log, rest.log);
      Q.SettledTwice(s.next, TicksIn(first.log), NextMoves(s, steps[0]), first.state.next,
                     TicksIn(rest.log), NextLedger(first.state, steps[1..]), rest.state.next);
    }
  }

  // ---- The tasks of every tick ------------------------------------------------------------

  /** What a turn pushes for every tick, and what it cancels. */
  ghost function TurnEveryMoves(s: Loop, turn: Turn): Q.Ledger
    requires WellFormed(s)
  {
    var s1 := Ticked(s, turn);
    var s2 := Walked(s1, turn);
    Q.Plus(Q.Plus(Q.Plus(Q.ScriptLedger(s.every, turn.ticked.every), Q.WalkLedger(s1.every, 0, turn.walking)),
                  Q.ScriptLedger(Walking(s1, turn).queue, turn.walked.every)),
           Q.ScriptLedger(s2.every, turn.fired.every))
  }

  /** What a step pushes and cancels. */
  ghost function EveryMoves(s: Loop, step: Step): Q.Ledger
    requires WellFormed(s)
  {
    match step
    case Iteration(_, turn) => if s.poll.ready > 0 then Q.NOTHING else TurnEveryMoves(s, turn)
    case Each(_, turn, _, body) => Q.Plus(TurnEveryMoves(s, turn), Q.ScriptLedger(Waiting(s, turn).every, body.every))
    case Outside(e) => Q.ScriptLedger(s.every, e.every)
  }

  ghost function EveryLedger(s: Loop, steps: seq<Step>): Q.Ledger
    requires WellFormed(s)
    decreases |steps|
  {
    if steps == [] then Q.NOTHING
    else Q.Plus(EveryMoves(s, steps[0]), EveryLedger(RunStep(s, steps[0]).state, steps[1..]))
  }

  lemma TurnWalks(s: Loop, turn: Turn)
    requires WellFormed(s) && LegalTurn(s, turn)
    ensures Q.Settled(s.every, [], TurnEveryMoves(s, turn), Waiting(s, turn).every)
  {
    var s1 := Ticked(s, turn);
    var s2, w := Walked(s1, turn), Walking(s1, turn);
    var l, lw := Q.ScriptLedger(s.every, turn.ticked.every), Q.WalkLedger(s1.every, 0, turn.walking);
    Q.ScriptSettles(s.every, turn.ticked.every, None);
    Q.WalkSettles(s1.every, 0, turn.walking);
    Q.SettledTwice(s.every, [], l, s1.every, [], lw, w.queue);
    ScriptFollows(s.every, [], Q.Plus(l, lw), w.queue, turn.walked.every);
    ScriptFollows(s.every, [], Q.Plus(Q.Plus(l, lw), Q.ScriptLedger(w.queue, turn.walked.every)),
                  s2.every, turn.fired.every);
  }

  /** Over every run the tasks of every tick are those queued at the start and then those
      pushed since, in the order of the pushes, without those cancelled. */
  lemma {:induction false} EveryQueueSettles(s: Loop, steps: seq<Step>)
    requires WellFormed(s) && LegalRun(s, steps)
    ensures Q.Settled(s.every, [], EveryLedger(s, steps), Run(s, steps).state.every)
    decreases |steps|
  {
    if steps == [] {
      Q.SettledNothing(s.every);
    } else {
      var first := RunStep(s, steps[0]);
      StepSettlesEvery(s, steps[0]);
      EveryQueueSettles(first.state, steps[1..]);
      Q.SettledTwice(s.every, [], EveryMoves(s, steps[0]), first.state.every,
                     [], EveryLedger(first.state, steps[1..]), Run(s, steps).state.every);
    }
  }

  lemma StepSettlesEvery(s: Loop, step: Step)
    requires WellFormed(s) && LegalStep(s, step)
    ensures Q.Settled(s.every, [], EveryMoves(s, step), RunStep(s, step).state.every)
  {
    if step.Outside? {
      Q.ScriptSettles(s.every, step.effects.every, None);
    } else if !Turns(s, step) {
      Q.SettledNothing(s.every);
    } else {
      TurnWalks(s, step.turn);
      if step.Each? {
        ScriptFollows(s.every, [], TurnEveryMoves(s, step.turn), Waiting(s, step.turn).every, step.body.every);
      }
    }
  }

  /** Every turn of a run, with any steps in front of it, walks exactly the tasks of every
      tick that were queued at the start or pushed since, also during the walk, in the order
      of the pushes, without those cancelled before their turn. */
  lemma {:induction false} EveryWalk(s: Loop, steps: seq<Step>, hint: W.i32, turn: Turn)
    requires WellFormed(s) && LegalRun(s, steps) && LegalTurn(Run(s, steps).state, turn)
    ensures var e := Run(s, steps).state;
            var q := Ticked(e, turn).every;
            var l := Q.Plus(EveryLedger(s, steps), Q.ScriptLedger(e.every, turn.ticked.every));
            WaitLog(e, hint, turn).walk
            == Q.Minus(s.every.live + (l.pushed + Q.WalkLedger(q, 0, turn.walking).pushed),
                       l.cancelled + Q.Skipped(q, 0, turn.walking))
  {
    var e := Run(s, steps).state;
    EveryQueueSettles(s, steps);
    ScriptFollows(s.every, [], EveryLedger(s, steps), e.every, turn.ticked.every);
    Q.WalkAfter(s.every, Q.Plus(EveryLedger(s, steps), Q.ScriptLedger(e.every, turn.ticked.every)),
                Ticked(e, turn).every, turn.walking);
  }

  // ---- ep_for_each -------------------------------------------------------------------

  /** `n` iterations, of which only the first needs its surroundings. */
  function Iterations(hint: W.i32, turn: Turn, n: nat): seq<Step> {
    seq(n, _ => Iteration(hint, turn))
  }

  /** The first of `n` iterations and the others. */
  lemma FirstIteration(s: Loop, hint: W.i32, turn: Turn, n: nat)
    requires WellFormed(s) && n > 0
    ensures var first := Iterate(s, hint, turn);
            && Run(s, Iterations(hint, turn, n)).state == Run(first.state, Iterations(hint, turn, n - 1)).state
            && DeliveredIn(Run(s, Iterations(hint, turn, n)).log)
               == DeliveredBy(first.log[0]) + DeliveredIn(Run(first.state, Iterations(hint, turn, n - 1)).log)
  {
    var first := Iterate(s, hint, turn);
    IterationsCons(hint, turn, n);
    DeliveredCons(first.log, Run(first.state, Iterations(hint, turn, n - 1)).log);
  }

  lemma IterationsCons(hint: W.i32, turn: Turn, n: nat)
    requires n > 0
    ensures Iterations(hint, turn, n)[0] == Iteration(hint, turn)
    ensures Iterations(hint, turn, n)[1..] == Iterations(hint, turn, n - 1)
  {
  }

  lemma DeliveredCons(one: seq<Log>, rest: seq<Log>)
    requires |one| == 1
    ensures DeliveredIn(one + rest) == DeliveredBy(one[0]) + DeliveredIn(rest)
  {
    assert (one + rest)[1..] == rest;
  }

  lemma TakenCons(b: seq<Delivery>, n: nat)
    requires b != [] && n > 0
    ensures Taken(b, n) == [Last(b)] + Taken(Front(b), n - 1)
  {
  }

  function LastOnly(b: seq<Delivery>): seq<Delivery> {
    if b == [] then [] else [Last(b)]
  }

  /** One fetch and then `n - 1`. */
  lemma FirstFetch(p: Poll, n: nat)
    requires n > 0
    ensures FetchTimes(FetchFrom(p), n - 1) == FetchTimes(p, n) && Buffer(FetchFrom(p)) == Front(Buffer(p))
    ensures LastOnly(Buffer(p)) + Taken(Front(Buffer(p)), n - 1) == Taken(Buffer(p), n)
  {
    FetchTakesLast(p);
    if Buffer(p) != [] {
      TakenCons(Buffer(p), n);
    }
  }

  /** The loop from which an iteration fetches: it waits first if nothing is left. */
  ghost function Supplied(s: Loop, turn: Turn): (w: Loop)
    requires WellFormed(s)
    ensures WellFormed(w)
  {
    if s.poll.ready > 0 then s else Polling(s, turn)
  }

  lemma IterateTakes(s: Loop, hint: W.i32, turn: Turn)
    requires WellFormed(s)
    ensures var w, first := Supplied(s, turn), Iterate(s, hint, turn);
            && first.state == w.(poll := FetchFrom(w.poll))
            && DeliveredBy(first.log[0]) == LastOnly(Buffer(w.poll))
  {
  }

  /** One iteration after another takes the slots from the last on. */
  lemma {:induction false} IterationsTake(s: Loop, hint: W.i32, turn: Turn, n: nat)
    requires WellFormed(s) && n > 0 && (n == 1 || n <= |Buffer(Supplied(s, turn).poll)|)
    ensures var w, r := Supplied(s, turn), Run(s, Iterations(hint, turn, n));
            r.state == w.(poll := FetchTimes(w.poll, n)) && DeliveredIn(r.log) == Taken(Buffer(w.poll), n)
    decreases n
  {
    var w, first := Supplied(s, turn), Iterate(s, hint, turn).state;
    FirstIteration(s, hint, turn, n);
    IterateTakes(s, hint, turn);
    FirstFetch(w.poll, n);
    if n > 1 {
      assert Supplied(first, turn) == first;
      IterationsTake(first, hint, turn, n - 1);
    }
  }

  /** How often an ep_for_each fetches a slot, or waits for one. */
  function Rounds(b: seq<Delivery>, stop: nat): nat {
    if b == [] then 1 else |Taken(b, stop + 1)|
  }

  lemma SameRounds(p: Poll, stop: nat)
    ensures FetchTimes(p, Rounds(Buffer(p), stop)) == FetchTimes(p, stop + 1)
    ensures Taken(Buffer(p), Rounds(Buffer(p), stop)) == Taken(Buffer(p), stop + 1)
  {
  }

  /** From a drained buffer an ep_for_each, left in any round or run to its end, is the same
      as calling ep_iterate once per slot that it takes, or once if there is none, and doing
      then what its body does: same state, same deliveries in the same order. */
  lemma {:induction false} ForEachIsIterations(s: Loop, hint: W.i32, turn: Turn, stop: nat, body: Effects)
    requires WellFormed(s) && s.poll.ready <= 0
    ensures var n := Rounds(Buffer(Polling(s, turn).poll), stop);
            var r, e := Run(s, Iterations(hint, turn, n)), ForEach(s, hint, turn, stop, body);
            Do(r.state, body) == e.state && DeliveredIn(r.log) == e.log[0].events
  {
    var p := Polling(s, turn).poll;
    IterationsTake(s, hint, turn, Rounds(Buffer(p), stop));
    SameRounds(p, stop);
  }
}
