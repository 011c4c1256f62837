/** The timer scheduler on its abstract state: what the callbacks of a run do is an
    arbitrary script per firing, so a theorem over all scripts is one over all callbacks. */
module TimerSpec {
  import opened Scripts
  import opened Sequences
  import opened StableQueue

  const U64: int := 0x1_0000_0000_0000_0000

  type u64 = x: int | 0 <= x < U64

  /** What a timer carries besides its deadline. `id` numbers the registrations and
      stands for the pointer handed out; `cb` stands for the function and its argument. */
  datatype Info = Info(id: nat, ms: u64, cb: int)

  type Timer = Entry<Info>

  /** `lost` holds the timers that a call has abandoned: neither pending nor destroyed. */
  datatype State = State(pending: seq<Timer>, now: u64, nextId: nat, lost: set<nat>)

  /** A timer as ep_timer_init leaves it, with the clock as it is read first. */
  function Fresh(now: u64): State {
    State([], now, 0, {})
  }

  datatype Action =
    | RunAfter(ms: u64, cb: int)
    | RunEvery(ms: u64, cb: int)
    | Clear(id: nat)
    | UpdateTime(t: u64)

  type Script = seq<Action>

  /** uint64_t addition. */
  function Add64(a: int, b: int): u64 {
    (a + b) % U64
  }

  function Ids(q: seq<Timer>): (ids: seq<nat>)
    ensures |ids| == |q| && forall k {:trigger ids[k]} :: 0 <= k < |q| ==> ids[k] == q[k].item.id
  {
    seq(|q|, k requires 0 <= k < |q| => q[k].item.id)
  }

  function PlaceOfId(q: seq<Timer>, id: nat): (k: nat)
    ensures k <= |q|
    ensures k < |q| ==> q[k].item.id == id
    ensures forall j :: 0 <= j < k ==> q[j].item.id != id
  {
    if q == [] || q[0].item.id == id then 0 else 1 + PlaceOfId(q[1..], id)
  }

  predicate IsPending(s: State, id: nat) {
    PlaceOfId(s.pending, id) < |s.pending|
  }

  function Register(s: State, ms: u64, info: Info): State {
    s.(pending := Insert(s.pending, Entry(Add64(s.now, ms), info)), nextId := s.nextId + 1)
  }

  function Apply(s: State, a: Action): State {
    match a
    case RunAfter(ms, cb) => Register(s, ms, Info(s.nextId, 0, cb))
    case RunEvery(ms, cb) => Register(s, ms, Info(s.nextId, ms, cb))
    case Clear(id) =>
      if IsPending(s, id) then s.(pending := RemoveAt(s.pending, PlaceOfId(s.pending, id)))
      else s.(lost := s.lost - {id})
    case UpdateTime(t) => s.(now := t)
  }

  function ApplyAll(s: State, script: Script): State
    decreases |script|
  {
    if script == [] then s else ApplyAll(Apply(s, script[0]), script[1..])
  }

  /** Only a timer that is pending or abandoned at that moment is cleared. */
  predicate Legal(s: State, script: Script)
    decreases |script|
  {
    script != [] ==>
      && (script[0].Clear? ==> IsPending(s, script[0].id) || script[0].id in s.lost)
      && Legal(Apply(s, script[0]), script[1..])
  }

  /** A fired interval with its next deadline. */
  function Rearm(t: Timer): Timer {
    t.(score := Add64(t.score, t.item.ms))
  }

  function Settle(s: State, t: Timer): State {
    if t.item.ms > 0 then s.(pending := Insert(s.pending, Rearm(t))) else s
  }

  /** max_times >= 0 && --max_times <= 0 */
  predicate Stops(max: int) {
    max >= 0 && max - 1 <= 0
  }

  function Countdown(max: int): int {
    if max >= 0 then max - 1 else max
  }

  function Abandon(s: State, rest: seq<Timer>): State {
    s.(lost := s.lost + set id | id in Ids(rest))
  }

  datatype Outcome = Outcome(state: State, fired: seq<Timer>, abandoned: seq<Timer>)

  /** The loop of ep_timer_execute over the detached chain `due`. */
  function Fire(s: State, due: seq<Timer>, max: int, scripts: seq<Script>): Outcome
    decreases |due|
  {
    if due == [] then Outcome(s, [], [])
    else
      var s' := Settle(ApplyAll(s, Next(scripts)), due[0]);
      if Stops(max) then Outcome(Abandon(s', due[1..]), [due[0]], due[1..])
      else
        var rest := Fire(s', due[1..], Countdown(max), Later(scripts));
        rest.(fired := [due[0]] + rest.fired)
  }

  predicate LegalFire(s: State, due: seq<Timer>, max: int, scripts: seq<Script>)
    decreases |due|
  {
    due != [] ==>
      && Legal(s, Next(scripts))
      && (!Stops(max) ==>
            LegalFire(Settle(ApplyAll(s, Next(scripts)), due[0]), due[1..], Countdown(max), Later(scripts)))
  }

  function Due(s: State, now: int): seq<Timer> {
    s.pending[..CountLte(s.pending, now)]
  }

  function Undue(s: State, now: int): State {
    s.(pending := s.pending[CountLte(s.pending, now)..])
  }

  function Execute(s: State, now: int, max: int, scripts: seq<Script>): Outcome {
    Fire(Undue(s, now), Due(s, now), max, scripts)
  }

  predicate LegalExecute(s: State, now: int, max: int, scripts: seq<Script>) {
    LegalFire(Undue(s, now), Due(s, now), max, scripts)
  }

  // ---- What fires ----------------------------------------------------------

  /** How many timers a call lets fire: at least one, even for a limit of 0. */
  function Quota(max: int, due: nat): nat {
    if max < 0 then due else if max <= 1 then (if due == 0 then 0 else 1) else if max < due then max else due
  }

  lemma {:induction false} FireTakesPrefix(s: State, due: seq<Timer>, max: int, scripts: seq<Script>)
    ensures var o := Fire(s, due, max, scripts);
            o.fired == due[..Quota(max, |due|)] && o.abandoned == due[Quota(max, |due|)..]
    decreases |due|
  {
    if due != [] && !Stops(max) {
      FireTakesPrefix(Settle(ApplyAll(s, Next(scripts)), due[0]), due[1..], Countdown(max), Later(scripts));
      var n := Quota(Countdown(max), |due| - 1);
      assert Quota(max, |due|) == n + 1;
      SplitCons(due, n);
    }
  }

  ghost predicate DistinctIds(q: seq<Timer>) {
    forall i, j :: 0 <= i < j < |q| ==> q[i].item.id != q[j].item.id
  }

  /** Pending timers ascend by deadline, bear distinct ids, and were registered already. */
  ghost predicate WellFormed(s: State) {
    && Sorted(s.pending)
    && DistinctIds(s.pending)
    && (forall i :: 0 <= i < |s.pending| ==> s.pending[i].item.id < s.nextId)
    && (forall i :: 0 <= i < |s.pending| ==> 0 <= s.pending[i].score < U64)
  }

  /** A call fires a prefix of the timers due at its start, in deadline order with ties
      in list order, each at most once and none that was registered or re-armed during
      the call; the callbacks have no say in which. */
  lemma {:induction false} FiresDuePrefix(s: State, now: int, max: int, scripts: seq<Script>)
    requires WellFormed(s)
    ensures var o := Execute(s, now, max, scripts);
            var due := CountLte(s.pending, now);
            var n := Quota(max, due);
            && n <= due && o.fired == s.pending[..n] && o.abandoned == s.pending[n..due]
            && Sorted(o.fired) && DistinctIds(o.fired)
            && (forall i :: 0 <= i < |o.fired| ==> o.fired[i].score <= now && o.fired[i].item.id < s.nextId)
  {
    FireTakesPrefix(Undue(s, now), Due(s, now), max, scripts);
    var due := CountLte(s.pending, now);
    var n := Quota(max, due);
    assert s.pending[..due][..n] == s.pending[..n] && s.pending[..due][n..] == s.pending[n..due];
  }

  /** Nothing due is abandoned just when the limit is negative or reaches the due count. */
  lemma NothingAbandoned(s: State, now: int, max: int, scripts: seq<Script>)
    ensures Execute(s, now, max, scripts).abandoned == [] <==>
            max < 0 || |Due(s, now)| <= (if max < 1 then 1 else max)
  {
    FireTakesPrefix(Undue(s, now), Due(s, now), max, scripts);
  }

  /** A limit does cut off: of two due timers one is fired and the other lost. */
  lemma LimitLosesTimer()
    ensures var a, b := Entry(0, Info(0, 0, 0)), Entry(0, Info(1, 0, 0));
            var o := Execute(State([a, b], 0, 2, {}), 0, 1, []);
            WellFormed(State([a, b], 0, 2, {})) && o.fired == [a] && o.abandoned == [b]
            && o.state == State([], 0, 2, {1})
  {
    var a, b := Entry(0, Info(0, 0, 0)), Entry(0, Info(1, 0, 0));
    var s := State([a, b], 0, 2, {});
    CountLteUnique(s.pending, 0, 2);
    assert Due(s, 0) == [a, b] && Undue(s, 0).pending == [];
    assert [a, b][1..] == [b] && Ids([b]) == [1];
    assert (set id | id in Ids([b])) == {1};
  }

  // ---- Well-formedness over a call ---------------------------------------------

  /** The state during a call, with the timers of the chain still to run. */
  ghost predicate WellFormedWith(s: State, due: seq<Timer>) {
    && WellFormed(s) && DistinctIds(due)
    && (forall i :: 0 <= i < |due| ==> due[i].item.id < s.nextId)
    && (forall i, j :: 0 <= i < |due| && 0 <= j < |s.pending| ==> due[i].item.id != s.pending[j].item.id)
  }

  lemma InsertKeeps(s: State, t: Timer, due: seq<Timer>)
    requires WellFormedWith(s, due) && 0 <= t.score < U64 && t.item.id < s.nextId
    requires forall j :: 0 <= j < |s.pending| ==> s.pending[j].item.id != t.item.id
    requires forall i :: 0 <= i < |due| ==> due[i].item.id != t.item.id
    ensures WellFormedWith(s.(pending := Insert(s.pending, t)), due)
  {
    InsertSorted(s.pending, t);
  }

  lemma RemoveKeeps(s: State, k: nat, due: seq<Timer>)
    requires WellFormedWith(s, due) && k < |s.pending|
    ensures WellFormedWith(s.(pending := RemoveAt(s.pending, k)), due)
  {
  }

  lemma ApplyKeeps(s: State, a: Action, due: seq<Timer>)
    requires WellFormedWith(s, due)
    ensures WellFormedWith(Apply(s, a), due)
  {
    var s' := s.(nextId := s.nextId + 1);
    match a {
      case RunAfter(ms, cb) => InsertKeeps(s', Entry(Add64(s.now, ms), Info(s.nextId, 0, cb)), due);
      case RunEvery(ms, cb) => InsertKeeps(s', Entry(Add64(s.now, ms), Info(s.nextId, ms, cb)), due);
      case Clear(id) =>
        if IsPending(s, id) {
          RemoveKeeps(s, PlaceOfId(s.pending, id), due);
        }
      case UpdateTime(_) =>
    }
  }

  lemma {:induction false} ApplyAllKeeps(s: State, script: Script, due: seq<Timer>)
    requires WellFormedWith(s, due)
    ensures WellFormedWith(ApplyAll(s, script), due)
    decreases |script|
  {
    if script != [] {
      ApplyKeeps(s, script[0], due);
      ApplyAllKeeps(Apply(s, script[0]), script[1..], due);
    }
  }

  lemma SettleKeeps(s: State, due: seq<Timer>)
    requires due != [] && WellFormedWith(s, due)
    ensures WellFormedWith(Settle(s, due[0]), due[1..])
  {
    assert WellFormedWith(s, due[1..]);
    if due[0].item.ms > 0 {
      InsertKeeps(s, Rearm(due[0]), due[1..]);
    }
  }

  lemma {:induction false} FireKeeps(s: State, due: seq<Timer>, max: int, scripts: seq<Script>)
    requires WellFormedWith(s, due)
    ensures WellFormed(Fire(s, due, max, scripts).state)
    decreases |due|
  {
    if due != [] {
      ApplyAllKeeps(s, Next(scripts), due);
      SettleKeeps(ApplyAll(s, Next(scripts)), due);
      if !Stops(max) {
        FireKeeps(Settle(ApplyAll(s, Next(scripts)), due[0]), due[1..], Countdown(max), Later(scripts));
      }
    }
  }

  /** Every call keeps the pending timers sorted and their ids distinct. */
  lemma ExecuteKeeps(s: State, now: int, max: int, scripts: seq<Script>)
    requires WellFormed(s)
    ensures WellFormed(Execute(s, now, max, scripts).state)
  {
    FireKeeps(Undue(s, now), Due(s, now), max, scripts);
  }

  // ---- Runs -----------------------------------------------------------------

  datatype Calls = Calls(state: State, fired: seq<Timer>)

  /** One step of a run: a call from outside of callbacks, ep_timer_execute at any time, or
      ep_timer_execute_now, which stores the time first. */
  datatype Event =
    | Act(action: Action)
    | ExecuteAt(bound: u64, max: int, scripts: seq<Script>)
    | ExecuteNow(bound: u64, max: int, scripts: seq<Script>)

  function Entered(s: State, event: Event): State {
    if event.ExecuteNow? then s.(now := event.bound) else s
  }

  /** The call of ep_timer_execute that an event makes. */
  function Called(s: State, event: Event): Outcome
    requires !event.Act?
  {
    Execute(Entered(s, event), event.bound, event.max, event.scripts)
  }

  function RunEvent(s: State, event: Event): Calls {
    if event.Act? then Calls(Apply(s, event.action), [])
    else Calls(Called(s, event).state, Called(s, event).fired)
  }

  function RunEvents(s: State, events: seq<Event>): Calls
    decreases |events|
  {
    if events == [] then Calls(s, [])
    else
      var first := RunEvent(s, events[0]);
      var rest := RunEvents(first.state, events[1..]);
      Calls(rest.state, first.fired + rest.fired)
  }

  /** Every clear, inside callbacks and outside, names a timer pending or abandoned then. */
  predicate LegalEvent(s: State, event: Event) {
    if event.Act? then Legal(s, [event.action])
    else LegalExecute(Entered(s, event), event.bound, event.max, event.scripts)
  }

  predicate LegalRun(s: State, events: seq<Event>)
    decreases |events|
  {
    events != [] ==> LegalEvent(s, events[0]) && LegalRun(RunEvent(s, events[0]).state, events[1..])
  }
}
