/** How long the poll may sleep, decided by the head of the pending timers. */
module WaitSpec {
  import opened StableQueue
  import opened TimerSpec

  const I32: int := 0x1_0000_0000
  const I31: int := 0x8000_0000

  type i32 = x: int | -0x8000_0000 <= x < 0x8000_0000

  /** Conversion of an uint64_t to int: the low 32 bits, read as two's complement. */
  function ToInt32(x: u64): i32 {
    var low := x % I32;
    if low >= I31 then low - I32 else low
  }

  /** How far ahead a deadline lies; 0 once it is due. */
  function Ahead(t: Timer, now: u64): int {
    if t.score > now then t.score - now else 0
  }

  ghost predicate IsNearest(q: seq<Timer>, now: u64, d: int) {
    && (exists i :: 0 <= i < |q| && Ahead(q[i], now) == d)
    && (forall i :: 0 <= i < |q| ==> d <= Ahead(q[i], now))
  }

  /** The result of ep_timer_nearest_diff, read off the head of the list. */
  function NearestDiff(s: State): i32
    requires WellFormed(s)
  {
    if s.pending == [] then -1 else ToInt32(Ahead(s.pending[0], s.now))
  }

  /** ep__waittime once the clock is refreshed. */
  function WaitTime(s: State, hint: i32): i32
    requires WellFormed(s)
  {
    var w := NearestDiff(s);
    if w < 0 then hint else if hint < 0 || w < hint then w else hint
  }

  lemma HeadIsNearest(s: State)
    requires WellFormed(s) && s.pending != []
    ensures IsNearest(s.pending, s.now, Ahead(s.pending[0], s.now))
  {
  }

  /** A wait of `w` milliseconds, forever if negative, ends before any deadline passes. */
  ghost predicate WakesInTime(s: State, w: int) {
    s.pending == [] || (w >= 0 && forall i :: 0 <= i < |s.pending| ==> w <= Ahead(s.pending[i], s.now))
  }

  lemma NarrowingShrinks(x: u64)
    ensures ToInt32(x) <= x
    ensures ToInt32(x) >= 0 <==> x % I32 < I31
    ensures x < I31 ==> ToInt32(x) == x
    ensures (x - ToInt32(x)) % 0x1_0000_0000 == 0
  {
  }

  /** With the nearest deadline less than 2^31 ms ahead the wait is the exact minimum over
      all pending timers, capped by a hint that is not negative; without a pending timer
      it is the hint. */
  lemma WaitIsNearest(s: State, hint: i32, d: int)
    requires WellFormed(s)
    requires s.pending != [] ==> IsNearest(s.pending, s.now, d) && d < I31
    ensures WaitTime(s, hint) ==
            if s.pending == [] then hint else if hint < 0 || d < hint then d else hint
    ensures WaitTime(s, hint) < 0 <==> s.pending == [] && hint < 0
  {
    if s.pending != [] {
      HeadIsNearest(s);
      NarrowingShrinks(Ahead(s.pending[0], s.now));
    }
  }

  /** The same by numbers, `t` being a pending timer with the smallest deadline. */
  lemma WaitIs(s: State, hint: i32, t: Timer)
    requires WellFormed(s) && t in s.pending && forall i :: 0 <= i < |s.pending| ==> t.score <= s.pending[i].score
    requires t.score - s.now < 0x8000_0000
    ensures var gap := if t.score <= s.now then 0 else t.score - s.now;
            NearestDiff(s) == gap && WaitTime(s, hint) == if 0 <= hint < gap then hint else gap
  {
    assert s.pending[0].score == t.score;
  }

  /** Without a pending timer the wait is the hint. */
  lemma WaitIsHint(s: State, hint: i32)
    requires WellFormed(s) && s.pending == []
    ensures NearestDiff(s) == -1 && WaitTime(s, hint) == hint
  {
  }

  /** Exactly when the poll cannot sleep past a timer: the hint bounds the wait, or the
      narrowed difference is not taken for the "no timer" answer. */
  lemma WakesInTimeIff(s: State, hint: i32)
    requires WellFormed(s)
    ensures WakesInTime(s, WaitTime(s, hint)) <==>
            s.pending == [] || hint >= 0 || Ahead(s.pending[0], s.now) % I32 < I31
  {
    if s.pending != [] {
      HeadIsNearest(s);
      NarrowingShrinks(Ahead(s.pending[0], s.now));
    }
  }

  /** A timer 2^31 ms ahead makes the loop wait forever although it is pending. */
  lemma SleepsPastFarTimer()
    ensures var s := State([Entry(I31, Info(0, 0, 0))], 0, 1, {});
            WellFormed(s) && WaitTime(s, -1) == -1 && !WakesInTime(s, WaitTime(s, -1))
  {
  }
}
