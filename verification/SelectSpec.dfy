/** What one call of select reports, and the list of ready descriptors made from it. */
module SelectSpec {
  import opened Sequences

  const FD_SETSIZE: nat := 1024

  const EP_READABLE: bv32 := 1
  const EP_WRITABLE: bv32 := 2
  const EP_EXCEPT: bv32 := 4

  /** fd_set */
  type FdSet = s: set<int> | forall fd :: fd in s ==> 0 <= fd < FD_SETSIZE

  /** The value select returns and the three sets it leaves. */
  datatype Polled = Polled(ret: int, readable: FdSet, writable: FdSet, except: FdSet)

  /** What select promises: an error, or the number of all bits in the three sets. */
  predicate Promised(p: Polled) {
    p.ret == -1 || p.ret == |p.readable| + |p.writable| + |p.except|
  }

  /** The descriptors select is asked about. */
  datatype Interest = Interest(readable: FdSet, writable: FdSet, except: FdSet)

  predicate Reports(want: Interest, p: Polled) {
    p.readable <= want.readable && p.writable <= want.writable && p.except <= want.except
  }

  /** No descriptor is wanted for two kinds of events. */
  predicate Disjoint(want: Interest) {
    && want.readable * want.writable == {} && want.readable * want.except == {}
    && want.writable * want.except == {}
  }

  /** The three kinds of events. */
  datatype Kind = Readable | Writable | Except

  /** The bits of a mask, as programs know them. */
  predicate Asks(events: bv32, kind: Kind) {
    match kind
    case Readable => events & 1 != 0
    case Writable => events & 2 != 0
    case Except => events & 4 != 0
  }

  predicate In(want: Interest, kind: Kind, fd: int) {
    match kind
    case Readable => fd in want.readable
    case Writable => fd in want.writable
    case Except => fd in want.except
  }

  predicate Ready(p: Polled, kind: Kind, fd: int) {
    match kind
    case Readable => fd in p.readable
    case Writable => fd in p.writable
    case Except => fd in p.except
  }

  /** The mask has the bits of the kinds that are ready, and no other. */
  ghost predicate Tells(events: bv32, p: Polled, fd: int) {
    (forall kind :: Asks(events, kind) <==> Ready(p, kind, fd)) && events & 0xFFFF_FFF8 == 0
  }

  function Any(p: Polled): set<int> {
    p.readable + p.writable + p.except
  }

  predicate OneSetEach(p: Polled) {
    p.readable * p.writable == {} && p.readable * p.except == {} && p.writable * p.except == {}
  }

  function Mask(p: Polled, fd: nat): (m: bv32)
    ensures m != 0 <==> fd in Any(p)
  {
    var r := if fd in p.readable then EP_READABLE else 0;
    var w := if fd in p.writable then r | EP_WRITABLE else r;
    if fd in p.except then w | EP_EXCEPT else w
  }

  lemma MaskTells(p: Polled, fd: nat)
    ensures Tells(Mask(p, fd), p, fd)
  {
    var r, w, e := fd in p.readable, fd in p.writable, fd in p.except;
    assert Mask(p, fd) == (if r then 1 else 0) | (if w then 2 else 0) | (if e then 4 else 0);
    forall kind
      ensures Asks(Mask(p, fd), kind) <==> Ready(p, kind, fd)
    {
    }
  }

  /** The ready descriptors below `n` in ascending order. */
  function Fds(p: Polled, n: nat): (s: seq<nat>)
    ensures |s| <= n && forall k :: 0 <= k < |s| ==> s[k] < n
  {
    if n == 0 then []
    else if n - 1 in Any(p) then Fds(p, n - 1) + [n - 1]
    else Fds(p, n - 1)
  }

  lemma {:induction false} FdsAscend(p: Polled, n: nat)
    ensures forall i, j :: 0 <= i < j < |Fds(p, n)| ==> Fds(p, n)[i] < Fds(p, n)[j]
    ensures forall fd: nat :: fd in Fds(p, n) <==> fd < n && fd in Any(p)
  {
    if n > 0 {
      FdsAscend(p, n - 1);
    }
  }

  /** As many are listed as are ready. */
  lemma {:induction false} FdsCount(p: Polled, n: nat)
    ensures |Fds(p, n)| == |set fd | fd in Any(p) && fd < n|
  {
    if n == 0 {
      assert (set fd | fd in Any(p) && fd < n) == {};
    } else {
      FdsCount(p, n - 1);
      var below := set fd | fd in Any(p) && fd < n - 1;
      var upTo := set fd | fd in Any(p) && fd < n;
      assert upTo == if n - 1 in Any(p) then below + {n - 1} else below;
    }
  }

  /** The bits of the three sets are as many as the descriptors in them exactly when no
      descriptor is in two. */
  lemma CountIffOneSetEach(p: Polled)
    requires Promised(p) && p.ret >= 0
    ensures |Any(p)| <= p.ret
    ensures |Fds(p, FD_SETSIZE)| == |Any(p)|
    ensures |Fds(p, FD_SETSIZE)| == p.ret <==> OneSetEach(p)
  {
    FdsCount(p, FD_SETSIZE);
    assert (set fd | fd in Any(p) && fd < FD_SETSIZE) == Any(p);
    UnionCount(p.readable, p.writable);
    UnionCount(p.readable + p.writable, p.except);
    assert (p.readable + p.writable) * p.except == p.readable * p.except + p.writable * p.except;
  }

  lemma UnionCount(a: set<int>, b: set<int>)
    ensures |a + b| <= |a| + |b|
    ensures |a + b| == |a| + |b| <==> a * b == {}
  {
    assert |a + b| + |a * b| == |a| + |b|;
  }

  /** Seen from what a program registers: no report can have a descriptor in two sets if and
      only if no descriptor is registered in two. */
  lemma NeverTwiceIffDisjoint(want: Interest)
    ensures Disjoint(want) <==> forall p: Polled :: Promised(p) && Reports(want, p) ==> OneSetEach(p)
  {
    var all := Polled(|want.readable| + |want.writable| + |want.except|, want.readable, want.writable, want.except);
    assert Promised(all) && Reports(want, all);
    assert OneSetEach(all) <==> Disjoint(want);
    forall p: Polled | Disjoint(want) && Promised(p) && Reports(want, p)
      ensures OneSetEach(p)
    {
      DisjointReports(want, p);
    }
  }

  lemma DisjointReports(want: Interest, p: Polled)
    requires Disjoint(want) && Reports(want, p)
    ensures OneSetEach(p)
  {
    assert forall fd :: fd in p.readable * p.writable ==> fd in want.readable * want.writable;
    assert forall fd :: fd in p.readable * p.except ==> fd in want.readable * want.except;
    assert forall fd :: fd in p.writable * p.except ==> fd in want.writable * want.except;
  }

  /** A descriptor in two sets is counted twice but listed once. */
  lemma CountedTwice()
    ensures exists p: Polled :: Promised(p) && p.ret == 2 && |Fds(p, FD_SETSIZE)| == 1
  {
    var p := Polled(2, {5}, {5}, {});
    CountIffOneSetEach(p);
    assert Any(p) == {5};
  }

  datatype SelectEvent = SelectEvent(data: int, events: bv32)

  /** The entries for the ready descriptors below `n`. */
  function Listing(p: Polled, data: seq<int>, n: nat): (es: seq<SelectEvent>)
    requires n <= |data|
    ensures |es| == |Fds(p, n)| <= n
  {
    if n == 0 then []
    else if n - 1 in Any(p) then Listing(p, data, n - 1) + [SelectEvent(data[n - 1], Mask(p, n - 1))]
    else Listing(p, data, n - 1)
  }

  /** Entry number k tells of the k-th ready descriptor, with its registered data. */
  lemma {:induction false} ListingInOrder(p: Polled, data: seq<int>, n: nat)
    requires n <= |data|
    ensures forall k {:trigger Listing(p, data, n)[k]} :: 0 <= k < |Listing(p, data, n)| ==>
              var e, fd := Listing(p, data, n)[k], Fds(p, n)[k];
              e.data == data[fd] && Tells(e.events, p, fd)
  {
    if n > 0 {
      ListingInOrder(p, data, n - 1);
      MaskTells(p, n - 1);
    }
  }

  /** The buffer `es` lists the ready descriptors below `n`, and behind them is as it `was`. */
  ghost predicate Filled(p: Polled, data: seq<int>, was: seq<SelectEvent>, n: nat, es: seq<SelectEvent>)
    requires n <= |data|
  {
    |Fds(p, n)| <= |was| && es == Listing(p, data, n) + was[|Fds(p, n)|..]
  }

  lemma FillStep(p: Polled, data: seq<int>, was: seq<SelectEvent>, n: nat, es: seq<SelectEvent>)
    requires n < |data| == |was| && Filled(p, data, was, n, es)
    ensures |Fds(p, n)| <= n < |es|
    ensures var event := SelectEvent(data[n], Mask(p, n));
            Filled(p, data, was, n + 1, if Mask(p, n) != 0 then es[|Fds(p, n)| := event] else es)
  {
    if Mask(p, n) != 0 {
      ReplaceFirstOf(Listing(p, data, n), was, |Fds(p, n)|, SelectEvent(data[n], Mask(p, n)));
    }
  }

  lemma {:induction false} ListingGrows(p: Polled, data: seq<int>, m: nat, n: nat)
    requires m <= n <= |data|
    ensures |Fds(p, m)| <= |Fds(p, n)|
    ensures |Fds(p, m)| == |Fds(p, n)| ==> Listing(p, data, m) == Listing(p, data, n)
  {
    if m < n {
      ListingGrows(p, data, m, n - 1);
    }
  }

  /** With as many entries as there are ready descriptors the list is complete. */
  lemma FillEnds(p: Polled, data: seq<int>, was: seq<SelectEvent>, i: nat, n: nat, es: seq<SelectEvent>)
    requires i <= n <= |data| && Filled(p, data, was, i, es) && |Fds(p, n)| <= |Fds(p, i)|
    ensures Filled(p, data, was, n, es)
  {
    ListingGrows(p, data, i, n);
  }

  lemma ReplaceFirstOf(a: seq<SelectEvent>, b: seq<SelectEvent>, k: nat, e: SelectEvent)
    requires |a| == k < |b|
    ensures (a + b[k..])[k := e] == a + [e] + b[k + 1..]
  {
  }

  // ---- The state of the back end ----------------------------------------------------

  type Table = d: seq<int> | |d| == FD_SETSIZE witness seq(FD_SETSIZE, _ => 0)

  type Entries = es: seq<SelectEvent> | |es| == FD_SETSIZE witness seq(FD_SETSIZE, _ => SelectEvent(0, 0))

  /** The registered descriptors with their data, and the buffer `ee` with `ready` entries
      still to be fetched. */
  datatype Poll = Poll(want: Interest, maxfd: int, data: Table, ready: int, ee: Entries)

  datatype Registration =
    | Add(fd: int, events: bv32, data: int)
    | Mod(fd: int, events: bv32, data: int)
    | Del(fd: int)

  /** FD_SET and FD_CLR are defined for descriptors from 0 on; add and mod refuse those
      beyond FD_SETSIZE, del does not look. */
  predicate LegalRegistration(r: Registration) {
    0 <= r.fd && (r.Del? ==> r.fd < FD_SETSIZE)
  }

  function Without(want: Interest, fd: int): Interest {
    Interest(want.readable - {fd}, want.writable - {fd}, want.except - {fd})
  }

  function With(want: Interest, fd: int, events: bv32): Interest
    requires 0 <= fd < FD_SETSIZE
  {
    Interest(if events & EP_READABLE != 0 then want.readable + {fd} else want.readable,
             if events & EP_WRITABLE != 0 then want.writable + {fd} else want.writable,
             if events & EP_EXCEPT != 0 then want.except + {fd} else want.except)
  }

  function Register(p: Poll, r: Registration): Poll {
    if r.fd < 0 || r.fd >= FD_SETSIZE then p
    else match r
    case Add(fd, events, d) =>
      p.(want := With(p.want, fd, events), maxfd := if fd > p.maxfd then fd else p.maxfd, data := p.data[fd := d])
    case Mod(fd, events, d) => p.(want := With(Without(p.want, fd), fd, events), data := p.data[fd := d])
    case Del(fd) => p.(want := Without(p.want, fd), maxfd := if fd == p.maxfd then -1 else p.maxfd)
  }

  function RegisterAll(p: Poll, rs: seq<Registration>): Poll
    decreases |rs|
  {
    if rs == [] then p else RegisterAll(Register(p, rs[0]), rs[1..])
  }

  /** Registrations leave the buffer alone. */
  lemma {:induction false} RegisterKeepsBuffer(p: Poll, rs: seq<Registration>)
    ensures RegisterAll(p, rs).ready == p.ready && RegisterAll(p, rs).ee == p.ee
    decreases |rs|
  {
    if rs != [] {
      RegisterKeepsBuffer(Register(p, rs[0]), rs[1..]);
    }
  }

  /** What the three functions do, seen from outside: which descriptors are wanted for what,
      the data stored with them, and the largest one added. */
  ghost predicate Added(p: Poll, q: Poll, fd: int, events: bv32, d: int)
    requires 0 <= fd < FD_SETSIZE
  {
    && (forall kind, g :: In(q.want, kind, g) <==> In(p.want, kind, g) || (g == fd && Asks(events, kind)))
    && q.data[fd] == d && (forall g :: 0 <= g < FD_SETSIZE && g != fd ==> q.data[g] == p.data[g])
    && q.maxfd == (if fd > p.maxfd then fd else p.maxfd) && q.ready == p.ready && q.ee == p.ee
  }

  ghost predicate Modified(p: Poll, q: Poll, fd: int, events: bv32, d: int)
    requires 0 <= fd < FD_SETSIZE
  {
    && (forall kind, g :: In(q.want, kind, g) <==> if g == fd then Asks(events, kind) else In(p.want, kind, g))
    && q.data[fd] == d && (forall g :: 0 <= g < FD_SETSIZE && g != fd ==> q.data[g] == p.data[g])
    && q.maxfd == p.maxfd && q.ready == p.ready && q.ee == p.ee
  }

  ghost predicate Deleted(p: Poll, q: Poll, fd: int) {
    && (forall kind, g :: In(q.want, kind, g) <==> In(p.want, kind, g) && g != fd)
    && q.maxfd == (if fd == p.maxfd then -1 else p.maxfd)
    && q.data == p.data && q.ready == p.ready && q.ee == p.ee
  }

  lemma RegisterAdds(p: Poll, fd: int, events: bv32, d: int)
    requires 0 <= fd < FD_SETSIZE
    ensures Added(p, Register(p, Add(fd, events, d)), fd, events, d)
  {
  }

  lemma RegisterModifies(p: Poll, fd: int, events: bv32, d: int)
    requires 0 <= fd < FD_SETSIZE
    ensures Modified(p, Register(p, Mod(fd, events, d)), fd, events, d)
  {
  }

  lemma RegisterDeletes(p: Poll, fd: int)
    requires 0 <= fd < FD_SETSIZE
    ensures Deleted(p, Register(p, Del(fd)), fd)
  {
  }

  function UpTo(s: FdSet, maxfd: int): FdSet {
    set fd | fd in s && fd <= maxfd
  }

  /** What select is asked about: the registered descriptors up to maxfd. */
  function Watched(p: Poll): Interest {
    Interest(UpTo(p.want.readable, p.maxfd), UpTo(p.want.writable, p.maxfd), UpTo(p.want.except, p.maxfd))
  }

  // ---- The buffer ---------------------------------------------------------------------

  /** What a fetch hands out: nothing, an entry, or whatever lies behind the buffer. */
  datatype Delivery = Nothing | Delivered(event: SelectEvent) | Beyond

  function Slot(ee: Entries, k: nat): Delivery {
    if k < FD_SETSIZE then Delivered(ee[k]) else Beyond
  }

  /** What is still to be fetched, last slot first. */
  function Buffer(p: Poll): (b: seq<Delivery>)
    ensures |b| == if p.ready > 0 then p.ready else 0
    ensures forall k {:trigger b[k]} :: 0 <= k < |b| ==> b[k] == Slot(p.ee, k)
  {
    seq(if p.ready > 0 then p.ready else 0, k requires 0 <= k => Slot(p.ee, k))
  }

  /** ep_select_wait */
  function WaitFor(p: Poll, polled: Polled): Poll {
    if polled.ret <= 0 then p.(ready := polled.ret)
    else
      p.(ready := polled.ret, ee := Listing(polled, p.data, FD_SETSIZE) + p.ee[|Fds(polled, FD_SETSIZE)|..])
  }

  function FetchFrom(p: Poll): Poll {
    if p.ready > 0 then p.(ready := p.ready - 1) else p
  }

  /** `n` fetches, or as many as there are slots left. */
  function FetchTimes(p: Poll, n: nat): Poll {
    if p.ready <= 0 then p else p.(ready := if p.ready <= n then 0 else p.ready - n)
  }

  function Last(b: seq<Delivery>): Delivery {
    if b == [] then Nothing else b[|b| - 1]
  }

  function Front(b: seq<Delivery>): seq<Delivery> {
    if b == [] then [] else b[..|b| - 1]
  }

  lemma FetchTakesLast(p: Poll)
    ensures Buffer(FetchFrom(p)) == Front(Buffer(p))
  {
  }

  function Reversed(b: seq<Delivery>): (r: seq<Delivery>)
    ensures |r| == |b|
    ensures forall k :: 0 <= k < |r| ==> r[k] == b[|b| - 1 - k]
  {
    seq(|b|, k requires 0 <= k < |b| => b[|b| - 1 - k])
  }

  /** The slots that `n` fetches take, and those they leave. */
  function Taken(b: seq<Delivery>, n: nat): (t: seq<Delivery>)
    ensures |t| == if n <= |b| then n else |b|
  {
    Reversed(b)[..if n <= |b| then n else |b|]
  }

  function Untaken(b: seq<Delivery>, n: nat): seq<Delivery> {
    b[..if n <= |b| then |b| - n else 0]
  }

  lemma FetchTakesTimes(p: Poll, n: nat)
    ensures Buffer(FetchTimes(p, n)) == Untaken(Buffer(p), n)
  {
  }

  /** One fetch more. */
  lemma FetchStep(p: Poll, n: nat)
    ensures FetchFrom(FetchTimes(p, n)) == FetchTimes(p, n + 1)
    ensures n <= |Buffer(p)| ==> Buffer(FetchTimes(p, n)) == Buffer(p)[..|Buffer(p)| - n]
  {
  }

  lemma TakeStep(b: seq<Delivery>, n: nat)
    requires n < |b|
    ensures Taken(b, n + 1) == Taken(b, n) + [Last(b[..|b| - n])]
  {
  }

  lemma TakesAll(b: seq<Delivery>, n: nat)
    requires |b| <= n
    ensures Taken(b, n) == Reversed(b) && Untaken(b, n) == []
  {
  }

  lemma ReversedLast(b: seq<Delivery>)
    requires b != []
    ensures Reversed(b) == [Last(b)] + Reversed(Front(b))
  {
  }

  lemma {:induction false} ReversedSame(b: seq<Delivery>)
    ensures multiset(Reversed(b)) == multiset(b)
    decreases |b|
  {
    if b != [] {
      ReversedLast(b);
      ReversedSame(Front(b));
      assert b == Front(b) + [Last(b)];
    } else {
      assert Reversed(b) == b;
    }
  }

  /** Nothing is taken twice. */
  lemma TakenOnce(b: seq<Delivery>, n: nat)
    ensures multiset(Taken(b, n)) + multiset(Untaken(b, n)) == multiset(b)
  {
    var tail := b[|Untaken(b, n)|..];
    assert Taken(b, n) == Reversed(tail);
    ReversedSame(tail);
    assert b == Untaken(b, n) + tail;
  }

  lemma ReversedInjective(a: seq<Delivery>, b: seq<Delivery>)
    ensures Reversed(a) == Reversed(b) <==> a == b
  {
    if Reversed(a) == Reversed(b) {
      assert |a| == |b|;
      assert forall k :: 0 <= k < |a| ==> a[k] == Reversed(a)[|a| - 1 - k] && b[k] == Reversed(b)[|b| - 1 - k];
    }
  }

  /** The buffer right after a wait. */
  function Batch(p: Poll, polled: Polled): seq<Delivery> {
    Buffer(WaitFor(p, polled))
  }

  function AsDelivered(es: seq<SelectEvent>): (b: seq<Delivery>)
    ensures |b| == |es| && forall k {:trigger b[k]} :: 0 <= k < |b| ==> b[k] == Delivered(es[k])
  {
    seq(|es|, k requires 0 <= k < |es| => Delivered(es[k]))
  }

  /** A wait fills the buffer with exactly one entry per ready descriptor, its mask and its
      registered data, in ascending order, if and only if none is in two sets. */
  lemma BatchIsListing(p: Poll, polled: Polled)
    requires Promised(polled) && polled.ret >= 0
    ensures Batch(p, polled) == AsDelivered(Listing(polled, p.data, FD_SETSIZE)) <==> OneSetEach(polled)
  {
    var es := Listing(polled, p.data, FD_SETSIZE);
    CountIffOneSetEach(polled);
    if OneSetEach(polled) {
      assert polled.ret == |es|;
    }
  }

  /** The number of bits a program has registered. */
  function Bits(want: Interest): nat {
    |want.readable| + |want.writable| + |want.except|
  }

  /** A fetch reads behind the buffer if and only if select counts more bits than there are
      entries. */
  lemma BeyondIff(p: Poll, polled: Polled)
    ensures Beyond in Batch(p, polled) <==> polled.ret > FD_SETSIZE
  {
    var b := Batch(p, polled);
    if polled.ret > FD_SETSIZE {
      assert b[FD_SETSIZE] == Beyond;
    }
  }

  lemma ReportsFit(want: Interest, p: Polled)
    requires Promised(p) && Reports(want, p)
    ensures p.ret <= Bits(want)
  {
    SubsetCount(p.readable, want.readable);
    SubsetCount(p.writable, want.writable);
    SubsetCount(p.except, want.except);
  }

  lemma SubsetCount(a: set<int>, b: set<int>)
    requires a <= b
    ensures |a| <= |b|
  {
    assert b == a + (b - a);
  }

  /** Seen from what a program registers: no wait can lead behind the buffer if and only if
      no more bits are registered than there are entries. */
  lemma NeverBeyondIff(p: Poll, want: Interest)
    ensures Bits(want) <= FD_SETSIZE <==>
            forall polled: Polled :: Promised(polled) && Reports(want, polled) ==> Beyond !in Batch(p, polled)
  {
    var all := Polled(Bits(want), want.readable, want.writable, want.except);
    BeyondIff(p, all);
    assert Promised(all) && Reports(want, all);
    forall polled: Polled | Bits(want) <= FD_SETSIZE && Promised(polled) && Reports(want, polled)
      ensures Beyond !in Batch(p, polled)
    {
      ReportsFit(want, polled);
      BeyondIff(p, polled);
    }
  }

  /** All descriptors are registered for reading and one also for writing, and all are ready. */
  lemma ReadsBeyond(p: Poll)
    ensures exists polled: Polled ::
              && Promised(polled) && polled.writable == {0} && |polled.readable| == FD_SETSIZE && polled.except == {}
              && Beyond in Batch(p, polled)
  {
    var all := FdsBelow(FD_SETSIZE);
    var polled := Polled(FD_SETSIZE + 1, all, {0}, {});
    assert Promised(polled);
    BeyondIff(p, polled);
  }

  lemma {:induction false} FdsBelow(n: nat) returns (s: set<int>)
    ensures |s| == n && forall fd :: fd in s ==> 0 <= fd < n
  {
    s := {};
    if n > 0 {
      s := FdsBelow(n - 1);
      s := s + {n - 1};
    }
  }
}
