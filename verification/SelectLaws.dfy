/** Theorems about registered descriptors: what is watched, and what becomes of a sequence of
    registrations. */
module SelectLaws {
  import opened SelectSpec
  import opened Sequences

  // ---- What is watched --------------------------------------------------------------

  /** What select is asked about. */
  lemma WatchedIs(p: Poll, kind: Kind, fd: int)
    ensures In(Watched(p), kind, fd) <==> In(p.want, kind, fd) && fd <= p.maxfd
  {
  }

  /** Modifying a descriptor above maxfd is accepted, but it is not watched. */
  lemma ModUnwatched(p: Poll, fd: int, events: bv32, d: int)
    requires 0 <= fd && p.maxfd < fd
    ensures Watched(Register(p, Mod(fd, events, d))) == Watched(p)
  {
    if fd < FD_SETSIZE {
      var q := Register(p, Mod(fd, events, d));
      RegisterModifies(p, fd, events, d);
      SameWatch(p, q);
    }
  }

  lemma SameWatch(p: Poll, q: Poll)
    requires forall kind, g :: In(q.want, kind, g) && g <= q.maxfd <==> In(p.want, kind, g) && g <= p.maxfd
    ensures Watched(q) == Watched(p)
  {
    forall kind, g
      ensures In(Watched(q), kind, g) <==> In(Watched(p), kind, g)
    {
      WatchedIs(q, kind, g);
      WatchedIs(p, kind, g);
      assert In(q.want, kind, g) && g <= q.maxfd <==> In(p.want, kind, g) && g <= p.maxfd;
    }
    SameInterest(Watched(q), Watched(p));
  }

  lemma SameInterest(a: Interest, b: Interest)
    requires forall kind, g :: In(a, kind, g) <==> In(b, kind, g)
    ensures a == b
  {
    forall g
      ensures g in a.readable <==> g in b.readable
    {
      assert In(a, Readable, g) <==> In(b, Readable, g);
    }
    forall g
      ensures g in a.writable <==> g in b.writable
    {
      assert In(a, Writable, g) <==> In(b, Writable, g);
    }
    forall g
      ensures g in a.except <==> g in b.except
    {
      assert In(a, Except, g) <==> In(b, Except, g);
    }
    assert a.readable == b.readable && a.writable == b.writable && a.except == b.except;
  }

  /** A modification is effective if the descriptor is watched then for exactly the requested
      events, and the others as before. */
  ghost predicate TakesEffect(p: Poll, q: Poll, fd: int, events: bv32) {
    forall kind, g ::
      In(Watched(q), kind, g) <==> if g == fd then Asks(events, kind) else In(Watched(p), kind, g)
  }

  /** It is if and only if the descriptor is not above the largest that was added, or nothing
      is requested. */
  lemma ModWatchesIff(p: Poll, fd: int, events: bv32, d: int)
    requires 0 <= fd < FD_SETSIZE
    ensures TakesEffect(p, Register(p, Mod(fd, events, d)), fd, events)
            <==> fd <= p.maxfd || forall kind :: !Asks(events, kind)
  {
    var q := Register(p, Mod(fd, events, d));
    RegisterModifies(p, fd, events, d);
    forall kind, g
      ensures In(Watched(q), kind, g) <==> In(q.want, kind, g) && g <= q.maxfd
      ensures In(Watched(p), kind, g) <==> In(p.want, kind, g) && g <= p.maxfd
    {
      WatchedIs(q, kind, g);
      WatchedIs(p, kind, g);
    }
    if fd > p.maxfd && exists kind :: Asks(events, kind) {
      var kind :| Asks(events, kind);
      assert !In(Watched(q), kind, fd);
    }
  }

  /** A deletion is clean if the others are watched as before. */
  ghost predicate SparesOthers(p: Poll, q: Poll, fd: int) {
    forall kind, g :: In(Watched(q), kind, g) <==> In(Watched(p), kind, g) && g != fd
  }

  /** It is if and only if the descriptor is not the largest that was added, or nothing else
      is watched: the new maximum is sought in a set that is never filled. */
  lemma DelUnwatchesOthers(p: Poll, fd: int)
    requires 0 <= fd < FD_SETSIZE
    ensures SparesOthers(p, Register(p, Del(fd)), fd)
            <==> fd != p.maxfd || forall kind, g :: In(Watched(p), kind, g) ==> g == fd
  {
    var q := Register(p, Del(fd));
    RegisterDeletes(p, fd);
    forall kind, g
      ensures In(Watched(q), kind, g) <==> In(q.want, kind, g) && g <= q.maxfd
      ensures In(Watched(p), kind, g) <==> In(p.want, kind, g) && g <= p.maxfd
    {
      WatchedIs(q, kind, g);
      WatchedIs(p, kind, g);
    }
    assert forall kind, g :: In(p.want, kind, g) ==> g >= 0;
  }

  /** A deleted descriptor is wanted and watched for nothing. */
  lemma DelForgets(p: Poll, fd: int, kind: Kind)
    requires 0 <= fd < FD_SETSIZE
    ensures var q := Register(p, Del(fd));
            !In(q.want, kind, fd) && !In(Watched(q), kind, fd)
  {
    RegisterDeletes(p, fd);
    WatchedIs(Register(p, Del(fd)), kind, fd);
  }

  /** The back end as ep_select_init leaves it, some memory apart. */
  function NewPoll(data: Table, ee: Entries): Poll {
    Poll(Interest({}, {}, {}), -1, data, 0, ee)
  }

  /** Adding 3 and then modifying 5: accepted, but 5 is not watched. */
  lemma ModInVain(data: Table, ee: Entries)
    ensures var p := Register(NewPoll(data, ee), Add(3, EP_READABLE, 0));
            var q := Register(p, Mod(5, EP_READABLE, 0));
            q.want.readable == {3, 5} && Watched(q).readable == {3}
  {
    var p := Register(NewPoll(data, ee), Add(3, EP_READABLE, 0));
    var q := Register(p, Mod(5, EP_READABLE, 0));
    assert EP_READABLE & EP_READABLE == 1;
    assert q.want.readable == {3, 5} && UpTo({3, 5}, 3) == {3};
  }

  /** Adding 3 and 5 and then deleting 5: 3 is still wanted, but no longer watched. */
  lemma DelBlinds(data: Table, ee: Entries)
    ensures var p := Register(NewPoll(data, ee), Add(3, EP_READABLE, 0));
            var q := Register(Register(p, Add(5, EP_READABLE, 0)), Del(5));
            q.want.readable == {3} && Watched(q) == Interest({}, {}, {})
  {
    var p := Register(NewPoll(data, ee), Add(3, EP_READABLE, 0));
    var q := Register(Register(p, Add(5, EP_READABLE, 0)), Del(5));
    assert EP_READABLE & EP_READABLE == 1;
    assert q.want.readable == {3} && q.maxfd == -1;
    assert Watched(q) == Interest({}, {}, {});
  }

  // ---- Sequences of registrations ----------------------------------------------------------

  predicate Stores(r: Registration, fd: int) {
    !r.Del? && r.fd == fd
  }

  predicate Asked(r: Registration, kind: Kind, fd: int) {
    Stores(r, fd) && Asks(r.events, kind)
  }

  predicate Dropped(r: Registration, kind: Kind, fd: int) {
    r.fd == fd && (r.Del? || (r.Mod? && !Asks(r.events, kind)))
  }

  ghost predicate NoneDrops(rs: seq<Registration>, i: nat, kind: Kind, fd: int) {
    forall j :: i <= j < |rs| ==> !Dropped(rs[j], kind, fd)
  }

  ghost predicate NoneStores(rs: seq<Registration>, i: nat, fd: int) {
    forall j :: i <= j < |rs| ==> !Stores(rs[j], fd)
  }

  /** Wanted after the registrations: some add or mod asked for it, or it was wanted before,
      and no del and no mod without that event came after that. */
  ghost predicate WantedAfter(rs: seq<Registration>, kind: Kind, fd: int, was: bool) {
    || (exists i :: 0 <= i < |rs| && Asked(rs[i], kind, fd) && NoneDrops(rs, i + 1, kind, fd))
    || (was && NoneDrops(rs, 0, kind, fd))
  }

  /** The data after the registrations: that of the last add or mod, or as it was. */
  ghost predicate DataAfter(rs: seq<Registration>, fd: int, was: int, d: int) {
    && (forall i :: 0 <= i < |rs| && Stores(rs[i], fd) && NoneStores(rs, i + 1, fd) ==> d == rs[i].data)
    && (NoneStores(rs, 0, fd) ==> d == was)
  }

  /** The largest descriptor after the registrations; deleting it leaves none. */
  function Top(rs: seq<Registration>, was: int): int {
    if rs == [] then was
    else
      var r := rs[0];
      Top(rs[1..],
          if !(0 <= r.fd < 1024) then was
          else if r.Add? && was < r.fd then r.fd
          else if r.Del? && was == r.fd then -1
          else was)
  }

  lemma DropsBehind(rs: seq<Registration>, i: nat, kind: Kind, fd: int)
    requires rs != []
    ensures NoneDrops(rs, i + 1, kind, fd) <==> NoneDrops(rs[1..], i, kind, fd)
  {
    assert forall j :: 0 < j < |rs| ==> rs[j] == rs[1..][j - 1];
    assert forall j :: 0 <= j < |rs| - 1 ==> rs[1..][j] == rs[j + 1];
  }

  lemma StoresBehind(rs: seq<Registration>, i: nat, fd: int)
    requires rs != []
    ensures NoneStores(rs, i + 1, fd) <==> NoneStores(rs[1..], i, fd)
  {
    assert forall j :: 0 < j < |rs| ==> rs[j] == rs[1..][j - 1];
    assert forall j :: 0 <= j < |rs| - 1 ==> rs[1..][j] == rs[j + 1];
  }

  lemma WantedCons(rs: seq<Registration>, kind: Kind, fd: int, was: bool)
    requires rs != []
    ensures WantedAfter(rs, kind, fd, was) <==>
            WantedAfter(rs[1..], kind, fd, Asked(rs[0], kind, fd) || (was && !Dropped(rs[0], kind, fd)))
  {
    var rest := rs[1..];
    DropsBehind(rs, 0, kind, fd);
    forall i | 0 <= i < |rest|
      ensures Asked(rest[i], kind, fd) && NoneDrops(rest, i + 1, kind, fd)
              <==> Asked(rs[i + 1], kind, fd) && NoneDrops(rs, i + 2, kind, fd)
    {
      DropsBehind(rs, i + 1, kind, fd);
    }
    if exists i :: 0 < i < |rs| && Asked(rs[i], kind, fd) && NoneDrops(rs, i + 1, kind, fd) {
      var i :| 0 < i < |rs| && Asked(rs[i], kind, fd) && NoneDrops(rs, i + 1, kind, fd);
      assert Asked(rest[i - 1], kind, fd) && NoneDrops(rest, i - 1 + 1, kind, fd);
    }
  }

  lemma DataCons(rs: seq<Registration>, fd: int, was: int, d: int)
    requires rs != [] && DataAfter(rs[1..], fd, if Stores(rs[0], fd) then rs[0].data else was, d)
    ensures DataAfter(rs, fd, was, d)
  {
    StoresBehind(rs, 0, fd);
    forall i | 0 < i < |rs|
      ensures NoneStores(rs, i + 1, fd) <==> NoneStores(rs[1..], i, fd)
    {
      StoresBehind(rs, i, fd);
    }
  }

  lemma OneMore(p: Poll, r: Registration, kind: Kind, fd: int)
    requires 0 <= fd < FD_SETSIZE
    ensures In(Register(p, r).want, kind, fd) <==>
            Asked(r, kind, fd) || (In(p.want, kind, fd) && !Dropped(r, kind, fd))
    ensures Register(p, r).data[fd] == if Stores(r, fd) then r.data else p.data[fd]
  {
    if 0 <= r.fd < FD_SETSIZE {
      match r {
        case Add(g, events, d) => RegisterAdds(p, g, events, d);
        case Mod(g, events, d) => RegisterModifies(p, g, events, d);
        case Del(g) => RegisterDeletes(p, g);
      }
    }
  }

  /** After any sequence of registrations. */
  lemma {:induction false} RegisteredLast(p: Poll, rs: seq<Registration>, kind: Kind, fd: int)
    requires 0 <= fd < FD_SETSIZE
    ensures In(RegisterAll(p, rs).want, kind, fd) <==> WantedAfter(rs, kind, fd, In(p.want, kind, fd))
    ensures DataAfter(rs, fd, p.data[fd], RegisterAll(p, rs).data[fd])
    decreases |rs|
  {
    if rs != [] {
      var q := Register(p, rs[0]);
      OneMore(p, rs[0], kind, fd);
      RegisteredLast(q, rs[1..], kind, fd);
      WantedCons(rs, kind, fd, In(p.want, kind, fd));
      DataCons(rs, fd, p.data[fd], RegisterAll(p, rs).data[fd]);
    }
  }

  lemma {:induction false} RegisteredTop(p: Poll, rs: seq<Registration>)
    ensures RegisterAll(p, rs).maxfd == Top(rs, p.maxfd)
    decreases |rs|
  {
    if rs != [] {
      RegisteredTop(Register(p, rs[0]), rs[1..]);
    }
  }

  // ---- What the slots hold --------------------------------------------------------------------

  /** A wait stores what select returned, and touches nothing else than that and the entries;
      an error leaves them as they are. */
  lemma WaitStores(p: Poll, polled: Polled)
    ensures var q := WaitFor(p, polled);
            && q.ready == polled.ret && q.want == p.want && q.maxfd == p.maxfd && q.data == p.data
            && (polled.ret <= 0 ==> q.ee == p.ee)
  {
  }

  /** After a wait the slots in front are for the ready descriptors in ascending order, the
      slots behind them are as they were before, and then the buffer ends. */
  lemma BatchSlots(p: Poll, polled: Polled, k: nat)
    requires Promised(polled) && k < |Batch(p, polled)|
    ensures var fds, slot := Fds(polled, FD_SETSIZE), Batch(p, polled)[k];
            if k < |fds| then IsFor(slot, polled, p.data, fds[k])
            else slot == if k < 1024 then Delivered(p.ee[k]) else Beyond
  {
    ListingInOrder(polled, p.data, FD_SETSIZE);
    if k < |Fds(polled, FD_SETSIZE)| {
      assert Batch(p, polled)[k] == Delivered(Listing(polled, p.data, FD_SETSIZE)[k]);
    }
  }

  /** The slot is for the descriptor: its data, and a mask that tells of it. */
  ghost predicate IsFor(slot: Delivery, p: Polled, data: Table, fd: nat)
    requires fd < FD_SETSIZE
  {
    slot.Delivered? && slot.event.data == data[fd] && Tells(slot.event.events, p, fd)
  }

  /** The first slots, or the last deliveries, are those of the ready descriptors. */
  ghost predicate TellsFirst(b: seq<Delivery>, p: Polled, data: Table) {
    var fds := Fds(p, FD_SETSIZE);
    |fds| <= |b| && forall k :: 0 <= k < |fds| ==> IsFor(b[k], p, data, fds[k])
  }

  ghost predicate TellsLast(events: seq<Delivery>, p: Polled, data: Table) {
    var fds := Fds(p, FD_SETSIZE);
    |fds| <= |events| && forall k :: 0 <= k < |fds| ==> IsFor(events[|events| - 1 - k], p, data, fds[k])
  }

  lemma BatchTellsFirst(p: Poll, polled: Polled)
    requires Promised(polled) && polled.ret >= 0
    ensures TellsFirst(Batch(p, polled), polled, p.data)
  {
    CountIffOneSetEach(polled);
    forall k | 0 <= k < |Fds(polled, FD_SETSIZE)|
      ensures IsFor(Batch(p, polled)[k], polled, p.data, Fds(polled, FD_SETSIZE)[k])
    {
      BatchSlots(p, polled, k);
    }
  }

  lemma BatchTellsLast(p: Poll, polled: Polled)
    requires Promised(polled) && polled.ret >= 0
    ensures TellsLast(Reversed(Batch(p, polled)), polled, p.data)
  {
    BatchTellsFirst(p, polled);
    ReversedTells(Batch(p, polled), polled, p.data);
  }

  lemma ReversedTells(b: seq<Delivery>, p: Polled, data: Table)
    requires TellsFirst(b, p, data)
    ensures TellsLast(Reversed(b), p, data)
  {
    forall k | 0 <= k < |Fds(p, FD_SETSIZE)|
      ensures IsFor(Reversed(b)[|b| - 1 - k], p, data, Fds(p, FD_SETSIZE)[k])
    {
      assert Reversed(b)[|b| - 1 - k] == b[k];
    }
  }
}
