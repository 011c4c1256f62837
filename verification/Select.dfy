/** ep_select_state_t: the select back end with its buffer of ready descriptors. */
module Selects {
  import opened SelectLaws
  import opened SelectSpec

  class SelectState {
    /** Never filled. */
    var fds: FdSet
    var rfds: FdSet
    var wfds: FdSet
    var efds: FdSet
    var maxfd: int
    var ready: int
    const data: array<int>
    const ee: array<SelectEvent>

    ghost predicate Valid()
      reads this
    {
      data.Length == ee.Length == FD_SETSIZE && fds == {}
    }

    ghost function View(): Poll
      requires Valid()
      reads this, data, ee
    {
      Poll(Interest(rfds, wfds, efds), maxfd, data[..], ready, ee[..])
    }

    /** ep_select_init */
    constructor ()
      ensures Valid() && fresh(data) && fresh(ee)
      ensures View().want == Interest({}, {}, {}) && maxfd == -1 && ready == 0
      ensures forall fd :: 0 <= fd < FD_SETSIZE ==> data[fd] == 0
    {
      data := new int[FD_SETSIZE](_ => 0);
      ee := new SelectEvent[FD_SETSIZE];
      fds, rfds, wfds, efds := {}, {}, {}, {};
      ready, maxfd := 0, -1;
    }

    /** ep_select_add; a negative descriptor is outside of what FD_SET allows. */
    method Add(fd: int, events: bv32, d: int) returns (ret: int)
      requires Valid() && 0 <= fd
      modifies this`rfds, this`wfds, this`efds, this`maxfd, data
      ensures Valid() && ret == (if fd < FD_SETSIZE then 0 else -1)
      ensures View() == Register(old(View()), Registration.Add(fd, events, d))
      ensures if fd < FD_SETSIZE then Added(old(View()), View(), fd, events, d) else View() == old(View())
    {
      if fd >= FD_SETSIZE {
        return -1;
      }
      RegisterAdds(View(), fd, events, d);
      if events & EP_READABLE != 0 {
        rfds := rfds + {fd};
      }
      if events & EP_WRITABLE != 0 {
        wfds := wfds + {fd};
      }
      if events & EP_EXCEPT != 0 {
        efds := efds + {fd};
      }
      if fd > maxfd {
        maxfd := fd;
      }
      data[fd] := d;
      ret := 0;
    }

    /** ep_select_mod */
    method Mod(fd: int, events: bv32, d: int) returns (ret: int)
      requires Valid() && 0 <= fd
      modifies this`rfds, this`wfds, this`efds, data
      ensures Valid() && ret == (if fd < FD_SETSIZE then 0 else -1)
      ensures View() == Register(old(View()), Registration.Mod(fd, events, d))
      ensures if fd < FD_SETSIZE then Modified(old(View()), View(), fd, events, d) else View() == old(View())
    {
      if fd >= FD_SETSIZE {
        return -1;
      }
      RegisterModifies(View(), fd, events, d);
      rfds := if events & EP_READABLE != 0 then rfds + {fd} else rfds - {fd};
      wfds := if events & EP_WRITABLE != 0 then wfds + {fd} else wfds - {fd};
      efds := if events & EP_EXCEPT != 0 then efds + {fd} else efds - {fd};
      data[fd] := d;
      ret := 0;
      ghost var want := Without(Interest(old(rfds), old(wfds), old(efds)), fd);
      assert rfds == With(want, fd, events).readable && wfds == With(want, fd, events).writable;
      assert efds == With(want, fd, events).except;
    }

    /** ep_select_del */
    method Del(fd: int) returns (ret: int)
      requires Valid() && 0 <= fd < FD_SETSIZE
      modifies this`fds, this`rfds, this`wfds, this`efds, this`maxfd
      ensures Valid() && ret == 0
      ensures View() == Register(old(View()), Registration.Del(fd)) && Deleted(old(View()), View(), fd)
    {
      RegisterDeletes(View(), fd);
      fds, rfds, wfds, efds := fds - {fd}, rfds - {fd}, wfds - {fd}, efds - {fd};
      if fd == maxfd {
        var max := fd - 1;
        while max >= 0 && max !in fds
          invariant -1 <= max < FD_SETSIZE && fds == {}
          decreases max
        {
          max := max - 1;
        }
        maxfd := max;
      }
      ret := 0;
    }

    /** One call of the registration functions. */
    method Do(r: Registration) returns (ret: int)
      requires Valid() && LegalRegistration(r)
      modifies this`fds, this`rfds, this`wfds, this`efds, this`maxfd, data
      ensures Valid() && View() == Register(old(View()), r)
    {
      match r {
        case Add(fd, events, d) => ret := Add(fd, events, d);
        case Mod(fd, events, d) => ret := Mod(fd, events, d);
        case Del(fd) => ret := Del(fd);
      }
    }

    /** The three FD_ISSET tests of ep_select_wait. */
    static method EventsOf(p: Polled, i: nat) returns (events: bv32)
      ensures events == Mask(p, i) && Tells(events, p, i)
    {
      MaskTells(p, i);
      events := 0;
      if i in p.readable {
        events := events | EP_READABLE;
      }
      if i in p.writable {
        events := events | EP_WRITABLE;
      }
      if i in p.except {
        events := events | EP_EXCEPT;
      }
    }

    /** One turn of the compaction loop of ep_select_wait. */
    method Compact(p: Polled, i: nat, j: nat, ghost was: seq<SelectEvent>) returns (j': nat)
      requires Valid() && i < FD_SETSIZE == |was| && j == |Fds(p, i)|
      requires Filled(p, data[..], was, i, ee[..])
      modifies ee
      ensures j' == |Fds(p, i + 1)| && Filled(p, data[..], was, i + 1, ee[..])
    {
      ghost var es := ee[..];
      FillStep(p, data[..], was, i, es);
      var events := EventsOf(p, i);
      j' := j;
      if events != 0 {
        ee[j] := SelectEvent(data[i], events);
        j' := j + 1;
      }
    }

    /** The compaction loop: it stops early only when all ready descriptors are listed. */
    method Scan(p: Polled, ret: int)
      requires Valid() && ret == p.ret && (ret > 0 ==> |Fds(p, FD_SETSIZE)| <= ret)
      modifies ee
      ensures Filled(p, data[..], old(ee[..]), if ret > 0 then FD_SETSIZE else 0, ee[..])
    {
      var i, j := 0, 0;
      ghost var was := ee[..];
      while j < ret && i < FD_SETSIZE
        invariant ret <= 0 ==> i == 0
        invariant 0 <= i <= FD_SETSIZE && j == |Fds(p, i)|
        invariant Filled(p, data[..], was, i, ee[..])
      {
        j := Compact(p, i, j, was);
        i := i + 1;
      }
      if ret > 0 {
        FillEnds(p, data[..], was, i, FD_SETSIZE, ee[..]);
      }
    }

    /** ep_select_wait; `p` is what select reported. The ready descriptors are listed in
        front of the buffer, each once, and all of them however many bits select counted. */
    method Wait(p: Polled) returns (ret: int)
      requires Valid() && Promised(p)
      modifies this`ready, ee
      ensures Valid() && ret == p.ret && View() == WaitFor(old(View()), p)
    {
      if p.ret >= 0 {
        CountIffOneSetEach(p);
      }
      ret := p.ret;
      ready := ret;
      Scan(p, ret);
    }

    /** ep_select_fetch with both out-parameters given. An index behind the buffer reads
        memory that this model knows nothing about. */
    method Fetch() returns (ret: int, event: Delivery)
      requires Valid()
      modifies this`ready
      ensures Valid() && View() == FetchFrom(old(View()))
      ensures ret == |Buffer(old(View()))| && event == Last(Buffer(old(View())))
    {
      ret, event := 0, Nothing;
      if ready > 0 {
        ret := ready;
        ready := ready - 1;
        event := if ready < FD_SETSIZE then Delivered(ee[ready]) else Beyond;
      }
    }

    /** The fetches of one ep_for_each whose body breaks out of it in round `stop`, the first
        being round 0, if there are so many. */
    method Sweep(stop: nat) returns (events: seq<Delivery>, rets: seq<int>)
      requires Valid()
      modifies this`ready
      ensures Valid() && View() == FetchTimes(old(View()), stop + 1)
      ensures events == Taken(Buffer(old(View())), stop + 1)
      ensures |rets| == |events| && forall k :: 0 <= k < |rets| ==> rets[k] == |Buffer(old(View()))| - k
    {
      ghost var b, start := Buffer(View()), View();
      events, rets := [], [];
      FetchStep(start, 0);
      var ret, event := Fetch();
      while ret > 0
        invariant Valid() && View() == FetchTimes(start, |events| + 1)
        invariant |events| <= |b| && |events| <= stop && ret == |b| - |events| && event == Last(b[..ret])
        invariant events == Taken(b, |events|)
        invariant |rets| == |events| && forall k :: 0 <= k < |rets| ==> rets[k] == |b| - k
      {
        TakeStep(b, |events|);
        FetchStep(start, |events| + 1);
        events := events + [event];
        rets := rets + [ret];
        if |events| == stop + 1 {
          break;
        }
        ret, event := Fetch();
      }
    }

    /** The fetches of one ep_for_each that runs to its end. */
    method Drain() returns (events: seq<Delivery>, rets: seq<int>)
      requires Valid()
      modifies this`ready
      ensures Valid() && ready <= 0 && events == Reversed(Buffer(old(View())))
      ensures |rets| == |events| && forall k :: 0 <= k < |rets| ==> rets[k] == |rets| - k
    {
      ghost var b := Buffer(View());
      events, rets := Sweep(if ready > 0 then ready else 0);
      TakesAll(b, |b| + 1);
    }

    /** A wait and the fetches after it deliver, last, each ready descriptor with its
        registered data, in descending order; and nothing else if and only if none is in
        two sets. */
    method WaitAndDrain(p: Polled) returns (events: seq<Delivery>)
      requires Valid() && Promised(p)
      modifies this`ready, ee
      ensures Valid() && ready <= 0 && events == Reversed(Batch(old(View()), p))
      ensures p.ret >= 0 ==> TellsLast(events, p, data[..])
      ensures p.ret >= 0 ==> (|events| == |Fds(p, FD_SETSIZE)| <==> OneSetEach(p))
      ensures p.ret >= 0 ==>
                (events == Reversed(AsDelivered(Listing(p, data[..], FD_SETSIZE))) <==> OneSetEach(p))
    {
      var rets;
      if p.ret >= 0 {
        CountIffOneSetEach(p);
        BatchTellsLast(View(), p);
        BatchIsListing(View(), p);
        ReversedInjective(Batch(View(), p), AsDelivered(Listing(p, data[..], FD_SETSIZE)));
      }
      var ret := Wait(p);
      events, rets := Drain();
    }
  }
}
