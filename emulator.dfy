/** The network emulator of prog2_gbn.c: the channel (tolayer3), the timer
    service (starttimer, stoptimer), the upper-layer sink (tolayer5), message
    arrivals (generate_next_arrival) and the event list they all act on.
    The emulator's globals are the fields of class Network; every method is
    proved against a function over NetState, the value of those globals, and the
    properties of the emulator are lemmas about those functions. The random
    source jimsrand() is the stream of draws rand(0), rand(1), ... of Config. */
module Emulator {
  import opened Wrappers
  import opened Packets
  import opened Events

  /** What init reads (loss and corruption probabilities, mean time between
      messages) and the stream of values jimsrand() returns. */
  datatype Config = Config(lossprob: real, corruptprob: real, lambda: real, rand: nat -> real)

  /** The emulator's globals: the event list, the clock, how many draws have been
      taken, the counters ntolayer3, nlost and ncorrupt, and the payloads handed
      to tolayer5 so far. */
  datatype NetState = NetState(evlist: seq<Event>, time: real, ndraws: nat,
                               ntolayer3: nat, nlost: nat, ncorrupt: nat,
                               delivered: seq<Data>)

  /** A call a protocol entity makes into the emulator. */
  datatype Call =
    | Send(from: Entity, pkt: Pkt)               // tolayer3
    | Start(entity: Entity, increment: real)     // starttimer
    | Stop(entity: Entity)                       // stoptimer
    | Deliver(entity: Entity, data: Data)        // tolayer5

  /** Every draw lies in [0, 1] and the mean time between messages is not negative. */
  ghost predicate ConfigOk(c: Config)
  {
    0.0 <= c.lambda && forall n :: 0.0 <= c.rand(n) <= 1.0
  }

  /** The emulator's own invariant: the list is ordered by time, nothing is
      scheduled before the current time, and every packet arrival carries a packet. */
  ghost predicate NetOk(c: Config, st: NetState)
  {
    && ConfigOk(c)
    && Sorted(st.evlist)
    && forall ev :: ev in st.evlist ==>
         st.time <= ev.evtime && (ev.evtype == FromLayer3 ==> ev.pktptr.Some?)
  }

  /** The arrival tolayer3 schedules for a packet that is not lost, from the draws
      after the loss draw: at the other entity, 1 + 9r after the last arrival
      pending for it (or after now), carrying the packet or, after one more draw, a
      copy corrupted as Corrupt describes. */
  function Delivery(c: Config, st: NetState, from: Entity, pkt: Pkt): Event
  {
    var d := st.ndraws;
    var at := LastArrival(st.evlist, Other(from), st.time) + 1.0 + 9.0 * c.rand(d);
    var q := if c.rand(d + 1) < c.corruptprob then Corrupt(pkt, c.rand(d + 2)) else pkt;
    Event(at, FromLayer3, Other(from), Some(q))
  }

  /** The part of tolayer3 after the loss draw: the delay and corruption draws,
      and the arrival scheduled as Delivery says. */
  function Enqueue(c: Config, st: NetState, from: Entity, pkt: Pkt): NetState
  {
    var corrupted := c.rand(st.ndraws + 1) < c.corruptprob;
    st.(evlist := Insert(st.evlist, Delivery(c, st, from, pkt)),
        ndraws := st.ndraws + (if corrupted then 3 else 2),
        ncorrupt := st.ncorrupt + (if corrupted then 1 else 0))
  }

  /** tolayer3: the packet is counted and one loss draw taken; a lost packet
      schedules nothing, any other is scheduled as Enqueue says. */
  function Transmit(c: Config, st: NetState, from: Entity, pkt: Pkt): NetState
  {
    var d := st.ndraws;
    var counted := st.(ndraws := d + 1, ntolayer3 := st.ntolayer3 + 1);
    if c.rand(d) < c.lossprob then counted.(nlost := st.nlost + 1)
    else Enqueue(c, counted, from, pkt)
  }

  /** starttimer: a timer event at now + increment, unless one is pending for e. */
  function StartTimerOn(st: NetState, e: Entity, increment: real): NetState
  {
    if HasTimer(st.evlist, e) then st
    else st.(evlist := Insert(st.evlist, Event(st.time + increment, TimerInterrupt, e, None)))
  }

  /** stoptimer. */
  function StopTimerOn(st: NetState, e: Entity): NetState
  {
    st.(evlist := RemoveFirstTimer(st.evlist, e))
  }

  /** The time to the next message, uniform on [0, 2 lambda] for a draw r. */
  function Interarrival(lambda: real, r: real): (x: real)
    ensures 0.0 <= lambda && 0.0 <= r ==> 0.0 <= x
  {
    lambda * r * 2.0
  }

  /** generate_next_arrival: the next message, for A, Interarrival after now. */
  function ScheduleArrival(c: Config, st: NetState): NetState
  {
    var x := Interarrival(c.lambda, c.rand(st.ndraws));
    st.(evlist := Insert(st.evlist, Event(st.time + x, FromLayer5, A, None)),
        ndraws := st.ndraws + 1)
  }

  function Perform1(c: Config, st: NetState, call: Call): NetState
  {
    match call
    case Send(from, pkt) => Transmit(c, st, from, pkt)
    case Start(e, increment) => StartTimerOn(st, e, increment)
    case Stop(e) => StopTimerOn(st, e)
    case Deliver(e, d) => st.(delivered := st.delivered + [d])
  }

  /** The calls performed one after the other, in order. */
  function PerformAll(c: Config, st: NetState, calls: seq<Call>): NetState
  {
    if calls == [] then st
    else Perform1(c, PerformAll(c, st, calls[..|calls| - 1]), calls[|calls| - 1])
  }

  // ---------------------------------------------------------------- lemmas

  lemma {:induction false} PerformAppend(c: Config, st: NetState, a: seq<Call>, b: seq<Call>)
    ensures PerformAll(c, st, a + b) == PerformAll(c, PerformAll(c, st, a), b)
  {
    if b == [] {
      assert a + b == a;
    } else {
      assert (a + b)[..|a + b| - 1] == a + b[..|b| - 1];
      PerformAppend(c, st, a, b[..|b| - 1]);
    }
  }

  /** tolayer3 keeps the emulator invariant, the clock, the timers and the sink;
      the only event it may add is an arrival at the other entity carrying the
      packet or a corrupted copy of it, and a well-formed packet corrupted in
      transit is caught by pkt_is_corrupt unless the corruption left it unchanged. */
  lemma TransmitOk(c: Config, st: NetState, from: Entity, pkt: Pkt)
    requires NetOk(c, st)
    ensures var r := Transmit(c, st, from, pkt);
            && NetOk(c, r) && r.time == st.time && r.delivered == st.delivered
            && (forall e :: TimerCount(r.evlist, e) == TimerCount(st.evlist, e))
            && (forall ev :: ev in r.evlist ==>
                  || ev in st.evlist
                  || (IsArrivalFor(ev, Other(from)) && ev.pktptr.Some? &&
                      (ev.pktptr.value == pkt || (WellFormed(pkt) ==> IsCorrupt(ev.pktptr.value)))))
  {
    var d := st.ndraws;
    var counted := st.(ndraws := d + 1, ntolayer3 := st.ntolayer3 + 1);
    var r := Transmit(c, st, from, pkt);
    if c.rand(d) < c.lossprob {
      assert r.evlist == st.evlist && r.time == st.time;
    } else {
      var ev := Delivery(c, counted, from, pkt);
      assert r == Enqueue(c, counted, from, pkt);
      assert r.evlist == Insert(st.evlist, ev) && r.time == st.time;
      DeliveryOk(c, counted, from, pkt);
      InsertOk(c, st, ev);
    }
  }

  /** The scheduled arrival is at least one time unit after now and after every
      arrival pending for the same destination, at most ten after the latest of
      them, and carries the packet or a copy that pkt_is_corrupt catches. */
  lemma DeliveryOk(c: Config, st: NetState, from: Entity, pkt: Pkt)
    requires NetOk(c, st)
    ensures var ev := Delivery(c, st, from, pkt);
            && IsArrivalFor(ev, Other(from)) && ev.pktptr.Some?
            && st.time + 1.0 <= ev.evtime <= LastArrival(st.evlist, Other(from), st.time) + 10.0
            && (forall i :: 0 <= i < |st.evlist| && IsArrivalFor(st.evlist[i], Other(from)) ==>
                  st.evlist[i].evtime + 1.0 <= ev.evtime)
            && (ev.pktptr.value == pkt || (WellFormed(pkt) ==> IsCorrupt(ev.pktptr.value)))
  {
    var d := st.ndraws;
    forall i | 0 <= i < |st.evlist| ensures st.time <= st.evlist[i].evtime {
      assert st.evlist[i] in st.evlist;
    }
    LastArrivalBound(st.evlist, Other(from), st.time);
    assert 0.0 <= c.rand(d) <= 1.0;
    if c.rand(d + 1) < c.corruptprob && WellFormed(pkt) {
      CorruptionDetected(pkt, c.rand(d + 2));
    }
  }

  /** No reordering in the channel: a packet that is not lost is scheduled at
      least one time unit after now and after every arrival already pending for
      the same destination, at most ten after the latest of them, and becomes the
      last of the pending arrivals for that destination. */
  lemma TransmitInOrder(c: Config, st: NetState, from: Entity, pkt: Pkt)
    requires NetOk(c, st)
    ensures c.rand(st.ndraws) < c.lossprob ==> Transmit(c, st, from, pkt).evlist == st.evlist
    ensures !(c.rand(st.ndraws) < c.lossprob) ==>
              var r := Transmit(c, st, from, pkt);
              var dest := Other(from);
              exists ev ::
                && IsArrivalFor(ev, dest)
                && st.time + 1.0 <= ev.evtime <= LastArrival(st.evlist, dest, st.time) + 10.0
                && (forall i :: 0 <= i < |st.evlist| && IsArrivalFor(st.evlist[i], dest) ==>
                      st.evlist[i].evtime + 1.0 <= ev.evtime)
                && Arrivals(r.evlist, dest) == Arrivals(st.evlist, dest) + [ev]
  {
    if !(c.rand(st.ndraws) < c.lossprob) {
      var counted := st.(ndraws := st.ndraws + 1, ntolayer3 := st.ntolayer3 + 1);
      var ev := Delivery(c, counted, from, pkt);
      DeliveryOk(c, counted, from, pkt);
      ArrivalQueued(st.evlist, ev, Other(from));
      assert Transmit(c, st, from, pkt).evlist == Insert(st.evlist, ev);
    }
  }

  /** starttimer keeps the emulator invariant, adds a timer of e exactly when none
      is pending, and leaves the other entity's timers untouched. */
  lemma StartTimerOk(c: Config, st: NetState, e: Entity, increment: real)
    requires NetOk(c, st) && 0.0 <= increment
    ensures var r := StartTimerOn(st, e, increment);
            && NetOk(c, r) && r.time == st.time && r.delivered == st.delivered
            && r.ndraws == st.ndraws
            && TimerCount(r.evlist, e) == (if TimerCount(st.evlist, e) == 0 then 1 else TimerCount(st.evlist, e))
            && (forall f :: f != e ==> TimerCount(r.evlist, f) == TimerCount(st.evlist, f))
            && (forall ev :: ev in r.evlist ==> ev in st.evlist || IsTimer(ev, e))
  {
    HasTimerCount(st.evlist, e);
    if HasTimer(st.evlist, e) {
      assert StartTimerOn(st, e, increment) == st;
    } else {
      var ev := Event(st.time + increment, TimerInterrupt, e, None);
      assert StartTimerOn(st, e, increment) == st.(evlist := Insert(st.evlist, ev));
      InsertOk(c, st, ev);
    }
  }

  /** stoptimer keeps the emulator invariant, removes one timer of e if there is
      one, and adds nothing. */
  lemma StopTimerOk(c: Config, st: NetState, e: Entity)
    requires NetOk(c, st)
    ensures var r := StopTimerOn(st, e);
            && NetOk(c, r) && r.time == st.time && r.delivered == st.delivered
            && r.ndraws == st.ndraws
            && TimerCount(r.evlist, e) == (if TimerCount(st.evlist, e) == 0 then 0 else TimerCount(st.evlist, e) - 1)
            && (forall f :: f != e ==> TimerCount(r.evlist, f) == TimerCount(st.evlist, f))
            && (forall ev :: ev in r.evlist ==> ev in st.evlist)
  {
    HasTimerCount(st.evlist, e);
    RemoveSorted(st.evlist, e);
    RemoveMembers(st.evlist, e);
    forall f ensures TimerCount(RemoveFirstTimer(st.evlist, e), f) ==
                     TimerCount(st.evlist, f) - (if f == e && HasTimer(st.evlist, e) then 1 else 0) {
      TimerCountRemove(st.evlist, e, f);
    }
  }

  /** generate_next_arrival keeps the emulator invariant and the timers, and adds
      one message arrival for A. */
  lemma ScheduleArrivalOk(c: Config, st: NetState)
    requires NetOk(c, st)
    ensures var r := ScheduleArrival(c, st);
            && NetOk(c, r) && r.time == st.time && r.delivered == st.delivered
            && (forall f :: TimerCount(r.evlist, f) == TimerCount(st.evlist, f))
            && (forall ev :: ev in r.evlist ==> ev in st.evlist || (ev.evtype == FromLayer5 && ev.eventity == A))
  {
    var x := Interarrival(c.lambda, c.rand(st.ndraws));
    assert 0.0 <= c.rand(st.ndraws);
    var ev := Event(st.time + x, FromLayer5, A, None);
    InsertOk(c, st, ev);
  }

  /** insertevent of an event no earlier than now, and carrying a packet if it is an
      arrival, keeps the emulator invariant; the list gains just that event. */
  lemma InsertOk(c: Config, st: NetState, ev: Event)
    requires NetOk(c, st) && st.time <= ev.evtime && (ev.evtype == FromLayer3 ==> ev.pktptr.Some?)
    ensures var evs := Insert(st.evlist, ev);
            && NetOk(c, st.(evlist := evs))
            && (forall x :: x in evs <==> x in st.evlist || x == ev)
            && (forall f :: TimerCount(evs, f) == TimerCount(st.evlist, f) + (if IsTimer(ev, f) then 1 else 0))
  {
    InsertSorted(st.evlist, ev);
    InsertMembers(st.evlist, ev);
    forall f ensures TimerCount(Insert(st.evlist, ev), f) == TimerCount(st.evlist, f) + (if IsTimer(ev, f) then 1 else 0) {
      TimerCountInsert(st.evlist, ev, f);
    }
  }

  /** The pop in main takes the earliest pending event; moving the clock to its
      time keeps the emulator invariant, and the clock never goes back. */
  lemma PopOk(c: Config, st: NetState)
    requires NetOk(c, st) && st.evlist != []
    ensures forall ev :: ev in st.evlist ==> st.evlist[0].evtime <= ev.evtime
    ensures st.time <= st.evlist[0].evtime
    ensures NetOk(c, st.(evlist := st.evlist[1..], time := st.evlist[0].evtime))
  {
    var s := st.evlist;
    forall ev | ev in s ensures s[0].evtime <= ev.evtime {
      var i :| 0 <= i < |s| && s[i] == ev;
    }
    assert s[0] in s;
    forall ev | ev in s[1..] ensures ev in s {
    }
  }

  // ---------------------------------------------------------------- the emulator's globals

  class Network {
    var evlist: seq<Event>
    var time: real
    var ndraws: nat
    var ntolayer3: nat
    var nlost: nat
    var ncorrupt: nat
    var delivered: seq<Data>
    const lossprob: real
    const corruptprob: real
    const lambda: real
    const rand: nat -> real

    function Cfg(): Config
    {
      Config(lossprob, corruptprob, lambda, rand)
    }

    function State(): NetState
      reads this
    {
      NetState(evlist, time, ndraws, ntolayer3, nlost, ncorrupt, delivered)
    }

    /** The emulator after init has read its parameters: an empty list at time 0. */
    constructor (lossprob: real, corruptprob: real, lambda: real, rand: nat -> real)
      ensures this.lossprob == lossprob && this.corruptprob == corruptprob
      ensures this.lambda == lambda && this.rand == rand
      ensures State() == NetState([], 0.0, 0, 0, 0, 0, [])
    {
      this.lossprob, this.corruptprob, this.lambda, this.rand := lossprob, corruptprob, lambda, rand;
      evlist, time, ndraws := [], 0.0, 0;
      ntolayer3, nlost, ncorrupt, delivered := 0, 0, 0, [];
    }

    /** jimsrand: the next value of the stream. */
    method Jimsrand() returns (x: real)
      modifies this`ndraws
      ensures x == rand(old(ndraws)) && ndraws == old(ndraws) + 1
    {
      x := rand(ndraws);
      ndraws := ndraws + 1;
    }

    /** insertevent: scan while the new event is strictly later, then splice. */
    method InsertEvent(p: Event)
      modifies this`evlist
      ensures evlist == Insert(old(evlist), p)
    {
      var i := 0;
      while i < |evlist| && p.evtime > evlist[i].evtime
        invariant 0 <= i <= |evlist|
        invariant forall j :: 0 <= j < i ==> evlist[j].evtime < p.evtime
      {
        i := i + 1;
      }
      assert i == InsertPos(evlist, p.evtime);
      evlist := evlist[..i] + [p] + evlist[i..];
    }

    /** stoptimer: unlink the first timer event of e; found is false when no
        timer was running (the source prints a warning then). */
    method StopTimer(e: Entity) returns (found: bool)
      modifies this`evlist
      ensures evlist == RemoveFirstTimer(old(evlist), e)
      ensures found == HasTimer(old(evlist), e)
    {
      var i := 0;
      while i < |evlist| && !(evlist[i].evtype == TimerInterrupt && evlist[i].eventity == e)
        invariant 0 <= i <= |evlist|
        invariant forall j :: 0 <= j < i ==> !IsTimer(evlist[j], e)
      {
        i := i + 1;
      }
      assert i == FirstTimer(evlist, e);
      found := i < |evlist|;
      if found {
        evlist := evlist[..i] + evlist[i + 1..];
      }
    }

    /** starttimer: refuse (with a warning in the source) when a timer of e is
        already pending, else schedule one at time + increment. */
    method StartTimer(e: Entity, increment: real)
      modifies this`evlist
      ensures State() == StartTimerOn(old(State()), e, increment)
    {
      var i := 0;
      while i < |evlist|
        invariant 0 <= i <= |evlist|
        invariant forall j :: 0 <= j < i ==> !IsTimer(evlist[j], e)
      {
        if evlist[i].evtype == TimerInterrupt && evlist[i].eventity == e {
          return;
        }
        i := i + 1;
      }
      InsertEvent(Event(time + increment, TimerInterrupt, e, None));
    }

    /** tolayer3: count the packet and draw for loss; a packet that is not lost
        goes on as EnqueueCopy describes. */
    method ToLayer3(from: Entity, packet: Pkt)
      modifies this
      ensures State() == Transmit(Cfg(), old(State()), from, packet)
    {
      ghost var st0 := State();
      ghost var counted := st0.(ndraws := st0.ndraws + 1, ntolayer3 := st0.ntolayer3 + 1);
      ntolayer3 := ntolayer3 + 1;
      var loss := Jimsrand();
      if loss < lossprob {
        nlost := nlost + 1;
        assert State() == counted.(nlost := st0.nlost + 1);
        return;
      }
      assert State() == counted;
      assert Transmit(Cfg(), st0, from, packet) == Enqueue(Cfg(), counted, from, packet);
      EnqueueCopy(from, packet);
    }

    /** The rest of tolayer3 for a packet that is not lost: find the last pending
        arrival for the destination, draw the delay, maybe corrupt, schedule. */
    method EnqueueCopy(from: Entity, packet: Pkt)
      modifies this`evlist, this`ndraws, this`ncorrupt
      ensures State() == Enqueue(Cfg(), old(State()), from, packet)
    {
      ghost var st0 := State();
      ghost var ev := Delivery(Cfg(), st0, from, packet);
      var dest := Other(from);
      var lastime := LastTime(dest);
      var delay := Jimsrand();
      var evtime := lastime + 1.0 + 9.0 * delay;
      assert evtime == ev.evtime;
      var mypkt := CorruptDraw(packet);
      assert Some(mypkt) == ev.pktptr;
      InsertEvent(Event(evtime, FromLayer3, dest, Some(mypkt)));
    }

    /** The corruption step of tolayer3: one draw decides whether the packet is
        corrupted and, when it is, one more draw picks what Corrupt changes. */
    method CorruptDraw(packet: Pkt) returns (mypkt: Pkt)
      modifies this`ndraws, this`ncorrupt
      ensures var corrupted := rand(old(ndraws)) < corruptprob;
              && mypkt == (if corrupted then Corrupt(packet, rand(old(ndraws) + 1)) else packet)
              && ndraws == old(ndraws) + (if corrupted then 2 else 1)
              && ncorrupt == old(ncorrupt) + (if corrupted then 1 else 0)
    {
      mypkt := packet;
      var corrupt := Jimsrand();
      if corrupt < corruptprob {
        ncorrupt := ncorrupt + 1;
        var x := Jimsrand();
        if x < 0.75 {
          mypkt := mypkt.(payload := mypkt.payload[0 := CORRUPT_BYTE]);
        } else if x < 0.875 {
          mypkt := mypkt.(seqnum := CORRUPT_FIELD);
        } else {
          mypkt := mypkt.(acknum := CORRUPT_FIELD);
        }
      }
    }

    /** The scan of tolayer3 for the time of the last packet pending for dest,
        starting from the current time. */
    method LastTime(dest: Entity) returns (lastime: real)
      ensures lastime == LastArrival(evlist, dest, time)
    {
      lastime := time;
      var i := 0;
      while i < |evlist|
        invariant 0 <= i <= |evlist|
        invariant LastArrival(evlist[i..], dest, lastime) == LastArrival(evlist, dest, time)
      {
        assert evlist[i..][1..] == evlist[i + 1..];
        if evlist[i].evtype == FromLayer3 && evlist[i].eventity == dest {
          lastime := evlist[i].evtime;
        }
        i := i + 1;
      }
    }

    /** tolayer5: the upper layer of e receives the data (the source only prints it). */
    method ToLayer5(e: Entity, data: Data)
      modifies this`delivered
      ensures delivered == old(delivered) + [data]
    {
      delivered := delivered + [data];
    }

    /** generate_next_arrival (unidirectional: the message is always for A). */
    method GenerateNextArrival()
      modifies this`evlist, this`ndraws
      ensures State() == ScheduleArrival(Cfg(), old(State()))
    {
      ghost var st0 := State();
      var r := Jimsrand();
      var x := Interarrival(lambda, r);
      ghost var ev := Event(st0.time + Interarrival(lambda, rand(st0.ndraws)), FromLayer5, A, None);
      assert ScheduleArrival(Cfg(), st0) == st0.(evlist := Insert(st0.evlist, ev), ndraws := st0.ndraws + 1);
      assert Event(time + x, FromLayer5, A, None) == ev;
      InsertEvent(Event(time + x, FromLayer5, A, None));
    }

    /** The first step of main's loop: unlink the head of the list, if any. */
    method PopEvent() returns (e: Option<Event>)
      modifies this`evlist
      ensures old(evlist) == [] ==> e == None && evlist == old(evlist)
      ensures old(evlist) != [] ==> e == Some(old(evlist)[0]) && evlist == old(evlist)[1..]
    {
      if evlist == [] {
        e := None;
      } else {
        e := Some(evlist[0]);
        evlist := evlist[1..];
      }
    }

    /** Carries out an entity's calls into the emulator, in order. */
    method Perform(calls: seq<Call>)
      modifies this
      ensures State() == PerformAll(Cfg(), old(State()), calls)
    {
      var i := 0;
      while i < |calls|
        invariant 0 <= i <= |calls|
        invariant State() == PerformAll(Cfg(), old(State()), calls[..i])
      {
        assert calls[..i + 1][..i] == calls[..i];
        match calls[i] {
          case Send(from, pkt) =>
            ToLayer3(from, pkt);
          case Start(e, increment) =>
            StartTimer(e, increment);
          case Stop(e) =>
            var _ := StopTimer(e);
          case Deliver(e, data) =>
            ToLayer5(e, data);
        }
        i := i + 1;
      }
      assert calls[..|calls|] == calls;
    }
  }
}
