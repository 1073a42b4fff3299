/** The emulator's event list (evlist in prog2_gbn.c) as a sequence of events,
    with the list operations of insertevent, stoptimer, starttimer and the pop in
    main stated as functions, and their properties as lemmas. The list is kept
    ordered by event time. */
module Events {
  import opened Wrappers
  import opened Packets

  /** The two protocol entities; A sends data, B receives it. */
  datatype Entity = A | B

  /** The entity at the other end of the channel: (AorB + 1) % 2. */
  function Other(e: Entity): (r: Entity)
    ensures r != e
  {
    if e == A then B else A
  }

  /** TIMER_INTERRUPT, FROM_LAYER5 and FROM_LAYER3. */
  datatype EvType = TimerInterrupt | FromLayer5 | FromLayer3

  datatype Event = Event(evtime: real, evtype: EvType, eventity: Entity, pktptr: Option<Pkt>)

  predicate IsTimer(ev: Event, e: Entity)
  {
    ev.evtype == TimerInterrupt && ev.eventity == e
  }

  /** A packet on its way to entity e. */
  predicate IsArrivalFor(ev: Event, e: Entity)
  {
    ev.evtype == FromLayer3 && ev.eventity == e
  }

  /** Event times never decrease along the list. */
  predicate Sorted(s: seq<Event>)
  {
    forall i, j :: 0 <= i < j < |s| ==> s[i].evtime <= s[j].evtime
  }

  /** Where insertevent splices an event of time t: before the first event whose
      time is not smaller than t (the scan advances only while t > evtime), or at
      the end. */
  function InsertPos(s: seq<Event>, t: real): (k: nat)
    ensures k <= |s|
    ensures forall i :: 0 <= i < k ==> s[i].evtime < t
    ensures k < |s| ==> t <= s[k].evtime
  {
    if s == [] || t <= s[0].evtime then 0 else 1 + InsertPos(s[1..], t)
  }

  /** insertevent on the list as a value. */
  function Insert(s: seq<Event>, p: Event): seq<Event>
  {
    var k := InsertPos(s, p.evtime);
    s[..k] + [p] + s[k..]
  }

  /** Index of the first timer event of entity e, or |s| when there is none. */
  function FirstTimer(s: seq<Event>, e: Entity): (k: nat)
    ensures k <= |s|
    ensures forall i :: 0 <= i < k ==> !IsTimer(s[i], e)
    ensures k < |s| ==> IsTimer(s[k], e)
  {
    if s == [] || IsTimer(s[0], e) then 0 else 1 + FirstTimer(s[1..], e)
  }

  predicate HasTimer(s: seq<Event>, e: Entity)
  {
    exists i :: 0 <= i < |s| && IsTimer(s[i], e)
  }

  /** stoptimer on the list as a value: unlink the first timer of e, if any. */
  function RemoveFirstTimer(s: seq<Event>, e: Entity): seq<Event>
  {
    var k := FirstTimer(s, e);
    if k == |s| then s else s[..k] + s[k + 1..]
  }

  /** The number of timer events of entity e in the list. */
  function TimerCount(s: seq<Event>, e: Entity): nat
  {
    if s == [] then 0 else (if IsTimer(s[0], e) then 1 else 0) + TimerCount(s[1..], e)
  }

  /** The scan in tolayer3 that sets lastime: starting from acc, the time of the
      last event (in list order) that carries a packet to dest. */
  function LastArrival(s: seq<Event>, dest: Entity, acc: real): real
  {
    if s == [] then acc
    else LastArrival(s[1..], dest, if IsArrivalFor(s[0], dest) then s[0].evtime else acc)
  }

  /** The packets pending for entity e, in list order. */
  function Arrivals(s: seq<Event>, e: Entity): seq<Event>
  {
    if s == [] then [] else (if IsArrivalFor(s[0], e) then [s[0]] else []) + Arrivals(s[1..], e)
  }

  // ---------------------------------------------------------------- insertevent

  /** insertevent adds exactly the new event and keeps the others in their order:
      the new event sits at InsertPos, and removing it gives back the old list. */
  lemma InsertShape(s: seq<Event>, p: Event)
    ensures var k := InsertPos(s, p.evtime);
            var r := Insert(s, p);
            |r| == |s| + 1 && r[k] == p && r[..k] + r[k + 1..] == s
    ensures multiset(Insert(s, p)) == multiset(s) + multiset{p}
  {
    var k := InsertPos(s, p.evtime);
    var r := Insert(s, p);
    assert r[..k] == s[..k];
    assert r[k + 1..] == s[k..];
    assert s == s[..k] + s[k..];
  }

  lemma InsertMembers(s: seq<Event>, p: Event)
    ensures forall x :: x in Insert(s, p) <==> x in s || x == p
  {
    InsertShape(s, p);
    assert forall x :: x in multiset(Insert(s, p)) <==> x in multiset(s) || x == p;
  }

  /** An event with the same time as events already pending lands in front of
      them (the scan stops at the first event that is not strictly earlier). */
  lemma InsertBeforeTies(s: seq<Event>, p: Event, j: nat)
    requires j < |s| && s[j].evtime == p.evtime
    ensures InsertPos(s, p.evtime) <= j
    ensures Insert(s, p)[j + 1] == s[j]
  {
  }

  /** insertevent keeps the list ordered by time. */
  lemma {:induction false} InsertSorted(s: seq<Event>, p: Event)
    requires Sorted(s)
    ensures Sorted(Insert(s, p))
  {
    var k := InsertPos(s, p.evtime);
    var r := Insert(s, p);
    forall i, j | 0 <= i < j < |r| ensures r[i].evtime <= r[j].evtime {
      if j < k {
        assert r[i] == s[i] && r[j] == s[j];
      } else if j == k {
        assert r[i] == s[i];
      } else if i < k {
        assert r[i] == s[i] && r[j] == s[j - 1];
        assert s[i].evtime < p.evtime <= s[k].evtime;
      } else if i == k {
        assert r[j] == s[j - 1];
        assert p.evtime <= s[k].evtime;
      } else {
        assert r[i] == s[i - 1] && r[j] == s[j - 1];
      }
    }
  }

  // ---------------------------------------------------------------- timers

  lemma {:induction false} TimerCountAppend(a: seq<Event>, b: seq<Event>, e: Entity)
    ensures TimerCount(a + b, e) == TimerCount(a, e) + TimerCount(b, e)
  {
    if a != [] {
      assert (a + b)[1..] == a[1..] + b;
      TimerCountAppend(a[1..], b, e);
    } else {
      assert a + b == b;
    }
  }

  /** There is a pending timer of e exactly when the count of them is positive. */
  lemma {:induction false} HasTimerCount(s: seq<Event>, e: Entity)
    ensures HasTimer(s, e) <==> TimerCount(s, e) > 0
  {
    if s != [] {
      HasTimerCount(s[1..], e);
      if HasTimer(s[1..], e) {
        var i :| 0 <= i < |s[1..]| && IsTimer(s[1..][i], e);
        assert IsTimer(s[i + 1], e);
      }
      if HasTimer(s, e) && !IsTimer(s[0], e) {
        var i :| 0 <= i < |s| && IsTimer(s[i], e);
        assert IsTimer(s[1..][i - 1], e);
      }
    }
  }

  /** Inserting an event adds one timer of e when it is one, none otherwise. */
  lemma TimerCountInsert(s: seq<Event>, p: Event, e: Entity)
    ensures TimerCount(Insert(s, p), e) == TimerCount(s, e) + (if IsTimer(p, e) then 1 else 0)
  {
    var k := InsertPos(s, p.evtime);
    TimerCountAppend(s[..k] + [p], s[k..], e);
    TimerCountAppend(s[..k], [p], e);
    TimerCountAppend(s[..k], s[k..], e);
    assert s[..k] + s[k..] == s;
  }

  /** stoptimer removes one timer of e when there is one, and no timer of the
      other entity. */
  lemma TimerCountRemove(s: seq<Event>, e: Entity, f: Entity)
    ensures TimerCount(RemoveFirstTimer(s, e), f) ==
            TimerCount(s, f) - (if f == e && HasTimer(s, e) then 1 else 0)
  {
    var k := FirstTimer(s, e);
    if k < |s| {
      assert HasTimer(s, e);
      assert s == s[..k] + [s[k]] + s[k + 1..];
      TimerCountAppend(s[..k] + [s[k]], s[k + 1..], f);
      TimerCountAppend(s[..k], [s[k]], f);
      TimerCountAppend(s[..k], s[k + 1..], f);
    } else {
      assert !HasTimer(s, e);
    }
  }

  /** stoptimer unlinks only the first timer of e: what precedes it has no
      timer of e, and everything else keeps its order. */
  lemma RemoveFirstTimerShape(s: seq<Event>, e: Entity)
    ensures !HasTimer(s, e) ==> RemoveFirstTimer(s, e) == s
    ensures HasTimer(s, e) ==>
              var k := FirstTimer(s, e);
              IsTimer(s[k], e) && RemoveFirstTimer(s, e) == s[..k] + s[k + 1..] &&
              (forall i :: 0 <= i < k ==> !IsTimer(s[i], e))
  {
    var k := FirstTimer(s, e);
    assert k < |s| ==> IsTimer(s[k], e) && HasTimer(s, e);
    if HasTimer(s, e) {
      var i :| 0 <= i < |s| && IsTimer(s[i], e);
      assert k <= i;
      assert RemoveFirstTimer(s, e) == s[..k] + s[k + 1..];
    }
  }

  lemma RemoveMembers(s: seq<Event>, e: Entity)
    ensures forall x :: x in RemoveFirstTimer(s, e) ==> x in s
  {
    var k := FirstTimer(s, e);
    if k < |s| {
      assert s == s[..k] + [s[k]] + s[k + 1..];
      assert RemoveFirstTimer(s, e) == s[..k] + s[k + 1..];
    }
  }

  /** Unlinking an event keeps the list ordered. */
  lemma RemoveSorted(s: seq<Event>, e: Entity)
    requires Sorted(s)
    ensures Sorted(RemoveFirstTimer(s, e))
  {
    var k := FirstTimer(s, e);
    if k < |s| {
      var r := RemoveFirstTimer(s, e);
      forall i, j | 0 <= i < j < |r| ensures r[i].evtime <= r[j].evtime {
        var i' := if i < k then i else i + 1;
        var j' := if j < k then j else j + 1;
        assert r[i] == s[i'] && r[j] == s[j'];
      }
    }
  }

  // ---------------------------------------------------------------- tolayer3 ordering

  /** On an ordered list whose events are all at or after acc, the lastime scan
      yields a time at or after acc and at or after every pending arrival for dest. */
  lemma {:induction false} LastArrivalBound(s: seq<Event>, dest: Entity, acc: real)
    requires Sorted(s)
    requires forall i :: 0 <= i < |s| ==> acc <= s[i].evtime
    ensures acc <= LastArrival(s, dest, acc)
    ensures forall i :: 0 <= i < |s| && IsArrivalFor(s[i], dest) ==> s[i].evtime <= LastArrival(s, dest, acc)
  {
    if s != [] {
      var acc' := if IsArrivalFor(s[0], dest) then s[0].evtime else acc;
      LastArrivalBound(s[1..], dest, acc');
      forall i | 0 <= i < |s| && IsArrivalFor(s[i], dest)
        ensures s[i].evtime <= LastArrival(s, dest, acc)
      {
        if i > 0 {
          assert s[1..][i - 1] == s[i];
        }
      }
    }
  }

  lemma {:induction false} ArrivalsAppend(a: seq<Event>, b: seq<Event>, e: Entity)
    ensures Arrivals(a + b, e) == Arrivals(a, e) + Arrivals(b, e)
  {
    if a != [] {
      assert (a + b)[1..] == a[1..] + b;
      ArrivalsAppend(a[1..], b, e);
    } else {
      assert a + b == b;
    }
  }

  lemma {:induction false} NoArrivals(s: seq<Event>, e: Entity)
    requires forall i :: 0 <= i < |s| ==> !IsArrivalFor(s[i], e)
    ensures Arrivals(s, e) == []
  {
    if s != [] {
      NoArrivals(s[1..], e);
    }
  }

  /** In an ordered list, nothing from the insertion point of t on is an arrival
      for dest when every arrival for dest is earlier than t. */
  lemma NoArrivalsAfter(s: seq<Event>, t: real, dest: Entity)
    requires Sorted(s)
    requires forall i :: 0 <= i < |s| && IsArrivalFor(s[i], dest) ==> s[i].evtime < t
    ensures Arrivals(s[InsertPos(s, t)..], dest) == []
  {
    var k := InsertPos(s, t);
    var back := s[k..];
    forall i | 0 <= i < |back| ensures !IsArrivalFor(back[i], dest) {
      assert back[i] == s[k + i];
      assert t <= s[k].evtime <= s[k + i].evtime;
    }
    NoArrivals(back, dest);
  }

  /** No reordering: an arrival for dest inserted at a time later than every
      arrival already pending for dest becomes the last of them, so the packets
      for one destination stay in the order in which they were handed over. */
  lemma ArrivalQueued(s: seq<Event>, p: Event, dest: Entity)
    requires Sorted(s) && IsArrivalFor(p, dest)
    requires forall i :: 0 <= i < |s| && IsArrivalFor(s[i], dest) ==> s[i].evtime < p.evtime
    ensures Arrivals(Insert(s, p), dest) == Arrivals(s, dest) + [p]
  {
    var k := InsertPos(s, p.evtime);
    var front, back := s[..k], s[k..];
    assert s == front + back;
    NoArrivalsAfter(s, p.evtime, dest);
    assert Arrivals([p], dest) == [p] by {
      assert [p][1..] == [];
    }
    calc {
      Arrivals(Insert(s, p), dest);
      Arrivals(front + [p] + back, dest);
      { ArrivalsAppend(front + [p], back, dest); }
      Arrivals(front + [p], dest) + Arrivals(back, dest);
      { ArrivalsAppend(front, [p], dest); }
      Arrivals(front, dest) + [p];
      { ArrivalsAppend(front, back, dest); }
      Arrivals(s, dest) + [p];
    }
  }
}
