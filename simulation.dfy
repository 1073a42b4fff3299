/** One iteration of main's event loop in prog2_gbn.c over the whole system (the
    emulator's globals and both entities' globals) and the invariant it keeps:
    whatever the channel loses or corrupts, B's layer 5 has received exactly the
    messages A accepted, in order, without gaps or duplicates. */
module Simulation {
  import opened Wrappers
  import opened Packets
  import opened Events
  import opened Emulator
  import opened Gbn

  /** Every global of the program: the emulator's, A's (the ghost sent records the
      data of every message A accepted), B's, and main's message counter nsim. */
  datatype Sys = Sys(net: NetState, base: int, next: int, win: Window, sent: seq<Data>,
                     exp: int, currack: Pkt, nsim: nat)

  // ---------------------------------------------------------------- packets in flight

  /** A packet on its way to dest is either caught by pkt_is_corrupt, or is the data
      packet of a message A accepted (towards B), or an ACK for a packet B has
      already received (towards A). */
  ghost predicate LegitPkt(dest: Entity, p: Pkt, sent: seq<Data>, exp: int)
  {
    || IsCorrupt(p)
    || (dest == B && 1 <= p.seqnum <= |sent| && p == DataPkt(p.seqnum, sent))
    || (dest == A && 0 <= p.acknum < exp && p == Ack(p.acknum))
  }

  ghost predicate EventsOk(evs: seq<Event>, sent: seq<Data>, exp: int)
  {
    forall ev :: ev in evs && ev.evtype == FromLayer3 ==>
      ev.pktptr.Some? && LegitPkt(ev.eventity, ev.pktptr.value, sent, exp)
  }

  /** A call an entity may make: it sends only well-formed packets that are
      legitimate for their destination, and starts timers into the future. */
  ghost predicate CallOk(call: Call, sent: seq<Data>, exp: int)
  {
    match call
    case Send(from, p) => WellFormed(p) && LegitPkt(Other(from), p, sent, exp)
    case Start(_, increment) => 0.0 <= increment
    case Stop(_) => true
    case Deliver(_, _) => true
  }

  /** The pending timers of e after one call, from m. */
  function TimerStep(m: nat, call: Call, e: Entity): nat
  {
    match call
    case Start(f, _) => if f == e && m == 0 then 1 else m
    case Stop(f) => if f == e && m > 0 then m - 1 else m
    case _ => m
  }

  /** The pending timers of e after the calls, starting from n. */
  function TimersAfter(n: nat, calls: seq<Call>, e: Entity): nat
  {
    if calls == [] then n else TimerStep(TimersAfter(n, calls[..|calls| - 1], e), calls[|calls| - 1], e)
  }

  /** The data the calls hand to layer 5, in order. */
  function DeliveredBy(calls: seq<Call>): seq<Data>
  {
    if calls == [] then []
    else DeliveredBy(calls[..|calls| - 1]) + (if calls[|calls| - 1].Deliver? then [calls[|calls| - 1].data] else [])
  }

  lemma LegitGrow(dest: Entity, p: Pkt, sent: seq<Data>, exp: int, sent': seq<Data>, exp': int)
    requires LegitPkt(dest, p, sent, exp) && sent <= sent' && exp <= exp'
    ensures LegitPkt(dest, p, sent', exp')
  {
    if dest == B && 1 <= p.seqnum <= |sent| && p == DataPkt(p.seqnum, sent) {
      assert sent'[p.seqnum - 1] == sent[p.seqnum - 1];
    }
  }

  /** Packets in flight stay legitimate as A accepts more messages and B receives more. */
  lemma EventsGrow(evs: seq<Event>, sent: seq<Data>, exp: int, sent': seq<Data>, exp': int)
    requires EventsOk(evs, sent, exp) && sent <= sent' && exp <= exp'
    ensures EventsOk(evs, sent', exp')
  {
    forall ev | ev in evs && ev.evtype == FromLayer3
      ensures ev.pktptr.Some? && LegitPkt(ev.eventity, ev.pktptr.value, sent', exp')
    {
      LegitGrow(ev.eventity, ev.pktptr.value, sent, exp, sent', exp');
    }
  }

  /** Carrying out legitimate calls keeps the emulator invariant and leaves only
      legitimate packets in flight; the clock does not move, layer 5 receives what
      the calls deliver, and the timers change as the start and stop calls say. */
  lemma {:induction false} PerformOk(c: Config, st: NetState, calls: seq<Call>, sent: seq<Data>, exp: int)
    requires NetOk(c, st) && EventsOk(st.evlist, sent, exp)
    requires forall i :: 0 <= i < |calls| ==> CallOk(calls[i], sent, exp)
    ensures var r := PerformAll(c, st, calls);
            && NetOk(c, r) && EventsOk(r.evlist, sent, exp) && r.time == st.time
            && r.delivered == st.delivered + DeliveredBy(calls)
            && forall e :: TimerCount(r.evlist, e) == TimersAfter(TimerCount(st.evlist, e), calls, e)
  {
    if calls == [] {
      assert st.delivered + [] == st.delivered;
    } else {
      var front := calls[..|calls| - 1];
      var call := calls[|calls| - 1];
      PerformOk(c, st, front, sent, exp);
      var m := PerformAll(c, st, front);
      match call {
        case Send(from, p) =>
          TransmitOk(c, m, from, p);
          var r := Transmit(c, m, from, p);
          forall ev | ev in r.evlist && ev.evtype == FromLayer3
            ensures ev.pktptr.Some? && LegitPkt(ev.eventity, ev.pktptr.value, sent, exp)
          {
          }
        case Start(e, increment) =>
          StartTimerOk(c, m, e, increment);
        case Stop(e) =>
          StopTimerOk(c, m, e);
        case Deliver(e, d) =>
      }
    }
  }

  // ---------------------------------------------------------------- the system invariant

  /** Everything but the count of A's pending timers. */
  ghost predicate SysOkButTimer(c: Config, s: Sys)
  {
    && NetOk(c, s.net)
    && WindowOk(s.win, s.base, s.next, s.sent)
    && s.base <= s.exp <= s.next
    && s.currack == Ack(s.exp - 1)
    && s.net.delivered == s.sent[..s.exp - 1]
    && (forall i :: 0 <= i < |s.sent| ==> s.sent[i][0] != EMPTY_PAYLOAD)
    && EventsOk(s.net.evlist, s.sent, s.exp)
    && TimerCount(s.net.evlist, B) == 0
  }

  /** The system invariant: A's window is consistent, B has received a prefix of
      what A holds unacknowledged or has acknowledged (base <= expectedseq <= nextseq),
      layer 5 at B has got exactly the first expectedseq - 1 accepted messages,
      every packet in flight is legitimate, and A's timer runs exactly while
      packets are unacknowledged. */
  ghost predicate SystemOk(c: Config, s: Sys)
  {
    SysOkButTimer(c, s) && TimerCount(s.net.evlist, A) == (if s.base != s.next then 1 else 0)
  }

  // ---------------------------------------------------------------- the handlers on the whole system

  /** A_output followed by the emulator carrying out its calls. */
  function AOutput(c: Config, s: Sys, msg: Data): Sys
  {
    if s.next < s.base + A_WINSIZE then
      var pkt := MakePkt(s.next, 0, Some(msg));
      var calls := [Send(A, pkt)] + (if s.next == s.base then [Start(A, TIMEOUT_LEN)] else []);
      s.(net := PerformAll(c, s.net, calls), win := Fill(s.win, pkt), next := s.next + 1, sent := s.sent + [msg])
    else s
  }

  /** A_input followed by the emulator carrying out its calls. */
  function AInput(c: Config, s: Sys, p: Pkt): Sys
  {
    if p.acknum < s.base || IsCorrupt(p) then s
    else
      var calls := [Stop(A)] + (if p.acknum + 1 != s.next then [Start(A, TIMEOUT_LEN)] else []);
      s.(net := PerformAll(c, s.net, calls), base := p.acknum + 1, win := Release(s.win, p.acknum))
  }

  /** A_timerinterrupt followed by the emulator carrying out its calls. */
  function ATimeout(c: Config, s: Sys): Sys
    requires 1 <= s.base <= s.next <= |s.sent| + 1
  {
    s.(net := PerformAll(c, s.net, Resends(s.base, s.next, s.sent) + [Start(A, TIMEOUT_LEN)]))
  }

  /** B_input followed by the emulator carrying out its calls. */
  function BInput(c: Config, s: Sys, p: Pkt): Sys
  {
    if p.seqnum == s.exp && !IsCorrupt(p) then
      s.(net := PerformAll(c, s.net, [Deliver(B, p.payload), Send(B, Ack(s.exp))]),
         exp := s.exp + 1, currack := Ack(s.exp))
    else s.(net := PerformAll(c, s.net, [Send(B, s.currack)]))
  }

  /** The message main hands to layer 4: twenty copies of the letter 'a' + nsim % 26. */
  function Letters(n: nat): Data
  {
    seq(DATA_LEN, i => 97 + n % 26)
  }

  /** The body of main's loop after the pop: dispatch on the event's type and entity
      (B_output and B_timerinterrupt do nothing). */
  function Dispatch(c: Config, s: Sys, ev: Event): Sys
    requires 1 <= s.base <= s.next <= |s.sent| + 1
  {
    match ev.evtype
    case FromLayer5 =>
      var s' := s.(net := ScheduleArrival(c, s.net), nsim := s.nsim + 1);
      if ev.eventity == A then AOutput(c, s', Letters(s.nsim)) else s'
    case FromLayer3 =>
      if ev.pktptr.None? then s
      else if ev.eventity == A then AInput(c, s, ev.pktptr.value)
      else BInput(c, s, ev.pktptr.value)
    case TimerInterrupt =>
      if ev.eventity == A then ATimeout(c, s) else s
  }

  /** The state after one iteration of main's loop, and whether the loop ends. */
  datatype Outcome = Outcome(sys: Sys, done: bool)

  /** One iteration of main's loop: stop on an empty list; otherwise unlink the
      head and move the clock to it; stop when nsim has reached nsimmax; otherwise
      dispatch the event. */
  function MainStep(c: Config, s: Sys, nsimmax: int): Outcome
    requires 1 <= s.base <= s.next <= |s.sent| + 1
  {
    if s.net.evlist == [] then Outcome(s, true)
    else
      var ev := s.net.evlist[0];
      var s' := s.(net := s.net.(evlist := s.net.evlist[1..], time := ev.evtime));
      if s.nsim == nsimmax then Outcome(s', true) else Outcome(Dispatch(c, s', ev), false)
  }

  /** The state after init, A_init and B_init. */
  function Initial(c: Config): Sys
  {
    Sys(ScheduleArrival(c, NetState([], 0.0, 0, 0, 0, 0, [])), 1, 1, seq(A_WINSIZE, i => None), [], 1, Ack(0), 0)
  }

  // ---------------------------------------------------------------- the invariant is kept

  lemma {:induction false} SendsOnly(n: nat, calls: seq<Call>, e: Entity)
    requires forall i :: 0 <= i < |calls| ==> calls[i].Send?
    ensures TimersAfter(n, calls, e) == n && DeliveredBy(calls) == []
  {
    if calls != [] {
      SendsOnly(n, calls[..|calls| - 1], e);
    }
  }

  lemma CallsOfTwo(n: nat, x: Call, y: Call, e: Entity)
    ensures TimersAfter(n, [x], e) == TimerStep(n, x, e)
    ensures TimersAfter(n, [x, y], e) == TimerStep(TimerStep(n, x, e), y, e)
    ensures DeliveredBy([x]) == (if x.Deliver? then [x.data] else [])
    ensures DeliveredBy([x, y]) == DeliveredBy([x]) + (if y.Deliver? then [y.data] else [])
  {
    assert [x][..0] == [] && [x, y][..1] == [x];
  }

  /** The system starts in the invariant. */
  lemma InitialOk(c: Config)
    requires ConfigOk(c)
    ensures SystemOk(c, Initial(c))
  {
    var st0 := NetState([], 0.0, 0, 0, 0, 0, []);
    ScheduleArrivalOk(c, st0);
    var s := Initial(c);
    assert forall e :: TimerCount(st0.evlist, e) == 0;
  }

  /** The emulator's side of A_output: sending the new data packet, and starting
      the timer when asked, keeps the emulator invariant with the new message
      counted as accepted; A's timer count goes from 0 to 1 on a start. */
  lemma OutputCallsOk(c: Config, st: NetState, sent: seq<Data>, exp: int, msg: Data, calls: seq<Call>)
    requires NetOk(c, st) && EventsOk(st.evlist, sent, exp) && msg[0] != EMPTY_PAYLOAD
    requires var pkt := MakePkt(|sent| + 1, 0, Some(msg));
             calls == [Send(A, pkt)] || calls == [Send(A, pkt), Start(A, TIMEOUT_LEN)]
    ensures var r := PerformAll(c, st, calls);
            && NetOk(c, r) && EventsOk(r.evlist, sent + [msg], exp)
            && r.time == st.time && r.delivered == st.delivered
            && TimerCount(r.evlist, A) ==
               (if |calls| == 2 && TimerCount(st.evlist, A) == 0 then 1 else TimerCount(st.evlist, A))
            && TimerCount(r.evlist, B) == TimerCount(st.evlist, B)
  {
    var sent' := sent + [msg];
    var pkt := MakePkt(|sent| + 1, 0, Some(msg));
    EventsGrow(st.evlist, sent, exp, sent', exp);
    OutputLegit(sent, exp, msg, calls);
    CallsOfTwo(TimerCount(st.evlist, A), Send(A, pkt), Start(A, TIMEOUT_LEN), A);
    CallsOfTwo(TimerCount(st.evlist, B), Send(A, pkt), Start(A, TIMEOUT_LEN), B);
    PerformOk(c, st, calls, sent', exp);
  }

  /** A_output's calls are legitimate once the message counts as accepted: the
      new packet is the well-formed data packet of that message. */
  lemma OutputLegit(sent: seq<Data>, exp: int, msg: Data, calls: seq<Call>)
    requires msg[0] != EMPTY_PAYLOAD
    requires var pkt := MakePkt(|sent| + 1, 0, Some(msg));
             calls == [Send(A, pkt)] || calls == [Send(A, pkt), Start(A, TIMEOUT_LEN)]
    ensures forall i :: 0 <= i < |calls| ==> CallOk(calls[i], sent + [msg], exp)
  {
    var sent' := sent + [msg];
    var pkt := MakePkt(|sent| + 1, 0, Some(msg));
    WellFormedIsMade(|sent| + 1, 0, Some(msg));
    assert pkt == DataPkt(|sent| + 1, sent');
    assert CallOk(Send(A, pkt), sent', exp);
    if |calls| == 1 {
      assert calls == [Send(A, pkt)];
    } else {
      assert calls == [Send(A, pkt), Start(A, TIMEOUT_LEN)];
    }
  }

  /** A_output keeps the invariant: a message accepted into the window becomes packet
      nextseq, and the timer starts exactly when it is the only packet in flight. */
  lemma MessageOk(c: Config, s: Sys, msg: Data)
    requires SystemOk(c, s) && msg[0] != EMPTY_PAYLOAD
    ensures var r := AOutput(c, s, msg);
            && SystemOk(c, r) && r.net.time == s.net.time && s.sent <= r.sent
            && r.exp == s.exp && r.nsim == s.nsim
  {
    if s.next < s.base + A_WINSIZE {
      var pkt := MakePkt(s.next, 0, Some(msg));
      var sent' := s.sent + [msg];
      var calls := [Send(A, pkt)] + (if s.next == s.base then [Start(A, TIMEOUT_LEN)] else []);
      OutputCallsOk(c, s.net, s.sent, s.exp, msg, calls);
      var net := PerformAll(c, s.net, calls);
      assert AOutput(c, s, msg) == s.(net := net, win := Fill(s.win, pkt), next := s.next + 1, sent := sent');
      AcceptedOk(c, s, msg, net);
    }
  }

  /** The system after A_output accepted msg, given the emulator state its calls left. */
  lemma AcceptedOk(c: Config, s: Sys, msg: Data, net: NetState)
    requires SystemOk(c, s) && msg[0] != EMPTY_PAYLOAD && s.next < s.base + A_WINSIZE
    requires NetOk(c, net) && EventsOk(net.evlist, s.sent + [msg], s.exp)
    requires net.delivered == s.net.delivered && TimerCount(net.evlist, B) == 0
    requires TimerCount(net.evlist, A) == 1
    ensures var pkt := MakePkt(s.next, 0, Some(msg));
            SystemOk(c, s.(net := net, win := Fill(s.win, pkt), next := s.next + 1, sent := s.sent + [msg]))
  {
    var sent' := s.sent + [msg];
    var pkt := MakePkt(s.next, 0, Some(msg));
    AcceptOk(s.win, s.base, s.next, s.sent, msg);
    FillFirstFree(s.win, pkt);
    assert WindowOk(Fill(s.win, pkt), s.base, s.next + 1, sent');
    assert sent'[..s.exp - 1] == s.sent[..s.exp - 1];
    assert forall i :: 0 <= i < |sent'| ==> sent'[i][0] != EMPTY_PAYLOAD by {
      forall i | 0 <= i < |sent'| ensures sent'[i][0] != EMPTY_PAYLOAD {
        if i < |s.sent| { assert sent'[i] == s.sent[i]; }
      }
    }
  }

  /** The emulator's side of a new cumulative ACK at A: stopping the timer and
      restarting it when asked keeps the emulator invariant; A's timer count goes
      from 1 to 0, and back to 1 on a restart. */
  lemma AckCallsOk(c: Config, st: NetState, sent: seq<Data>, exp: int, calls: seq<Call>)
    requires NetOk(c, st) && EventsOk(st.evlist, sent, exp) && TimerCount(st.evlist, A) == 1
    requires calls == [Stop(A)] || calls == [Stop(A), Start(A, TIMEOUT_LEN)]
    ensures var r := PerformAll(c, st, calls);
            && NetOk(c, r) && EventsOk(r.evlist, sent, exp)
            && r.time == st.time && r.delivered == st.delivered
            && TimerCount(r.evlist, A) == |calls| - 1
            && TimerCount(r.evlist, B) == TimerCount(st.evlist, B)
  {
    CallsOfTwo(1, Stop(A), Start(A, TIMEOUT_LEN), A);
    CallsOfTwo(TimerCount(st.evlist, B), Stop(A), Start(A, TIMEOUT_LEN), B);
    PerformOk(c, st, calls, sent, exp);
    assert st.delivered + DeliveredBy(calls) == st.delivered;
  }

  /** A_input keeps the invariant on any packet that can be in flight towards A. */
  lemma AckOk(c: Config, s: Sys, p: Pkt)
    requires SystemOk(c, s) && LegitPkt(A, p, s.sent, s.exp)
    ensures var r := AInput(c, s, p);
            && SystemOk(c, r) && r.net.time == s.net.time && r.sent == s.sent
            && r.exp == s.exp && r.nsim == s.nsim
  {
    if p.acknum < s.base || IsCorrupt(p) {
      assert AInput(c, s, p) == s;
    } else {
      assert p.acknum < s.exp;
      NewAckOk(c, s, p.acknum);
    }
  }

  /** A new cumulative ACK for a packet B has received: stopping the timer,
      releasing the window and restarting the timer while packets remain keeps
      the invariant. */
  lemma NewAckOk(c: Config, s: Sys, ack: int)
    requires SystemOk(c, s) && s.base <= ack < s.exp
    ensures var calls := [Stop(A)] + (if ack + 1 != s.next then [Start(A, TIMEOUT_LEN)] else []);
            var r := s.(net := PerformAll(c, s.net, calls), base := ack + 1, win := Release(s.win, ack));
            SystemOk(c, r) && r.net.time == s.net.time
  {
    var calls := [Stop(A)] + (if ack + 1 != s.next then [Start(A, TIMEOUT_LEN)] else []);
    AckCallsOk(c, s.net, s.sent, s.exp, calls);
    var net := PerformAll(c, s.net, calls);
    AckedOk(c, s, ack, net);
  }

  /** The system after A_input accepted the cumulative ACK ack, given the emulator
      state its calls left. */
  lemma AckedOk(c: Config, s: Sys, ack: int, net: NetState)
    requires SystemOk(c, s) && s.base <= ack < s.next && ack < s.exp
    requires NetOk(c, net) && EventsOk(net.evlist, s.sent, s.exp)
    requires net.delivered == s.net.delivered && TimerCount(net.evlist, B) == 0
    requires TimerCount(net.evlist, A) == (if ack + 1 != s.next then 1 else 0)
    ensures SystemOk(c, s.(net := net, base := ack + 1, win := Release(s.win, ack)))
  {
    ReleaseOk(s.win, s.base, s.next, s.sent, ack);
  }

  /** The emulator's side of B_input: delivering data when asked and sending an
      acknowledgement for a packet B has received keeps the emulator invariant and
      the timers, and layer 5 receives just that data. */
  lemma ReplyCallsOk(c: Config, st: NetState, sent: seq<Data>, exp: int, n: int, calls: seq<Call>)
    requires NetOk(c, st) && EventsOk(st.evlist, sent, exp) && 0 <= n < exp
    requires || calls == [Send(B, Ack(n))]
             || (|calls| == 2 && calls[0].Deliver? && calls[1] == Send(B, Ack(n)))
    ensures var r := PerformAll(c, st, calls);
            && NetOk(c, r) && EventsOk(r.evlist, sent, exp)
            && r.time == st.time && r.delivered == st.delivered + (if |calls| == 2 then [calls[0].data] else [])
            && TimerCount(r.evlist, A) == TimerCount(st.evlist, A)
            && TimerCount(r.evlist, B) == TimerCount(st.evlist, B)
  {
    WellFormedIsMade(0, n, None);
    CallsOfTwo(TimerCount(st.evlist, A), calls[0], Send(B, Ack(n)), A);
    CallsOfTwo(TimerCount(st.evlist, B), calls[0], Send(B, Ack(n)), B);
    if |calls| == 2 {
      assert calls == [calls[0], Send(B, Ack(n))];
    }
    PerformOk(c, st, calls, sent, exp);
  }

  /** B_input keeps the invariant on any packet that can be in flight towards B:
      only packet expectedseq, intact, reaches layer 5, and it is the next
      message A accepted. */
  lemma DataOk(c: Config, s: Sys, p: Pkt)
    requires SystemOk(c, s) && LegitPkt(B, p, s.sent, s.exp)
    ensures var r := BInput(c, s, p);
            && SystemOk(c, r) && r.net.time == s.net.time && r.sent == s.sent
            && s.exp <= r.exp && r.nsim == s.nsim
  {
    if p.seqnum == s.exp && !IsCorrupt(p) {
      assert p.payload == s.sent[s.exp - 1];
      InOrderOk(c, s, p.payload);
    } else {
      ResentAckOk(c, s);
    }
  }

  /** B_input on packet expectedseq, intact: its data, the next accepted message,
      goes to layer 5 and is acknowledged, and the invariant holds with
      expectedseq + 1. */
  lemma InOrderOk(c: Config, s: Sys, d: Data)
    requires SystemOk(c, s) && s.exp <= |s.sent| && d == s.sent[s.exp - 1]
    ensures var calls := [Deliver(B, d), Send(B, Ack(s.exp))];
            var r := s.(net := PerformAll(c, s.net, calls), exp := s.exp + 1, currack := Ack(s.exp));
            SystemOk(c, r) && r.net.time == s.net.time
  {
    var exp' := s.exp + 1;
    EventsGrow(s.net.evlist, s.sent, s.exp, s.sent, exp');
    var calls := [Deliver(B, d), Send(B, Ack(s.exp))];
    ReplyCallsOk(c, s.net, s.sent, exp', s.exp, calls);
    assert s.sent[..exp' - 1] == s.sent[..s.exp - 1] + [s.sent[s.exp - 1]];
  }

  /** B_input on any other packet: sending the last acknowledgement again keeps
      the invariant. */
  lemma ResentAckOk(c: Config, s: Sys)
    requires SystemOk(c, s)
    ensures var r := s.(net := PerformAll(c, s.net, [Send(B, s.currack)]));
            SystemOk(c, r) && r.net.time == s.net.time
  {
    ReplyCallsOk(c, s.net, s.sent, s.exp, s.exp - 1, [Send(B, s.currack)]);
    assert s.net.delivered + [] == s.net.delivered;
  }

  /** A_timerinterrupt, run when A's timer has fired, resends the window and leaves
      exactly one timer of A pending again. */
  lemma TimeoutOk(c: Config, s: Sys)
    requires SysOkButTimer(c, s) && TimerCount(s.net.evlist, A) == 0 && s.base != s.next
    ensures var r := ATimeout(c, s);
            && SystemOk(c, r) && r.net.time == s.net.time && r.sent == s.sent
            && r.exp == s.exp && r.nsim == s.nsim
  {
    var rs := Resends(s.base, s.next, s.sent);
    var calls := rs + [Start(A, TIMEOUT_LEN)];
    ResendCallsOk(s.base, s.next, s.sent, s.exp);
    PerformOk(c, s.net, calls, s.sent, s.exp);
    assert calls[..|calls| - 1] == rs;
    SendsOnly(0, rs, A);
    SendsOnly(0, rs, B);
    var net := PerformAll(c, s.net, calls);
    assert s.net.delivered + DeliveredBy(calls) == net.delivered;
    assert ATimeout(c, s) == s.(net := net);
  }

  /** Every call of A_timerinterrupt is legitimate: each resent packet is the
      well-formed data packet of a message A accepted. */
  lemma ResendCallsOk(base: int, next: int, sent: seq<Data>, exp: int)
    requires 1 <= base <= next <= |sent| + 1
    requires forall i :: 0 <= i < |sent| ==> sent[i][0] != EMPTY_PAYLOAD
    ensures var calls := Resends(base, next, sent) + [Start(A, TIMEOUT_LEN)];
            forall i :: 0 <= i < |calls| ==> CallOk(calls[i], sent, exp)
  {
    var rs := Resends(base, next, sent);
    var calls := rs + [Start(A, TIMEOUT_LEN)];
    forall i | 0 <= i < |calls| ensures CallOk(calls[i], sent, exp) {
      if i < |rs| {
        var q := DataPkt(base + i, sent);
        assert calls[i] == Send(A, q);
        WellFormedIsMade(base + i, 0, Some(sent[base + i - 1]));
        assert LegitPkt(B, q, sent, exp);
      } else {
        assert calls[i] == Start(A, TIMEOUT_LEN);
      }
    }
  }

  /** Unlinking the head keeps everything but the count of the popped timer, and the
      head is a legitimate event: never a timer of B, never an empty arrival. */
  lemma PoppedOk(c: Config, s: Sys)
    requires SystemOk(c, s) && s.net.evlist != []
    ensures var ev := s.net.evlist[0];
            var s' := s.(net := s.net.(evlist := s.net.evlist[1..], time := ev.evtime));
            && SysOkButTimer(c, s') && s.net.time <= ev.evtime
            && TimerCount(s'.net.evlist, A) == TimerCount(s.net.evlist, A) - (if IsTimer(ev, A) then 1 else 0)
            && !IsTimer(ev, B)
            && (ev.evtype == FromLayer3 ==> ev.pktptr.Some? && LegitPkt(ev.eventity, ev.pktptr.value, s.sent, s.exp))
  {
    PopOk(c, s.net);
    var evs := s.net.evlist;
    assert evs[0] in evs;
    forall ev | ev in evs[1..] ensures ev in evs {
    }
  }

  /** generate_next_arrival followed by A_output keeps the invariant. */
  lemma NewMessageOk(c: Config, s: Sys, ev: Event)
    requires SystemOk(c, s) && ev.evtype == FromLayer5
    ensures var r := Dispatch(c, s, ev);
            && SystemOk(c, r) && r.net.time == s.net.time
            && s.sent <= r.sent && s.exp <= r.exp
  {
    ScheduleArrivalOk(c, s.net);
    var net := ScheduleArrival(c, s.net);
    ArrivalScheduledOk(c, s, net);
    var s2 := s.(net := net, nsim := s.nsim + 1);
    if ev.eventity == A {
      MessageOk(c, s2, Letters(s.nsim));
      assert Dispatch(c, s, ev) == AOutput(c, s2, Letters(s.nsim));
    } else {
      assert Dispatch(c, s, ev) == s2;
    }
  }

  /** The system after generate_next_arrival, given the emulator state it left. */
  lemma ArrivalScheduledOk(c: Config, s: Sys, net: NetState)
    requires SystemOk(c, s) && NetOk(c, net) && net.delivered == s.net.delivered
    requires forall f :: TimerCount(net.evlist, f) == TimerCount(s.net.evlist, f)
    requires forall ev :: ev in net.evlist ==> ev in s.net.evlist || (ev.evtype == FromLayer5 && ev.eventity == A)
    ensures SystemOk(c, s.(net := net, nsim := s.nsim + 1))
  {
  }

  /** The dispatch after a pop restores the invariant: the timer of A that fired
      is restarted by A_timerinterrupt, and every other event leaves the timers as
      the handlers' calls say. */
  lemma DispatchOk(c: Config, s: Sys, ev: Event)
    requires SysOkButTimer(c, s) && !IsTimer(ev, B)
    requires TimerCount(s.net.evlist, A) + (if IsTimer(ev, A) then 1 else 0) == (if s.base != s.next then 1 else 0)
    requires ev.evtype == FromLayer3 ==> ev.pktptr.Some? && LegitPkt(ev.eventity, ev.pktptr.value, s.sent, s.exp)
    ensures var r := Dispatch(c, s, ev);
            && SystemOk(c, r) && r.net.time == s.net.time
            && s.sent <= r.sent && s.exp <= r.exp
  {
    match ev.evtype {
      case FromLayer5 =>
        NewMessageOk(c, s, ev);
      case FromLayer3 =>
        if ev.eventity == A {
          AckOk(c, s, ev.pktptr.value);
        } else {
          DataOk(c, s, ev.pktptr.value);
        }
      case TimerInterrupt =>
        TimeoutOk(c, s);
    }
  }

  /** One iteration of main's loop keeps the system invariant unless the loop
      ends there; the clock never goes back, A's accepted messages and B's
      expected sequence number only grow, and layer 5 at B always holds exactly
      the first expectedseq - 1 accepted messages. */
  lemma StepOk(c: Config, s: Sys, nsimmax: int)
    requires SystemOk(c, s)
    ensures var o := MainStep(c, s, nsimmax);
            && (!o.done ==> SystemOk(c, o.sys))
            && s.net.time <= o.sys.net.time
            && s.sent <= o.sys.sent && s.exp <= o.sys.exp
            && o.sys.net.delivered == o.sys.sent[..o.sys.exp - 1]
  {
    if s.net.evlist != [] {
      PoppedOk(c, s);
      var ev := s.net.evlist[0];
      var s' := s.(net := s.net.(evlist := s.net.evlist[1..], time := ev.evtime));
      if s.nsim != nsimmax {
        DispatchOk(c, s', ev);
      }
    }
  }

  // ---------------------------------------------------------------- the program

  /** The whole program: the emulator, entity A, entity B and main's counters. */
  class Simulator {
    const net: Network
    const sender: Sender
    const receiver: Receiver
    var nsim: nat
    const nsimmax: int

    /** The value of every global. */
    ghost function State(): Sys
      reads this, net, sender, sender.sendwin, receiver
    {
      Sys(net.State(), sender.base, sender.nextseq, sender.sendwin[..], sender.sent,
          receiver.expectedseq, receiver.currack, nsim)
    }

    ghost predicate Valid()
      reads this, net, sender, sender.sendwin, receiver
    {
      sender.Valid() && receiver.Valid() && SystemOk(net.Cfg(), State())
    }

    /** init after reading its parameters (the counters, the clock and the first
        message arrival), then A_init and B_init. */
    constructor (nsimmax: int, lossprob: real, corruptprob: real, lambda: real, rand: nat -> real)
      requires ConfigOk(Config(lossprob, corruptprob, lambda, rand))
      ensures Valid() && this.nsimmax == nsimmax
      ensures net.Cfg() == Config(lossprob, corruptprob, lambda, rand)
      ensures State() == Initial(net.Cfg())
    {
      var n := new Network(lossprob, corruptprob, lambda, rand);
      n.GenerateNextArrival();
      net := n;
      sender := new Sender();
      receiver := new Receiver();
      nsim := 0;
      this.nsimmax := nsimmax;
      new;
      InitialOk(net.Cfg());
    }

    /** One iteration of main's loop; done says the loop ends. */
    method Step() returns (done: bool)
      requires Valid()
      modifies this, net, sender, sender.sendwin, receiver
      ensures State() == MainStep(net.Cfg(), old(State()), nsimmax).sys
      ensures done == MainStep(net.Cfg(), old(State()), nsimmax).done
      ensures !done ==> Valid()
      ensures old(net.time) <= net.time
      ensures net.delivered <= sender.sent && |net.delivered| == receiver.expectedseq - 1
    {
      ghost var c := net.Cfg();
      ghost var s0 := State();
      ghost var o := MainStep(c, s0, nsimmax);
      StepOk(c, s0, nsimmax);
      var e := net.PopEvent();
      if e.None? {
        assert State() == o.sys;
        return true;
      }
      var ev := e.value;
      net.time := ev.evtime;
      assert State() == s0.(net := s0.net.(evlist := s0.net.evlist[1..], time := ev.evtime));
      if nsim == nsimmax {
        assert State() == o.sys;
        return true;
      }
      done := false;
      HandleEvent(ev);
      assert State() == o.sys;
    }

    /** The dispatch of main's loop on the popped event's type. */
    method HandleEvent(ev: Event)
      requires sender.Valid() && (ev.evtype == FromLayer3 ==> ev.pktptr.Some?)
      requires 1 <= sender.base <= sender.nextseq <= |sender.sent| + 1
      modifies this, net, sender, sender.sendwin, receiver
      ensures State() == Dispatch(net.Cfg(), old(State()), ev)
    {
      match ev.evtype {
        case FromLayer5 =>
          NewMessage(ev);
        case FromLayer3 =>
          PacketArrival(ev);
        case TimerInterrupt =>
          TimerExpiry(ev);
      }
    }

    /** A message from layer 5: schedule the next one, build this one from nsim,
        and hand it to A_output (B_output does nothing). */
    method NewMessage(ev: Event)
      requires sender.Valid() && ev.evtype == FromLayer5
      requires 1 <= sender.base <= sender.nextseq <= |sender.sent| + 1
      modifies this, net, sender, sender.sendwin
      ensures State() == Dispatch(net.Cfg(), old(State()), ev)
    {
      net.GenerateNextArrival();
      var j := nsim % 26;
      var msg: Data := seq(DATA_LEN, i => 97 + j);
      assert msg == Letters(nsim);
      nsim := nsim + 1;
      if ev.eventity == A {
        Offer(msg);
      }
    }

    /** A_output on the message, then the emulator carrying out its calls. */
    method Offer(msg: Data)
      requires sender.Valid()
      modifies net, sender, sender.sendwin
      ensures State() == AOutput(net.Cfg(), old(State()), msg)
    {
      ghost var s0 := State();
      ghost var w := sender.sendwin[..];
      if sender.nextseq < sender.base + A_WINSIZE {
        ghost var pkt := MakePkt(s0.next, 0, Some(msg));
        ghost var expected := [Send(A, pkt)] + (if s0.next == s0.base then [Start(A, TIMEOUT_LEN)] else []);
        assert AOutput(net.Cfg(), s0, msg) ==
               s0.(net := PerformAll(net.Cfg(), s0.net, expected), win := Fill(w, pkt),
                   next := s0.next + 1, sent := s0.sent + [msg]);
        AcceptOk(w, sender.base, sender.nextseq, sender.sent, msg);
        FillFirstFree(w, pkt);
        var calls := sender.Output(msg);
        assert calls == expected;
        net.Perform(calls);
      } else {
        var calls := sender.Output(msg);
        net.Perform(calls);
      }
    }

    /** A packet arrival: a copy of the packet goes to A_input or B_input. */
    method PacketArrival(ev: Event)
      requires sender.Valid() && ev.evtype == FromLayer3 && ev.pktptr.Some?
      requires 1 <= sender.base <= sender.nextseq <= |sender.sent| + 1
      modifies net, sender, sender.sendwin, receiver
      ensures State() == Dispatch(net.Cfg(), old(State()), ev)
    {
      var pkt := ev.pktptr.value;
      if ev.eventity == A {
        var calls := sender.Input(pkt);
        net.Perform(calls);
      } else {
        var calls := receiver.Input(pkt);
        net.Perform(calls);
      }
    }

    /** A timer expiry: A_timerinterrupt (B_timerinterrupt does nothing). */
    method TimerExpiry(ev: Event)
      requires sender.Valid() && ev.evtype == TimerInterrupt
      requires 1 <= sender.base <= sender.nextseq <= |sender.sent| + 1
      modifies net
      ensures State() == Dispatch(net.Cfg(), old(State()), ev)
    {
      if ev.eventity == A {
        var calls := sender.TimerInterrupt();
        net.Perform(calls);
      }
    }

    /** main's loop, for at most fuel iterations. */
    method Run(fuel: nat) returns (done: bool)
      requires Valid()
      modifies this, net, sender, sender.sendwin, receiver
      ensures !done ==> Valid()
      ensures old(net.time) <= net.time
      ensures net.delivered <= sender.sent && |net.delivered| == receiver.expectedseq - 1
    {
      done := false;
      var i := 0;
      while i < fuel && !done
        invariant !done ==> Valid()
        invariant old(net.time) <= net.time
        invariant net.delivered <= sender.sent && |net.delivered| == receiver.expectedseq - 1
      {
        done := Step();
        i := i + 1;
      }
    }
  }
}
