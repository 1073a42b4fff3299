/** The Go-Back-N entities of prog2_gbn.c: the sender A (A_output, A_input,
    A_timerinterrupt, A_init over the globals A_base, A_nextseq and the 5-slot
    A_sendwin) and the receiver B (B_input, B_init over B_expectedseq and
    B_currack). Each handler returns, in order, the calls it makes into the
    emulator (tolayer3, starttimer, stoptimer, tolayer5). */
module Gbn {
  import opened Wrappers
  import opened Packets
  import opened Events
  import opened Emulator

  const A_WINSIZE := 5
  const TIMEOUT_LEN := 200.0

  type Window = seq<Option<Pkt>>

  /** The data packet with sequence number s, built from the s-th message A accepted. */
  function DataPkt(s: int, sent: seq<Data>): Pkt
    requires 1 <= s <= |sent|
  {
    MakePkt(s, 0, Some(sent[s - 1]))
  }

  /** An acknowledgement for sequence number n, as B builds it. */
  function Ack(n: int): Pkt
  {
    MakePkt(0, n, None)
  }

  /** The number of occupied slots. */
  function Occupied(w: Window): (n: nat)
    ensures n <= |w|
  {
    if w == [] then 0 else Occupied(w[..|w| - 1]) + (if w[|w| - 1].Some? then 1 else 0)
  }

  /** The sequence numbers held in the window. */
  function SeqsOf(w: Window): set<int>
  {
    if w == [] then {}
    else SeqsOf(w[..|w| - 1]) + (if w[|w| - 1].Some? then {w[|w| - 1].value.seqnum} else {})
  }

  /** The integers lo .. hi - 1. */
  function Range(lo: int, hi: int): (r: set<int>)
    ensures forall s :: s in r <==> lo <= s < hi
    decreases hi - lo
  {
    if hi <= lo then {} else Range(lo, hi - 1) + {hi - 1}
  }

  /** No two occupied slots hold the same sequence number. */
  ghost predicate Distinct(w: Window)
  {
    forall i, j :: 0 <= i < j < |w| && w[i].Some? && w[j].Some? ==> w[i].value.seqnum != w[j].value.seqnum
  }

  /** The sender's window invariant: base <= nextseq <= base + A_WINSIZE, the occupied
      slots hold exactly the packets base .. nextseq - 1, once each, and each is the
      packet make_pkt built for it. */
  ghost predicate WindowOk(w: Window, base: int, next: int, sent: seq<Data>)
  {
    && |w| == A_WINSIZE
    && 1 <= base <= next <= base + A_WINSIZE
    && |sent| == next - 1
    && (forall i :: 0 <= i < |w| && w[i].Some? ==>
          base <= w[i].value.seqnum < next && w[i].value == DataPkt(w[i].value.seqnum, sent))
    && Distinct(w)
    && (forall s :: base <= s < next ==> s in SeqsOf(w))
  }

  /** The slot A_output fills: the first empty one, or |w| when all are occupied. */
  function FirstFree(w: Window): (k: nat)
    ensures k <= |w|
    ensures forall i :: 0 <= i < k ==> w[i].Some?
    ensures k < |w| ==> w[k].None?
  {
    if w == [] || w[0].None? then 0 else 1 + FirstFree(w[1..])
  }

  /** The window with p in its first empty slot; unchanged when every slot is taken. */
  function Fill(w: Window, p: Pkt): Window
  {
    if w == [] then []
    else if w[0].None? then [Some(p)] + w[1..]
    else [w[0]] + Fill(w[1..], p)
  }

  /** A slot after a cumulative acknowledgement of ack. */
  function Released(slot: Option<Pkt>, ack: int): Option<Pkt>
  {
    if slot.Some? && slot.value.seqnum <= ack then None else slot
  }

  /** The window after a cumulative acknowledgement of ack. */
  function Release(w: Window, ack: int): Window
  {
    seq(|w|, i requires 0 <= i < |w| => Released(w[i], ack))
  }

  /** The go-back-N retransmission: packets base .. next - 1, in ascending order. */
  function Resends(base: int, next: int, sent: seq<Data>): seq<Call>
    requires 1 <= base <= next <= |sent| + 1
  {
    seq(next - base, i requires 0 <= i < next - base => Send(A, DataPkt(base + i, sent)))
  }

  /** The table of A_timerinterrupt with each occupied packet at index seqnum - base. */
  function ReplayTable(w: Window, base: int): (t: Window)
    ensures |t| == A_WINSIZE
  {
    if w == [] then seq(A_WINSIZE, i => None)
    else
      var t := ReplayTable(w[..|w| - 1], base);
      var last := w[|w| - 1];
      if last.Some? && 0 <= last.value.seqnum - base < A_WINSIZE then t[last.value.seqnum - base := last] else t
  }

  // ---------------------------------------------------------------- window lemmas

  lemma {:induction false} SeqsOfMembers(w: Window, s: int)
    ensures s in SeqsOf(w) <==> exists i :: 0 <= i < |w| && w[i].Some? && w[i].value.seqnum == s
  {
    if w != [] {
      var v := w[..|w| - 1];
      SeqsOfMembers(v, s);
      if s in SeqsOf(v) {
        var i :| 0 <= i < |v| && v[i].Some? && v[i].value.seqnum == s;
        assert w[i] == v[i];
      }
      if exists i :: 0 <= i < |w| && w[i].Some? && w[i].value.seqnum == s {
        var i :| 0 <= i < |w| && w[i].Some? && w[i].value.seqnum == s;
        if i < |v| {
          assert v[i] == w[i];
        }
      }
    }
  }

  lemma {:induction false} RangeSize(lo: int, hi: int)
    requires lo <= hi
    ensures |Range(lo, hi)| == hi - lo
    decreases hi - lo
  {
    if lo < hi {
      RangeSize(lo, hi - 1);
    }
  }

  lemma {:induction false} OccupiedSeqs(w: Window)
    requires Distinct(w)
    ensures Occupied(w) == |SeqsOf(w)|
  {
    if w != [] {
      var v := w[..|w| - 1];
      assert Distinct(v) by {
        forall i, j | 0 <= i < j < |v| && v[i].Some? && v[j].Some?
          ensures v[i].value.seqnum != v[j].value.seqnum
        {
          assert v[i] == w[i] && v[j] == w[j];
        }
      }
      OccupiedSeqs(v);
      var last := w[|w| - 1];
      if last.Some? {
        forall i | 0 <= i < |v| && v[i].Some? ensures v[i].value.seqnum != last.value.seqnum {
          assert v[i] == w[i];
        }
        SeqsOfMembers(v, last.value.seqnum);
      }
    }
  }

  /** The number of occupied slots is nextseq - base. */
  lemma WindowCount(w: Window, base: int, next: int, sent: seq<Data>)
    requires WindowOk(w, base, next, sent)
    ensures Occupied(w) == next - base
  {
    forall s ensures s in SeqsOf(w) <==> s in Range(base, next) {
      SeqsOfMembers(w, s);
    }
    assert SeqsOf(w) == Range(base, next);
    OccupiedSeqs(w);
    RangeSize(base, next);
  }

  /** While the window has room there is an empty slot. */
  lemma {:induction false} FreeSlot(w: Window)
    requires Occupied(w) < |w|
    ensures FirstFree(w) < |w|
  {
    if FirstFree(w) == |w| {
      AllOccupied(w);
    }
  }

  lemma {:induction false} AllOccupied(w: Window)
    requires forall i :: 0 <= i < |w| ==> w[i].Some?
    ensures Occupied(w) == |w|
  {
    if w != [] {
      AllOccupied(w[..|w| - 1]);
    }
  }

  /** Filling puts the packet at FirstFree and changes no other slot. */
  lemma {:induction false} FillFirstFree(w: Window, p: Pkt)
    requires FirstFree(w) < |w|
    ensures Fill(w, p) == w[FirstFree(w) := Some(p)]
  {
    if w[0].Some? {
      FillFirstFree(w[1..], p);
      assert w[FirstFree(w) := Some(p)] == [w[0]] + w[1..][FirstFree(w) - 1 := Some(p)];
    }
  }

  /** A_output on a window with room keeps the invariant: the new packet nextseq
      goes into the first empty slot. */
  lemma AcceptOk(w: Window, base: int, next: int, sent: seq<Data>, msg: Data)
    requires WindowOk(w, base, next, sent) && next < base + A_WINSIZE
    ensures FirstFree(w) < |w|
    ensures WindowOk(w[FirstFree(w) := Some(MakePkt(next, 0, Some(msg)))], base, next + 1, sent + [msg])
  {
    WindowCount(w, base, next, sent);
    FreeSlot(w);
    var k := FirstFree(w);
    AcceptSlots(w, base, next, sent, msg, k);
    AcceptCovers(w, base, next, sent, msg, k);
  }

  /** Placing packet nextseq in an empty slot keeps every slot's packet right and
      the sequence numbers distinct. */
  lemma AcceptSlots(w: Window, base: int, next: int, sent: seq<Data>, msg: Data, k: nat)
    requires WindowOk(w, base, next, sent) && k < |w| && w[k].None?
    ensures var w' := w[k := Some(MakePkt(next, 0, Some(msg)))];
            && Distinct(w')
            && forall i :: 0 <= i < |w'| && w'[i].Some? ==>
                 base <= w'[i].value.seqnum < next + 1 && w'[i].value == DataPkt(w'[i].value.seqnum, sent + [msg])
  {
    var sent' := sent + [msg];
    var w' := w[k := Some(MakePkt(next, 0, Some(msg)))];
    forall i | 0 <= i < |w'| && w'[i].Some?
      ensures base <= w'[i].value.seqnum < next + 1 && w'[i].value == DataPkt(w'[i].value.seqnum, sent')
    {
      if i != k {
        assert w'[i] == w[i];
        assert sent'[w[i].value.seqnum - 1] == sent[w[i].value.seqnum - 1];
      }
    }
  }

  /** After placing packet nextseq, every sequence number base .. nextseq is held. */
  lemma AcceptCovers(w: Window, base: int, next: int, sent: seq<Data>, msg: Data, k: nat)
    requires WindowOk(w, base, next, sent) && k < |w| && w[k].None?
    ensures var w' := w[k := Some(MakePkt(next, 0, Some(msg)))];
            forall s :: base <= s < next + 1 ==> s in SeqsOf(w')
  {
    var w' := w[k := Some(MakePkt(next, 0, Some(msg)))];
    forall s | base <= s < next + 1 ensures s in SeqsOf(w') {
      SeqsOfMembers(w', s);
      if s < next {
        SeqsOfMembers(w, s);
        var i :| 0 <= i < |w| && w[i].Some? && w[i].value.seqnum == s;
        assert w'[i] == w[i];
      } else {
        assert w'[k].value.seqnum == s;
      }
    }
  }

  /** A cumulative acknowledgement of ack only empties slots, and exactly those
      holding packets up to ack: the sequence numbers left are the old ones above ack. */
  lemma {:induction false} ReleaseSeqs(w: Window, ack: int)
    ensures |Release(w, ack)| == |w|
    ensures forall i :: 0 <= i < |w| ==> Release(w, ack)[i] == w[i] || Release(w, ack)[i].None?
    ensures forall s :: s in SeqsOf(Release(w, ack)) <==> s in SeqsOf(w) && ack < s
  {
    var r := Release(w, ack);
    forall s ensures s in SeqsOf(r) <==> s in SeqsOf(w) && ack < s {
      SeqsOfMembers(w, s);
      SeqsOfMembers(r, s);
      if s in SeqsOf(w) && ack < s {
        var i :| 0 <= i < |w| && w[i].Some? && w[i].value.seqnum == s;
        assert r[i] == w[i];
      }
    }
  }

  /** A new cumulative acknowledgement ack (base <= ack < nextseq) keeps the
      invariant with base = ack + 1. */
  lemma ReleaseOk(w: Window, base: int, next: int, sent: seq<Data>, ack: int)
    requires WindowOk(w, base, next, sent) && base <= ack < next
    ensures WindowOk(Release(w, ack), ack + 1, next, sent)
  {
    var w' := Release(w, ack);
    forall s | ack + 1 <= s < next ensures s in SeqsOf(w') {
      SeqsOfMembers(w, s);
      SeqsOfMembers(w', s);
      var i :| 0 <= i < |w| && w[i].Some? && w[i].value.seqnum == s;
      assert w'[i] == w[i];
    }
  }

  /** The replay table holds each occupied packet at index seqnum - base. */
  lemma {:induction false} ReplayTableAt(w: Window, base: int, i: nat)
    requires Distinct(w) && i < |w| && w[i].Some? && 0 <= w[i].value.seqnum - base < A_WINSIZE
    ensures ReplayTable(w, base)[w[i].value.seqnum - base] == w[i]
  {
    var v := w[..|w| - 1];
    if i < |v| {
      assert Distinct(v) by {
        forall a, b | 0 <= a < b < |v| && v[a].Some? && v[b].Some?
          ensures v[a].value.seqnum != v[b].value.seqnum
        {
          assert v[a] == w[a] && v[b] == w[b];
        }
      }
      assert v[i] == w[i];
      ReplayTableAt(v, base, i);
    }
  }

  /** On a valid window the replay table lists packets base .. nextseq - 1 in order. */
  lemma ReplayTableSorted(w: Window, base: int, next: int, sent: seq<Data>)
    requires WindowOk(w, base, next, sent)
    ensures forall k :: 0 <= k < next - base ==> ReplayTable(w, base)[k] == Some(DataPkt(base + k, sent))
  {
    forall k | 0 <= k < next - base ensures ReplayTable(w, base)[k] == Some(DataPkt(base + k, sent)) {
      SeqsOfMembers(w, base + k);
      var i :| 0 <= i < |w| && w[i].Some? && w[i].value.seqnum == base + k;
      ReplayTableAt(w, base, i);
    }
  }

  /** Retransmission completeness: on a valid window the retransmissions are as
      many as the occupied slots, in ascending sequence-number order, each one the
      packet of an occupied slot, and every occupied slot's packet is among them. */
  lemma ResendsCoverWindow(w: Window, base: int, next: int, sent: seq<Data>)
    requires WindowOk(w, base, next, sent)
    ensures var r := Resends(base, next, sent);
            && |r| == Occupied(w)
            && (forall k :: 0 <= k < |r| ==> r[k].pkt.seqnum == base + k && Some(r[k].pkt) in w)
            && (forall i :: 0 <= i < |w| && w[i].Some? ==> r[w[i].value.seqnum - base] == Send(A, w[i].value))
  {
    WindowCount(w, base, next, sent);
    ResendsInWindow(w, base, next, sent);
    var r := Resends(base, next, sent);
    forall i | 0 <= i < |w| && w[i].Some? ensures r[w[i].value.seqnum - base] == Send(A, w[i].value) {
      var k := w[i].value.seqnum - base;
      assert r[k] == Send(A, DataPkt(base + k, sent));
    }
  }

  /** Each retransmission is the packet of an occupied slot. */
  lemma ResendsInWindow(w: Window, base: int, next: int, sent: seq<Data>)
    requires WindowOk(w, base, next, sent)
    ensures var r := Resends(base, next, sent);
            forall k :: 0 <= k < |r| ==> r[k].pkt.seqnum == base + k && Some(r[k].pkt) in w
  {
    var r := Resends(base, next, sent);
    forall k | 0 <= k < |r| ensures r[k].pkt.seqnum == base + k && Some(r[k].pkt) in w {
      assert r[k].pkt == DataPkt(base + k, sent);
      SeqsOfMembers(w, base + k);
      var i :| 0 <= i < |w| && w[i].Some? && w[i].value.seqnum == base + k;
      assert w[i] == Some(r[k].pkt);
    }
  }

  // ---------------------------------------------------------------- the source's replay index

  /** The table A_timerinterrupt builds as written: each occupied packet at index
      seqnum % A_base; an entry never written stays None (uninitialised
      memory in the source). An index outside the table, which no valid window
      produces, is skipped. */
  function AsWrittenTable(w: Window, base: int): (t: Window)
    requires 1 <= base
    ensures |t| == A_WINSIZE
  {
    if w == [] then seq(A_WINSIZE, i => None)
    else
      var t := AsWrittenTable(w[..|w| - 1], base);
      var last := w[|w| - 1];
      if last.Some? && last.value.seqnum % base < A_WINSIZE then t[last.value.seqnum % base := last] else t
  }

  /** What the source resends: the first retransmit_count entries of that table. */
  function AsWrittenResends(w: Window, base: int): Window
    requires 1 <= base && |w| <= A_WINSIZE
  {
    AsWrittenTable(w, base)[..Occupied(w)]
  }

  lemma ModOffset(s: int, base: int)
    requires 1 <= base <= s < 2 * base
    ensures s % base == s - base
  {
  }

  /** The modulo index is right while no more than base packets are in flight
      (in particular once base >= A_WINSIZE): there the source's table is the
      replay table and its retransmissions are the intended ones. */
  lemma {:induction false} AsWrittenAgrees(w: Window, base: int)
    requires 1 <= base
    requires forall i :: 0 <= i < |w| && w[i].Some? ==> base <= w[i].value.seqnum < 2 * base
    ensures AsWrittenTable(w, base) == ReplayTable(w, base)
  {
    if w != [] {
      var v := w[..|w| - 1];
      forall i | 0 <= i < |v| && v[i].Some? ensures base <= v[i].value.seqnum < 2 * base {
        assert v[i] == w[i];
      }
      AsWrittenAgrees(v, base);
      var last := w[|w| - 1];
      if last.Some? {
        ModOffset(last.value.seqnum, base);
      }
    }
  }

  /** The defect: with base = 1 and packets 1 and 2 in flight, both land at index
      0, so packet 1 is never resent and the second entry read is one that was
      never written, while the intended retransmission is packets 1 then 2. */
  lemma AsWrittenLosesPacket()
    ensures var sent := [seq(DATA_LEN, i => 97), seq(DATA_LEN, i => 98)];
            var w := [Some(DataPkt(1, sent)), Some(DataPkt(2, sent)), None, None, None];
            && WindowOk(w, 1, 3, sent)
            && AsWrittenResends(w, 1) == [Some(DataPkt(2, sent)), None]
            && Resends(1, 3, sent) == [Send(A, DataPkt(1, sent)), Send(A, DataPkt(2, sent))]
  {
    var sent: seq<Data> := [seq(DATA_LEN, i => 97), seq(DATA_LEN, i => 98)];
    var w := [Some(DataPkt(1, sent)), Some(DataPkt(2, sent)), None, None, None];
    assert DataPkt(1, sent).seqnum == 1 && DataPkt(2, sent).seqnum == 2;
    var w1, w2, w3, w4 := w[..1], w[..2], w[..3], w[..4];
    assert w4[..3] == w3 && w3[..2] == w2 && w2[..1] == w1 && w1[..0] == [];
    assert Occupied(w1) == 1 && AsWrittenTable(w1, 1) == [w[0], None, None, None, None];
    assert Occupied(w2) == 2 && AsWrittenTable(w2, 1) == [w[1], None, None, None, None];
    assert Occupied(w3) == 2 && AsWrittenTable(w3, 1) == [w[1], None, None, None, None];
    assert Occupied(w4) == 2 && AsWrittenTable(w4, 1) == [w[1], None, None, None, None];
    assert Occupied(w) == 2 && AsWrittenTable(w, 1) == [w[1], None, None, None, None];
    SeqsOfMembers(w, 1);
    SeqsOfMembers(w, 2);
    assert w[0].Some? && w[0].value.seqnum == 1;
    assert w[1].Some? && w[1].value.seqnum == 2;
  }

  // ---------------------------------------------------------------- entity A

  /** Sender A: the globals A_base, A_nextseq and A_sendwin. The ghost sent
      records the data of every message A accepted, packet s carrying sent[s - 1]. */
  class Sender {
    var base: int
    var nextseq: int
    const sendwin: array<Option<Pkt>>
    ghost var sent: seq<Data>

    ghost predicate Valid()
      reads this, sendwin
    {
      WindowOk(sendwin[..], base, nextseq, sent)
    }

    /** The globals' initial values and A_init: base = nextseq = 1, every slot empty. */
    constructor ()
      ensures Valid() && fresh(sendwin)
      ensures base == 1 && nextseq == 1 && sent == []
      ensures sendwin[..] == seq(A_WINSIZE, i => None)
    {
      base := 1;
      nextseq := 1;
      sent := [];
      sendwin := new Option<Pkt>[A_WINSIZE](i => None);
      new;
      assert sendwin[..] == seq(A_WINSIZE, i => None);
      assert forall j :: 0 <= j < A_WINSIZE ==> sendwin[j].None?;
    }

    /** A_output: with room in the window, packet nextseq carrying the message goes
        into the first empty slot and onto the network, the timer starts when it is
        the only packet in flight, and nextseq advances; with a full window the
        message is dropped. */
    method Output(message: Data) returns (calls: seq<Call>)
      requires Valid()
      modifies this, sendwin
      ensures Valid() && base == old(base)
      ensures old(nextseq) < old(base) + A_WINSIZE ==>
                var k := FirstFree(old(sendwin[..]));
                var pkt := MakePkt(old(nextseq), 0, Some(message));
                && k < A_WINSIZE
                && sendwin[..] == old(sendwin[..])[k := Some(pkt)]
                && nextseq == old(nextseq) + 1 && sent == old(sent) + [message]
                && calls == [Send(A, pkt)] + (if old(nextseq) == base then [Start(A, TIMEOUT_LEN)] else [])
      ensures old(nextseq) >= old(base) + A_WINSIZE ==>
                && sendwin[..] == old(sendwin[..]) && nextseq == old(nextseq) && sent == old(sent)
                && calls == []
    {
      if nextseq < base + A_WINSIZE {
        ghost var w := sendwin[..];
        AcceptOk(w, base, nextseq, sent, message);
        var pktIndex := 0;
        while pktIndex < A_WINSIZE && sendwin[pktIndex].Some?
          invariant 0 <= pktIndex <= FirstFree(w)
        {
          pktIndex := pktIndex + 1;
        }
        sendwin[pktIndex] := Some(MakePkt(nextseq, 0, Some(message)));
        calls := [Send(A, sendwin[pktIndex].value)];
        if nextseq == base {
          calls := calls + [Start(A, TIMEOUT_LEN)];
        }
        sent := sent + [message];
        nextseq := nextseq + 1;
      } else {
        calls := [];
      }
    }

    /** A_input: an acknowledgement below base or failing the checksum is ignored;
        otherwise the timer stops, base moves past the acknowledged number, every
        packet up to it leaves the window, and the timer restarts while packets
        remain in flight. */
    method Input(packet: Pkt) returns (calls: seq<Call>)
      requires Valid()
      modifies this, sendwin
      ensures nextseq == old(nextseq) && sent == old(sent)
      ensures (packet.acknum < old(base) || IsCorrupt(packet)) ==>
                base == old(base) && sendwin[..] == old(sendwin[..]) && calls == []
      ensures !(packet.acknum < old(base) || IsCorrupt(packet)) ==>
                && base == packet.acknum + 1
                && sendwin[..] == Release(old(sendwin[..]), packet.acknum)
                && calls == [Stop(A)] + (if base != nextseq then [Start(A, TIMEOUT_LEN)] else [])
      ensures packet.acknum < old(base) || IsCorrupt(packet) || packet.acknum < nextseq ==> Valid()
    {
      var badpkt := false;
      if packet.acknum < base {
        badpkt := true;
      } else if IsCorrupt(packet) {
        badpkt := true;
      }
      calls := [];
      if !badpkt {
        ghost var w := sendwin[..];
        if packet.acknum < nextseq {
          ReleaseOk(w, base, nextseq, sent, packet.acknum);
        }
        calls := [Stop(A)];
        base := packet.acknum + 1;
        var i := 0;
        while i < A_WINSIZE
          modifies sendwin
          invariant 0 <= i <= A_WINSIZE
          invariant forall j :: 0 <= j < i ==> sendwin[j] == Released(w[j], packet.acknum)
          invariant forall j :: i <= j < A_WINSIZE ==> sendwin[j] == w[j]
        {
          if sendwin[i].Some? && sendwin[i].value.seqnum <= packet.acknum {
            sendwin[i] := None;
          }
          i := i + 1;
        }
        assert sendwin[..] == Release(w, packet.acknum);
        if base != nextseq {
          calls := calls + [Start(A, TIMEOUT_LEN)];
        }
      }
    }

    /** A_timerinterrupt: every packet in the window is resent, in ascending
        sequence-number order, and the timer restarts. The table is indexed by
        seqnum - base; AsWrittenTable is the source's seqnum % base. */
    method TimerInterrupt() returns (calls: seq<Call>)
      requires Valid()
      ensures calls == Resends(base, nextseq, sent) + [Start(A, TIMEOUT_LEN)]
    {
      var orderedwin := new Option<Pkt>[A_WINSIZE](i => None);
      var retransmitCount := 0;
      var j := 0;
      while j < A_WINSIZE
        invariant 0 <= j <= A_WINSIZE
        invariant retransmitCount == Occupied(sendwin[..j])
        invariant orderedwin[..] == ReplayTable(sendwin[..j], base)
      {
        assert sendwin[..j + 1][..j] == sendwin[..j];
        if sendwin[j].Some? {
          var orderedIndex := sendwin[j].value.seqnum - base;
          orderedwin[orderedIndex] := sendwin[j];
          retransmitCount := retransmitCount + 1;
        }
        j := j + 1;
      }
      assert sendwin[..j] == sendwin[..];
      WindowCount(sendwin[..], base, nextseq, sent);
      ReplayTableSorted(sendwin[..], base, nextseq, sent);
      calls := [];
      var i := 0;
      while i < retransmitCount
        invariant 0 <= i <= retransmitCount
        invariant calls == Resends(base, nextseq, sent)[..i]
        invariant orderedwin[..] == ReplayTable(sendwin[..], base)
      {
        calls := calls + [Send(A, orderedwin[i].value)];
        i := i + 1;
      }
      calls := calls + [Start(A, TIMEOUT_LEN)];
    }
  }

  // ---------------------------------------------------------------- entity B

  /** Receiver B: the globals B_expectedseq and B_currack. */
  class Receiver {
    var expectedseq: int
    var currack: Pkt

    /** The last acknowledgement is always for expectedseq - 1. */
    ghost predicate Valid()
      reads this
    {
      1 <= expectedseq && currack == Ack(expectedseq - 1)
    }

    /** The globals' initial values and B_init: expecting packet 1, a dummy ACK 0 ready. */
    constructor ()
      ensures Valid() && expectedseq == 1 && currack == Ack(0)
    {
      expectedseq := 1;
      currack := MakePkt(0, 0, None);
    }

    /** B_input: the expected packet, intact, is delivered to layer 5, acknowledged
        and expectedseq advances; any other packet draws the last acknowledgement again. */
    method Input(packet: Pkt) returns (calls: seq<Call>)
      modifies this
      ensures packet.seqnum == old(expectedseq) && !IsCorrupt(packet) ==>
                && expectedseq == old(expectedseq) + 1 && currack == Ack(old(expectedseq))
                && calls == [Deliver(B, packet.payload), Send(B, Ack(old(expectedseq)))]
      ensures !(packet.seqnum == old(expectedseq) && !IsCorrupt(packet)) ==>
                && expectedseq == old(expectedseq) && currack == old(currack)
                && calls == [Send(B, old(currack))]
      ensures old(Valid()) ==> Valid()
    {
      var badpkt := false;
      if packet.seqnum != expectedseq {
        badpkt := true;
      } else if IsCorrupt(packet) {
        badpkt := true;
      }
      calls := [];
      if !badpkt {
        calls := [Deliver(B, packet.payload)];
        currack := MakePkt(0, expectedseq, None);
        expectedseq := expectedseq + 1;
      }
      calls := calls + [Send(B, currack)];
    }
  }
}
