/** Packet codec of the Go-Back-N exercise (make_pkt and pkt_is_corrupt in prog2_gbn.c).
    A packet carries a sequence number, an acknowledgement number, a checksum and a
    20-byte payload; the checksum is the plain integer sum of the header fields and,
    unless the payload holds the EMPTY_PAYLOAD sentinel in its first byte, of the
    payload bytes. */
module Packets {
  import opened Wrappers

  const DATA_LEN := 20
  /** Sentinel written in payload[0] of a packet built without payload. */
  const EMPTY_PAYLOAD := -1
  /** The byte the channel writes into payload[0] when it corrupts a payload ('Z'). */
  const CORRUPT_BYTE := 90
  /** The value the channel writes into a corrupted header field. */
  const CORRUPT_FIELD := 999999

  /** A C `char` (signed, as on the platforms the emulator targets). */
  type Byte = b: int | -128 <= b < 128

  /** The 20-byte payload of a message or packet. */
  type Data = d: seq<Byte> | |d| == DATA_LEN witness seq(DATA_LEN, i => 0)

  datatype Pkt = Pkt(seqnum: int, acknum: int, checksum: int, payload: Data)

  /** Sum of the bytes, each widened to int as the checksum loops do. */
  function Sum(s: seq<Byte>): int
  {
    if s == [] then 0 else s[0] + Sum(s[1..])
  }

  /** Payload of a packet built without data: the sentinel, then 19 bytes that
      make_pkt leaves uninitialised (modelled as 0). */
  function EmptyPayload(): (d: Data)
    ensures d[0] == EMPTY_PAYLOAD
  {
    [EMPTY_PAYLOAD as Byte] + seq(DATA_LEN - 1, i => 0)
  }

  /** make_pkt: builds a packet and its checksum; unless its data starts with
      the sentinel byte, the packet passes pkt_is_corrupt. */
  function MakePkt(seqnum: int, acknum: int, payload: Option<Data>): (r: Pkt)
    ensures r.seqnum == seqnum && r.acknum == acknum
    ensures payload.Some? ==> r.payload == payload.value
    ensures payload.None? || payload.value[0] != EMPTY_PAYLOAD ==> !IsCorrupt(r)
  {
    match payload
    case None => Pkt(seqnum, acknum, seqnum + acknum, EmptyPayload())
    case Some(d) => Pkt(seqnum, acknum, seqnum + acknum + Sum(d), d)
  }

  /** The checksum pkt_is_corrupt expects for the packet's current fields. */
  function ExpectedChecksum(p: Pkt): int
  {
    p.seqnum + p.acknum + (if p.payload[0] != EMPTY_PAYLOAD then Sum(p.payload) else 0)
  }

  /** pkt_is_corrupt: the stored checksum disagrees with the recomputed one. */
  predicate IsCorrupt(p: Pkt)
  {
    p.checksum != ExpectedChecksum(p)
  }

  /** A packet exactly as make_pkt builds it, whose payload (if any) does not start
      with the sentinel byte. Every packet the protocol entities send is of this form. */
  predicate WellFormed(p: Pkt)
  {
    p == MakePkt(p.seqnum, p.acknum, if p.payload[0] == EMPTY_PAYLOAD then None else Some(p.payload))
  }

  /** The corruption step of tolayer3, driven by the draw x: payload[0] becomes 'Z'
      when x < 0.75, else seqnum becomes 999999 when x < 0.875, else acknum does. */
  function Corrupt(p: Pkt, x: real): (r: Pkt)
    ensures r.checksum == p.checksum
  {
    if x < 0.75 then p.(payload := p.payload[0 := CORRUPT_BYTE])
    else if x < 0.875 then p.(seqnum := CORRUPT_FIELD)
    else p.(acknum := CORRUPT_FIELD)
  }

  /** Changing one byte of a sequence changes its sum by the difference. */
  lemma {:induction false} SumUpdate(s: seq<Byte>, i: nat, v: Byte)
    requires i < |s|
    ensures Sum(s[i := v]) == Sum(s) - s[i] + v
  {
    if i == 0 {
      assert s[i := v][1..] == s[1..];
    } else {
      SumUpdate(s[1..], i - 1, v);
      assert s[i := v][1..] == s[1..][i - 1 := v];
    }
  }

  /** A packet is well formed exactly when it is the result of make_pkt with no
      payload, or with a payload whose first byte is not the sentinel. */
  lemma WellFormedIsMade(s: int, a: int, payload: Option<Data>)
    ensures WellFormed(MakePkt(s, a, payload)) <==> (payload.None? || payload.value[0] != EMPTY_PAYLOAD)
  {
    if payload.Some? && payload.value == EmptyPayload() {
      EmptySum();
    }
  }

  /** A packet fresh from make_pkt passes pkt_is_corrupt, except when its data
      starts with the sentinel byte and the data does not sum to zero: then the
      receiver skips the payload in the check although make_pkt counted it. */
  lemma FreshPacketIntact(s: int, a: int, payload: Option<Data>)
    ensures IsCorrupt(MakePkt(s, a, payload)) <==>
            (payload.Some? && payload.value[0] == EMPTY_PAYLOAD && Sum(payload.value) != 0)
  {
  }

  /** Data whose first byte equals the sentinel (here the empty-payload pattern
      itself, sent as data): make_pkt sums it, pkt_is_corrupt does not. */
  lemma SentinelCollision()
    ensures IsCorrupt(MakePkt(1, 0, Some(EmptyPayload())))
  {
    EmptySum();
  }

  lemma {:induction false} ZeroSum(s: seq<Byte>)
    requires forall i :: 0 <= i < |s| ==> s[i] == 0
    ensures Sum(s) == 0
  {
    if s != [] {
      ZeroSum(s[1..]);
    }
  }

  /** On a fresh packet, changing only the sequence number, or only the
      acknowledgement number, to another value is detected. */
  lemma HeaderChangeDetected(p: Pkt, v: int)
    requires WellFormed(p)
    ensures v != p.seqnum ==> IsCorrupt(p.(seqnum := v))
    ensures v != p.acknum ==> IsCorrupt(p.(acknum := v))
  {
  }

  /** Every corruption the channel applies to a well-formed packet either leaves it
      unchanged (the field already held the marker value) or is detected. */
  lemma CorruptionDetected(p: Pkt, x: real)
    requires WellFormed(p)
    ensures Corrupt(p, x) == p || IsCorrupt(Corrupt(p, x))
  {
    if x < 0.75 {
      var q := Corrupt(p, x);
      if p.payload[0] == EMPTY_PAYLOAD {
        assert p.payload == EmptyPayload();
        assert q.payload == EmptyPayload()[0 := CORRUPT_BYTE];
        SumUpdate(EmptyPayload(), 0, CORRUPT_BYTE);
        EmptySum();
      } else if p.payload[0] != CORRUPT_BYTE {
        SumUpdate(p.payload, 0, CORRUPT_BYTE);
      } else {
        assert q.payload == p.payload;
      }
    }
  }

  /** The empty-payload pattern sums to the sentinel value. */
  lemma EmptySum()
    ensures Sum(EmptyPayload()) == EMPTY_PAYLOAD
  {
    var d := EmptyPayload();
    ZeroSum(d[1..]);
  }
}
