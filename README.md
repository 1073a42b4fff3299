# Go-Back-N over the Kurose–Ross network emulator, in Dafny

This project models `prog2_gbn.c`, a Go-Back-N reliable-transfer protocol
running on a discrete-event network emulator, and proves properties of the
model. The protocol has a sender A with a 5-slot window, cumulative ACKs and a
single timer of 200 time units. Its receiver B accepts only the next
in-order packet.

- `packets.dfy` (module `Packets`): the packet codec. It covers `make_pkt` and
  `pkt_is_corrupt`, the checksum, the `EMPTY_PAYLOAD` sentinel, and the
  corruption that the channel applies.
- `events.dfy` (module `Events`): the event list as a time-ordered
  sequence. It covers `insertevent`'s sorted insert, the timer search and
  unlink of `stoptimer` and `starttimer`, and the `lastime` scan of `tolayer3`.
- `emulator.dfy` (module `Emulator`): the emulator's globals as class
  `Network`, with `tolayer3`, `starttimer`, `stoptimer`, `tolayer5`,
  `generate_next_arrival`, `jimsrand` and the pop at the top of `main`'s loop.
  - Every method is proved against a function over `NetState`, the value of
    those globals.
  - `jimsrand()` returns the next value of a stream of draws (`Config.rand`),
    so every random choice is a parameter.
- `gbn.dfy` (module `Gbn`): entity A as class `Sender`, over `A_base`,
  `A_nextseq` and the array `A_sendwin`, and entity B as class `Receiver`,
  over `B_expectedseq` and `B_currack`.
  - Each handler returns, in order, the calls it makes into the emulator.
  - The window invariant is `WindowOk`: base <= nextseq <= base + 5, and the
    occupied slots hold exactly packets base .. nextseq - 1, once each.
- `simulation.dfy` (module `Simulation`): the whole program as class
  `Simulator`. Its `Step` is one iteration of `main`'s loop.
  - The system invariant `SystemOk` holds after `init`, `A_init` and
    `B_init`, and every step keeps it, whatever the channel loses, corrupts
    or delays.
  - From it: B's layer 5 has received exactly the first `expectedseq - 1`
    messages A accepted, in order. In the model, layer-5 delivery is recorded
    in `NetState.delivered`.
  - From it: A's timer is pending exactly while packets are unacknowledged.

Events with equal times do not run in insertion order. The scan at
prog2_gbn.c:574 stops at the first event whose time is not strictly earlier,
so a new event goes *before* events with the same time
(`Events.InsertBeforeTies`).

## Model

| member | source | states |
|---|---|---|
| Packets.MakePkt | prog2_gbn.c:79-100 | make_pkt keeps the header fields and the data it is given, and its packet passes pkt_is_corrupt unless the data starts with the sentinel byte |
| Packets.IsCorrupt | prog2_gbn.c:103-115 | pkt_is_corrupt's test: the stored checksum differs from seqnum + acknum plus the payload sum, the payload skipped when it starts with the sentinel (properties in FreshPacketIntact, HeaderChangeDetected, CorruptionDetected) |
| Packets.EmptyPayload | prog2_gbn.c:85-88 | a packet built without payload carries the sentinel -1 in its first byte |
| Packets.FreshPacketIntact | prog2_gbn.c:79-115 | a packet fresh from make_pkt fails pkt_is_corrupt exactly when its data starts with the sentinel byte and does not sum to zero (both directions) |
| Packets.WellFormedIsMade | prog2_gbn.c:79-100 | make_pkt's result passes the well-formedness test exactly when there is no payload or the payload does not start with the sentinel |
| Packets.SentinelCollision | prog2_gbn.c:103-115 | the empty-payload pattern, when sent as data, is reported corrupt although make_pkt built it |
| Packets.HeaderChangeDetected | prog2_gbn.c:103-115 | on a fresh packet, changing only seqnum, or only acknum, to another value is detected |
| Packets.SumUpdate | prog2_gbn.c:108-111 | changing one byte changes the checksum sum by exactly the difference |
| Packets.EmptySum | prog2_gbn.c:85-88 | the empty-payload bytes sum to the sentinel value |
| Packets.Corrupt | prog2_gbn.c:722-732 | the channel's corruption never touches the stored checksum |
| Packets.CorruptionDetected | prog2_gbn.c:722-732 | every corruption of a well-formed packet either leaves it unchanged or is caught by pkt_is_corrupt |
| Events.Other | prog2_gbn.c:706 | (AorB+1) % 2 names the other entity, never the sender itself |
| Events.InsertPos | prog2_gbn.c:574-575 | the insertion scan passes exactly the leading events strictly earlier than the new one |
| Events.Insert | prog2_gbn.c:559-594 | insertevent on the list as a value: the event spliced in at InsertPos (properties in InsertShape, InsertSorted, InsertBeforeTies) |
| Events.InsertShape | prog2_gbn.c:559-594 | insertevent yields the old list with the new event spliced in at the scan's position: one longer, same multiset plus the event, others in order |
| Events.InsertMembers | prog2_gbn.c:559-594 | the events after insertevent are the old ones and the new one, nothing else |
| Events.InsertBeforeTies | prog2_gbn.c:574-575 | a new event lands before every existing event with an equal time |
| Events.InsertSorted | prog2_gbn.c:559-594 | insertevent keeps the list ordered by non-decreasing time |
| Events.FirstTimer | prog2_gbn.c:619-620 | the stoptimer scan stops at the first timer event of the entity, and passes no earlier one |
| Events.HasTimerCount | prog2_gbn.c:652-656 | starttimer's scan finds a pending timer exactly when the entity's timer count is positive |
| Events.TimerCountInsert | prog2_gbn.c:559-594 | inserting adds one timer of e exactly when the new event is a timer of e |
| Events.RemoveFirstTimer | prog2_gbn.c:612-638 | stoptimer on the list as a value: the first timer of e unlinked, if any (properties in RemoveFirstTimerShape, TimerCountRemove, RemoveSorted) |
| Events.TimerCountRemove | prog2_gbn.c:612-638 | stoptimer removes one timer of e when there is one, and no timer of the other entity |
| Events.RemoveFirstTimerShape | prog2_gbn.c:612-638 | stoptimer unlinks only the first timer of e and leaves the rest in order; the list is unchanged when none is pending |
| Events.RemoveMembers | prog2_gbn.c:612-638 | stoptimer adds no event |
| Events.RemoveSorted | prog2_gbn.c:612-638 | stoptimer keeps the list ordered |
| Events.LastArrivalBound | prog2_gbn.c:712-716 | on an ordered list the lastime scan is at or after now and after every arrival pending for the destination |
| Events.LastArrival | prog2_gbn.c:712-716 | the lastime scan on the list as a value: the time of the last arrival pending for the destination, else now (properties in LastArrivalBound, ArrivalQueued; Network.LastTime's loop is proved to compute it) |
| Events.ArrivalQueued | prog2_gbn.c:703-717 | an arrival later than every pending arrival for its destination becomes the last of them: no reordering |
| Emulator.Interarrival | prog2_gbn.c:546 | the time to the next message is not negative |
| Emulator.Transmit | prog2_gbn.c:668-737 | tolayer3 on the emulator's state: count, loss draw, then delay and corruption draws and the scheduled arrival (properties in TransmitOk, TransmitInOrder) |
| Emulator.Delivery | prog2_gbn.c:703-732 | the arrival tolayer3 schedules for a packet that is not lost: at the other entity, 1 + 9r after lastime, carrying the packet or the copy the corruption draws make (properties in DeliveryOk) |
| Emulator.Enqueue | prog2_gbn.c:703-736 | the part of tolayer3 after the loss draw: two or three draws, the corruption count, and Delivery's event inserted (properties in TransmitOk, TransmitInOrder; Network.EnqueueCopy is proved to compute it) |
| Emulator.InsertOk | prog2_gbn.c:559-594 | insertevent of a future event keeps the emulator invariant and adds just that event |
| Emulator.TransmitOk | prog2_gbn.c:668-737 | tolayer3 keeps the emulator invariant, the clock and the timers; it adds at most an arrival at the other entity, carrying the packet or a copy pkt_is_corrupt catches |
| Emulator.DeliveryOk | prog2_gbn.c:703-732 | the scheduled arrival goes to the other entity, at least 1 unit after now and after every arrival pending for it and at most 10 after the latest of them, carrying the packet or a copy pkt_is_corrupt catches |
| Emulator.TransmitInOrder | prog2_gbn.c:680-717 | a lost packet schedules nothing; any other becomes the last arrival pending for its destination, at least one unit after every earlier one |
| Emulator.StartTimerOk | prog2_gbn.c:641-664 | starttimer adds a timer exactly when none is pending for e, so at most one per entity, and leaves the other entity's timers alone |
| Emulator.StopTimerOk | prog2_gbn.c:612-638 | stoptimer keeps the emulator invariant, removes one timer of e if any, and adds nothing |
| Emulator.StartTimerOn | prog2_gbn.c:641-664 | starttimer on the emulator's state: a timer of e at now + increment, unless one is pending (properties in StartTimerOk; Network.StartTimer is proved to compute it) |
| Emulator.StopTimerOn | prog2_gbn.c:612-638 | stoptimer on the emulator's state: the first timer of e unlinked (properties in StopTimerOk; Network.StopTimer is proved to compute its event list) |
| Emulator.ScheduleArrivalOk | prog2_gbn.c:535-556 | generate_next_arrival keeps the emulator invariant and the timers, and adds only a message arrival for A |
| Emulator.ScheduleArrival | prog2_gbn.c:535-556 | generate_next_arrival on the emulator's state: one draw, and a message arrival for A lambda * r * 2 after now (properties in ScheduleArrivalOk, Interarrival) |
| Emulator.PerformAll | prog2_gbn.c:170-179 | the emulator calls a handler makes, carried out in order: tolayer3, starttimer, stoptimer or tolayer5 each (properties in PerformAppend, Simulation.PerformOk; Network.Perform is proved to compute it) |
| Emulator.PopOk | prog2_gbn.c:411-428 | the popped head is the earliest event, the clock never goes back, and the rest stays a valid event list |
| Emulator.Network.constructor | prog2_gbn.c:510-514 | the emulator starts at time 0 with an empty list and zero counters |
| Emulator.Network.Jimsrand | prog2_gbn.c:523-529 | each call returns the next draw of the stream |
| Emulator.Network.InsertEvent | prog2_gbn.c:559-594 | the list loop computes exactly the sorted insert |
| Emulator.Network.StopTimer | prog2_gbn.c:612-638 | the loop unlinks exactly the first timer of e and reports whether there was one |
| Emulator.Network.StartTimer | prog2_gbn.c:641-664 | the loop refuses when a timer of e is pending, else inserts one at time + increment |
| Emulator.Network.ToLayer3 | prog2_gbn.c:668-737 | tolayer3 counts the packet, draws for loss, and otherwise schedules the arrival as the Transmit function says |
| Emulator.Network.EnqueueCopy | prog2_gbn.c:687-736 | a packet that is not lost is scheduled at lastime + 1 + 9r for the other entity, corrupted or not as the draws say |
| Emulator.Network.CorruptDraw | prog2_gbn.c:721-732 | one draw decides corruption; when it happens a second draw picks payload[0] := 'Z' (< 0.75), seqnum := 999999 (< 0.875) or acknum := 999999 |
| Emulator.Network.LastTime | prog2_gbn.c:712-716 | the loop yields the time of the last arrival pending for dest, or now |
| Emulator.Network.ToLayer5 | prog2_gbn.c:739-749 | the data is handed to the upper layer |
| Emulator.Network.GenerateNextArrival | prog2_gbn.c:535-556 | the next message for A is scheduled lambda * r * 2 after now |
| Emulator.Network.Perform | prog2_gbn.c:170-179 | carrying out an entity's calls in order, one tolayer3, starttimer, stoptimer or tolayer5 each, is PerformAll |
| Emulator.Network.PopEvent | prog2_gbn.c:411-416 | the head of the list is unlinked and returned, or nothing on an empty list |
| Gbn.FirstFree | prog2_gbn.c:161-169 | the slot A_output fills: every earlier slot is occupied and this one is empty |
| Gbn.Release | prog2_gbn.c:223-230 | A_input's release loop on the window as a value (properties in ReleaseSeqs, ReleaseOk) |
| Gbn.ReleaseSeqs | prog2_gbn.c:223-230 | a cumulative ACK only empties slots, and the sequence numbers left are exactly the old ones above acknum |
| Gbn.WindowCount | prog2_gbn.c:157-181 | in a valid window the number of occupied slots is nextseq - base |
| Gbn.FreeSlot | prog2_gbn.c:157-169 | while nextseq < base + 5 the search finds an empty slot |
| Gbn.FillFirstFree | prog2_gbn.c:161-169 | filling the first empty slot changes that slot only |
| Gbn.Fill | prog2_gbn.c:161-169 | A_output's slot store on the window as a value: the packet in the first empty slot (properties in FillFirstFree, AcceptOk) |
| Gbn.AcceptOk | prog2_gbn.c:157-181 | A_output with room puts packet nextseq into the first empty slot and keeps the window invariant with nextseq + 1 |
| Gbn.ReleaseOk | prog2_gbn.c:209-230 | a new cumulative ACK (base <= acknum < nextseq) keeps the window invariant with base = acknum + 1 |
| Gbn.ReplayTableAt | prog2_gbn.c:250-261 | the corrected table holds each occupied packet at index seqnum - base |
| Gbn.ReplayTableSorted | prog2_gbn.c:250-269 | entry k of the corrected table is packet base + k, for every k below the count of occupied slots |
| Gbn.ReplayTable | prog2_gbn.c:250-261 | the corrected table of A_timerinterrupt: each occupied packet at index seqnum - base (properties in ReplayTableAt, ReplayTableSorted, AsWrittenAgrees) |
| Gbn.Resends | prog2_gbn.c:263-269 | the corrected retransmission: a tolayer3 of each packet base .. nextseq - 1, ascending (properties in ResendsCoverWindow, Simulation.ResendCallsOk and the ensures of Sender.TimerInterrupt) |
| Gbn.ResendsCoverWindow | prog2_gbn.c:250-269 | the retransmissions are as many as the occupied slots, ascending from base, each the packet of an occupied slot, and every occupied slot's packet is among them |
| Gbn.AsWrittenTable | prog2_gbn.c:250-261 | the table A_timerinterrupt builds as written, each occupied packet at index seqnum % A_base; an entry never written stays empty |
| Gbn.AsWrittenResends | prog2_gbn.c:263-269 | what the source resends: the first retransmit_count entries of that table (properties in AsWrittenAgrees, AsWrittenLosesPacket) |
| Gbn.AsWrittenAgrees | prog2_gbn.c:255-258 | the modulo index is right while every packet in flight lies in [base, 2 base): there the source's table is the intended one |
| Gbn.AsWrittenLosesPacket | prog2_gbn.c:255-258 | with base 1 and packets 1 and 2 in flight the source resends packet 2 and an unwritten entry, never packet 1; the intended retransmission is 1 then 2 |
| Gbn.Sender.constructor | prog2_gbn.c:278-288 | A starts with base = nextseq = 1 and every slot empty |
| Gbn.Sender.Output | prog2_gbn.c:155-187 | with room: the packet (nextseq, 0, message) goes into the lowest empty slot and to tolayer3, the timer starts iff nextseq == base, nextseq grows by one, no other slot changes; with a full window nothing changes |
| Gbn.Sender.Input | prog2_gbn.c:195-239 | an ACK below base or corrupt changes nothing; else stop the timer, base = acknum + 1, exactly the slots with seqnum <= acknum are emptied, restart iff base != nextseq; the window invariant is kept for every acknum < nextseq |
| Gbn.Sender.TimerInterrupt | prog2_gbn.c:242-274 | the calls are the resends of packets base .. nextseq - 1 in ascending order, one per occupied slot, then a timer start; nothing in A changes |
| Gbn.Receiver.constructor | prog2_gbn.c:341-345 | B expects packet 1 and holds a dummy ACK 0 |
| Gbn.Receiver.Input | prog2_gbn.c:296-332 | the expected intact packet is delivered, ACKed with acknum = old expectedseq, and expectedseq grows by one; otherwise the state is unchanged and the last ACK is sent again |
| Simulation.AOutput | prog2_gbn.c:155-187 | A_output and the emulator carrying out its calls, on the whole system (kept invariant: MessageOk) |
| Simulation.AInput | prog2_gbn.c:195-239 | A_input and the emulator carrying out its calls (kept invariant: AckOk) |
| Simulation.ATimeout | prog2_gbn.c:242-274 | A_timerinterrupt, with the corrected index, and the emulator carrying out its calls (kept invariant: TimeoutOk) |
| Simulation.BInput | prog2_gbn.c:296-332 | B_input and the emulator carrying out its calls (kept invariant: DataOk) |
| Simulation.Dispatch | prog2_gbn.c:431-469 | main's dispatch on the popped event's type and entity (kept invariant: DispatchOk) |
| Simulation.MainStep | prog2_gbn.c:410-471 | one iteration of main's loop: stop on an empty list or when nsim reaches nsimmax, else pop, move the clock and dispatch (kept invariant: StepOk) |
| Simulation.PerformOk | prog2_gbn.c:612-749 | carrying out legitimate calls keeps the emulator invariant, sends only legitimate packets, delivers what the calls deliver, and changes timers as the start and stop calls say |
| Simulation.InitialOk | prog2_gbn.c:406-408 | the state after init, A_init and B_init satisfies the system invariant |
| Simulation.Initial | prog2_gbn.c:406-408 | the state after init, A_init and B_init: the first message arrival scheduled, A with base = nextseq = 1 and an empty window, B expecting packet 1 (properties in InitialOk and the ensures of Simulator.constructor) |
| Simulation.Letters | prog2_gbn.c:434-436 | main's message: twenty copies of the letter 'a' + nsim % 26 (used by Dispatch and in the ensures of Simulator.NewMessage; NewMessageOk relies on its first byte not being the sentinel) |
| Simulation.OutputCallsOk | prog2_gbn.c:170-179 | A_output's send and timer start keep the emulator invariant, and A's timer count goes from 0 to 1 on a start |
| Simulation.OutputLegit | prog2_gbn.c:170-179 | the packet A_output sends is the well-formed data packet of the message just accepted, and its timer start has a non-negative delay |
| Simulation.MessageOk | prog2_gbn.c:155-187 | A_output keeps the system invariant |
| Simulation.AckCallsOk | prog2_gbn.c:209-237 | A_input's stop and optional restart leave A with exactly one pending timer iff it restarts |
| Simulation.AckOk | prog2_gbn.c:195-239 | A_input keeps the system invariant on every packet that can reach A |
| Simulation.NewAckOk | prog2_gbn.c:209-237 | stopping the timer, releasing up to a received acknum and restarting while packets remain keeps the system invariant |
| Simulation.ReplyCallsOk | prog2_gbn.c:310-331 | B_input's delivery and ACK keep the emulator invariant and the timers, and layer 5 receives just the delivered data |
| Simulation.DataOk | prog2_gbn.c:296-332 | B_input keeps the system invariant: only packet expectedseq, intact, reaches layer 5, and it is the next message A accepted |
| Simulation.InOrderOk | prog2_gbn.c:310-331 | delivering packet expectedseq's data, the next accepted message, and acknowledging it keeps the invariant with expectedseq + 1 |
| Simulation.ResentAckOk | prog2_gbn.c:324-331 | sending the last acknowledgement again keeps the system invariant |
| Simulation.ResendCallsOk | prog2_gbn.c:263-273 | every packet A_timerinterrupt resends is the well-formed packet of a message A accepted |
| Simulation.TimeoutOk | prog2_gbn.c:242-274 | A_timerinterrupt, run when A's timer fired, keeps the system invariant and leaves exactly one timer of A pending |
| Simulation.PoppedOk | prog2_gbn.c:411-428 | the popped event is never a timer of B nor an arrival without a packet, and every packet it carries is legitimate |
| Simulation.NewMessageOk | prog2_gbn.c:431-448 | a layer-5 event (next arrival, then A_output) keeps the system invariant |
| Simulation.DispatchOk | prog2_gbn.c:431-469 | the dispatch after a pop restores the system invariant |
| Simulation.StepOk | prog2_gbn.c:410-471 | one loop iteration keeps the system invariant unless it ends the loop; the clock never goes back; layer 5 holds exactly the first expectedseq - 1 accepted messages |
| Simulation.Simulator.constructor | prog2_gbn.c:406-408 | after init, A_init and B_init the program is in its initial state and satisfies the invariant |
| Simulation.Simulator.Step | prog2_gbn.c:410-471 | one iteration of main's loop is MainStep; while the loop goes on the invariant holds, and delivered data is always a prefix of what A accepted |
| Simulation.Simulator.HandleEvent | prog2_gbn.c:431-469 | the dispatch on the event's type and entity is Dispatch |
| Simulation.Simulator.NewMessage | prog2_gbn.c:431-448 | a layer-5 event schedules the next message, builds 20 copies of 'a' + nsim % 26, counts it and hands it to A_output |
| Simulation.Simulator.Offer | prog2_gbn.c:444-445 | A_output followed by the emulator carrying out its calls is AOutput |
| Simulation.Simulator.PacketArrival | prog2_gbn.c:449-460 | a packet arrival goes to A_input or B_input and the emulator carries out the calls |
| Simulation.Simulator.TimerExpiry | prog2_gbn.c:461-466 | a timer expiry runs A_timerinterrupt for A and nothing for B |
| Simulation.Simulator.Run | prog2_gbn.c:410-471 | across iterations the invariant holds until the loop ends, and B's layer 5 has exactly the first expectedseq - 1 accepted messages |

## Left out

- Terminal I/O. `init` reads its parameters with `scanf`; the model's
  constructor takes them as arguments. All `printf` tracing is left out:
  `pkt_info`, `win_info`, `printevlist`, the `TRACE` branches, and the
  handlers' messages.
- The random-number generator. `srand`, the 1000-draw mean test in `init`
  with its `exit`, and `jimsrand`'s division of `rand()` are left out.
  - The draws are the stream `Config.rand`, and `ConfigOk` requires it to lie in
    [0, 1].
  - `ConfigOk` also requires `lambda`, the mean time between messages, to be
    non-negative; `init` asks for a value "> 0.0" (prog2_gbn.c:493) but does
    not check it.
  - The stream starts after the draws that this mean test consumes.
- Single-precision floating point. Times, probabilities and draws are exact
  reals, so rounding is not modelled.
- 32-bit integer overflow. Overflow of sequence numbers, ACK numbers and
  checksums is not modelled; the integers are unbounded.
- `malloc` and `free`. Packets are values, so the copies made by `tolayer3`
  and by `main` (`pkt2give`) are value copies, and freeing is not modelled.
- Uninitialised memory.
  - The 19 bytes after the sentinel in an ACK's payload are not initialised
    by `make_pkt` and are modelled as 0 (`Packets.EmptyPayload`).
  - `pkt_is_corrupt` skips them only while payload[0] holds the sentinel.
    Once `tolayer3` writes 'Z' into payload[0] of an ACK
    (prog2_gbn.c:724-725), the check sums all 20 bytes, so it reads them.
- Packets.CorruptionDetected: its ACK case holds because the 19 unwritten
  bytes are modelled as 0. With other values there, an ACK whose payload[0]
  became 'Z' can still pass `pkt_is_corrupt`; for example, bytes
  `[-90, 0, ...]` after the sentinel do. The clauses "or a copy
  pkt_is_corrupt catches" of `Emulator.TransmitOk` and
  `Emulator.DeliveryOk` rest on the same modelling. A's update reads only
  acknum, which a payload corruption leaves intact. So an ACK that passes the
  check moves A exactly as the intact ACK would. The model has A ignore it,
  and every invariant holds either way.
- Signed `char`. `Packets.Byte` assumes `char` is signed, as the sentinel
  test in `pkt_is_corrupt` needs. With an unsigned `char`, payload[0] = -1
  is stored as 255, the test at prog2_gbn.c:106 never sees the sentinel,
  and every ACK is summed in full. That platform is not modelled.
- `B_output`, `B_timerinterrupt` and the `BIDIRECTIONAL` branch.
  - `B_output` and `B_timerinterrupt` are empty, and the model dispatches to
    nothing for them.
  - `BIDIRECTIONAL` is compiled out, so `generate_next_arrival` takes no
    second draw and always targets A.
- `main`'s "unknown event type" branch. The event type has exactly three
  values, so the branch is unreachable.
- Simulation.Simulator.Run: `main` loops until the list empties or `nsimmax`
  messages have been generated. `Run` performs at most `fuel` iterations,
  because the number of iterations the source needs is not bounded by its
  inputs.
- Gbn.Sender.Output: requires the window invariant. The source reads
  `A_sendwin[5]` when `A_nextseq < A_base + 5` and no slot is empty, and the
  invariant rules that case out (`Gbn.FreeSlot`).
- Gbn.Sender.Input: the window invariant is promised only for ACKs below
  nextseq. Every ACK that can be in flight is one (`Simulation.AckOk`), and
  the source guards nothing else.
- Simulation.MessageOk: requires that the message does not start with the
  sentinel byte. `main` hands A only lower-case letters, and
  `Packets.SentinelCollision` shows that a packet built from such a message
  would look corrupt to its receiver.
- Emulator.Network.StopTimer and Emulator.Network.StartTimer: the warnings
  they print when no timer runs, or one already runs, are left out. The
  contracts state the list behaviour instead.

## Findings

| source | as written | input that shows it | evidently intended | confidence | as-written member | corrected member |
|---|---|---|---|---|---|---|
| prog2_gbn.c:255-258 | `A_timerinterrupt` puts each occupied packet at `orderedwin[seqnum % A_base]` and resends the first `retransmit_count` entries | base = 1 with packets 1 and 2 in flight: both map to index 0, so packet 1 is never resent and `orderedwin[1]` is read uninitialised | resend each occupied packet once, in ascending seqnum order (index `seqnum - A_base`) | not executed | Gbn.AsWrittenLosesPacket | Gbn.ReplayTableSorted |

The entities use the corrected index: `Gbn.Sender.TimerInterrupt` builds its
table at `seqnum - base` and is proved to resend packets base .. nextseq - 1
in order. `Gbn.AsWrittenAgrees` shows that the source's index is right
whenever every packet in flight lies in [base, 2 base).
