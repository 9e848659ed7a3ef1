# Level-IP: a verified model of the TCP engine

Level-IP is a TCP/IP stack in user space. This project models the parts of it where mistakes are
hardest to see and proves what they are meant to guarantee: data transfer between two endpoints over
a network that loses, duplicates and reorders; congestion control and the retransmission timeout; the
epoch protocol between the timer thread, its detached callbacks and the ACK path; and the smaller
cores underneath (SACK and TCP options, the Internet checksum, the intrusive list, streaming SHA-256,
IPv6 longest-prefix match, IPv6 text).

The code changes its state in place, so each such piece appears twice. A class (`ReceiveSide`,
`SendSide`, `TcpSock`, `TimerList`, `RtoTimer`, `SackTable`, `SkbQueue`, `RouteTable`, `Context`) has
the fields and the loops of the C code; every method is proved equal to a function on the value of
those fields. The run theorems are about these functions, composed into step systems.

| files | what they hold |
|---|---|
| `Words`, `Stream` | machine words with explicit wrap-around; a byte stream cut once into chunks |
| `TcpData`, `ReceivePath`, `Reassembly`, `ReceiveWindow`, `Acceptance` | receive path, any arrival order, the advertised window, what is taken and what is refused |
| `TcpOutput`, `SendPath`, `TcpInput`, `TcpSocket` | send path, retransmission queue, segment processing |
| `Transfer`, `TransferSafety`, `Opening`, `SenderWindow`, `Segmentation` | two endpoints and a network; what holds of every run; where the two ends start; one endpoint with any peer; how its stream is cut |
| `Congestion`, `CongestionRun`, `LossResponse`, `Rtt`, `Smoothing`, `RttSamples` | congestion counters, growth laws, the response to a loss, round-trip estimate, its memory and its samples, back-off |
| `TimerWheel`, `TimerTick`, `RtoEpoch`, `RtoTimers`, `AfterClose`, `Rounds` | timer life cycle, the retransmission-timer protocol, closed connections, recovery by timeouts alone |
| `Progress`, `Echo`, `Reach`, `Connection`, `Misled`, `Aborted` | endpoints with timers and a lossy network; that everything can still arrive, and runs in which it cannot |
| `Sack`, `TcpOptions`, `OptionLists` | SACK blocks, option encoding and parsing, every list of options |
| `Checksum`, `RingList`, `BlockHash`, `Sha256`, `Sha256Bits`, `Sha256Stream`, `Route6`, `Ipv6Text` | the smaller cores |

Check everything with `dafny verify dfyconfig.toml`.

## How the runs are modelled

A run of `Transfer` starts with two established endpoints and interleaves, in any order: application
writes, `tcp_send` cutting and queueing one segment, delivery of any segment ever sent (so loss,
duplication and reordering are all included), the retransmission timeout, the delayed ACK and reads of
any size. Every entry point runs under the socket lock and is one step. Both directions carry data at
the same time. After a connection is closed, segments still reach its socket (in TCP_CLOSING and
TCP_TIME_WAIT) and a writer that was asleep goes on; these steps, and what `tcp_done` and
`tcp_send_reset` do to the queues and to `snd_una`, are steps too. Numbers are 32-bit; the theorems are for streams with a positive first number that stay
below 2^32, because the code compares numbers as plain unsigned integers and treats number 0 as "not
sent" (src/tcp_input.c:162, src/tcp_input.c:299-300, src/tcp_output.c:273).

At the start each side expects the first number that the other has not seen acknowledged. What a side
sends first may be that number, as for an active opener, or a later one: a passive opener counts its SYN
twice and starts one ahead. The theorems speak of each direction separately, so the bytes of the active
opener are covered whatever the passive opener sends.

A run of `SenderWindow` or `RtoEpoch` has one endpoint and an arbitrary peer: any segment may arrive at
any time. `RtoEpoch` adds the timer list: tick visits, spawned callbacks reaching the socket lock in any
order, other owners of timers, aborts and resets, before and after the close.

`Connection` puts two endpoints of `RtoEpoch` and the network together. A timeout is there a callback
that the tick thread has spawned, with doubling, Karn's rule and give-up. Each of its runs is a run of
`Transfer` once the timers are forgotten.

## What turned out different from what is promised

- A passive opener counts its SYN twice (src/tcp_output.c:227, src/tcp_input.c:396) and starts one number
  ahead of what its peer expects. Its timeout then
  sends the head of the queue under `snd_una`, the peer takes it, acknowledges a number that is no segment
  boundary, and takes it again: what was written once is read twice (`DataTwice`). All runs keep the prefix
  property exactly when the sender's `snd_nxt` is the number its peer expects (`PrefixIff`).
- Two bytes from a passive opener are enough to make the active opener expect, and acknowledge, a number that
  was never sent (`ExpectsUnsent`). From then on, as long as the passive opener writes nothing more, it drops
  everything the active opener sends: what is left can still arrive exactly when the active opener does not
  expect an unsent number (`ArrivesIff`). `HandshakeToDeadEnd` is such a run, from the handshake on.
- `tcp_done` stops the retransmission timer but keeps the write queue, the bytes in flight and, for ten
  seconds, the socket. A closed connection has an armed timer exactly when since the close a third duplicate
  ACK, or a writer that was asleep and found nothing queued, has armed it and nothing has stopped it again
  (`RtoTheorem`, `AbortedButArmed`). After a give-up such a timer is due more than sixty seconds later, when
  the socket has long been freed (`OutlivesTheSocket`).
- `tcp_send_reset` sets `snd_una` to `snd_nxt`. If the RST is lost, acknowledgements of the last byte arm the
  timer of the aborted sender, and its timeout sends the head of the queue under the number the peer expects
  next: data written once are read twice (`AbortedDataTwice`, `HandshakeToAbort`). The prefix property holds
  for every side in step that does not abort (`ConnectionTheorem`).
- `ipv6_parse_addr` loses the group written directly before `::`; fe80::1 is read as ::1
  (`LinkLocalIsMisread`). A compressed spelling is read correctly exactly when `::` comes first or that
  group is zero (`CompressedCorrectIff`).
- `snd_wnd` is never updated after the handshake: the guard of `update_snd_win` repeats a test that the
  ACK path has just made false (`WindowUpdateIsDead`).
- `tcp_send_next` never transmits anything on an established connection, so the Limited Transmit of
  Documentation/testing-congestion-control.md:276-289 does not happen (`SendNextIsIdle`, `SenderTheorem`).
- `dupacks` has eight bits: it shows recovery exactly when fewer than three duplicate ACKs have come in the
  episode or their number modulo 256 is at least three, so the 256th to 258th hide it, and the 259th enters
  recovery a second time (`DupackCounterShowsRecoveryIff`, `HiddenRecoveryIsReached`, `RecoveryIsReentered`).
- `cwnd` has 32 bits. It stays at one SMSS or more exactly as long as no addition to it exceeds them
  (`RunAboveIff`); for full segments without loss that is as long as 2144 + n*SMSS is below 2^32, with one
  exception for window sizes that land on 2^32 - 1 (`FullSegmentsIff`). The theorems about whole connections
  ask for 259 segments of room, which is enough for any pattern of duplicate ACKs.
- The initial window is 2144 bytes whatever the SMSS, and src/tcp.c:293-301 may set a larger SMSS: a writer
  ever sends exactly when its first segment is no longer than that and the peer's window; otherwise it
  sleeps for ever (`FirstSegmentIff`).
- The timeout path labels the head of the queue with `snd_una`. That is the right number exactly when the
  last acknowledgement fell on a segment boundary (`TimeoutLabelIsRightIff`); for a sender in step with
  this receiver it always does (`SenderTheorem`).
- While it has data of its own queued, an endpoint neither acknowledges in-order data nor arms the delayed
  ACK: it relies on `tcp_send_next`, which sends nothing (`AckPromisedIff`). The peer's timeout repairs this,
  because a repeated segment is always answered (`OldChunkAnswered`).
- Timeouts can end a connection although each repeat is acknowledged, because `backoff` is cleared only when
  the queue empties and Karn's rule keeps the doubled RTO (`GivenUpAlthoughAcknowledged`). Recovering a queue
  by timeouts alone succeeds exactly when it holds no more segments than the RTO survives timeouts
  (`DrainsIff`); with an RTO of zero it succeeds for 256 segments, after which the 8-bit `backoff` wraps to zero
  and a measurement may set an RTO (`ZeroDrains`, `ZeroWraps`). One timeout is enough, though: fast retransmit
  brings over the rest (`EverythingCanArrive`).
- An RTO of zero never grows, so such a connection is never given up (`GivesUpIff`).
- The out-of-order queue stays sorted exactly when the arriving number is already held or no queued
  segment starts inside the arriving one (`InsertKeepsOrderIff`).
- Bytes released from the out-of-order queue are not charged to `real_rcv_wnd`, so the advertised window
  drifts upwards by exactly their number (`WindowLaw`, `WindowExactIff`).
- Options that fill all forty bytes (a window scale and four SACK blocks) are written but not parsed
  (`OptionsRoundTrip`).
- The parser knows no end-of-options kind. At kind 0, as at any unknown kind, it counts down without moving,
  so nothing behind it is read (`UnknownEnds`).
- A receive window whose right edge reaches 2^32 takes nothing at all, since the edge wraps below `rcv_nxt`
  (`VerifyIff`); every segment is then answered and dropped (`OutsideWindow`).
- `tcp_rtt` computes the arming time from the deadline and the present RTO. The sample is the time passed
  exactly while the RTO is the one the timer was armed with (`SampleTheorem`); an acknowledgement that comes
  with a segment out of order changes the RTO without rearming (`MeasuredButNotRearmed`). A smoothed value of
  zero counts as "not measured yet", and a sample of zero on top of srtt = 1 produces it (`ForgetsIff`).

## Model

| member | source | states |
|---|---|---|
| `TransferSafety.TransferTheorem` | src/tcp_data.c:34-143 | In every run of two endpoints over a lossy, duplicating, reordering network, open or closed, what is read is a prefix of what the other side wrote, in each direction whose sender starts in step with its peer and does not abort, whatever the other direction does |
| `TransferSafety.SenderTheorem` | src/tcp_input.c:602-619 | In every run, for a sender in step that does not abort: every acknowledgement in the network is a segment boundary, the head of the queue is numbered `snd_una`, inflight is exactly snd_nxt - snd_una, and `tcp_send_next` has nothing to send |
| `TransferSafety.StepKeeps` | src/tcp_input.c:533-787 | Every step of either endpoint keeps one direction in order: queue, in-flight bytes, accepted chunks, segments and acknowledgements in the network all describe one segmentation of the written bytes |
| `TransferSafety.SenderActs` | src/tcp_output.c:170-203 | Each step of the sending side keeps its direction in order |
| `TransferSafety.ReceiverActs` | src/tcp_data.c:101-143 | Each step of the receiving side, whose own queue need only be numbered, keeps the direction in order and only emits acknowledgements of boundaries it has reached |
| `TransferSafety.TimeoutSendsHead` | src/tcp_output.c:478-500 | The retransmission timeout of a sender in step sends the first unacknowledged segment, under its own number, with its own bytes |
| `Opening.FirstNumbers` | src/tcp_output.c:205-230 | After the handshake an active opener sends next under the number its peer expects, a passive opener under the one after it |
| `Opening.DataTwice` | src/tcp_output.c:478-500 | From any start with a sender ahead of its peer, for any data of at most one segment, a run after which they have been written once and read twice |
| `Opening.ExpectsUnsent` | src/tcp_output.c:478-500 | If the data are longer than the sender is ahead, the reader then expects a number that has not been sent |
| `Opening.PrefixIff` | src/tcp_input.c:387-402 | All runs in which the sender does not abort keep the prefix property exactly when its `snd_nxt` is its peer's `rcv_nxt` |
| `Opening.OnlyActiveOpenersAreSafe` | src/tcp_input.c:446-450 | All runs keep it for an active opener, not all for a passive one |
| `Connection.EverythingCanArrive` | src/tcp_output.c:457-528 | After every run of endpoints with timers, whatever part of the network is then lost, there is a continuation with at most one timeout and no further write after which the reader has exactly what the sender in step wrote, and the connection is open |
| `Connection.ArrivesIff` | src/tcp_input.c:621-633 | With the network lost and nothing left to send at the peer, what has not been received can still arrive exactly when the sender does not acknowledge a number that its peer never sent |
| `Connection.HandshakeBegins` | src/tcp_input.c:387-458 | An active opener with an RTO of one second and a passive one with none, right after their handshake, meet what the theorems about connections ask of the start |
| `Misled.HandshakeToDeadEnd` | src/tcp_input.c:626-633 | A run from the handshake, with two timeouts of the passive opener, to a state from which a byte of the active opener cannot arrive any more |
| `Aborted.AbortedDataTwice` | src/tcp_output.c:617-635 | From any start in step, a run with an abort after which data of one segment have been written once and read twice |
| `Aborted.HandshakeToAbort` | src/tcp.c:521-526 | The same from the handshake |
| `Aborted.LateTimeout` | src/tcp_output.c:478-500 | The timeout of an aborted connection sends the head under the number after everything sent |
| `Connection.ConnectionTheorem` | src/tcp_output.c:457-528 | The prefix property for the system with timers, epochs, back-off, give-up and closing, for every side in step that does not abort |
| `Connection.RunProjects` | src/timer.c:65-110 | Every run with timers is a run of the transfer system |
| `Connection.TimeoutHappens` | src/timer.c:86-96 | With data in flight and an RTO of at most 60 seconds, the tick thread brings one timeout that leaves the connection open |
| `Progress.RoundAdvances` | src/tcp_input.c:262-286 | Outside recovery, with one old segment left in the network, deliveries alone trigger fast retransmit and move `snd_una` forward |
| `Progress.ChunkArrives` | src/tcp_input.c:548-700 | Delivery of the next missing segment with a current acknowledgement moves `rcv_nxt` past it |
| `Progress.OldChunkAnswered` | src/tcp_input.c:552-560 | A segment below `rcv_nxt` changes nothing and is answered with an acknowledgement |
| `Progress.CandidateIsHead` | src/tcp_output.c:662-681 | Without SACK marks fast retransmit sends the head of the queue |
| `Progress.IdleSends` | src/tcp_output.c:153-168 | A reachable sender with an empty queue and data left is never blocked by the window |
| `Reach.RunGoing` | src/tcp_input.c:533-787 | Every run to a state with an attentive peer, followed by any loss, ends where the transfer can go on |
| `Reach.UsuallyAttentive` | src/tcp_input.c:293-305 | A peer that is in step, or that has written nothing, is attentive in every reachable state |
| `Echo.NothingMoreArrives` | src/tcp_input.c:621-633 | Once every acknowledgement on its way is for an unsent number, no segment is accepted any more, open or closed |
| `Echo.RunCoupled` | src/tcp_input.c:602-633 | In every run with a peer that need not be in step: what it has seen acknowledged is at most what is expected of it, and that is at most one segment above what it has sent |
| `SenderWindow.GateTheorem` | src/tcp_output.c:153-203 | In every run with any peer, for active and passive openers, a step that adds bytes in flight leaves no more in flight than min(cwnd, snd_wnd) |
| `SenderWindow.InflightWithinWindow` | src/tcp_output.c:153-203 | The same for a single step from any state with a numbered queue |
| `SenderWindow.WindowTheorem` | src/tcp.c:199-210 | In every run with any peer, for an SMSS of at most 2144: cwnd is at least one SMSS and ssthresh at least two; an idle sender whose peer offers one SMSS may send |
| `SenderWindow.StepRegulated` | src/tcp_input.c:129-188 | Every step of an endpoint moves its congestion counters along a run of the congestion machine |
| `SenderWindow.FirstSegmentIff` | src/tcp.c:199-210 | A writer that has sent nothing ever sends, in any run with any peer, exactly when its first segment is at most min(2144, snd_wnd), for every SMSS |
| `SenderWindow.IdleWindowFrozen` | src/tcp_input.c:129-188 | While nothing is queued, outside recovery, no step changes the congestion counters or snd_wnd |
| `TcpInput.InputEffect` | src/tcp_input.c:533-787 | All a segment can do to a socket whose queue is numbered, from any peer: nothing, count as duplicate ACK, or acknowledge a prefix; queue its text if acceptable; answer with empty segments or repeats of queued ones |
| `TcpInput.LateEffect` | src/tcp_input.c:548-646 | A segment that arrives in TCP_CLOSING has the same effects on the send side and the same answers, and is never queued |
| `TcpInput.InputTimerRequests` | src/tcp_input.c:609-619 | What an acceptable segment asks of the retransmission timer: sample and stop as the ACK path decides, then rearm only if data remains queued |
| `TcpInput.InputKeepsSendInv` | src/tcp_input.c:533-787 | Any segment from any peer keeps the send side consistent and leaves snd_nxt and snd_wnd alone |
| `TcpInput.WindowUpdateIsDead` | src/tcp_input.c:635-638 | The guarded window update never changes anything |
| `TcpInput.SendNextOutIsIdle` | src/tcp_output.c:249-297 | On a consistent send side `tcp_send_next` changes and transmits nothing |
| `TcpInput.AckPromisedIff` | src/tcp_input.c:754-778 | In-order data is acknowledged at once or by an armed delayed ACK exactly when nothing is queued for sending |
| `TcpInput.EverySecondSegment` | src/tcp_input.c:763-775 | Of two full-sized in-order segments at least one is acknowledged at once |
| `TcpInput.DelacksSmall` | src/tcp_input.c:763-775 | The delayed-ACK counter never exceeds one, whatever arrives |
| `TcpSocket.TcpSock.InputState` | src/tcp_input.c:533-787 | The imperative segment processing has the state, the answers and the timer requests of the model function, for every segment; what that takes and refuses is in the rows of `Acceptance` |
| `Acceptance.VerifyIff` | src/tcp_input.c:293-306 | A segment is acceptable exactly if its number lies between rcv_nxt and rcv_nxt + rcv_wnd, as plain numbers, that sum is below 2^32, and a closed window gets no data |
| `Acceptance.OutsideWindow` | src/tcp_input.c:548-560 | Any other segment changes nothing, open or closed, asks nothing of the timer, and is answered by one empty segment numbered snd_nxt that acknowledges rcv_nxt |
| `Acceptance.TextTakenIff` | src/tcp_input.c:602-696 | Data is queued exactly if it starts inside the window and acknowledges nothing old or unsent |
| `Acceptance.OutOfOrderAnswered` | src/tcp_data.c:101-143 | Data ahead of what is expected is answered at once by one empty segment that acknowledges rcv_nxt |
| `Acceptance.MuteAnswersIff` | src/tcp_input.c:644-672 | In TCP_TIME_WAIT a segment inside the window is answered exactly if it is expected and nothing is queued |
| `Acceptance.DelackAnswers` | src/tcp_output.c:233-247 | The delayed ACK sends one such segment, settles the count and leaves the rest alone |
| `Acceptance.EverySegmentAdvertises` | src/tcp_output.c:107-138 | Every segment an endpoint sends, in any step, carries in its window field w with w*2^scale <= real window mod 2^16 < (w+1)*2^scale |
| `Acceptance.ReassemblyWithinWindow` | src/tcp_data.c:6-31 | For any arrival order and duplication, nothing waits out of order beyond rcv_nxt + rcv_wnd |
| `Acceptance.WindowEdgeTheorem` | src/tcp_data.c:101-143 | The same after every run of the two endpoints over a lossy network, for each side whose peer starts in step and does not abort |
| `TcpInput.AtOnceIff` | src/tcp_input.c:754-778 | An expected segment with nothing queued is acknowledged at once exactly if it has PSH or is the second large one; otherwise the delayed ACK is armed exactly if it has data; with something queued nothing is sent or armed |
| `TcpInput.SecondCopyCountsIff` | src/tcp_input.c:600-641 | A second copy of an acceptable pure acknowledgement is a duplicate exactly while something is in flight |
| `TcpInput.NeverCounts` | src/tcp_input.c:600-610 | Data, a changed window or nothing in flight: the segment never counts as a duplicate |
| `TcpSocket.TcpSock.Dupack` | src/tcp_input.c:262-286 | Duplicate-ACK handling with fast retransmit equals its model function |
| `TcpSocket.TcpSock.Acknowledge` | src/tcp_input.c:609-619 | The advancing-ACK part equals its model function, timer requests included |
| `TcpSocket.TcpSock.Policy` | src/tcp_input.c:754-778 | Piggy-back, immediate or delayed acknowledgement as the model function says |
| `TcpOutput.EnqueueKeeps` | src/tcp_output.c:170-203 | Queueing a segment keeps the queue contiguous up to snd_nxt and inflight exact |
| `TcpOutput.CleanKeeps` | src/tcp_input.c:154-188 | Whatever number is acknowledged, the queue stays contiguous, inflight stays exact, nothing is clamped, and the timer is stopped exactly when everything is acknowledged |
| `TcpOutput.TimeoutLabelIsRightIff` | src/tcp_output.c:478-500 | After an acknowledgement the head is numbered `snd_una` exactly when the acknowledgement was a segment boundary |
| `TcpOutput.SendNextIsIdle` | src/tcp_output.c:249-297 | With numbers assigned to all queued buffers, the scan transmits nothing |
| `TcpOutput.SendNextLaw` | src/tcp_output.c:249-297 | On any queue the scan numbers and transmits buffers without a number, in order and consecutively, while they fit into min(cwnd + extra, snd_wnd), and stops at the first that does not |
| `TcpOutput.FirstHole` | src/tcp_output.c:662-681 | The fast-retransmit choice is the first segment neither SACKed nor above the highest SACKed number |
| `SendPath.CutIsExact` | src/tcp_output.c:582-610 | The cut of a buffer concatenates to the buffer, has full segments except the last, and PSH on the last only |
| `Segmentation.SegmentationTheorem` | src/tcp_output.c:582-610 | After every run with any peer, the segments ever cut are the first ones of the cuts of all writes, and all of them once nothing is left |
| `SendPath.SendSide.Send` | src/tcp_output.c:582-615 | Whatever other threads do while the writer sleeps, the segments sent are the first of the cut, all of it on return, and each left inflight within the windows of that moment |
| `SendPath.SendSide.WaitSndWnd` | src/tcp_output.c:153-168 | The wait ends only with room for the segment, and changes nothing itself |
| `SendPath.SendSide.QueueTransmit` | src/tcp_output.c:180-198 | New state of queue, snd_nxt and inflight; a rearm is asked for exactly when the queue was empty |
| `SendPath.SendSide.CleanRtoQueue` | src/tcp_input.c:154-188 | The dequeue loop equals removing the acknowledged prefix and growing the window segment by segment |
| `SendPath.SendSide.CongAvoid` | src/tcp_input.c:129-148 | Slow start and congestion avoidance on the fields |
| `SendPath.SendSide.SendNext` | src/tcp_output.c:249-297 | The scan loop equals its model function |
| `SendPath.SendSide.RetransmitCandidate` | src/tcp_output.c:662-681 | The scan loop finds the first hole, or falls back to the head |
| `SendPath.SendSide.TimeoutWindow` | src/tcp_output.c:443-495 | Threshold, window and SACK marks after a timeout; `LossResponse` says what the threshold is |
| `SendPath.SendSide.HandleDupack` | src/tcp_input.c:231-286 | Counters after a duplicate ACK, and which buffer is sent again; `LossResponse` says what threshold and buffer are |
| `SendPath.SendSide.MarkWriteQueue` | src/tcp_input.c:13-41 | A segment is marked exactly when it was or some block covers it; the highest right edge is kept, and the send side stays consistent |
| `SendPath.SendEndsIff` | src/tcp_output.c:582-610 | The loop of `tcp_send` ends exactly when the buffer is empty or the SMSS is not zero |
| `SendPath.MarkedIsHeld` | src/tcp_input.c:13-41 | Blocks that cover only bytes the receiver holds never mark a segment of which it lacks a byte |
| `SendPath.CoveredIff` | src/tcp_input.c:13-41 | A segment is covered by a block exactly if every byte of it is |
| `ReceivePath.ReceiveSide.InsertOrdered` | src/tcp_data.c:6-32 | The insertion loop equals its model function |
| `ReceivePath.ReceiveSide.ConsumeOfoQueue` | src/tcp_data.c:34-47 | The drain loop equals its model function |
| `ReceivePath.ReceiveSide.DataQueue` | src/tcp_data.c:101-143 | The arrival equals its model function; an immediate ACK exactly for out-of-order segments |
| `ReceivePath.ReceiveSide.DataDequeue` | src/tcp_data.c:55-93 | The copy loop fills the buffer with the next unread bytes and leaves exactly the rest |
| `ReceivePath.ReceiveSide.Receive` | src/tcp_input.c:789-829 | Whatever arrives while the reader sleeps, the bytes copied are the next bytes of the stream; no byte is lost or repeated; EAGAIN only when nothing was readable; after a FIN nobody sleeps. A segment with PSH that ends within the bytes asked for, or the flag set before, ends the read at once with what is readable; the flag is then clear; a blocking read that returns less without a FIN has used up a segment with PSH, which was queued or came during a sleep; a reader still asleep has used up none |
| `TcpData.InsertKeepsOrderIff` | src/tcp_data.c:6-32 | A sorted queue stays sorted exactly when the number is already held or no queued segment starts inside the new one |
| `TcpData.InsertContents` | src/tcp_data.c:6-32 | Insertion keeps all that is queued and adds at most the new segment |
| `TcpData.DequeueTakesPrefix` | src/tcp_data.c:55-93 | What a read returns followed by what is left is what was unread |
| `TcpData.DataQueueAppends` | src/tcp_data.c:101-143 | An arrival only adds bytes behind those already readable |
| `Reassembly.ReassemblyTheorem` | src/tcp_data.c:6-47 | For any arrival order and duplication: `rcv_nxt` is the start of the first chunk not accepted, the out-of-order queue is the sorted list of accepted chunks above it, the receive queue is all below |
| `Reassembly.DataQueueAccepts` | src/tcp_data.c:101-143 | Accepting one chunk moves the in-order point to the first chunk still missing and hands over exactly the chunks passed |
| `Reassembly.OutOfOrderQueueShape` | src/tcp_data.c:6-47 | The out-of-order queue is strictly sorted and above `rcv_nxt` |
| `Reassembly.OrderIndependence` | src/tcp_data.c:101-143 | Two arrival orders with the same accepted chunks end in the same queues |
| `Reassembly.WideWindowAcceptsAll` | src/tcp_input.c:293-305 | With a window that covers the stream, the accepted chunks are exactly those that arrived |
| `Reassembly.DataQueueKeepsWindow` | src/tcp_data.c:95-120 | Only an in-order arrival lowers the advertised window, by its own length alone |
| `ReceiveWindow.WindowLaw` | src/tcp_data.c:34-120 | For any arrivals and reads, window plus unread bytes grows by exactly the bytes that passed through the out-of-order queue, modulo 2^32 |
| `ReceiveWindow.WindowExactIff` | src/tcp_data.c:34-120 | The advertised window is the configured one less the unread bytes exactly when no byte came out of the out-of-order queue |
| `Congestion.GrowthBounded` | src/tcp_input.c:129-148 | Acknowledging A bytes raises window plus counter by at most A and never lowers the window |
| `Congestion.AvoidanceLaw` | src/tcp_input.c:141-147 | In congestion avoidance k increments cost exactly k successive windows of acknowledged bytes; the counter keeps the remainder |
| `Congestion.CostClosedForm` | src/tcp_input.c:141-147 | That cost is k*cwnd + SMSS*k*(k-1)/2 |
| `Congestion.CounterBelowWindow` | src/tcp_input.c:141-147 | With segments of at most one SMSS the counter stays below the window, so the law determines both |
| `CongestionRun.CongestionTheorem` | src/tcp_input.c:231-285 | In every run of sends, ACKs, duplicate ACKs and timeouts: recovery exactly from the third duplicate on, ssthresh at least two SMSS, cwnd at least one, and cwnd = ssthresh + dupacks*SMSS while no timeout intervenes |
| `LossResponse.LossTheorem` | src/tcp_input.c:231-285 | In every run: before the first loss ssthresh is out of reach; after that it is half of what was in flight at the last timeout or entry into recovery, rounded down, but at least two SMSS |
| `LossResponse.LossStep` | src/tcp_input.c:231-243 | At a loss: that threshold, and a window of ssthresh + 3 SMSS in recovery or of one SMSS after a timeout |
| `LossResponse.ThirdDuplicateHalves` | src/tcp_input.c:231-285 | The third duplicate ACK at the socket: threshold half of the queued bytes, window 3 SMSS above it, timer rearmed, and one segment again, the first reported hole or the head |
| `LossResponse.TimeoutHalves` | src/tcp_output.c:487-500 | The timeout at the socket: threshold half of the queued bytes, window one SMSS, marks cleared, exactly the head again |
| `LossResponse.SlowStartAfterTimeout` | src/tcp_input.c:129-148 | n full segments after a timeout the window is n + 1 SMSS, up to the threshold |
| `CongestionRun.StepKeeps` | src/tcp_output.c:489-493 | Every event keeps the invariant behind the theorem |
| `CongestionRun.AdvanceKeeps` | src/tcp_input.c:248-254 | The first advancing ACK of a recovery sets cwnd back to ssthresh |
| `CongestionRun.DupackCounterShowsRecoveryIff` | src/tcp_input.c:262-286 | After every run the eight-bit counter shows recovery exactly when fewer than three duplicate ACKs came in the episode or their number modulo 256 is at least three |
| `CongestionRun.HiddenRecoveryIsReached` | src/tcp_input.c:262-286 | A possible run to every number of duplicate ACKs that hides recovery |
| `CongestionRun.RecoveryIsReentered` | src/tcp_input.c:231-243 | The 259th duplicate ACK of an episode computes threshold and window afresh |
| `CongestionRun.SegmentAboveIff` | src/tcp_input.c:129-148 | One acknowledged segment leaves cwnd at one SMSS or more exactly when the sum fits into 32 bits |
| `CongestionRun.RunAboveIff` | src/tcp_input.c:129-285 | In any run, for every SMSS: cwnd never falls below one SMSS exactly when no addition to it exceeds 32 bits |
| `CongestionRun.FullSegmentsIff` | src/tcp_input.c:139-147 | Without loss, for every SMSS up to 2144 and every number n of full segments: exactly while 2144 + n*SMSS is below 2^32, or, if the window lands on 2^32 - 1, until the byte counter does |
| `CongestionRun.SlowStartLaw` | src/tcp_input.c:139-140 | Slow start adds exactly one SMSS per full segment |
| `CongestionRun.WindowWrapsBelowSmss` | src/tcp_input.c:139-140 | The instance for 536 bytes: 8012994 segments are survived, the next makes the window wrap |
| `Rtt.EstimateBounds` | src/tcp.c:656-684 | After any non-empty run of samples in [lo, hi]: srtt in [lo, hi], rttvar at most max(hi/2, hi-lo), rto between lo+200 and hi+max(200, four times that bound) |
| `Smoothing.OneSample` | src/tcp.c:671-684 | One sample moves srtt by an eighth and rttvar by a quarter, up to the truncation, and fixes rto |
| `Smoothing.SamplesRemembered` | src/tcp.c:671-684 | After any n samples that do not meet srtt = 0: 8^n*srtt is 7^n*(old srtt) plus the samples weighted 7^(n-1-k)*8^k, less at most 7*(8^n - 7^n); rttvar likewise with 3 and 4 over the deviations; rto is srtt + max(200, 4*rttvar) |
| `Smoothing.EstimatorTheorem` | src/tcp.c:666-684 | The same for a new connection, whose first sample r gives srtt r, rttvar r/2 and rto r + max(200, 4*(r/2)) |
| `Smoothing.EqualSamples` | src/tcp.c:671-684 | Equal samples r: the distance of srtt from r shrinks by 7/8 each, and no faster than truncation allows |
| `Smoothing.VariationDecays` | src/tcp.c:671-684 | With srtt settled on r, rttvar shrinks by 3/4 per sample, and no faster than truncation allows |
| `Smoothing.ForgetsIff` | src/tcp.c:666-669 | The history is forgotten exactly when a sample of zero meets srtt = 1 |
| `RttSamples.SampleTheorem` | src/tcp.c:656-664 | At the end of any run that neither rearmed the timer nor saw a timeout, the sample is the time since the timer was armed plus what the RTO has grown meanwhile; negative samples are dropped |
| `RttSamples.RearmArms` | src/tcp_output.c:530-554 | Rearming sets the deadline to now plus the RTO, which is where `SampleTheorem` starts |
| `RttSamples.MeasuredButNotRearmed` | src/tcp_input.c:602-619 | An advancing acknowledgement with an unexpected number that leaves something queued is measured without rearming |
| `Rtt.BackoffDoubles` | src/tcp_output.c:503-516 | Uninterrupted timeouts double a non-zero RTO exactly, until the connection ends |
| `Rtt.SurvivesIsLogarithm` | src/tcp_output.c:503-516 | The number of timeouts survived is the logarithm that takes the RTO past 60 seconds |
| `Rtt.SurvivesAtMostSixteen` | src/tcp_output.c:503-516 | At most sixteen, from any non-zero RTO |
| `Rtt.GivesUpIff` | src/tcp_output.c:503-516 | An unanswered connection is given up eventually exactly when its RTO is not zero |
| `TimerWheel.TimerLifeCycle` | src/timer.c:65-196 | In every run: a handler starts at most once and not before its deadline; an owned argument is with its timer, with its handler or freed once; a timer some owner names is listed with one reference |
| `TimerWheel.HeldIsListed` | src/timer.c:139-196 | An owner pointer never dangles |
| `TimerTick.TickServes` | src/timer.c:65-110 | One tick starts every due handler exactly once and no other, drops exactly the finished timers without owner, and frees exactly the arguments that never left |
| `TimerTick.TickIsRun` | src/timer.c:65-110 | A scan is a run of single visits |
| `TimerTick.TimerList.TimersTick` | src/timer.c:65-110 | Every listed timer whose lock is free is served, all others are left alone, and the threads to start are returned |
| `TimerTick.TimerList.Scan` | src/timer.c:65-110 | The scan loop, deletions included, equals the visits in list order of the timers whose lock is free |
| `TimerTick.TimerList.VisitAt` | src/timer.c:86-105 | The loop body equals one visit |
| `TimerTick.TimerList.AddWithRelease` | src/timer.c:139-166 | A new timer at the end of the list with one reference |
| `TimerTick.TimerList.Oneshot` | src/timer.c:112-132 | A new timer without owner |
| `TimerTick.TimerList.Release` | src/timer.c:168-182 | One reference less; NULL is ignored |
| `TimerTick.TimerList.Cancel` | src/timer.c:184-199 | One reference less and cancelled; NULL is ignored |
| `RtoEpoch.RtoTheorem` | src/tcp_output.c:457-554 | In every interleaving: at most one pending timer or spawned callback carries the current epoch; while the connection is open exactly while data is in flight; once it is closed exactly when it has been armed since by a third duplicate ACK or a resumed writer and not stopped; the timer pointer never dangles |
| `RtoEpoch.StaleCallbackIsHarmless` | src/tcp_output.c:467-473 | A callback that lost the race leaves the connection unchanged and frees its argument, once |
| `RtoEpoch.CurrentCallbackIsLive` | src/tcp_output.c:475-487 | In every reachable state a callback with the current epoch finds data to send again, and an open connection unless the timer was armed after the close |
| `RtoEpoch.ClosedTimerIff` | src/tcp.c:528-568 | A run that closes the connection ends with an armed timer exactly when it was armed after the close and not stopped since |
| `RtoEpoch.ClosedStep` | src/tcp_input.c:590-619 | Which moves arm and which stop the timer of a closed connection |
| `AfterClose.TimeWaitIff` | src/tcp_input.c:602-658 | A segment in TCP_CLOSING leads to TCP_TIME_WAIT exactly if it starts inside the window, is no duplicate ACK, acknowledges nothing old or unsent, and either nothing was queued or it newly acknowledges everything |
| `AfterClose.ThirdDuplicateRevives` | src/tcp_input.c:231-286 | The third duplicate ACK in TCP_CLOSING arms the timer, due one RTO later |
| `AfterClose.WriterRevives` | src/tcp_output.c:153-198 | So does a writer that was asleep and finds nothing queued |
| `AfterClose.OutlivesTheSocket` | src/socket.c:104-116 | After a give-up that timer is due more than sixty seconds later, the socket being freed after ten |
| `AfterClose.AbortedButArmed` | src/tcp.c:521-545 | A run from an idle connection: one byte, an abort and three acknowledgements, after which the connection is closed and has a carrier |
| `Rounds.DrainsIff` | src/tcp_output.c:489-516 | Recovering a queue by timeouts alone, every repeat acknowledged, drains it with the connection open exactly when it holds no more segments than the RTO survives timeouts |
| `Rounds.ZeroDrains` | src/tcp_output.c:489-516 | With an RTO of zero it always does, while the 8-bit count does not wrap |
| `Rounds.ZeroWraps` | src/tcp.c:656-662 | After 256 rounds with an RTO of zero the count is zero again; either nothing was measured or the RTO is at least 200 and the rest is decided as before |
| `Rounds.KarnKeeps` | src/tcp.c:656-662 | After a timeout, an acknowledgement that leaves something queued changes neither the estimate nor the back-off |
| `RtoEpoch.NoBackoffAtRest` | src/tcp.c:559-568 | After every run: no back-off is left over while no timer is armed |
| `Rounds.GivenUpAlthoughAcknowledged` | src/tcp_output.c:503-511 | A run in which every repeat is acknowledged and the connection is given up with the rest still queued |
| `Rounds.CountStaysSmall` | src/tcp_output.c:511-514 | In every reachable state with a non-zero RTO the back-off count is small enough not to wrap before the give-up |
| `RtoEpoch.TimeoutsFollowBackoff` | src/tcp_output.c:503-516 | Consecutive timeouts double the RTO and end the connection as the back-off function says |
| `RtoEpoch.TimeoutComes` | src/timer.c:65-110 | With data in flight, ticks and one visit alone bring the current callback to the socket lock |
| `RtoEpoch.NextKeeps` | src/tcp.c:559-576 | Every move of the system keeps the invariant behind the theorem |
| `RtoTimers.RtoTimer.Rearm` | src/tcp_output.c:530-554 | Rearming on the fields and the shared list equals its model function |
| `RtoTimers.RtoTimer.Stop` | src/tcp.c:559-568 | Stopping equals its model function |
| `RtoTimers.RtoTimer.Release` | src/tcp.c:570-576 | Releasing equals its model function |
| `RtoTimers.RtoTimer.Measure` | src/tcp.c:656-684 | Karn's rule and one measurement equal their model function; the weights are in `Smoothing`, the sample in `RttSamples` |
| `RtoTimers.RtoTimer.Timeout` | src/tcp_output.c:457-528 | The callback in any state of the connection, with epoch check, give-up above 60 seconds, doubling and rearm, equals its model function |
| `Sack.SackTable.Calculate` | src/tcp.c:688-733 | The first block is the triggering segment, every block covers held bytes only, no two blocks share a byte, the others come in order with gaps between them, the front of the queue is covered, and below the limit every held byte is |
| `Sack.QueueIsReady` | src/tcp_data.c:124-132 | Whenever the receive path computes blocks, the queue is sorted without overlap and holds the trigger |
| `TcpOptions.OptionsLen` | src/tcp_output.c:299-317 | The length announced is the number of bytes written, a multiple of four, at most forty |
| `TcpOptions.WriteOptions` | src/tcp_output.c:69-105 | The bytes written are the encoding, and the table of blocks is then cleared |
| `TcpOptions.ParseOpts` | src/tcp_input.c:43-120 | The cursor loop terminates on any bytes in spite of 8-bit wrap-around and equals its model function; what that reads is in the rows of `OptionLists` |
| `TcpOptions.OptionsRoundTrip` | src/tcp_input.c:43-120 | Parsing what was written gives back the blocks and the scale, except exactly when a scale and four blocks fill forty bytes |
| `OptionLists.ListTheorem` | src/tcp_input.c:43-110 | Every list of well-formed options below forty bytes, in any order: the last window scale, capped at fourteen, the blocks of the last SACK option, seen exactly if there is one, counter zero; a list of forty bytes is not read |
| `OptionLists.AnySackLength` | src/tcp_input.c:71-88 | A SACK option with any length byte: the blocks entirely within it are read, at most four, and passed over |
| `OptionLists.UnknownEnds` | src/tcp_input.c:104-108 | What comes before the first unknown kind is read as above, what comes behind it is ignored |
| `OptionLists.PendingOnWire` | src/tcp_output.c:69-105 | What `tcp_write_options` writes is the list of a padded scale and padded blocks |
| `OptionLists.SynOptionsLen` | src/tcp_output.c:50-67 | The length announced for a SYN is that of its list, a multiple of four |
| `OptionLists.WriteSynOptions` | src/tcp_output.c:27-48 | The bytes of a SYN are its list: the MSS and, with SACK, two paddings and SACK-permitted; the header length follows |
| `OptionLists.SynParses` | src/tcp_input.c:43-110 | A SYN of this stack with any further options is read as those options alone |
| `Checksum.SumEvery16Bits` | src/utils.c:51-67 | The sum of all words, an odd last byte included, modulo 2^32 |
| `Checksum.Fold` | src/utils.c:79-81 | Folding terminates and preserves the ones'-complement residue |
| `Checksum.InternetChecksum` | src/utils.c:69-84 | The complement of the residue of start value plus word sum |
| `Checksum.StoredChecksumVerifies` | src/utils.c:69-84 | Storing the checksum in a zeroed aligned field of a message of up to 65535 bytes makes re-verification return zero |
| `Checksum.SplitIsWhole` | src/tcp.c:141-188 | TCP part plus address part is the checksum of the whole pseudo-header and segment |
| `Checksum.SegmentVerifies` | src/ip_output.c:17-25 | A segment filled in by the split computation verifies against its pseudo-header, over IPv4 and IPv6 |
| `Checksum.TcpV4Part` | src/tcp.c:141-168 | Sum of protocol, length and segment |
| `Checksum.TcpV6Part` | src/tcp.c:170-188 | Sum of length, next header and segment |
| `Checksum.TailSums` | src/tcp.c:141-188 | What protocol and length of the IPv4 and IPv6 pseudo-headers add to the sum |
| `Checksum.AddressPart` | src/ipv6_output.c:9-18 | The part that the IP layer adds |
| `Checksum.Icmpv6Checksum` | src/icmpv6.c:161-195 | The checksum of the whole pseudo-header and message |
| `RingList.ListAdd` | include/list.h:19-25 | Inserts behind the head and keeps one consistent cycle, touching only the nodes around it |
| `RingList.ListAddTail` | include/list.h:27-33 | Inserts before any node and keeps one consistent cycle |
| `RingList.ListDel` | include/list.h:35-42 | Removes any node and keeps one consistent cycle |
| `RingList.SkbQueue.Tail` | include/skbuff.h:63-67 | Appends; the length field stays the ring length |
| `RingList.SkbQueue.AddBefore` | include/skbuff.h:57-61 | Inserts before a queued buffer; the length field stays the ring length |
| `RingList.SkbQueue.Dequeue` | include/skbuff.h:69-76 | Removes and returns the first buffer |
| `RingList.SkbQueue.Peek` | include/skbuff.h:83-88 | The first buffer, or NULL |
| `RingList.SkbQueue.Clear` | include/skbuff.h:90-99 | Empties the queue |
| `RingList.MoveFirst` | src/tcp_data.c:34-47 | Moving a buffer between two queues keeps both rings consistent and apart |
| `Sha256.Transform` | apps/curl-verify/sha256.c:27-84 | The schedule and round loops compute the compression function of FIPS 180-4; what its parts are is in the rows of `Sha256Bits` |
| `Sha256Bits.ChooseBit` | apps/curl-verify/sha256.c:64 | Bit by bit: where x has a one, y is chosen, elsewhere z |
| `Sha256Bits.MajorityBit` | apps/curl-verify/sha256.c:65 | Bit by bit: what two of the three agree on |
| `Sha256Bits.SameBits` | apps/curl-verify/sha256.c:64-65 | Words with the same bits are the same, so the rows about bits fix the functions |
| `Sha256Bits.RotatedBit` | apps/curl-verify/sha256.c:25 | Bit i of the rotation is bit i + n, modulo 32 |
| `Sha256Bits.BigSigma0Bit` | apps/curl-verify/sha256.c:65 | Parity of the bits 2, 13 and 22 places on |
| `Sha256Bits.BigSigma1Bit` | apps/curl-verify/sha256.c:64 | Parity of the bits 6, 11 and 25 places on |
| `Sha256Bits.SmallSigma0Bit` | apps/curl-verify/sha256.c:49 | Parity of the bits 7 and 18 places on, around, and 3 places on, not around |
| `Sha256Bits.SmallSigma1Bit` | apps/curl-verify/sha256.c:50 | Parity of the bits 17 and 19 places on, around, and 10 places on, not around |
| `Sha256Bits.BlockWord` | apps/curl-verify/sha256.c:42-47 | The first sixteen words of the schedule are the block in network byte order |
| `Sha256Bits.ScheduleLaw` | apps/curl-verify/sha256.c:48-52 | Every later word is the sum of four earlier ones, two of them mixed |
| `Sha256Bits.RoundsShift` | apps/curl-verify/sha256.c:63-74 | The rounds are two sequences that grow by one word each per round; the working variables are their ends |
| `Sha256Bits.RoundConstants` | apps/curl-verify/sha256.c:6-23 | The round constants are the first 32 fractional bits of the cube roots of the first 64 primes |
| `Sha256Bits.InitialHash` | apps/curl-verify/sha256.c:86-96 | The initial hash is the first 32 fractional bits of the square roots of the first eight |
| `Sha256Stream.Context.Update` | apps/curl-verify/sha256.c:100-119 | Appends to the message; state, buffer and 64-bit counter stay consistent |
| `Sha256Stream.Context.Final` | apps/curl-verify/sha256.c:121-146 | Ends on a block boundary and returns the digest of all that was fed in |
| `Sha256Stream.HashPieces` | apps/curl-verify/sha256.c:86-146 | For every message and every split into update calls, the digest is that of the padded message compressed block by block |
| `BlockHash.LengthFieldWraps` | apps/curl-verify/sha256.c:121-146 | The wrapped 64-bit counter yields the same length field |
| `Route6.PrefixMatches` | src/route.c:136-156 | Byte and mask comparison is agreement of the first prefix-length bits |
| `Route6.RouteTable.Lookup` | src/route.c:121-168 | The first entry of maximal prefix length among those that match bit by bit, or none exactly when none matches |
| `Route6.AppendChangesIff` | src/route.c:68-75 | Appending changes an answer exactly when the entry matches and is strictly longer or nothing matched; the new answer is the new entry |
| `Route6.RouteTable.UpdatePmtu` | src/route.c:179-201 | Only the entry the lookup picks gets the MTU, at least 1280, and no lookup changes |
| `Ipv6Text.ParseHexGroup` | src/ipv6.c:8-43 | Accepts exactly one to four hex digits in either case and returns their value |
| `Ipv6Text.ParseAddr` | src/ipv6.c:45-152 | The cursor loops accept and return exactly what the declarative reading says |
| `Ipv6Text.RoundTrip` | src/ipv6.c:161-187 | Parsing the printed form of any address returns it |
| `Ipv6Text.FullSpelling` | src/ipv6.c:45-152 | Any eight groups of one to four hex digits are read as their values |
| `Ipv6Text.CompressedSpelling` | src/ipv6.c:45-152 | What any spelling with `::` is read as |
| `Ipv6Text.CompressedCorrectIff` | src/ipv6.c:45-152 | A spelling with `::` is read correctly exactly when `::` comes first or the group before it is zero |
| `Ipv6Text.LinkLocalIsMisread` | src/ipv6.c:45-152 | fe80::1 is read as ::1 |
| `Ipv6Text.SecondDcolonRejected` | src/ipv6.c:45-152 | Any string with a second `::` is rejected |

## Left out

- Handshake and orderly close: runs begin in the established state, in the numbers that the handshake leaves; FIN is not modelled, and an ACK of the last byte also removes a queued FIN. An RST is the event of its arrival, not a segment with a number.
- The end of a closed socket: what its timers and callbacks do after it has been freed, ten seconds after the close, is not modelled.
- TcpSocket.TcpSock.InputState: is for the established state; segments with RST, SYN or FIN, or without ACK, are not modelled.
- RtoTimers.RtoTimer.Timeout: what follows the rearm for a segment that carries FIN is not modelled.
- Streams that cross 2^32, and wrap-around of the 64-bit epoch and of the tick counter.
- Connection.EverythingCanArrive: is about the bytes of a side in step, since those of a passive opener need not arrive as written (`PrefixIff`); it asks that the peer is attentive, which is necessary for its first half (`ArrivesIff`) and holds of peers in step or silent (`UsuallyAttentive`); that the RTO is at most 60 seconds if data is in flight, since the next timeout otherwise ends the connection; and that the peer offered at least one SMSS.
- Changes of SMSS or path MTU on a live socket; the SMSS is fixed per connection.
- Two threads writing to one socket at the same time.
- Failing allocation and failing thread creation; locks appear as atomic steps.
- Freeing of buffers and their reference counts, and the zeroing of the user buffer at the start of `tcp_receive`.
- The SACK marks over runs: options are parsed on SYN segments only, so marking and block building are stated per call. `sacks_allowed` is never set by the code, so in practice one block is sent; the contracts cover every limit up to four.
- TcpOptions.ParseOpts: reads memory through a function from offsets to bytes, so reading past the header is not an error here.
- Route6.RouteTable.Lookup: prefix lengths up to 128 only; beyond that the code reads past the address.
- Route6.PrefixMatches: prefix lengths up to 128 only, for the same reason.
- Ipv6Text.ParseAddr: the writes behind the groups array that some rejected inputs cause are not modelled.
- Checksum.StoredChecksumVerifies: the start value must leave room for the word sum in 32 bits.
- Checksum reads words as a little-endian host does.
- Rtt: samples are not negative and small enough not to overflow an int.
- SendPath.SendSide.Send: an SMSS of zero, with which the loop does not end (`SendEndsIff`), is excluded.
- SenderWindow.WindowTheorem: asks for 259 segments of room below 2^32; exactly when the window survives without it is `RunAboveIff` and `FullSegmentsIff`, and what an SMSS above 2144 means is `FirstSegmentIff`.
- When a callback gets the lock: nothing is said about time beyond deadlines.
- TAP device, sockets API, CLI, ARP, NDP, address configuration, extension headers, UDP, ICMPv4 and the IPv4 routing table: they would add only easier members.
