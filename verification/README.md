# A verified model of the tunio engine

tunio reads IP packets from a TUN device and gives an application TCP and UDP sockets for them. This project models the
parts of it that decide what bytes go where, and proves what those parts promise. Everything in the engine runs on one
strand, so every handler is one step; the coroutine that sends data is a state machine that is suspended where the
original waits.

Sequence numbers are 32-bit as in the original. Beside them the model keeps unbounded stream *positions*, and every proof
about order is about positions; `SeqNum` shows how far the 32-bit comparisons agree with them. Fields marked as recorded
by the model (positions, what was accepted, what was put on the wire, completed writes) have no counterpart in the
original and never influence what it does.

## Modules

- `Bytes`, `Sums`: integer intervals and sums over finite maps.
- `SeqNum`: 32-bit sequence numbers against positions.
- `OooCache`, `OooTable`: the out-of-order cache, first as a map from positions to segments, then as the original's map
  ordered by unsigned key with its scan, trim and merge loops.
- `RxQueue`, `DelayedAck`, `RecvFacts`: the receive queue, the batching of acknowledgements and the advertised window,
  and the facts about values that the receive path keeps.
- `SynOptions`: the options of a SYN.
- `TcpSend`: the sending side: segments cut from the user's buffers, probes, retransmission rounds, acknowledgements.
- `TcpFlow`: one flow with all its handlers. `TcpRun`: whole runs of a flow with a peer behind a network that loses,
  duplicates and reorders.
- `TcpEngine`, `Udp`, `Accountant`, `Stack`: the flow table, the UDP engine, and the budget they share. `UdpRun`,
  `StackRun`: whole runs of the UDP engine and of everything together.
- `WintunRing`, `Checksum`, `Fragments`, `QueueWriter`, `PacketCodec`: the Wintun ring, the Internet checksum, IPv4
  fragmentation, the device writer, and the packet builder and parser.

## Main results

- `StackRun.Life`: any number of connections and sessions on one budget, from the empty stack on. After any sequence of
  events every connection that was ever in the table, still in it or not, has read its peer's stream and its peer holds
  every byte of its successful writes, sessions read their datagrams in order, and the budget and the connection count are
  exact.
- `TcpRun.Session` and `TcpRun.Run`: the same for one connection from its SYN on. After any sequence of events, completed
  reads have returned a prefix of the peer's stream, and the whole stream once a read has ended in end-of-file; what was
  read and what is queued is exactly what `rcv_nxt` has passed. In the same run the peer holds, at the right positions,
  every byte of every write that was reported successful; what it holds it took from the packets that were sent, which
  `TcpFlow.Flow.PacketsCarry` ties to the pieces of the write.
- `TcpFlow.Flow.HandleSegment`: one segment as a whole. What the acknowledgement does to the send state and when a waiting
  FIN goes out (`Acknowledged`), when the handshake goes on (`Shook`), and what becomes of every byte: appended, cached,
  refused, and which of these is acknowledged at once (`RecvFacts.Took`).
- `TcpFlow.Flow.Resume`: one wake-up of the send loop as a whole: which timer is served (`Served`), in which packets
  (`Shown`), what the loop does next (`Turned`), how the counters move, and exactly when the flow is reset.
- `DelayedAck.WindowExactWhen` and `FieldExact`: the advertised window is the largest number of bytes there is room for, and
  its field the largest one that promises no more.
- `OooTable.InsertSegment` and `TcpFlow.Flow.AppendData`: the cache is a finite map from positions to bytes; inserting a
  segment overrides exactly its own range, whatever the initial sequence number and the order of the unsigned keys.
- `TcpSend.Retransmit` with `RoundComplete` and `RowJoined`: a retransmission round sends the unacknowledged bytes from
  `snd_una` on, contiguous and unaltered, and it reaches its goal exactly if no empty buffer lies strictly inside it.
- `Stack.Stack`: every step of either engine keeps the budget equal to what flows and sessions hold, and closing everything
  returns it all.
- `UdpRun.Life` with `Udp.Engine.OnTimer`, `IdleBound` and `UdpRun.Overstayer`: the i-th read of a session returns its i-th
  datagram, cut to the room of that read; sessions are closed exactly when their expiry has passed, never before last
  activity plus timeout, and never later than two timeouts, while one timeout is in general not kept.
- `WintunRing.Exchange`: in every interleaving the ring behaves like a plain queue with as much room.
- `Checksum.CheckNegates`, `SumVector`, `Stamp*`: the checksum negates the data, read as one big number, modulo 65535; the
  vector form computes it, and stamped data verifies.
- `Fragments.RoundTrip` with `PacketCodec.FragmentPackets`, `PacketCodec.Builder.Finalize` with `Fields4`: fragments as
  packets parse back and reassemble, and what is built is what is parsed, for every IP header.
- `QueueWriter.Writer`: conservation and order of device writes, and that the device gets what was submitted.

## Where the code does not do what one would expect

- After the peer's FIN a write makes no more progress: the send loop waits for ESTABLISHED unless the write itself
  accepted the connection (src/tcp_engine.cpp:1193-1207), and the state only moves forward. A timer that is already
  running may still send one probe or one retransmission round; after that wake-up, as `TcpFlow.Flow.Resume` states, the
  flow is `Muted`, and `TcpRun.Step` says that it stays so and puts no byte on the wire any more, whatever happens.
  `TcpRun.HalfClosedWrite` is such a run; a test comment calls CLOSE_WAIT writable (tests/test_tcp_engine.cpp:1742).
- Retransmission maps sequence numbers to buffer offsets with a 32-bit difference (src/tcp_engine.cpp:1342-1345).
  `TcpSend.MappableExact`: it finds the right bytes at every stage of a write if and only if the write is shorter than
  4 GiB. The run theorems are about exactly those.
- The zero-window timer looks at the write without asking whether it is still there (src/tcp_engine.cpp:1225; the device
  branch asks, at line 1265). If the application closes, or the peer resets, in the same turn of the strand, the write is
  gone. `TcpFlow.Flow.Resume` records that as a fault and says exactly when it happens, `TcpRun.DanglingProbe` is such a
  run, and every run theorem goes no further than a fault.
- The handshake ends only with an acknowledgement of exactly `iss + 1` (src/tcp_engine.cpp:356-357). A write that accepts
  the connection sends data before that; if the first acknowledgement is lost, the later ones cover the data and never
  complete the handshake: `TcpFlow.Flow.ShakeHands`.
- An empty buffer inside a write ends a retransmission round early: `TcpSend.RoundComplete`.
- `accept_flow` sends its SYN-ACK while the state is still SYN_RCVD, so the window in it is scaled although the comment at
  src/tcp_engine.cpp:995-997 says it is not; the repeated SYN-ACK is unscaled. Both promise no more than there is. A
  segment without SYN that is built in SYN_ACK_SENT is announced unscaled and decoded scaled:
  `DelayedAck.UnscaledWindowOverpromises`.
- `shutdown(send)` before the handshake is complete turns into a reset when the peer acknowledges the SYN, because the
  acknowledgement is handled before the state becomes ESTABLISHED: `TcpFlow.Flow.HandleAck` and `HandleSegment` give the
  exact condition, `TcpRun.EarlyShutdown` a run.
- The payload of a SYN that arrives again on an open flow is placed one position too early. `TcpFlow.Flow.HandleSegment`
  says exactly when that spoils the stream: if it brings bytes beyond `rcv_nxt` that are taken and not all alike;
  `TcpRun.SynDataCorrupts` is such a run.
- The idle timer of a UDP session that the expiry timer extends starts from the timer run and not from the last packet.
  `UdpRun.Overstayer` is a session of one second that is open 1599 ms after its last packet, with a timer that is never
  late.
- A datagram that does not fit and that the fragmenter refuses, because the MTU is below 28, has already counted as
  activity of its session: `Udp.Engine.StartSend`.
- Payload that is appended before the transport header is overwritten by it: `PacketCodec.EarlyBytesLost`. An ICMP header
  without echo numbers leaves bytes 4 to 7 of it in place, where they are read as echo numbers: `PacketCodec.EchoLeft`.
- A transport header for which there was no room counts as begun. `PacketCodec.Builder.Finalize` then writes it past the
  end of the packet, exactly if the payload is shorter than the header, and past the buffer if it exceeds the capacity.

## Model

| member | source | states |
|---|---|---|
| `SeqNum.CompareIsOrder` | include/tunio/detail/ip_headers.hpp:64-72 | within half the circle the circular comparisons order the positions |
| `SeqNum.CompareFailsAtHalf` | include/tunio/detail/ip_headers.hpp:64-67 | for positions less than a circle apart the comparison is right if and only if they are within half of it, in either direction |
| `SeqNum.SignedDistance` | src/tcp_engine.cpp:722-725 | the signed offset of two sequence numbers is the distance of their positions |
| `OooTable.ScanOverlap` | src/tcp_engine.cpp:756-779 | walking the keys in unsigned order finds the overlap in bytes, a FIN at the same end, whether anything touches, and the segment a FIN could extend |
| `OooTable.NothingSpans` | src/tcp_engine.cpp:826-841 | if the new segment brings a new byte, no cached segment reaches beyond it on both sides: the split branch cannot be taken |
| `OooTable.TrimOverlaps` | src/tcp_engine.cpp:808-865 | the cache outside the segment's range is unchanged, nothing is left inside, and no key collides |
| `OooTable.JoinNeighbours` | src/tcp_engine.cpp:868-915 | merging changes neither bytes nor FIN marks, leaves no touching pair unmerged, and ends because the cache shrinks |
| `OooTable.InsertSegment` | src/tcp_engine.cpp:802-917 | the bytes are overridden in exactly the segment's range, the FIN marks outside it are kept, intervals stay disjoint, and a segment that touches another adds no interval |
| `OooTable.FindFinSlot` | src/tcp_engine.cpp:731-747 | where a bare FIN goes: refused, on the segment that ends there, or alone |
| `OooTable.PlaceLonely` | src/tcp_engine.cpp:790-796 | in one stream with one FIN, a segment that was placed and joined with nothing touches nothing |
| `RecvFacts.Reorigin` | src/tcp_engine.cpp:624-716 | seen from the advanced rcv_nxt the 32-bit table denotes the same positions |
| `RxQueue.Queue.CompleteKeeps` | src/tcp_engine.cpp:572-601 | a read takes the first queued bytes in order and nothing is lost |
| `RxQueue.Queue.DirectSound` | src/tcp_engine.cpp:524-552 | handing data straight to a waiting read keeps the order of all bytes |
| `RxQueue.Queue.CompactKeeps` | src/tcp_engine.cpp:606-611 | compaction does not change what is left to read |
| `DelayedAck.WindowPromise` | src/tcp_engine.cpp:998-1003 | the window as the peer decodes it is at most the flow's and the global room |
| `DelayedAck.WindowExactWhen` | src/tcp_engine.cpp:1441-1467 | the window is the largest number of bytes there is room for in flow and budget, up to 1 MiB, and zero without room for one MSS, whatever is queued and used, if and only if both limits are below 4 GiB |
| `DelayedAck.FieldExact` | src/tcp_engine.cpp:998-1003 | the 16-bit field is the largest one that, shifted back by the scale, promises no more than the window |
| `DelayedAck.UnscaledWindowOverpromises` | src/tcp_engine.cpp:998-1003 | an unscaled announcement that is decoded scaled promises no more than there is if and only if the window is zero |
| `DelayedAck.LargestWindow` | src/tcp_engine.cpp:327-330 | a scaled window is below a quarter of the sequence space |
| `DelayedAck.Acks.Promised` | src/tcp_engine.cpp:993-1003 | a packet keeps the promise of the window of its time, as the peer reads it, if and only if it is a SYN-ACK, was built after the handshake, no scale was agreed on, or the window is zero |
| `SynOptions.WindowScale` | src/tcp_engine.cpp:43-69 | for every option field the shift that is taken is at most 14 |
| `SynOptions.ScanEncoded` | src/tcp_engine.cpp:43-69 | in a well-formed option list the last window scale option that is not above 14 counts, whatever surrounds it |
| `SynOptions.AnswerScans` | src/tcp_engine.cpp:1009-1037 | a peer that reads the options of the SYN-ACK by the same rules shifts exactly if its SYN asked for it, and by what the flow shifts |
| `TcpFlow.Flow.WindowsKept` | src/tcp_engine.cpp:993-1003 | the same for every packet that a flow has sent, with the shift that the peer applies |
| `TcpFlow.Flow.SentSettled` | src/tcp_engine.cpp:993-1003 | beyond SYN_ACK_SENT every packet that is sent is shifted and carries the current window |
| `TcpFlow.Flow.SentIs` | src/tcp_engine.cpp:985-1074 | a segment without payload is one packet with the given number and flags, `rcv_nxt` and the current window; a closed flow sends none |
| `TcpFlow.Flow.PacketsCarry` | src/tcp_engine.cpp:985-1111 | the packets with a payload are the pieces on the wire, one for one: a receiver that is near enough reads off bytes and position |
| `TcpFlow.Flow.WindowIs` | src/tcp_engine.cpp:1441-1467 | the window that the flow announces is the largest number of bytes it and the budget have room for, and zero exactly without room for one MSS |
| `TcpFlow.Flow.SendAck` | src/tcp_engine.cpp:1392-1395 | one packet at `snd_nxt` with `rcv_nxt` and the current window, nothing stays pending, and a closed flow sends nothing |
| `TcpFlow.Flow.NoteDataAck` | src/tcp_engine.cpp:1399-1430 | the first in-order segment waits with the timer running, the second is acknowledged at once |
| `TcpFlow.Flow.AckTimerFires` | src/tcp_engine.cpp:1412-1429 | after the timer everything received is acknowledged |
| `TcpFlow.Flow.NotifyWindowUpdated` | src/tcp_engine.cpp:1469-1487 | a packet is sent exactly if the window was zero and one MSS fits now, or there is room for more than one MSS beyond the last window; afterwards the last window sent is zero only if one MSS does not fit |
| `TcpFlow.Flow.FlushReads` | src/tcp_engine.cpp:570-622 | a read completes with the first bytes, or with end-of-file on an empty queue after the FIN; the released bytes leave the budget, and a window that stays zero means that one MSS does not fit |
| `TcpFlow.Flow.DeliverData` | src/tcp_engine.cpp:498-568 | a chunk is accepted whole if it fits flow and budget and refused whole otherwise, and a read that it completes is followed by a packet with the window there is; after a receive shutdown it is acknowledged and dropped |
| `TcpFlow.Flow.HandleFin` | src/tcp_engine.cpp:922-958 | the FIN is taken exactly when everything before it was received, moves the state, ends a waiting read, and is acknowledged again when repeated |
| `TcpFlow.Flow.Prune` | src/tcp_engine.cpp:626-650 | entries that rcv_nxt has passed go, their FIN is honoured, and nothing beyond rcv_nxt is lost |
| `TcpFlow.Flow.FlushRuns` | src/tcp_engine.cpp:652-707 | everything contiguous is delivered, byte for byte from the cache, and the loop ends because the cache shrinks |
| `TcpFlow.Flow.FlushOoo` | src/tcp_engine.cpp:624-716 | afterwards every cached segment starts strictly ahead of rcv_nxt and, if there was room, only passed bytes are gone; what was delivered is acknowledged at once, and a window that stays zero means that one MSS does not fit |
| `TcpFlow.Flow.AppendFin` | src/tcp_engine.cpp:727-754 | a bare FIN is cached exactly when its place is free and there is a slot or a segment to extend |
| `TcpFlow.Flow.AppendData` | src/tcp_engine.cpp:756-917 | a fully covered segment changes no byte, any other is cached exactly if there is a slot and room for its new bytes, and the byte count is exact |
| `TcpFlow.Flow.HandleData` | src/tcp_engine.cpp:445-494 | in order, overlapping, ahead and old segments: what is accepted, what is cached, and which are answered at once, among them those that cached bytes follow |
| `TcpFlow.Flow.Receive` | src/tcp_engine.cpp:374-393 | what a segment does: bytes ahead are cached or refused with a duplicate acknowledgement, old ones are acknowledged, new ones are appended if they fit, a bare FIN that comes early is cached exactly if there is a place; and the accepted bytes stay a prefix of the stream, except that the payload of a SYN keeps them so if and only if it is `Harmless` |
| `RecvFacts.TookInStream` | src/tcp_engine.cpp:445-494 | whatever a segment with bytes of the stream does, cached bytes stay in their places and accepted ones a prefix, except exactly for a misplaced payload that fits and is not all alike |
| `TcpFlow.Flow.CacheDiscipline` | src/tcp_engine.cpp:624-716 | in every state the cache is ahead of rcv_nxt, disjoint, coalesced, within its limit and counted exactly |
| `TcpFlow.Flow.AckDiscipline` | src/tcp_engine.cpp:1399-1439 | the last acknowledgement is rcv_nxt, or one segment is pending with the timer running; acknowledgements never move backwards |
| `TcpFlow.Flow.FlagsMatchState` | src/tcp_engine.cpp:922-958 | the FIN flags agree with the state, and in FIN_WAIT_2 and TIME_WAIT of a flow that was not closed everything sent is acknowledged |
| `TcpFlow.Flow.ArriveInWindow` | src/tcp_engine.cpp:513-519 | an in-order segment that fits the window of the last packet, as the peer reads it, is not refused unless room was lost since |
| `TcpRun.SynDataCorrupts` | src/tcp_engine.cpp:374-376 | a concrete run in which a repeated SYN with payload makes the accepted bytes differ from the stream |
| `TcpRun.HalfClosedWrite` | src/tcp_engine.cpp:1193-1207 | a concrete run in which a write after the peer's FIN is taken and never sent |
| `TcpRun.EarlyShutdown` | src/tcp_engine.cpp:398-443 | a concrete run in which a shutdown before the handshake is complete ends in a reset |
| `TcpRun.DanglingProbe` | src/tcp_engine.cpp:1212-1233 | a concrete run in which the zero-window timer fires for a write that is gone |
| `TcpSend.FlatSlice` | src/tcp_engine.cpp:1100-1103 | a stretch of one user buffer is the same stretch of the whole write |
| `TcpSend.Locate` | src/tcp_engine.cpp:1082-1087 | the cursor moves to the buffer that holds the next byte, or to the end exactly when all was sent |
| `TcpSend.BuildNext` | src/tcp_engine.cpp:1076-1111 | the next segment is one packet at `snd_nxt` with the next bytes of the write as payload; it never fails, is as long as MSS and window allow unless a buffer ends, and leaves in flight within the peer's window |
| `TcpSend.Probe` | src/tcp_engine.cpp:1113-1132 | the next unsent byte goes out in a packet at `snd_nxt` without being counted as sent |
| `TcpSend.Retransmit` | src/tcp_engine.cpp:1334-1384 | consecutive packets from `snd_una` on, each with the planned bytes of its position and as long as MSS, buffer and budget allow, up to the budget or the first empty buffer; nothing while the SYN is unacknowledged |
| `TcpSend.RoundComplete` | src/tcp_engine.cpp:1359-1365 | a round reaches its goal if and only if no empty buffer lies strictly inside it |
| `TcpSend.RowJoined` | src/tcp_engine.cpp:1359-1384 | the payloads of a round together are the unacknowledged bytes between its ends |
| `TcpSend.MappingExact` | src/tcp_engine.cpp:1342-1345 | exactly when the 32-bit differences of snd_una and snd_nxt are their offsets in the write |
| `TcpSend.MappableExact` | src/tcp_engine.cpp:1342-1359 | a round finds the unacknowledged bytes at every stage of a write, and nothing before it is reached, if and only if the write is shorter than 4 GiB |
| `TcpSend.Tx.OnAckIs` | src/tcp_engine.cpp:398-417 | in positions: snd_una moves to an acknowledgement of something new, and over an acknowledged probe byte, and otherwise stays |
| `TcpSend.Tx.OnAckSound` | src/tcp_engine.cpp:398-417 | a truthful acknowledgement keeps the plan, the wire and the rule that everything below snd_una is held by the peer |
| `TcpSend.Tx.BumpRunning` | src/tcp_engine.cpp:409-413 | after an acknowledged probe the write offset and buffer cursor denote the next byte again |
| `TcpSend.Tx.DoneHeld` | src/tcp_engine.cpp:1179-1192 | the test for success implies that the peer holds every byte of the write at its position |
| `TcpSend.Tx.DoneExactly` | src/tcp_engine.cpp:1179-1192 | the test for success holds exactly while the last byte of the write is acknowledged and a FIN behind it is not |
| `TcpFlow.Flow.HandleAck` | src/tcp_engine.cpp:398-443 | the send state after an acknowledgement, that a waiting FIN goes out exactly with the last one, in which packet, the moves out of FIN_WAIT_1 and LAST_ACK, and that before ESTABLISHED a waiting FIN, and nothing else, ends in a reset |
| `TcpFlow.Flow.ShakeHands` | src/tcp_engine.cpp:340-371 | which segments are looked at before the connection is established, and when it becomes so |
| `TcpFlow.Flow.HandleSegment` | src/tcp_engine.cpp:311-396 | one segment keeps all invariants of both directions, moves the state only forward and the budget only by what the flow holds; what its acknowledgement, its handshake, its bytes and its FIN do; the stream is kept if and only if no SYN payload is misplaced |
| `TcpFlow.Flow.SendFin` | src/tcp_engine.cpp:1489-1531 | the FIN goes out in one packet at `snd_nxt` when everything is acknowledged, waits otherwise, and becomes a reset before the connection is established |
| `TcpFlow.Flow.AcceptFlow` | src/tcp_engine.cpp:1535-1544 | one SYN-ACK, once |
| `TcpFlow.Flow.Abort` | src/tcp_engine.cpp:1551-1559 | one RST, and the flow is closed with everything given back |
| `TcpFlow.Flow.CloseFlow` | src/tcp_engine.cpp:1561-1636 | everything held is released exactly once, pending operations are gone, nothing is sent |
| `TcpFlow.Flow.TakeSynData` | src/tcp_engine.cpp:285-299 | data of the SYN is kept if it fits, and counted |
| `TcpFlow.Flow.StartRead` | include/tunio/detail/tcp_engine.hpp:395-439 | which reads are refused and how, that the first one accepts the flow, what a read returns at once, and that a window that is zero afterwards means that one MSS does not fit |
| `TcpFlow.Flow.StartWrite` | include/tunio/detail/tcp_engine.hpp:472-528 | which writes are refused and how, that the write that runs is the one that was posted, and that a write in SYN_RCVD accepts the flow |
| `TcpFlow.Flow.ShutdownReceive` | src/tcp_engine.cpp:1719-1766 | everything queued and cached is dropped and released |
| `TcpFlow.Flow.ShutdownSend` | src/tcp_engine.cpp:1699-1717 | a FIN now, or after the last acknowledgement, or a reset before ESTABLISHED, and to which state |
| `TcpFlow.Flow.Close` | src/tcp_engine.cpp:1768-1837 | one packet: a reset exactly if something is unacknowledged or the handshake is not complete, else a FIN; everything held is released |
| `TcpFlow.Flow.Turn` | src/tcp_engine.cpp:1174-1281 | from the head of the send loop to its next suspension: success, waiting for the handshake, the window or progress, or the next segment, in which packet |
| `TcpFlow.Flow.Begin` | src/tcp_engine.cpp:1134-1173 | a write that starts takes the next positions, its counters are zero, and the loop turns once: in ESTABLISHED with an open window its first segment goes out |
| `TcpFlow.Flow.PersistTimeout` | src/tcp_engine.cpp:1219-1239 | for a write that is there: a probe with the next byte, or the first unacknowledged segment again, and a reset after too many |
| `TcpFlow.Flow.RtoTimeout` | src/tcp_engine.cpp:1285-1315 | a retransmission round bounded by the peer's window when nothing was acknowledged, and a reset after too many |
| `TcpFlow.Flow.OnWake` | src/tcp_engine.cpp:1210-1315 | which timer that fired is served and in which packets, what happens otherwise, how the counters move, and exactly when the flow is reset |
| `TcpFlow.Flow.Fail` | src/tcp_engine.cpp:1262-1268 | after a failed device write the positions already used stay used, and exactly the bytes that were never sent are given up |
| `TcpFlow.Flow.Resume` | src/tcp_engine.cpp:1174-1332 | every wake-up of the send loop: the timer that fired is served, the loop turns once, the counters move, and the flow is reset exactly when a timer has fired once too often; successful writes are held by the peer; beyond ESTABLISHED a write is muted after one wake-up; and exactly when the loop looks at a write that is gone |
| `TcpRun.Step` | src/tcp_engine.cpp:311-396 | every event does what it is for, keeps both directions right, moves the state forward; nothing is sent once the flow is closed, no data once it is muted, and exactly which event has no defined outcome |
| `TcpRun.Run` | src/tcp_engine.cpp:311-716 | reads return exactly the peer's stream, end-of-file only after all of it, and a successful write is held by the peer, which takes its bytes from the packets, over whole runs |
| `TcpRun.Session` | src/tcp_engine.cpp:254-304 | the same from the SYN on, with data in it or not, and a closed connection holds nothing of the budget |
| `Accountant.BufferAccountant.Reserve` | src/tcp_engine.cpp:75-82 | a reservation succeeds exactly if it fits the limit |
| `Accountant.BufferAccountant.Release` | src/tcp_engine.cpp:84-87 | the count goes down by what is released and does not underflow |
| `TcpEngine.Engine.OnSegment` | src/tcp_engine.cpp:305-309 | a segment does to its flow what it should, changes the budget by what the flow holds, the connection count follows the states, and a closed flow leaves table and queue |
| `TcpEngine.Engine.OnEvent` | src/tcp_engine.cpp:1561-1837 | the same for everything that can happen to a flow, which keeps both its streams |
| `TcpEngine.Engine.OnSyn` | src/tcp_engine.cpp:254-304 | a new flow enters unless the table is full, with the scales its options ask for, its SYN data taken in and paid for if that fits, and goes to an acceptor or waits |
| `TcpEngine.Engine.Reopen` | src/tcp_engine.cpp:244-253 | a SYN for a flow in TIME_WAIT closes it and opens a new one |
| `TcpEngine.Engine.NotifyAccept` | src/tcp_engine.cpp:1638-1655 | flows and acceptors never wait at the same time |
| `TcpEngine.Engine.AsyncAccept` | include/tunio/detail/tcp_engine.hpp:531-551 | the oldest waiting flow goes to exactly one acceptor |
| `TcpEngine.Engine.Evict` | src/tcp_engine.cpp:184-197 | a flow that is given up leaves table, queue, count and budget; the sweep resets it exactly if it is half-open or was never accepted |
| `TcpEngine.Engine.CloseAll` | src/tcp_engine.cpp:1670-1695 | no flow, no connection and no byte is left |
| `TcpEngine.Engine.OnceHanded` | src/tcp_engine.cpp:362-364 | a flow beyond its SYN was handed to an acceptor, so the second notification never happens |
| `Udp.Top` | src/udp_engine.cpp:274-283 | the heap's front is an earliest entry |
| `Udp.Engine.Arm` | src/udp_engine.cpp:271-320 | the timer is set no later than the first entry that counts, and never put off |
| `Udp.Engine.Refresh` | src/udp_engine.cpp:247-269 | the session has exactly one current entry, renewed exactly outside the half-second throttle, and the timer moves only to an entry that counts |
| `Udp.Engine.Drain` | src/udp_engine.cpp:338-358 | every due entry is taken off: expired sessions are closed, extended ones wait for a new entry |
| `Udp.Engine.OnTimer` | src/udp_engine.cpp:322-365 | exactly the sessions whose expiry has passed are closed, and the invariants of heap and timer hold again |
| `Udp.Engine.NeverEarly` | src/udp_engine.cpp:247-254 | a session does not expire before it was idle for its timeout |
| `Udp.Engine.ArmedFor` | src/udp_engine.cpp:271-320 | while a session is open the timer runs, no later than its entry |
| `Udp.Engine.IdleBound` | src/udp_engine.cpp:247-365 | with timers at most `lag` late, no session is open later than two timeouts and two lags after its last packet |
| `Udp.Overstays` | src/udp_engine.cpp:359-362 | an extended session keeps to one timeout if and only if its last packet came at the timer run |
| `Udp.Engine.Remove` | src/udp_engine.cpp:367-401 | a closed session leaves table, accept queue and budget |
| `Udp.Engine.OnPacket` | src/udp_engine.cpp:101-195 | which datagrams open a session, which are dropped, where the datagram goes, and who gets a new session |
| `Udp.Engine.FirstSession` | src/udp_engine.cpp:101-195 | a new session has the engine's timeout from its first packet on, one heap entry for that time, and the datagram if it fits |
| `Udp.Engine.StartSend` | include/tunio/detail/udp_engine.hpp:580-692 | which datagrams are refused, sent whole, fragmented or refused by the fragmenter, and that all but those refused at once count as activity |
| `Udp.Engine.TakeIn` | src/udp_engine.cpp:207-242 | a datagram goes to the longest waiting read, as many of its first bytes as that has room for, or is queued if it fits, or is dropped |
| `Udp.Engine.StartReceive` | include/tunio/detail/udp_engine.hpp:487-578 | a read takes the first queued datagram, as many of its first bytes as it has room for, and releases all of it, or waits its turn |
| `Udp.Engine.AsyncAccept` | include/tunio/detail/udp_engine.hpp:695-713 | the oldest waiting session is handed out |
| `Udp.Engine.CloseAll` | src/udp_engine.cpp:418-445 | no session, no entry and no byte is left |
| `UdpRun.Step` | src/udp_engine.cpp:101-401 | every event does what it is for; a session leaves only when it is closed, or in a timer run after it was idle for its timeout; what was received and read only grows |
| `UdpRun.Life` | src/udp_engine.cpp:101-401 | over whole runs: the i-th read returned the i-th datagram, as many bytes as it had room for, no session outlives two timeouts, the budget is exact |
| `UdpRun.Overstayer` | src/udp_engine.cpp:247-365 | a concrete run with a punctual timer in which a session is open 1599 ms after its last packet though its timeout is 1000 ms |
| `Stack.Stack.TcpEvent` | src/tcp_engine.cpp:311-396 | the budget is exactly what flows and sessions hold after anything the peer, the application or a timer does to a flow |
| `Stack.Stack.TcpSyn` | src/tcp_engine.cpp:243-304 | the same after a SYN that opens a flow or replaces one in TIME_WAIT |
| `Stack.Stack.UdpEvent` | src/udp_engine.cpp:101-401 | the same after a datagram in or out, a read, a close or an expiry run |
| `StackRun.Step` | src/tcp_engine.cpp:311-396 | no step of one flow or session disturbs another one's stream, and a flow that leaves the table has kept its own |
| `StackRun.Life` | src/tcp_engine.cpp:75-87 | over whole runs of the stack: streams and successful writes of every flow that was ever in the table, datagram order, budget and connection count |
| `Stack.Stack.CloseAll` | src/udp_engine.cpp:418-445 | after closing both engines the budget is unused |
| `WintunRing.Disjoint` | src/tun_device_wintun.cpp:466-489 | packets within one turn of the ring share no byte, even across the capacity boundary |
| `WintunRing.Ring.SendTry` | src/tun_device_wintun.cpp:445-504 | a packet is stored behind the others exactly if it fits, no unread byte is overwritten, and the bounds guards never fail |
| `WintunRing.Ring.RecvOne` | src/tun_device_wintun.cpp:378-443 | the first packet is taken out whole, or left in place if the caller's buffer is too small; the format guards never fail |
| `WintunRing.Exchange` | src/tun_device_wintun.cpp:378-504 | in every interleaving sender and receiver see exactly a plain queue of packets with the ring's room, and what is received and what is left is what was sent, in order |
| `Checksum.SumScalar` | src/ip_packet.cpp:74-88 | the big-endian word sum in 32 bits |
| `Checksum.SumVector` | src/ip_packet.cpp:34-70 | the eight-lane form gives the same sum for every length |
| `Checksum.Fold` | src/ip_packet.cpp:90-97 | the one's complement of the sum reduced modulo 65535, zero only for zero |
| `Checksum.TotalIsValue` | src/ip_packet.cpp:74-88 | modulo 65535 the word sum is the number that the data is in network order; an odd last byte counts as if a zero followed |
| `Checksum.CheckNegates` | src/ip_packet.cpp:74-97 | the checksum negates that number modulo 65535, and is all ones only for zero |
| `Checksum.Completed` | src/ip_packet.cpp:90-97 | a sum completed by its checksum folds to all ones, and so does one completed by 0xffff in place of zero |
| `Checksum.PseudoTotal` | src/ip_packet.cpp:130-155 | addresses, protocol and length summed separately are the sum of the pseudo header's bytes, for IPv4 and IPv6 |
| `Checksum.TcpUdpChecksum` | src/ip_packet.cpp:130-155 | the checksum over the bytes of pseudo header and segment |
| `Checksum.StampIpv4` | src/ip_packet.cpp:108-128 | a stamped header verifies to zero, whatever the field held before, and nothing else changes |
| `Checksum.StampSegment` | src/ip_packet.cpp:610-639 | a stamped TCP, UDP or ICMPv6 segment verifies to zero and a UDP checksum is never zero |
| `Checksum.StampIcmp` | src/ip_packet.cpp:640-666 | a stamped ICMP message verifies to zero |
| `Fragments.Split` | include/tunio/detail/udp_engine.hpp:309-370 | the fragments cut the datagram at multiples of eight, fit the MTU and are as long as it allows, and only the last one clears MF; an MTU below 28 is refused |
| `Fragments.FieldDecodes` | include/tunio/detail/udp_engine.hpp:355-357 | flag and offset are recovered from the 16-bit field |
| `Fragments.RoundTrip` | include/tunio/detail/udp_engine.hpp:335-370 | fragments in any order and number give back the datagram, and nothing else is ever complete |
| `PacketCodec.FragmentPackets` | include/tunio/detail/udp_engine.hpp:309-370 | the fragments as packets: each header verifies, and a reader finds addresses, identification, offset, flag and payload of its fragment, if and only if the packet fits the length field |
| `PacketCodec.FragmentParses` | src/ip_packet.cpp:764-789 | whatever the other fields, the options and what follows the packet, flag, offset and payload of a fragment come back |
| `Fragments.CompletesOnce` | include/tunio/detail/udp_engine.hpp:374-398 | the handler runs once, after the last fragment, with the first error |
| `QueueWriter.SameFlowSameQueue` | include/tunio/detail/tun_queue_writer.hpp:40-101 | packets of one five-tuple go to one queue |
| `QueueWriter.KeyIsTuple` | include/tunio/detail/tun_queue_writer.hpp:40-101 | what is hashed is the same for two packets exactly if their five-tuples are |
| `QueueWriter.TypedIsPlain` | include/tunio/detail/tun_queue_writer.hpp:40-101 | for whatever parses as TCP or UDP it is addresses, protocol and ports as the parser finds them |
| `QueueWriter.Writer.FlowOrder` | include/tunio/detail/tun_queue_writer.hpp:281-350 | when the device got a packet, it had got every accepted earlier packet of that five-tuple |
| `QueueWriter.Writer.GivenAsSubmitted` | include/tunio/detail/tun_queue_writer.hpp:242-350 | whatever the device was given is a packet that was submitted, unchanged, and at the queue of its flow |
| `QueueWriter.Writer.Submit` | include/tunio/detail/tun_queue_writer.hpp:136-183 | a packet is queued behind its flow, started at once if nothing is ahead of it, or dropped and completed when the writer is full or cancelled |
| `QueueWriter.Writer.OnWriteDone` | include/tunio/detail/tun_queue_writer.hpp:311-350 | after a transient failure the same packet is written again and one retry is gone, anything else completes it once and starts the next |
| `QueueWriter.Writer.CancelAll` | include/tunio/detail/tun_queue_writer.hpp:219-239 | everything waiting is completed as aborted, in order, and nothing is started afterwards |
| `QueueWriter.Writer.Counts` | include/tunio/detail/tun_queue_writer.hpp:136-350 | submitted is sent plus dropped plus queued plus in flight, and every submission completes exactly once |
| `PacketCodec.ViewsInside` | src/ip_packet.cpp:675-812 | for every input the views lie inside it |
| `PacketCodec.Refused` | src/ip_packet.cpp:750-812 | exactly which inputs are refused as IP packets, and with which error |
| `PacketCodec.Fields4` | src/ip_packet.cpp:764-789 | every other IPv4 packet, with options and fragments: addresses, length, fragment fields, and the payload between header and length |
| `PacketCodec.Fields6` | src/ip_packet.cpp:790-808 | the same for IPv6 |
| `PacketCodec.TransportParses` | src/ip_packet.cpp:675-748 | a transport header parses to what it was built from, whatever its checksum |
| `PacketCodec.EchoSeen` | src/ip_packet.cpp:720-748 | an echo message that was built is read as one, by the types of its IP version |
| `PacketCodec.EarlyBytesLost` | src/ip_packet.cpp:549-562 | bytes appended before the transport header survive if and only if they are all zero |
| `PacketCodec.EchoLeft` | src/ip_packet.cpp:640-654 | the echo numbers of an ICMP header without any are zero if and only if the early payload is zero there |
| `PacketCodec.Builder.BeginTransport` | src/ip_packet.cpp:482-547 | a transport header is begun once, with legal options; without room it is begun but not reserved |
| `PacketCodec.Builder.Append` | src/ip_packet.cpp:549-562 | payload is appended if there is room |
| `PacketCodec.Builder.Finalize` | src/ip_packet.cpp:564-673 | the finished packet parses without error to the addresses, ports, fields and payload that were given, with the hop limit and identification, its checksums verify, it is refused only if it is too long, and it overruns exactly if an unreserved header is longer than the payload |

## Left out

- Device opening, ioctl, netlink, registry and driver loading: platform calls without an algorithm.
- Executors, coroutines and completion dispatch: replaced by atomic steps; the scatter of read bytes over several user
  buffers is a plain copy.
- Timer durations and their back-off: timers fire whenever they are armed. The retry counters that lead to a reset are kept.
- TcpFlow.Flow.HandleSegment: is about a peer with one stream and one FIN that acknowledges what it holds, and about
  positions less than half the sequence space from `rcv_nxt`; farther ones are indistinguishable in 32 bits
  (`SeqNum.CompareFailsAtHalf`). `TcpRun.Run` and `StackRun.Life` inherit this.
- TcpFlow.Flow.HandleData: the same half of the sequence space.
- TcpFlow.Flow.Receive: the same half of the sequence space.
- TcpFlow.Flow.StartWrite: is about writes shorter than 4 GiB, which are exactly those that retransmission maps right
  (`TcpSend.MappableExact`).
- TcpFlow.Flow.ArriveInWindow: needs a total limit above zero and less than 2^32 held bytes, because the original reads
  a limit of zero as no bound there and truncates the count, and a last packet that is a SYN-ACK or was not built in
  SYN_ACK_SENT, since such a packet promises too much (`TcpFlow.Flow.WindowsKept`).
- PacketCodec.Builder.BeginIp: what may be done after there was no room for the IP header is not part of this model.
- The claim that TIME_WAIT means the peer received our FIN: after `close()` with an unanswered probe the FIN reuses the
  probe's sequence number.
- Udp.Engine.IdleBound: is about a constant timeout; `udp_session_set_timeout` is not part of this model, since a shorter
  timeout may be ignored for half a second.
- QueueWriter.SameFlowSameQueue: says nothing about how evenly the hash spreads flows over the queues, which affects
  throughput only.
- TcpFlow.Flow.NotifyWindowUpdated: states its condition for limits below 4 GiB, where the 32-bit arithmetic of the window
  does not truncate (`DelayedAck.WindowExactWhen`). `TcpFlow.Flow.WindowIs`, `FlushReads` and `StartRead` share that.
- TcpFlow.Flow.FlushReads: as `NotifyWindowUpdated`.
- TcpFlow.Flow.StartRead: as `NotifyWindowUpdated`.
- TcpFlow.Flow.WindowIs: as `NotifyWindowUpdated`.
- Packets that are half the sequence space or more behind `snd_una`: the peer of `TcpRun` takes no bytes from them.
- Udp.Top: the binary heap of the standard library is any structure that yields an earliest entry.
- The `rst` flag: it is set only together with closing, so the tests for it behind the test for CLOSED decide nothing.
- Statistics other than the connection and packet counters, buffer pooling, ICMP echo replies and `tunio_impl`.
- C and Python bindings, examples: wrappers around the engine.
