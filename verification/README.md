# A verified model of cTCP and of the static router

The repository holds two network programs: cTCP, a sliding-window transport with BBR congestion control
(`lab4/ctcp`), and a static IP router (`lab1/router`). This project models their state machines and algorithms
in Dafny and proves what they guarantee over every run.

The operations that work in place are methods of classes (`Endpoint`, `SegmentQueue`, `Control`, `Connection`,
`List`, `Sha1`, `RoutingTable`, `Cache`, `Instance`) or fill arrays. Each is proved against a function on values, and the
theorems over whole runs are about those functions. Run `dafny verify dfyconfig.toml`.

- **cTCP** (`CtcpHost`, `CtcpSegments`, `CtcpEndpoint`, `CtcpCallbacks`, `CtcpNetwork`, `CtcpInvariant`, `CtcpFin`,
  `CtcpTheorems`, `CtcpWindows`, `CtcpDelivery`, `CtcpClose`, `CtcpTiming`, `CtcpWitness`). Two
  ends with read, receive, timer and drain callbacks, joined by the set of all packets ever sent, so that loss, repetition, delay and reordering are all possible. One invariant joins both ends and every
  packet. Sequence numbers are those of section 3.4 of RFC 9293 without wrap-around
  (lab4/assignment.md:96 rules it out), the clock of an end does not go back, and packets are not corrupted
  (the checksum test is commented out at lab4/ctcp/ctcp.c:130-135).
- **BBR** (`Doubles`, `BbrModel`, `BbrControl`, `BbrRuns`, `BbrRates`). Mode machine, filters and pacing. Floating point is
  modelled by reals with infinities and not-a-number; integer division in the gains is C's.
- **Output queue and list** (`OutputQueue`, `OutputRuns`, `Conn`, `LinkedList`).
- **Checksums and wire format** (`InternetChecksum`, `Wire`, `WireBuffers`, `WireFields`): section 1 of RFC 1071, and the
  conversion between segments and datagrams over the Unix socket, on a little-endian machine.
- **SHA-1** (`Sha1Standard`, `Sha1Stream`, `Sha1Context`, `Sha1Known`): FIPS PUB 180-1, sections 4 to 7.
- **Router** (`Routes`, `ArpModel`, `ArpRuns`, `ArpSweep`, `ArpHistory`, `ArpTheorems`, `ArpWitness`, `ArpCache`,
  `IpForwarding`, `IpRouter`, `RouterRuns`, `RouterHops`). Route lookup, the ARP cache with its waiting
  frames, forwarding and the router's own answers. Each operation is one atomic step with one clock reading.

Where the code and its documentation disagree, or the code does what a reader may not expect, the model follows
the code, except in the last two points:

- lab4/assignment.md:88 and lab4/ctcp/ctcp.h:152 ask for five retransmissions; the code sends six
  (`CtcpTiming.GivesUpAfterSix`, `CtcpWitness.SixResendsHappen`).
- lab4/ctcp/ctcp.h:144-152 asks that the FIN be acknowledged before the teardown; the code does not wait for it
  (`CtcpWitness.CloseWithoutFinAcknowledged`). `CtcpFin.AcknowledgedUnlessForgotten` says exactly when it was.
- lab4/ctcp/ctcp.h:150 asks that everything received was output before the teardown; the code only asks that the
  FIN was taken, and the teardown frees what still waits in the output queue
  (`CtcpWitness.CloseLosesWaitingBytes`). `CtcpClose.GracefulClose` says exactly when nothing is lost.
- lab4/ctcp/ctcp.h:223-225 asks for a resend only when the time-out has passed since the segment was last sent;
  the code measures it from the last resend of any segment (`CtcpWitness.FreshSegmentIsSentAgain`,
  `CtcpTiming.ResendsTooEarly`).
- Delivery is promised to be reliable; `conn_drain` calls `ctcp_output` with nothing pending, which records the
  end of the output, and later data is acknowledged and lost (`CtcpWitness.AcknowledgedBytesCanBeLost`).
  `CtcpDelivery.ExactUnlessTakenTooLate` says exactly when nothing acknowledged is refused, and
  `CtcpClose.WrittenUnlessWaiting` when all of it has been written; the prefix theorem needs no condition.
- A segment whose sequence or acknowledgement number wraps around when the initial number is added is dropped by
  the peer's filter (lab4/ctcp/ctcp_sys_internal.c:456-457; `WireFields.PeerAccepts`).
- An ARP packet for an address that is still in the cache fills a second slot, and a lookup keeps returning the
  older address if its slot is the later one (`ArpTheorems.FillResolves`, `ArpWitness.OlderAddressIsUsed`).
- The sweep (lab1/router/router/sr_arpcache.c:20-27) reads the next pointer of a request that may have been
  freed; the model takes the next request first, as sr_arpcache.h:61-63 asks.
- An acknowledgement that counts the FIN makes the source read the head of the retransmission queue without looking
  whether there is one (lab4/ctcp/ctcp.c:179-182); the model looks. `CtcpFin.ReadsNullOnceFinIsGone` says exactly
  when that matters, and `CtcpFin.LaterSegmentsCountFin` that any later segment of the peer brings it about.

## Model

| member | source | states |
|---|---|---|
| CtcpInvariant.RunKeepsInv | lab4/ctcp/ctcp.c:124-250 | In every run of two ends over a network that drops, repeats, delays and reorders: each queue is contiguous input from `seqno` to `next_seqno`, every packet ever sent carries input at its own sequence number, and sender and receiver agree on what was taken |
| CtcpInvariant.StepKeepsInv | lab4/ctcp/ctcp.c:87-317 | Any one callback at either end (read, receive, timer, drain) keeps that joint invariant |
| CtcpInvariant.ReadKeeps | lab4/ctcp/ctcp_bbr.c:115-156 | Reading queues exactly the bytes taken from the input; with a clock that does not go back, the two clock readings cannot make `bbr_send` drop them |
| CtcpTheorems.PrefixDelivery | lab4/ctcp/ctcp.c:138-167 | End-to-end safety: bytes written, and bytes accepted for output, are at every moment a prefix of what the other end read, in both directions |
| CtcpTheorems.NoEarlyDiscard | lab4/ctcp/ctcp.c:188-230 | The retransmission queue concatenates to exactly the unacknowledged slice of the input; a FIN is only queued alone; `seqno` <= peer `ackno` <= `next_seqno` (plus one once the FIN was taken) |
| CtcpTheorems.DeliveryAccount | lab4/ctcp/ctcp_sys_internal.c:912-980 | Bytes acknowledged but not accepted are exactly the bytes that `conn_output` refused after they had been taken |
| CtcpTheorems.ExactDelivery | lab4/ctcp/ctcp.c:159-163 | What was accepted equals all that was acknowledged if and only if nothing taken was refused |
| CtcpDelivery.ClosedBecause | lab4/ctcp/ctcp_sys_internal.c:624-672 | The output takes nothing more exactly if the peer's FIN was taken, a drain wrote something late, or a write failed, at some point of the run |
| CtcpDelivery.ExactUnlessTakenTooLate | lab4/ctcp/ctcp_sys_internal.c:912-980 | All that was acknowledged was written or waits in the output queue if and only if no data was taken after a late drain had written or a write had failed: a condition on what the program behind the output answered |
| CtcpClose.WrittenUnlessWaiting | lab4/ctcp/ctcp_sys_internal.c:624-672 | All that was acknowledged was written if and only if nothing waits in the output queue and no data was taken too late |
| CtcpClose.WrittenInFull | lab4/ctcp/ctcp.c:234-246 | Once the FIN was taken, the peer's whole input was written if and only if nothing waits and no data was taken too late |
| CtcpClose.DeadStaysDead | lab4/ctcp/ctcp.c:70-85 | No callback changes an end that was torn down, so what waits in its output queue is never written |
| CtcpClose.QueueStaysBounded | lab4/ctcp/ctcp.c:155-163 | In every run of the two ends the output queue never holds more than 8192 bytes: the transport respects its space |
| CtcpTheorems.WholeWritesDeliver | lab4/ctcp/ctcp.c:252-263 | If `write` takes whole segments, everything acknowledged has been written, in order |
| CtcpClose.GracefulClose | lab4/ctcp/ctcp.c:271-287 | When the teardown conditions hold, both inputs are complete, this end took all of the peer's input and recorded its end, and the peer took all of this end's; this end's FIN was acknowledged, and so taken by the peer, if and only if it was not forgotten; this end's output was written in full, as the header asks, if and only if nothing waits and nothing was taken too late |
| CtcpFin.FinLeavesOnce | lab4/ctcp/ctcp.c:176-212 | Over every run: the FIN has left the queue exactly if it was acknowledged or forgotten (a repeated acknowledgement of the last byte), never both, and it is acknowledged only after the peer took it |
| CtcpFin.AcknowledgedUnlessForgotten | lab4/ctcp/ctcp.c:278-282 | When the teardown conditions hold, the documented condition that the FIN was acknowledged holds exactly if no callback forgot the FIN |
| CtcpFin.FinNotSentAgain | lab4/ctcp/ctcp.c:271-276 | A FIN that has left the queue is never sent again |
| CtcpFin.ReadsNullOnceFinIsGone | lab4/ctcp/ctcp.c:174-187 | The source looks for the FIN at the head of an empty queue exactly when the FIN was acknowledged or forgotten and a segment arrives that counts it |
| CtcpFin.LaterSegmentsCountFin | lab4/ctcp/ctcp.c:347-395 | From the moment the peer took the FIN, every data segment and acknowledgement it sends counts the FIN |
| CtcpClose.GracefulCloseDelivers | lab4/ctcp/ctcp.c:234-246 | At a graceful close the written output of either end is the other's whole input if and only if nothing waits in its queue and it took nothing too late; whole writes suffice |
| CtcpWindows.WindowOverRun | lab4/ctcp/ctcp.c:197-214 | In every run the sender respects exactly the window in force: the configured one until a segment that it hears acknowledges exactly the head of its queue, and then the window of the last such segment |
| CtcpWindows.WindowOvershoot | lab4/ctcp/ctcp.c:100-118 | If every window in force was at most W, unacknowledged numbers stay below W + 1440 however the window moves |
| CtcpWindows.OvershootOfReceived | lab4/ctcp/ctcp.c:100-118 | The same if the configured window and every window received was at most W |
| CtcpWindows.SegmentsMarked | lab4/ctcp/ctcp.c:326-395 | Every segment ever sent or queued: data carries an acknowledgement and a window that was in force, everything else advertises the configured receive window and acknowledges exactly if it is not a FIN |
| CtcpCallbacks.ReadPlainly | lab4/ctcp/ctcp.c:87-118 | When input is asked for, and what the segment that is queued says: next number, current acknowledgement, window in force, and the stamps of the congestion control block at that time; when it is sent at once |
| CtcpCallbacks.ReceivePlainly | lab4/ctcp/ctcp.c:124-250 | Which segments are considered, which data is taken, and everything sent in reply: the acknowledgement with the next byte expected, the head again for an acknowledgement below it, the acknowledgement of a FIN in its place; what leaves the queue, and the numbers, flags and window that follow |
| CtcpCallbacks.TimerPlainly | lab4/ctcp/ctcp.c:265-317 | The whole effect of a tick: the end of a finished connection, the FIN, the note that all is acknowledged, the head sent again with the stamps of that time, or giving up after more than five |
| CtcpTheorems.FlippedRun | lab4/ctcp/ctcp.c:27-68 | Exchanging the ends of a run gives the run of the exchanged ends, so each one-directional statement holds in both directions |
| CtcpTiming.ResendsCounted | lab4/ctcp/ctcp.c:288-314 | `retrans_count` is the number of packets that the timer put on the wire again since the queue last became shorter; all of them are the packet still at its head, and there are at most six (resends caused by smaller acknowledgements are not counted, here or in the source) |
| CtcpTiming.TimerSendsAgain | lab4/ctcp/ctcp.c:288-314 | A tick sends exactly the packet at the head of the queue again, or nothing, and the first if and only if the source's guards hold |
| CtcpTiming.GivesUpAfterSix | lab4/ctcp/ctcp.c:288-314 | A connection that did not close is given up only after the timer sent one and the same packet again six times, where the documentation says five |
| CtcpTiming.ResendsAreSpaced | lab4/ctcp/ctcp.c:289-292 | Two times at which the timer sends a segment again are more than the time-out apart |
| CtcpTiming.ResendsTooEarly | lab4/ctcp/ctcp.c:289-292 | A segment last sent at t is sent again within the time-out, against the header, exactly if the tick is past the time-out of the last resend but not past that of t |
| CtcpTiming.HistoryIsRun | lab4/ctcp/ctcp_bbr.c:48-156 | Over any stretch of a run of the two ends, the congestion control block is the result of a run of its own operations |
| CtcpTiming.DepartureIsPacket | lab4/ctcp/ctcp_bbr.c:115-156 | What `bbr_send` puts on the wire is one packet per logged departure, of that size and at that time |
| CtcpTiming.EndpointPacing | lab4/ctcp/ctcp_bbr.c:143-151 | The pacing bound holds for an end inside the whole system |
| CtcpWitness.AcknowledgedBytesCanBeLost | lab4/ctcp/ctcp_sys_internal.c:669-671 | A concrete run in which a late drain records the end of the output and acknowledged bytes are then lost: exact delivery fails without its condition |
| CtcpWitness.SixResendsHappen | lab4/ctcp/ctcp.c:288-314 | A concrete run in which the timer puts the same packet on the wire six more times and then gives up |
| CtcpWitness.FreshSegmentIsSentAgain | lab4/ctcp/ctcp.c:288-314 | A concrete run with a time-out of 100 ms in which a segment is sent again one millisecond after it was first sent |
| CtcpWitness.CloseLosesWaitingBytes | lab4/ctcp/ctcp.c:234-246 | A concrete run that reaches the teardown conditions with nothing refused or taken too late, while the acknowledged byte still waits in the output queue |
| CtcpWitness.CloseIsReached | lab4/ctcp/ctcp.c:271-287 | A concrete run in which an end reaches the teardown conditions after data went across and its FIN was acknowledged; the same acknowledgement once more would be read through null |
| CtcpWitness.CloseWithoutFinAcknowledged | lab4/ctcp/ctcp.c:192-212 | A concrete run in which the teardown conditions hold although the FIN was forgotten and the peer has seen none |
| CtcpEndpoint.Endpoint.ReadInput | lab4/ctcp/ctcp.c:87-122 | In place: the new state and the packets sent are those of the read step, for every clock and every answer of `conn_input` |
| CtcpEndpoint.Endpoint.PacedSend | lab4/ctcp/ctcp_bbr.c:115-156 | In place: queues when the congestion window is full, sends when the pacing time has passed, and drops otherwise |
| CtcpEndpoint.Endpoint.SendSegment | lab4/ctcp/ctcp.c:347-378 | In place: the segment joins the tail of the queue and `next_seqno` advances by its length |
| CtcpEndpoint.Endpoint.ReceiveSegment | lab4/ctcp/ctcp.c:124-250 | In place: the new state and the replies are those of the receive step for every packet |
| CtcpEndpoint.Endpoint.AcceptData | lab4/ctcp/ctcp.c:138-167 | In place: data in order and within the space is taken and acknowledged, anything else is not |
| CtcpEndpoint.Endpoint.AcceptAck | lab4/ctcp/ctcp.c:176-230 | In place: an acknowledgement removes the head of the queue, and only an exact one feeds the rate sample |
| CtcpEndpoint.Endpoint.AcceptFin | lab4/ctcp/ctcp.c:234-246 | In place: a FIN is taken only at the expected number, and acknowledged |
| CtcpEndpoint.Endpoint.OutputPending | lab4/ctcp/ctcp.c:252-263 | In place: hands over pending output, which with nothing pending records the end |
| CtcpEndpoint.Endpoint.SendFinSegment | lab4/ctcp/ctcp.c:326-344 | In place: the FIN joins the queue without taking a number there |
| CtcpEndpoint.Endpoint.Tick | lab4/ctcp/ctcp.c:265-317 | In place: teardown, FIN, retransmission or giving up, as the timer step says |
| CtcpEndpoint.Endpoint.LibraryDrains | lab4/ctcp/ctcp_sys_internal.c:624-672 | In place: the drain with the `ctcp_output` callback that follows it |
| CtcpSegments.SegmentQueue.Enqueue | lab4/ctcp/ctcp.c:357-375 | In place on the doubly linked list: a new segment goes behind all others |
| CtcpSegments.SegmentQueue.RemoveFirst | lab4/ctcp/ctcp.c:208-212 | In place on the doubly linked list: the first segment leaves and all others stay |
| CtcpSegments.SegmentQueue.Restamp | lab4/ctcp/ctcp.c:293-297 | In place in the first list object: only its timing fields change |
| BbrRuns.MinRttOverRun | lab4/ctcp/ctcp_bbr.c:158-171 | `min_rtt_us` is the least of the last ten RTT samples of the whole run, padded with 0x7fffffff |
| BbrRuns.MaxBandwidthOverRun | lab4/ctcp/ctcp_bbr.c:172-183 | `max_btlbw` is the largest delivery rate of the whole run although the ten-entry window is truncated and forgets |
| BbrRates.DeliveredOverRun | lab4/ctcp/ctcp_bbr.c:98-100 | Over every run `delivered` is the sum of the sizes of all acknowledged segments and `delivered_time` the time of the last acknowledgement |
| BbrRates.BandwidthIsGreatestMeasured | lab4/ctcp/ctcp_bbr.c:97-112 | `max_btlbw` is the greatest of zero and all measured rates: the bytes acknowledged since a segment's stamp, itself included, over the time since |
| BbrRates.LastBandwidth | lab4/ctcp/ctcp_bbr.c:104 | The estimate that growth is measured against is the greatest rate of before the last acknowledgement |
| BbrRates.WindowOfRecords | lab4/ctcp/ctcp_bbr.c:172-183 | The bandwidth window holds the last ten rates, truncated, that were greater than all before them |
| BbrRates.FlightOverRun | lab4/ctcp/ctcp_bbr.c:115-142 | `inflight` is the bytes of all departures plus what the transport added and took off |
| BbrRates.CwndGainOverRun | lab4/ctcp/ctcp_bbr.c:30-34 | The congestion window gain is zero until the first acknowledgement and two from then on |
| BbrRates.DepartsWhen | lab4/ctcp/ctcp_bbr.c:115-143 | A segment departs exactly if no more is in flight than gain times the truncated bandwidth-delay product and the pacing clock has run out |
| BbrRates.DrainEndsWhen | lab4/ctcp/ctcp_bbr.c:65-72 | Draining ends exactly at an acknowledgement that finds no more in flight than the bandwidth-delay product |
| BbrRates.ClockAfterDeparture | lab4/ctcp/ctcp_bbr.c:146-151 | After a departure at a positive rate the pacing clock is the last whole millisecond at which its bytes have not yet left, neither earlier nor later |
| BbrRuns.ModeOverRun | lab4/ctcp/ctcp_bbr.c:30-84 | The mode is a function of two counts: DRAIN exactly at the third ACK without growth, then PROBE_BW, whose k-th call uses gain entry k mod 8 |
| BbrRuns.ModesMoveForward | lab4/ctcp/ctcp_bbr.c:48-84 | The mode never goes back, never skips one and never is PROBE_RTT |
| BbrRuns.GapAfterDeparture | lab4/ctcp/ctcp_bbr.c:143-151 | Whatever leaves after a paced departure leaves strictly more than bytes/rate later, despite truncation to milliseconds |
| BbrRuns.DeparturesAreSpaced | lab4/ctcp/ctcp_bbr.c:115-156 | Over any run each departure is paid for by the wait before the next |
| BbrRuns.PacingBound | lab4/ctcp/ctcp_bbr.c:143-151 | With rates positive and at most R, all departures but the last total strictly less than R times the elapsed time |
| Doubles.TruncationBounds | lab4/ctcp/ctcp_bbr.c:146-151 | The cast to `long` never raises a non-negative value and lowers a finite one by less than one |
| BbrControl.Control.HandleAck | lab4/ctcp/ctcp_bbr.c:48-114 | In place: the whole block after an ACK is that of the ACK step |
| BbrControl.Control.AdvanceMode | lab4/ctcp/ctcp_bbr.c:49-84 | In place: mode, gains and counters after one turn of the mode switch, and nothing else |
| BbrControl.Control.UpdateMinFilter | lab4/ctcp/ctcp_bbr.c:158-171 | In place over the array: the window slides by one and the minimum of it comes back |
| BbrControl.Control.UpdateMaxFilter | lab4/ctcp/ctcp_bbr.c:172-183 | In place over the array: the truncated window slides by one; the maximum is taken over it |
| BbrControl.Control.Pace | lab4/ctcp/ctcp_bbr.c:143-156 | In place: the time before which nothing more may leave |
| OutputQueue.OutputAppends | lab4/ctcp/ctcp_sys_internal.c:912-980 | `conn_output` keeps a buffer whole behind everything kept before, or not at all; written bytes are never taken back |
| OutputQueue.DrainConserves | lab4/ctcp/ctcp_sys_internal.c:624-672 | `conn_drain` moves bytes from the head of the queue to the output under any pattern of partial writes and loses none |
| OutputQueue.DrainGoesOn | lab4/ctcp/ctcp_sys_internal.c:624-672 | The drain goes on exactly as long as each chunk is taken whole, and what the first other answer leaves: nothing changed, an error, or a chunk partly used |
| OutputQueue.ErrorAfterDrain | lab4/ctcp/ctcp_sys_internal.c:624-672 | When an error is on record after a drain |
| OutputRuns.FifoOverRun | lab4/ctcp/ctcp_sys_internal.c:624-672 | Over any run, bytes written followed by bytes waiting are exactly the buffers kept, in order |
| OutputRuns.BoundedOverRun | lab4/ctcp/ctcp_sys_internal.c:608-617 | If callers respect `conn_bufspace`, the queue never holds more than 8192 bytes |
| OutputRuns.ClosedStaysClosed | lab4/ctcp/ctcp_sys_internal.c:912-933 | After an end or an error nothing is ever kept again |
| Conn.Connection.PutOut | lab4/ctcp/ctcp_sys_internal.c:912-980 | On the linked chunks: refines the queue step and keeps the tail link |
| Conn.Connection.DrainQueue | lab4/ctcp/ctcp_sys_internal.c:624-672 | On the linked chunks: refines the drain, keeps the tail link, and reports exactly when the library calls back |
| Conn.Connection.BufferSpace | lab4/ctcp/ctcp_sys_internal.c:608-617 | The loop over the chunks returns the free space |
| LinkedList.Add | lab4/ctcp/ctcp_linked_list.c:33-53 | Refines append; head, tail, both links and length stay consistent |
| LinkedList.AddFront | lab4/ctcp/ctcp_linked_list.c:55-75 | Refines prepend on lists of any length |
| LinkedList.AddAfter | lab4/ctcp/ctcp_linked_list.c:77-95 | Refines insertion behind the k-th node |
| LinkedList.Remove | lab4/ctcp/ctcp_linked_list.c:97-118 | Refines deletion of the k-th node and returns what it held |
| LinkedList.Find | lab4/ctcp/ctcp_linked_list.c:120-132 | The first node that holds the object, or none exactly if no node does |
| LinkedList.InsertThenDelete | lab4/ctcp/ctcp_linked_list.c:77-118 | Deleting what was inserted restores the sequence |
| InternetChecksum.Cksum | lab1/router/router/sr_utils.c:8-20 | The two loops, with a 32-bit sum, compute the specified checksum |
| InternetChecksum.FoldCongruent | lab1/router/router/sr_utils.c:16-18 | Folding keeps the sum modulo 65535, and only zero folds to zero |
| InternetChecksum.OneMoreOctet | lab1/router/router/sr_utils.c:8-15 | Octets at even offsets count 256-fold, octets at odd offsets once |
| InternetChecksum.OddDataIsPadded | lab1/router/router/sr_utils.c:14-15 | Data of odd length checks like the data followed by a zero octet |
| InternetChecksum.ChecksumClosedForm | lab4/ctcp/ctcp_utils.c:3-17 | The result is the one number from 1 to 65535, in network order, that makes the sum a multiple of 65535; it is never zero |
| InternetChecksum.FieldChecks | lab1/router/router/sr_utils.c:8-20 | A buffer with a non-zero value in a zeroed field at an even offset checks to 0xffff if and only if the value is the checksum |
| InternetChecksum.StoredChecksumChecks | lab1/router/router/sr_utils.c:8-20 | Storing the checksum in a zeroed field at an even offset makes the whole buffer check to 0xffff |
| Wire.RoundTrip | lab4/ctcp/ctcp_sys_internal.c:326-410 | A segment without timing fields, whose flags fit a byte and whose length is true, comes back exactly from the datagram, checksum included, right or wrong |
| Wire.RoundTripFields | lab4/ctcp/ctcp_sys_internal.c:326-410 | For every segment all carried fields come back, sequence numbers modulo 2^32 through both offsets |
| Wire.RoundTripChecksum | lab4/ctcp/ctcp_sys_internal.c:347-356 | The returned checksum is off by exactly the difference of the correct checksums of carried and sent segment, modulo 2^16 |
| Wire.ChecksumSurvives | lab4/ctcp/ctcp_sys_internal.c:393-408 | The checksum comes back if and only if what the packet does not carry made no difference to it |
| Wire.IpHeaderChecks | lab4/ctcp/ctcp_sys_internal.h:217-238 | The header of every datagram checks to 0xffff |
| Wire.CorrectSegmentChecks | lab4/ctcp/ctcp_sys_internal.c:368-410 | A correct cTCP checksum becomes a TCP checksum under which the pseudo-packet checks |
| WireFields.DatagramFields | lab4/ctcp/ctcp_sys_internal.c:368-410 | Every field of a datagram by its octets: version, lengths, protocol, own and peer address, own port as source and peer port as destination, numbers, flags, window, data |
| WireFields.PeerAccepts | lab4/ctcp/ctcp_sys_internal.c:427-469 | The peer's filter hands a segment without SYN and RST to its connection if and only if neither number wraps around when the initial one is added; otherwise it is dropped |
| WireFields.SegmentFields | lab4/ctcp/ctcp_sys.h:45-58 | The structure over which a segment's checksum is computed, field by field in memory |
| WireFields.PseudoFields | lab4/ctcp/ctcp_sys_internal.h:191-206 | The pseudo-header over which the TCP checksum is computed, field by field |
| WireBuffers.CreateDatagram | lab4/ctcp/ctcp_sys_internal.h:217-238 | The allocated buffer is the header followed by zeros |
| WireBuffers.CksumTcp | lab4/ctcp/ctcp_sys_internal.h:191-206 | The checksum of the pseudo-header buffer is that of the specification |
| WireBuffers.ConvertToDatagram | lab4/ctcp/ctcp_sys_internal.c:368-410 | The buffer filled step by step is the specified packet |
| WireBuffers.ConvertToCtcp | lab4/ctcp/ctcp_sys_internal.c:326-357 | The segment read from a buffer is the specified one; the buffer's checksum is cleared |
| Sha1Stream.StreamingIsStandard | lab1/router/router/sha1.c:104-185 | After any sequence of inputs the result is the FIPS PUB 180-1 digest of the concatenation below 2^64 bits, and a failure from there on |
| Sha1Stream.ChunkingIrrelevant | lab1/router/router/sha1.c:143-185 | Whatever the chunks, the context represents their concatenation; it is marked corrupted exactly at 2^64 bits or more |
| Sha1Stream.PadMessageIsPad | lab1/router/router/sha1.c:326-371 | One or two final blocks give the digest of the standard's padding (section 4) |
| Sha1Stream.ResultIsFinal | lab1/router/router/sha1.c:104-119 | A second result is the same; any input after a result spoils the context |
| Sha1Standard.PadInjective | lab1/router/router/sha1.c:326-371 | Different messages have different paddings |
| Sha1Standard.PadZerosLeast | lab1/router/router/sha1.c:326-371 | The padding has the least number of zeros that reaches 448 modulo 512 bits |
| Sha1Known.ChooseLaw | lab1/router/router/sha1.c:242-252 | The function of the first rounds takes the bits of its second argument where the first has ones, and of the third elsewhere (section 5 of FIPS PUB 180-1) |
| Sha1Known.MajorityLaw | lab1/router/router/sha1.c:268-278 | The function of the third rounds agrees with any two arguments that agree |
| Sha1Known.MajoritySymmetric | lab1/router/router/sha1.c:268-278 | The order of its arguments does not matter, so the law above holds for any two of them |
| Sha1Known.ParityLaw | lab1/router/router/sha1.c:255-265 | The function of the second and last rounds is the parity bit by bit |
| Sha1Known.RotateLaw | lab1/router/router/sha1.c:46-48 | One step of the circular shift brings the leftmost bit to the right end |
| Sha1Known.RotateSteps | lab1/router/router/sha1.c:46-48 | Five steps are one step five times, and thirty to the left are undone by two more |
| Sha1Known.DigestOfAbc | lab1/router/router/sha1.c:207-301 | The digest of "abc" is A9993E36 4706816A BA3E2571 7850C26C 9CD0D89D (FIPS PUB 180-1, appendix A) |
| Sha1Known.StreamOfAbc | lab1/router/router/sha1.c:104-185 | In whatever chunks "abc" comes, the streaming computation gives that digest |
| Sha1Context.Sha1.Reset | lab1/router/router/sha1.c:71-85 | In place: the initial context |
| Sha1Context.Sha1.Input | lab1/router/router/sha1.c:143-185 | In place over the block buffer: refines absorbing the octets one by one |
| Sha1Context.Sha1.ProcessBlock | lab1/router/router/sha1.c:207-301 | The schedule and the eighty rounds on machine words are the compression of section 7, and empty the buffer |
| Sha1Context.Sha1.PadMessage | lab1/router/router/sha1.c:326-371 | In place: refines the final blocks |
| Sha1Context.Sha1.Result | lab1/router/router/sha1.c:104-119 | In place: pads once, and leaves the digest in the context |
| Routes.RoutingTable.LongestPrefixMatch | lab1/router/router/sr_rt.c:181-199 | The loop finds the matching route that no match exceeds in mask and no later match equals; none exactly if nothing matches |
| Routes.RoutingTable.AddEntry | lab1/router/router/sr_rt.c:93-132 | The walk along the linked nodes ends at the last one; the new node is linked behind it, all others stay |
| Routes.AppendedRoute | lab1/router/router/sr_rt.c:93-132 | What an added entry changes: it becomes the longest match exactly if it matches and no match has a greater mask |
| Routes.MaskOrderIsPrefixOrder | lab1/router/router/sr_rt.c:190-193 | For contiguous masks the unsigned order is the order of prefix lengths |
| Routes.LongestMatchIsLongestPrefix | lab1/router/router/sr_rt.c:181-199 | With contiguous masks the result matches, no match has a longer prefix, ties go to the last, and it is missing exactly if nothing matches (section 5.2.4.3 of RFC 1812) |
| Routes.MatchesPrefix | lab1/router/router/sr_rt.c:188-189 | A route with an n-bit prefix matches exactly the addresses whose first n bits are those of its destination |
| ArpRuns.FramesConserved | lab1/router/router/sr_arpcache.c:30-105 | Over any run: frames submitted = frames transmitted + frames waiting + frames reported unreachable, as multisets of next hop, frame and interface, also when a full cache requeues them |
| ArpRuns.ResubmitAccount | lab1/router/router/sr_arpcache.c:156-166 | Resubmitting released packets accounts for each exactly once |
| ArpHistory.RunInv | lab1/router/router/sr_arpcache.c:20-166 | The invariant behind the ARP theorems over every run: requests counted, cache entries known, nothing resolved waits, events in order |
| ArpTheorems.PendingRequests | lab1/router/router/sr_arpcache.c:72-126 | Pending requests have distinct addresses, each a gateway of a route; each was sent as often and last when it says, at most five times, two seconds apart; where nothing is pending nothing was asked since |
| ArpTheorems.AtMostFiveAsks | lab1/router/router/sr_arpcache.c:72-91 | At every point of every run, at most five requests, each two seconds or more after the one before, since the address was last resolved or given up (section 2.3.2.1 of RFC 1122) |
| ArpTheorems.GivesUpAfterFiveAsks | lab1/router/router/sr_arpcache.c:76-83 | Packets are reported unreachable only after exactly five requests and at least ten seconds after the first |
| ArpTheorems.AsksForGateways | lab1/router/router/sr_arpcache.c:108-126 | Every request is for the gateway of a route, on the interface of the first such route |
| ArpSweep.TickPlainly | lab1/router/router/sr_arpcache.c:20-27 | A tick sends every request again that was last sent more than a second ago and fewer than five times, reports the others that are due, in order, and does nothing else |
| ArpSweep.NoneDue | lab1/router/router/sr_arpcache.c:72-91 | After a tick no request is due |
| ArpSweep.FirstFrame | lab1/router/router/sr_arpcache.c:42-47 | A frame for an unknown next hop that nothing waits for makes a new request in front, which is sent at once |
| ArpSweep.MoreFrames | lab1/router/router/sr_arpcache.c:203-242 | A frame for a next hop that is waited for joins its request in front of the other frames |
| ArpTheorems.SendsToKnownAddresses | lab1/router/router/sr_arpcache.c:30-41 | A transmitted frame differs from the submitted one only in its first six bytes, which an earlier ARP packet gave for that next hop, not expired at any tick in between |
| ArpTheorems.LookupIsKnown | lab1/router/router/sr_arpcache.c:173-195 | What a lookup returns was inserted for that address at that time, and no request is pending for it |
| ArpTheorems.TickExpires | lab1/router/router/sr_arpcache.c:377-386 | After a tick an entry is valid exactly if it was and is at most fifteen seconds old |
| ArpTheorems.SlotsAreKept | lab1/router/router/sr_arpcache.c:271-282 | Between ticks no slot changes except the first free one, and only by an ARP packet |
| ArpTheorems.HundredSlots | lab1/router/router/sr_arpcache.h:74 | The cache has a hundred slots in every run |
| ArpTheorems.FillResolves | lab1/router/router/sr_arpcache.c:271-282 | After an insertion a lookup finds the new slot unless an older entry for the address is in a later slot or the cache was full |
| ArpWitness.OlderAddressIsUsed | lab1/router/router/sr_arpcache.c:173-195 | A concrete run after which the cache holds two addresses of one host, a lookup returns the older one and a frame leaves to it |
| ArpTheorems.ArrivalReleases | lab1/router/router/sr_arpcache.c:156-166 | An ARP packet that finds a free slot transmits everything waiting for its address, to the address it brings, in list order, and nothing else; all other requests stay |
| ArpCache.Cache.Find | lab1/router/router/sr_arpcache.c:173-195 | The loop over the slots returns the last valid entry for the address |
| ArpCache.Cache.QueueReq | lab1/router/router/sr_arpcache.c:203-242 | In place: one request per address, the packet in front; an empty packet is not kept |
| ArpCache.Cache.Insert | lab1/router/router/sr_arpcache.c:248-287 | In place: unlinks the request, fills the first free slot if there is one |
| ArpCache.Cache.HandleArpReq | lab1/router/router/sr_arpcache.c:72-91 | In place: waits, asks or gives up |
| ArpCache.Cache.AttemptSend | lab1/router/router/sr_arpcache.c:30-48 | In place: transmits or queues and handles |
| ArpCache.Cache.RecvArp | lab1/router/router/sr_arpcache.c:156-166 | In place: inserts, then resubmits the released packets in order |
| ArpCache.Cache.SendArpReq | lab1/router/router/sr_arpcache.c:108-126 | The scan of the routes finds the first one through the gateway |
| ArpCache.Cache.SweepReqs | lab1/router/router/sr_arpcache.c:20-27 | Every request is handled once, also when one is removed on the way |
| ArpCache.Cache.TimeoutTurn | lab1/router/router/sr_arpcache.c:368-391 | In place: expires the slots, then sweeps |
| IpForwarding.ForwardedHeaderChecks | lab1/router/router/sr_router.c:154-156 | A forwarded header that holds its checksum field is valid whatever it was before |
| IpForwarding.PathTheorem | lab1/router/router/sr_router.c:144-170 | Along any path of routers a packet is forwarded fewer times than its ttl says (256 for a ttl of zero), every header on the way is valid, and all but Ethernet addresses, ttl and checksum is as it was sent |
| IpForwarding.ForwardingIsHop | lab1/router/router/sr_router.c:154-170 | Whatever source and destination addresses the frame gets, what is transmitted is one hop of such a path |
| IpForwarding.IpFrameChecks | lab1/router/router/sr_router.c:245-276 | The router's own packets have a valid header with the given addresses and carry their data behind it |
| IpForwarding.IpFrameFields | lab1/router/router/sr_router.c:258-272 | The constant fields of the router's own packets, by their octets |
| IpForwarding.IcmpMessageChecks | lab1/router/router/sr_router.c:213-243 | ICMP messages check to 0xffff |
| IpForwarding.EchoIsAnswered | lab1/router/router/sr_router.c:194-210 | Whoever pings the router gets the same data back from the address that was pinged |
| IpRouter.Instance.HandleIpPacket | lab1/router/router/sr_router.c:128-177 | In place: the decision, the edited packet and the resulting cache for every packet, including packets for the router itself |
| IpRouter.Instance.HandleMyIpPacket | lab1/router/router/sr_router.c:194-210 | In place: the echo reply, the error about the port, or nothing, submitted to the cache |
| IpRouter.Instance.SendIcmp | lab1/router/router/sr_router.c:230-243 | In place: the checked message goes out in an IP packet |
| IpRouter.Instance.SendIcmp3 | lab1/router/router/sr_router.c:213-228 | In place: the same for an error that quotes at most 28 octets |
| IpRouter.Instance.AgeHeader | lab1/router/router/sr_router.c:154-156 | In place: ttl and checksum are edited and nothing else |
| IpRouter.Instance.SendIpPacket | lab1/router/router/sr_router.c:245-276 | In place: routes and submits the built frame, or nothing without a route or an interface |
| IpRouter.Instance.FillIcmp | lab1/router/router/sr_router.c:213-243 | The buffer filled step by step is the message with its checksum |
| IpRouter.Instance.SendIcmpToWaiting | lab1/router/router/sr_arpcache.c:94-105 | The loop submits one host-unreachable error for every waiting frame, in order |
| RouterRuns.RouterRunIsRun | lab1/router/router/sr_router.c:68-210 | A run of the router over packets, ARP packets, ticks and reports is a run of allowed steps of the ARP code, so the ARP theorems hold over runs of the router |
| RouterRuns.TransmittedFrames | lab1/router/router/sr_router.c:128-276 | Every frame on the wire is a packet received earlier, decremented and with its checksum renewed, or an ICMP packet of the router's own |
| RouterRuns.TransmittedHeadersCheck | lab1/router/router/sr_router.c:128-276 | Every IP header that the router puts on the wire and that holds its checksum field is valid |
| RouterHops.NextHops | lab1/router/router/sr_router.c:158-170 | In every run of the router, each frame transmitted, waiting or reported goes to the gateway and out on the interface of a route that matches octets 30 to 33, such that no match has a greater mask and no later one an equal mask, with that interface's source address |
| RouterHops.ForwardIsSubmitted | lab1/router/router/sr_router.c:128-170 | Conversely, a packet that is not for an own address, whose ttl is not one and for which a route matches is submitted exactly so, once, and nothing else with it |
| RouterHops.OctetsOfIp | lab1/router/router/sr_rt.c:181-189 | The octets of an address are those of the number that is matched, the first one leftmost |
| RouterHops.LocalAnswers | lab1/router/router/sr_router.c:194-210 | What the router answers to a packet for itself, from and to whom, octet by octet: echo reply, nothing, or port unreachable |
| RouterHops.TransitAnswers | lab1/router/router/sr_router.c:144-177 | What it answers to a packet for somebody else: time exceeded at a ttl of one, network unreachable without a route, from the arrival interface to the source; otherwise nothing |
| RouterHops.ReportAnswers | lab1/router/router/sr_arpcache.c:94-105 | Host unreachable for a waiting frame, from the interface it was to leave on, to its source |
| RouterHops.AnswerIsSubmitted | lab1/router/router/sr_router.c:213-276 | An answer whose receiver has a route is submitted once, to the next hop for that receiver, with its addresses and message |

## Left out

- CtcpEndpoint.Endpoint.AcceptAck: has a guard on the empty queue where lab4/ctcp/ctcp.c:179-182 reads through null; what a program does after that read is not modelled.
- CtcpEndpoint.Endpoint.LibraryDrains: the callback after a drain is made here and not inside `Conn.Connection.DrainQueue`, which only reports that it is due.
- CtcpTheorems.PrefixDelivery: liveness is not claimed; a late duplicate is not acknowledged again (lab4/ctcp/ctcp.c:141-142), so an end may wait forever.
- BbrControl.Control.HandleAck: rounding of floating-point operations is not modelled, nor the range of `long` in integer arithmetic; `inflight` is modelled as the code computes it and is not claimed to be the number of queued bytes.
- Doubles.TruncationBounds: the conversion of infinities and not-a-number to `long` is that of x86-64, and finite values are assumed to be within the range of `long`.
- ArpCache.Cache.SweepReqs: the list of requests is a sequence and a request is known by its position; freeing memory and pointer identity are not modelled.
- ArpCache.Cache.HandleArpReq: the ICMP errors about waiting packets are one event; `IpRouter.Instance.SendIcmpToWaiting` and the `Report` inputs of `RouterRuns` submit them in later steps, not during the sweep, and `Report` is not tied to an earlier event.
- ArpCache.Cache.AttemptSend: needs a frame with an Ethernet header, and a next hop that is the gateway of a route, without which the source reads through a null pointer.
- IpRouter.Instance.HandleIpPacket: the packet must hold what the code reads of it, and an error about a route or a port must quote a header without options, because the code copies into 28 bytes.
- IpRouter.Instance.FillIcmp: the quoted bytes are passed as one string; intermediate copies in allocated memory are not modelled.
- WireBuffers.ConvertToDatagram: field assignments and `memcpy` are calls of one helper that overwrites a range of the buffer; raw sockets, where nothing is translated, are left out.
- `ctcp_init` and `ctcp_destroy` splicing of the list of connections: one connection is modelled.
- Validity of checksums of cTCP segments with timing fields: the code computes them before those fields are set (lab4/ctcp/ctcp.c:365-369).
- `sr_handle_arp_packet`, ARP replies and the Ethernet framing of ARP requests: the model starts at `sr_recv_arp` and logs what is asked.
- Threads and locks of the router: every operation that the lock protects is one step.
- `sr_nat.c`, `sr_vns_comm.c`, `sr_main.c`, `sr_dumper.c`, sockets, polling, program pipes, logging, argument parsing and the scripts of the other labs.
