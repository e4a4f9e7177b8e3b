# Verified model of the wawo networking library

This project models five parts of the repository in Dafny and proves what they are for.

* **WCP**, the reliable transport over UDP. An endpoint is modelled twice: as values and functions
  (`WcpModel`) and as the class `WcpEndpoint.WCB`, whose methods run the same steps in place and are
  proved equal to the functions. `WcpSystem` puts two endpoints on a network that keeps every packet ever
  sent and may deliver any of them, in any order, any number of times, or never. A step is an application
  write or read, `check_recv` on an arbitrary batch, `check_flights`, `check_send`, or the expiry of a
  timer. The theorems are about every run: in-order prefix delivery, soundness of acknowledgement, nothing
  lost, exact in-flight accounting, the bounds of the congestion controller. `WcpHandshake` decides for every
  run which assertions of the send loop hold, and `WcpWindowUpdate` shows what happens outside the domain of
  the theorems. `WcpEffects` says what each call does in its own terms: what an acknowledgement takes out of the
  flights, what is sent again, what the window lets out, how the controller moves. `WcpStall` proves exactly when
  a connection can still deliver everything, whatever is lost.
* **The encrypted framed channel**. 64-bit modular arithmetic on a checked machine word, XXTEA in place
  over arrays, the bit obfuscator, big-endian integers, the ring buffer and the packet as classes that refine
  sequences, the resumable frame decoder, and the handshake. `HandshakeSystem` runs two ends over a byte
  stream in each direction, cut into pieces of any size.
* **Concurrency primitives**. The shared mutex, the sequential task runners and the priority pool as
  transition systems over any number of threads, beside classes whose methods are the stretches of code
  under one lock.
* **HTTP body framing**. The body states of the parser, one byte at a time and as the loop that jumps over
  data in bulk, for buffers cut anywhere.
* **Tarjan's algorithm** in `gprof2dot.py`, recursive and in place over a heap of function objects.

Conventions. A `ghost` field or a field named `log`, `written`, `delivered`, `trace`, `emitted`, `scheduled`
or `started` is history: it records what happened and decides nothing. Clocks, random draws, results of socket
calls and the host's byte order are parameters. Unsigned widths are written out where they matter (`Wrap32`,
`Sub64`, `word`, 32-bit vectors in XXTEA). An assertion of the source is either a precondition that is proved at every
call, a fact stated by a lemma, or an error outcome of its own.

Where the code and what it promises differ:

* A stand-alone window update takes a sequence number that a later packet takes too, and the receiver does not
  set it apart. `WcpWindowUpdate.DeliveryIffNoStandaloneUpdate`: after a `check_send` on a quiet connection, every
  run that stays in the domain of the theorems delivers a prefix of what was written if and only if the call did
  not send one. `WcpWindowUpdate.PrefixDeliveryFails` is a run from the start that gets there and fails.
* An update of the window is taken from any packet flagged so, late ones included, and can shut the window of a sender
  that waits for nothing. `WcpStall.CanFinishIff`: a connected sender can get everything written to its peer, even if
  all that is on its way is lost, if and only if its window is not shut so; once it is, it sends nothing again.
  `WcpLateUpdate.LateUpdateShuts` is a run from the start that gets there.
* The assertion on the state when a SYN is sent (`src/net/wcp.cpp:837`) can fail: `wcp::send` does not ask for the
  state, so a connector's data can leave with its SYN, and the acceptor is established by it before its own SYN
  leaves. `WcpHandshake.EarlyDataFailsAssertion` is such a run; `WcpHandshake.SendAssertionsIff` says exactly when
  an assertion of the send loop fails, in every run, and `WcpHandshake.WaitingSynIff` gives a condition to check
  before the call.
* The limit on what `check_send` cuts off the send buffer at once is counted down below zero, where it wraps around:
  `WcpEffects.SegmentsExactly` shows that everything is cut unless the limit is a number of full packets.
* XXTEA does not undo itself on a single word, which is what the empty string becomes:
  `XxteaSingle.SingleWordNotUndone`. `XxteaSingle.UndoneIffTwoWords`: words of a given number come back under every
  key exactly from two words on; `XxteaBytes.ComesBackIffNotEmpty`: a byte string does exactly if it is not empty.
* `Q_powmod` subtracts the modulus from an exponent above it once, which is not the power asked for:
  `DiffieHellman.PowerExactIff` in general, `DiffieHellman.PublicKeyExactIff` and `DiffieHellman.SharedKeyExactIff`
  for the prime of the exchange (the private key must not exceed it), `DiffieHellman.PublicKeyAbovePrime` at one
  key. Both sides do so alike, and agree for all 64-bit keys.
* `unlock_and_lock_shared` fails its assertion exactly when an upgrade is pending:
  `SharedMutex.AssertionsHold`, and `SharedMutex.DowngradeCanFail` is a run of two threads that gets there.
* `Cycle.add_function` does not merge the cycle a function was in, because the function has just been put in the
  set it is looked up in; `Profile.Cycle.AddFunction` states what it does.
* The table `unhex` lists 128 of its 256 entries, so bytes from 0x80 on read as the digit zero:
  `HttpBody.DigitTakenIff`, and `HttpChunked.SizeLineIff` for whole size lines. `HttpChunked.HighByteTaken` is a
  stream that is taken for a message though its size line is not hexadecimal. A well-formed chunk here (`Valid`) has
  hexadecimal digits only; what is proved of size lines also covers the others (`Readable`).
* Spaces between the digits of a content length are skipped: `HttpBody.SpaceSkipped`, and
  `HttpBody.SpaceEndsNumberIff` says exactly when such a value reads as what stands before the space.

## Model

| member | source | states |
|---|---|---|
| WcpSystem.PrefixDelivery | src/net/wcp.cpp:240-603 | In every run, the bytes a side has read, followed by those ready to read, are a prefix of the bytes its peer wrote |
| WcpSystem.AcknowledgementSound | src/net/wcp.cpp:276-390 | Every number below `next` that has left the flights was received by the peer |
| WcpStall.CanFinishIff | src/net/wcp.cpp:115-238 | In every run, and however much of what was sent is lost from then on: a connected sender has a continuation without a write after which its peer has every byte and nothing is in flight, if and only if its window is not shut; if it is, no continuation sends the next packet |
| WcpLateUpdate.LateUpdateShuts | src/net/wcp.cpp:276-286 | A run from the start in which a window update that was overtaken arrives late: both sides are connected, everything sent is acknowledged, a packet waits, and it will never leave |
| WcpFinish.Finishes | src/net/wcp.cpp:115-238 | A sender with something unacknowledged, nothing left, or a next packet that fits the window has a continuation that delivers everything, by retransmission, keep-alive packets and their answers alone |
| WcpFinish.Advances | src/net/wcp.cpp:605-694 | While the peer lacks a packet that was sent, retransmission or a keep-alive packet brings it one further |
| WcpFinish.Pings | src/net/wcp.cpp:253-303 | A keep-alive packet and its answer bring `una` to the number the peer expects, with its window |
| WcpStall.Opens | src/net/wcp.cpp:729-764 | While the window is not shut, the peer can be made to send an update, or one on its way opens it |
| WcpStall.StepShut | src/net/wcp.cpp:115-238 | Every step of either side keeps a shut window shut and launches nothing |
| WcpReady.StepReady | src/net/wcp.cpp:115-238 | Every step keeps the flights in order, none of them below `una` after a sweep, and a small window announced only while bytes wait to be read |
| WcpSystem.NothingLost | src/net/wcp.cpp:729-876 | A sender with nothing buffered, queued or in flight has had every byte it wrote received by its peer |
| WcpSystem.SequenceSpace | src/net/wcp.cpp:766-793 | In every run, queued packets are numbered `next` to `dsn - 1` in order, `una <= next`, flights are distinct and below `next`, and the head of the queue meets the assertions before it is sent |
| WcpHandshake.SendAssertionsIff | src/net/wcp.cpp:766-875 | In every run, an assertion of the send loop fails in a `check_send` if and only if the call sends a SYN after the endpoint was closed or has consumed a packet with an ACK flag |
| WcpHandshake.EarlyDataFailsAssertion | src/net/wcp.cpp:834-838 | A run in which the assertion on the state fails: the first byte leaves with the SYN, and the acceptor is established before its SYN leaves |
| WcpHandshake.WaitingSynIff | src/net/wcp.cpp:834-838 | For an endpoint whose SYN alone waits, in any run: the assertions hold if and only if it is not closed and has consumed no packet with an ACK flag |
| WcpHandshake.ConnectorAsserts | src/net/wcp.cpp:766-875 | The side that connects never fails an assertion of the send loop |
| WcpHandshake.DeliveryAssertions | src/net/wcp.cpp:392-406 | The assertions at the head of the delivery loop hold in every run: nothing waits below the expected number, and a packet with bytes is data and not a SYN |
| WcpHandshake.CheckSendSends | src/net/wcp.cpp:729-876 | `check_send` queues no new SYN, changes the state only from SYNING by the SYN it sends, and its assertions hold if and only if the state is one of the two asked for or no SYN leaves |
| WcpHandshake.RunOpened | src/net/wcp.cpp:396-532 | In every run, an endpoint whose SYN is unsent is in the state the assertion asks for unless it was closed or has consumed an ACK flag |
| WcpSystem.AccountingAndBounds | include/wawo/net/wcp.hpp:499-553 | In every run the in-flight count is the sum over the flights and at most its maximum, no subtraction underflows, and rto, cwnd, ssthresh and the two modes stay in bounds |
| WcpSystem.ReorderBuffer | src/net/wcp.cpp:308-434 | The reorder list is strictly sorted, holds nothing below the expected number and only the peer's packets; what was consumed is items 0 to `next - 1`, once each, in order |
| WcpSystem.DeliveryStops | src/net/wcp.cpp:392-434 | Delivery goes on until a gap, a packet that does not fit, or an abort |
| WcpSystem.StepInv | src/net/wcp.cpp:115-238 | Every step of either side, on any batch of packets ever sent, keeps the invariant of the whole system |
| WcpSystem.RunInv | src/net/wcp.cpp:115-238 | The invariant holds after any number of steps |
| WcpSystem.StartInv | include/wawo/net/wcp.hpp:281-344 | Two fresh endpoints, one of which has sent its SYN, satisfy the invariant |
| WcpInvariant.CheckRecvKeeps | src/net/wcp.cpp:240-603 | `check_recv` on any truthful batch keeps the endpoint's invariant and what it knows of its peer |
| WcpInvariant.ArrivalsKeep | src/net/wcp.cpp:275-345 | Taking in any truthful batch keeps the invariant, and every number it reports back was received by the peer |
| WcpInvariant.AbsorbAcksKeeps | src/net/wcp.cpp:347-390 | Absorbing numbers the peer received keeps the invariant: what leaves the flights is at the peer, and the accounting is exact |
| WcpEffects.ReportedLeave | src/net/wcp.cpp:275-390 | For `check_recv` on any batch: `una` is the greatest number acknowledged, a packet leaves the flights if and only if a SACK packet reports it and it is not below `una`, the count loses exactly its bytes, every sequenced packet is reported back and every keep-alive packet answered |
| WcpEffects.BatchTaken | src/net/wcp.cpp:275-345 | What a batch changes before delivery: `una`, the window last told, the packets kept, the numbers to report, the replies, and nothing else |
| WcpEffects.AcksAbsorbed | src/net/wcp.cpp:347-390 | Exactly the reported flights are taken out, the others keep their order, and the biggest number acknowledged is the greatest reported |
| WcpEffects.SilenceProbed | src/net/wcp.cpp:253-265 | Without packets: a probe when it is due, an error after five, otherwise nothing |
| WcpEffects.WindowGrows | include/wawo/net/wcp.hpp:499-518 | Slow start grows the window by what was acknowledged and ends at the threshold; after that it grows by one packet a round trip; it is capped |
| WcpEffects.SlowStartGrows | include/wawo/net/wcp.hpp:499-553 | Over all numbers of a batch, below the threshold, every byte acknowledged opens the window by a byte |
| WcpEffects.TimeoutSampled | include/wawo/net/wcp.hpp:520-545 | The timeout from the sample of a packet sent once, within its bounds |
| WcpEffects.RecoversIff | src/net/wcp.cpp:370-387 | The window gets back what was withheld if and only if `una` has passed the packets lost |
| WcpInvariant.AckFlightKeeps | include/wawo/net/wcp.hpp:520-553 | Removing a flight the peer received keeps the invariant, its bytes taken off the in-flight count |
| WcpInvariant.HandlePackAckedKeeps | include/wawo/net/wcp.hpp:499-553 | An acknowledgement keeps rto, cwnd, ssthresh and the two modes in bounds, and takes exactly the packet from the in-flight count, without wrapping |
| WcpInvariant.FastRecoveryKeeps | src/net/wcp.cpp:370-387 | Adding the compensation of a fast recovery keeps the controller in bounds |
| WcpInvariant.BackOffKeeps | src/net/wcp.cpp:696-723 | Backing off after loss keeps the controller in bounds and the compensation does not underflow |
| WcpInvariant.InsertSorted | src/net/wcp.cpp:316-334 | Inserting from the back keeps the list strictly sorted, and the number is in it afterwards |
| WcpInvariant.InsertMembers | src/net/wcp.cpp:316-334 | Insertion loses no packet and adds none but the one given |
| WcpInvariant.InsertLength | src/net/wcp.cpp:316-334 | A duplicate changes nothing; any other packet makes the list one longer |
| WcpInvariant.SackControlsComplete | include/wawo/net/wcp.hpp:444-464 | The SACK packets report exactly the numbers collected, in order, each within the packet size |
| WcpInvariant.SackControlsReport | include/wawo/net/wcp.hpp:444-464 | They report only numbers that were received |
| WcpInvariant.ConsumeHeadKeeps | src/net/wcp.cpp:392-532 | Consuming the expected packet keeps the invariant: the stream is the payload of one more item of the log |
| WcpInvariant.DeliverKeeps | src/net/wcp.cpp:392-573 | The whole delivery loop keeps the invariant |
| WcpInvariant.ProbeKeeps | src/net/wcp.cpp:253-274 | Keep-alive probes, and giving up after too many, keep the invariant |
| WcpInvariant.AppSendKeeps | src/net/wcp.cpp:1532-1549 | An application write keeps the invariant: the stream written is the payload of the log and then the send buffer |
| WcpInvariant.AppRecvKeeps | src/net/wcp.cpp:1575-1581 | An application read keeps the invariant: delivered, ready and stand-by bytes together stay the payload consumed |
| WcpSending.CheckFlightsKeeps | src/net/wcp.cpp:605-725 | Whatever the network does with them, retransmissions are truthful and the invariant is kept |
| WcpSending.SweepKeeps | src/net/wcp.cpp:621-694 | From any flight on, the pass keeps the invariant and sends only truthful packets |
| WcpEffects.ResentExactly | src/net/wcp.cpp:611-694 | When nothing in flight is known to have arrived, on a network that takes every packet: a flight is sent again, stamped anew, if and only if its timeout has passed, or a smoothed round trip has and a later number was acknowledged or recovery is on; in order, and no other changes |
| WcpEffects.BacksOffExactly | src/net/wcp.cpp:696-723 | The timeout is backed off if and only if three packets timed out or one that was sent five times did, and the window is cut if and only if the connection is established and a round trip has passed since the last cut |
| WcpEffects.BelowUnaLeaves | src/net/wcp.cpp:625-630 | When `una` has moved, the sweep takes out exactly the flights below it |
| WcpEffects.NothingBeforeTimer | src/net/wcp.cpp:611-613 | Before the timer, and without news, nothing happens |
| WcpSending.CheckSendKeeps | src/net/wcp.cpp:729-876 | Without a stand-alone window update, `check_send` sends only truthful packets and keeps the invariant |
| WcpEffects.WindowRespected | src/net/wcp.cpp:767-803 | If a `check_send` launches anything, what is in flight afterwards is less than the smaller of the congestion window and the window the peer advertised |
| WcpEffects.WindowUsed | src/net/wcp.cpp:767-875 | The converse, on a network that takes every packet: a queue left over has a head that does not fit the smaller window, and bytes are left in the buffer only with no more than a packet of room |
| WcpEffects.FlushSendsAll | src/net/wcp.cpp:748-764 | Every control packet goes out, as often as it is queued, stamped and in order |
| WcpEffects.SegmentsExactly | src/net/wcp.cpp:847-871 | How much a refill cuts: the limit if it is a number of full packets, otherwise the whole buffer; in order, into full packets but for the last |
| WcpEffects.MaximumKept | src/net/wcp.cpp:797-803 | Sending changes nothing of the controller but the bytes in flight and the most there ever were |
| WcpEffects.FailureKept | src/net/wcp.cpp:729-791 | A call that sends fails if and only if its last attempt did, keeps that error, and after it no call sends anything |
| WcpEffects.ResendFails | src/net/wcp.cpp:655-676 | A retransmission that fails ends the sweep, with its error unless it would only block |
| WcpSending.PumpSendingKeeps | src/net/wcp.cpp:767-845 | Sending the queue keeps the invariant and puts only truthful packets on the wire |
| WcpSending.LaunchKeeps | src/net/wcp.cpp:783-803 | A packet sent moves to the flights, is counted, and is truthful on the wire, whether or not the assertion on the state after it holds |
| WcpSending.HeadIsNext | src/net/wcp.cpp:780-793 | The head of the queue carries the next number, is not below `una`, and is not a packet outside the sequence space |
| WcpSending.RefillKeeps | src/net/wcp.cpp:847-875 | Cutting the send buffer into packets keeps the invariant: no written byte is lost and numbers stay consecutive |
| WcpSending.FlushControlKeeps | src/net/wcp.cpp:748-764 | Sending the control queue, copies included, puts only truthful packets on the wire and keeps the invariant, wherever the network stops it |
| WcpModel.SegmentsShrink | src/net/wcp.cpp:856-871 | Each packet cut takes bytes off the send buffer |
| WcpModel.RefillShrinks | src/net/wcp.cpp:847-875 | A refill that queues packets leaves less to send |
| WcpModel.PumpKeepsBacklog | src/net/wcp.cpp:767-845 | Sending leaves the backlog as it is and ends with the queue empty or stopped, so `check_send` terminates |
| WcpModel.FindFlight | src/net/wcp.cpp:360-368 | The first flight with a number is found if there is one |
| WcpWindowUpdate.TruthfulIffNoStandaloneUpdate | src/net/wcp.cpp:738-746 | Every packet `check_send` puts on the wire is truthful if and only if it sends no stand-alone window update |
| WcpWindowUpdate.StandaloneSends | include/wawo/net/wcp.hpp:482-488 | When its guard holds and the network takes it, the stand-alone update is on the wire with the next unassigned number |
| WcpWindowUpdate.StandaloneUpdateLosesItem | src/net/wcp.cpp:286-334 | A receiver that takes such an update consumes it in place of the packet with that number, whose bytes are lost |
| WcpWindowUpdate.DeliveryIffNoStandaloneUpdate | src/net/wcp.cpp:738-746 | On a quiet connection: after a `check_send` every further run keeps what is delivered a prefix of what was written if and only if the call sends no stand-alone update |
| WcpWindowUpdate.DeliveryBreaks | src/net/wcp.cpp:738-746 | Sender and receiver together: after such an update the next bytes written reuse its number, are dropped as old, and the bytes after them are delivered in their place |
| WcpWindowUpdate.PrefixDeliveryFails | src/net/wcp.cpp:738-746 | A run from the start in which an endpoint fills up, is read, sends a stand-alone update, and its peer is delivered bytes that are not a prefix of those written |
| WcpWindowUpdate.ReceiveExpected | src/net/wcp.cpp:308-434 | A single packet with the expected number is delivered at once |
| WcpWindowUpdate.ReceiveOld | src/net/wcp.cpp:308-315 | A packet below the expected number changes nothing that is delivered |
| WcpEndpoint.WCB.CheckRecv | src/net/wcp.cpp:240-603 | The method in place computes `CheckRecv` of the old state |
| WcpEndpoint.WCB.ReceiveBatch | src/net/wcp.cpp:275-345 | The loop over a batch, with its insertion into the sorted list, computes `Arrivals` |
| WcpEndpoint.WCB.InsertReceived | src/net/wcp.cpp:316-334 | The walk from the back computes `Insert` |
| WcpEndpoint.WCB.AbsorbAcks | src/net/wcp.cpp:347-390 | The loop over reported numbers computes `AbsorbAcks` |
| WcpEndpoint.WCB.AckFlight | include/wawo/net/wcp.hpp:520-553 | Erasing a flight and updating the controller computes `AckFlight` |
| WcpEndpoint.WCB.CheckCwnd | include/wawo/net/wcp.hpp:499-518 | Growth of the window, capped |
| WcpEndpoint.WCB.SampleRtt | include/wawo/net/wcp.hpp:520-545 | The round-trip sample of a packet sent once, and the rto from it |
| WcpEndpoint.WCB.HandlePackAcked | include/wawo/net/wcp.hpp:520-553 | The controller's update for an acknowledged packet |
| WcpEndpoint.WCB.SACK | include/wawo/net/wcp.hpp:444-464 | The reports queued for the numbers collected |
| WcpEndpoint.WCB.Deliver | src/net/wcp.cpp:392-573 | The delivery loop computes `Deliver` |
| WcpEndpoint.WCB.ConsumeHead | src/net/wcp.cpp:396-532 | One turn of the delivery loop, with its state changes |
| WcpEndpoint.WCB.SwapBuffers | src/net/wcp.cpp:575-600 | The stand-by buffer becomes the ready one when that is empty |
| WcpEndpoint.WCB.CheckFlights | src/net/wcp.cpp:605-725 | The method in place computes `CheckFlights`, packets sent included |
| WcpEndpoint.WCB.SweepFlights | src/net/wcp.cpp:621-694 | The pass over the flights computes `SweepFrom` |
| WcpEndpoint.WCB.BackOff | src/net/wcp.cpp:696-723 | The back-off after loss |
| WcpEndpoint.WCB.CheckSend | src/net/wcp.cpp:729-876 | The method in place computes `CheckSend`, packets sent included, and reports whether its assertions held |
| WcpEndpoint.WCB.FlushControl | src/net/wcp.cpp:748-764 | Sending the queue of control packets |
| WcpEndpoint.WCB.PumpSending | src/net/wcp.cpp:767-845 | The send loop computes `PumpSending` and reports whether its assertions held, that on the state included |
| WcpEndpoint.WCB.Refill | src/net/wcp.cpp:847-875 | Draining the stand-by queue and cutting the send buffer computes `Refill` |
| WcpEndpoint.WCB.Send | src/net/wcp.cpp:1532-1549 | An error pending is returned and nothing queued; otherwise -1 and nothing queued exactly when the room is less than the length and than two packets, and else the number of bytes returned is the smaller of length and room, and exactly the first so many are queued |
| WcpEffects.WriteTaken | src/net/wcp.cpp:1532-1549 | The same of the functions: what is returned is what was queued |
| WcpEndpoint.WCB.Recv | src/net/wcp.cpp:1575-1581 | A read takes the first bytes that are ready |
| WcpEndpoint.WCB.Connecting | include/wawo/net/wcp.hpp:281-344 | A connecting endpoint: initial state with a SYN numbered 0 queued |
| WcpEndpoint.WCB.Accepting | include/wawo/net/wcp.hpp:281-344 | An endpoint created for an incoming SYN |
| WcpEffects.FreshEndpoint | include/wawo/net/wcp.hpp:281-344 | The values `init` sets, in numbers |
| Profile.Profile.FindCycles | tools/gprof2dot.py:314-332 | Two distinct functions share a cycle object exactly when each reaches the other, a function alone in its component keeps None, the list of cycles holds each object once, and each lists exactly the functions that point to it |
| Profile.Profile.Tarjan | tools/gprof2dot.py:387-426 | One call, with its recursion, keeps the invariant of the search and returns with its component found or its lowlink justified; it terminates |
| Profile.Profile.VisitCall | tools/gprof2dot.py:404-413 | One outgoing call lowers the lowlink to a number that is reached |
| Profile.Profile.CloseComponent | tools/gprof2dot.py:414-425 | The members cut off the stack are one component and share a new cycle object if there are several |
| Profile.Profile.CollectCycles | tools/gprof2dot.py:323-327 | The list holds exactly the cycles in use, each once |
| Profile.Profile.Validate | tools/gprof2dot.py:304-312 | Afterwards every call leads to a known function; no other call is dropped |
| Profile.Profile.PruneRoot | tools/gprof2dot.py:334-346 | Exactly the functions reachable from the root remain |
| Profile.Cycle.AddFunction | tools/gprof2dot.py:278-285 | The function joins this cycle and points to it; the cycle it was in is not merged |
| Profile.Profile.CyclesAreComponents | tools/gprof2dot.py:314-327 | From the components found: same cycle object if and only if mutually reachable, None if and only if alone |
| TarjanState.AllFound | tools/gprof2dot.py:314-322 | When every function is numbered the stack is empty and the components found are exactly the classes of mutual reachability |
| TarjanState.MembersAreComponent | tools/gprof2dot.py:414-417 | What is above the position is exactly the component of the root when its lowlink is its own number |
| TarjanState.EnterKeeps | tools/gprof2dot.py:398-403 | Numbering and pushing a function keeps the invariant |
| TarjanState.CutKeeps | tools/gprof2dot.py:414-425 | Cutting a component off the stack keeps the invariant |
| TarjanState.LeaveKeeps | tools/gprof2dot.py:414-426 | Returning with the function left on the stack keeps the invariant |
| TarjanState.WorkReturned | tools/gprof2dot.py:410-413 | Taking over the lowlink of a callee that returned keeps the loop's invariant |
| TarjanState.WorkOnStack | tools/gprof2dot.py:406-408 | Taking over the number of a callee on the stack keeps the loop's invariant |
| TarjanState.WorkDone | tools/gprof2dot.py:406-408 | A callee already off the stack changes nothing |
| TarjanState.DoneReachesDone | tools/gprof2dot.py:414-425 | Functions of finished components reach only finished ones |
| CallGraph.ReachStaysInside | tools/gprof2dot.py:334-342 | A set closed under calls is not left by any path |
| CallGraph.ReachTransitive | tools/gprof2dot.py:387-426 | Paths compose |
| Xxtea.BlockInverse | include/wawo/security/xxtea.hpp:13-48 | For every array of two words or more and every key, the inverse loops undo all rounds, in both orders |
| Xxtea.RoundUndone | include/wawo/security/xxtea.hpp:20-29 | The steps of one round are undone in reverse order |
| Xxtea.StepUndone | include/wawo/security/xxtea.hpp:11-28 | One step is undone because its neighbours are other words |
| XxteaSingle.SingleWordNotUndone | include/wawo/security/xxtea.hpp:13-48 | One word is its own neighbour: the word 0 under the zero key does not come back from all 58 rounds |
| XxteaSingle.UndoneIffTwoWords | include/wawo/security/xxtea.hpp:13-48 | All arrays of a length come back under every key if and only if the length is two or more |
| XxteaSingle.EncIsUp | include/wawo/security/xxtea.hpp:20-29 | On one word the rounds are an iteration on that word and the sum |
| XxteaSingle.DecIsDown | include/wawo/security/xxtea.hpp:38-47 | The inverse rounds likewise |
| Xxtea.BteaEncrypt | include/wawo/security/xxtea.hpp:13-30 | The loops over the array compute `Encrypted` |
| Xxtea.BteaDecrypt | include/wawo/security/xxtea.hpp:31-48 | The loops over the array compute `Decrypted` |
| Xxtea.EncryptRound | include/wawo/security/xxtea.hpp:20-29 | One pass over the array computes one round |
| Xxtea.DecryptRound | include/wawo/security/xxtea.hpp:38-47 | One pass back over the array computes one inverse round |
| XxteaBytes.RoundTrip | include/wawo/security/xxtea.hpp:91-184 | Every non-empty byte string comes back with its exact length, for every key |
| XxteaBytes.EmptyStringRefused | include/wawo/security/xxtea.hpp:91-184 | The empty string encrypts to something that decrypts to an error |
| XxteaBytes.ComesBackIffNotEmpty | include/wawo/security/xxtea.hpp:91-184 | A byte string comes back under every key if and only if it is not empty |
| XxteaBytes.NumberOfWord | include/wawo/security/xxtea.hpp:107-109 | The length word holds the length |
| XxteaKnown.KnownAnswer | include/wawo/security/xxtea.hpp:13-131 | Sixteen bytes under a sixteen-byte key whose words differ encrypt to the twenty bytes the published algorithm gives |
| XxteaKnown.KnownWords | include/wawo/security/xxtea.hpp:13-30 | The sixteen rounds on five words, step by step: which key word each step takes is fixed |
| XxteaBytes.KeyPacked | include/wawo/security/xxtea.hpp:96-100 | The bytes of the key words are the first sixteen bytes of the key, and zeros after a shorter key |
| XxteaBytes.KeysDiffer | include/wawo/security/xxtea.hpp:96-100 | Different sixteen-byte keys are different keys to the cipher |
| XxteaBytes.DecryptIff | include/wawo/security/xxtea.hpp:133-184 | What is refused: a length that is no number of words, or a length word that claims more than there is; otherwise the beginning of the decrypted bytes, as much as it claims |
| XxteaBytes.BytesThroughWords | include/wawo/security/xxtea.hpp:50-79 | Packing bytes into words and unpacking them gives them back |
| XxteaBytes.WordsThroughBytes | include/wawo/security/xxtea.hpp:50-79 | Unpacking words and packing the bytes gives them back |
| XxteaBytes.ToBytesArray | include/wawo/security/xxtea.hpp:50-65 | The memory copy of a little-endian host and the shifts denote the same bytes |
| XxteaBytes.ToUint32Array | include/wawo/security/xxtea.hpp:67-79 | The memory copy of a little-endian host and the shifts denote the same words |
| XxteaBytes.ImageIsToBytes | include/wawo/security/xxtea.hpp:55-58 | The memory of a word array is the bytes the shifts take |
| XxteaBytes.XxteaEncrypt | include/wawo/security/xxtea.hpp:91-131 | Key, padding, length word, block cipher and unpacking, on either kind of host, compute `Encrypt` |
| XxteaBytes.XxteaDecrypt | include/wawo/security/xxtea.hpp:133-184 | The inverse, with its two checks, computes `Decrypt` |
| DiffieHellman.QMulmod | include/wawo/math/formula.hpp:9-23 | The product modulo q for a <= q, with no operation leaving 64 bits |
| DiffieHellman.QPowmod | include/wawo/math/formula.hpp:25-36 | The power modulo q of the exponent as the code takes it |
| DiffieHellman.PowerExactIff | include/wawo/math/formula.hpp:28 | For every base, exponent and modulus: the power is the one asked for if and only if the exponent is at most the modulus or the modulus as an exponent does not change the rest of the power |
| DiffieHellman.AboveModulusIff | include/wawo/math/formula.hpp:28 | When raising to the modulus gives the base back and the rest of the power is invertible, an exponent above the modulus is right only for the base one |
| DiffieHellman.PublicKeyExactIff | include/wawo/security/dh.hpp:22-27 | The public key is five to the private key modulo the prime if and only if the private key does not exceed the prime |
| DiffieHellman.SharedKeyExactIff | include/wawo/security/dh.hpp:28-30 | The shared key is the power asked for if and only if the private key does not exceed the prime or the public key is one |
| DiffieHellman.PublicKeyAbovePrime | include/wawo/security/dh.hpp:14-27 | The private key one above the prime gives the public key 5 where the power is 25 |
| DiffieHellman.FiveToTheModulus | include/wawo/security/dh.hpp:14-15 | The base of the exchange raised to its modulus is the base |
| DiffieHellman.Agreement | include/wawo/security/dh.hpp:14-30 | Both sides compute the same key for every pair of 64-bit private keys |
| DiffieHellman.DhPublic | include/wawo/security/dh.hpp:22-27 | The public key of a private one |
| DiffieHellman.DhGenerateKey | include/wawo/security/dh.hpp:28-30 | The shared key |
| Obfuscate.RoundTrip | include/wawo/security/obfuscate.hpp:8-51 | Every value comes back from every random word, for two or four bits a byte |
| Obfuscate.ObfuscatedExactly | include/wawo/security/obfuscate.hpp:8-34 | Bit by bit: three bits of each byte are the number the random word gives for it, and the five others carry the bits of the value from there on, in a circle |
| Obfuscate.U8RoundTrip | include/wawo/security/obfuscate.hpp:54-65 | The same for 8-bit numbers and 32-bit words |
| Obfuscate.U16RoundTrip | include/wawo/security/obfuscate.hpp:54-65 | The same for 16-bit numbers |
| Obfuscate.StartKept | include/wawo/security/obfuscate.hpp:18-30 | The places chosen can be read back from the result |
| Obfuscate.OffsetsDistinct | include/wawo/security/obfuscate.hpp:19-25 | Two bits of one byte never share a place |
| Obfuscate.Obfuscate | include/wawo/security/obfuscate.hpp:8-34 | The loop computes `Obfuscated` |
| Obfuscate.Deobfuscate | include/wawo/security/obfuscate.hpp:36-51 | The loop computes `Deobfuscated` |
| Bytes.ReadImpl | include/wawo/bytes_helper.hpp:13-22 | The shifting loop reads the big-endian value |
| Bytes.WriteImpl | include/wawo/bytes_helper.hpp:70-77 | The shifting loop writes the big-endian bytes |
| Bytes.ValueOfBigEndian | include/wawo/bytes_helper.hpp:13-77 | What is written is read back, modulo the width |
| Bytes.BigEndianOfValue | include/wawo/bytes_helper.hpp:13-77 | What is read is written back |
| RingBuffer.BytesRingBuffer.Write | include/wawo/bytes_ringbuffer.hpp:157-199 | Appends the longest prefix that fits |
| RingBuffer.BytesRingBuffer.Read | include/wawo/bytes_ringbuffer.hpp:110-155 | Returns the longest prefix there is, and drops it if asked to |
| RingBuffer.BytesRingBuffer.Peek | include/wawo/bytes_ringbuffer.hpp:62-64 | Returns the longest prefix there is and leaves it |
| RingBuffer.BytesRingBuffer.Skip | include/wawo/bytes_ringbuffer.hpp:101-108 | Drops exactly as many bytes as asked |
| RingBuffer.BytesRingBuffer.TryRead | include/wawo/bytes_ringbuffer.hpp:66-75 | All bytes or none |
| RingBuffer.BytesRingBuffer.TryReadU32 | include/wawo/bytes_ringbuffer.hpp:94-99 | Four bytes as a big-endian number, or nothing |
| RingBuffer.BytesRingBuffer.Count | include/wawo/bytes_ringbuffer.hpp:58-60 | The wrapping 32-bit difference is the number of bytes held |
| RingBuffer.BytesRingBuffer.LeftCapacity | include/wawo/bytes_ringbuffer.hpp:54-56 | Count and room make up the capacity |
| RingBuffer.BytesRingBuffer.IsFull | include/wawo/bytes_ringbuffer.hpp:47-49 | Full exactly when the capacity is reached |
| RingBuffer.BytesRingBuffer.IsEmpty | include/wawo/bytes_ringbuffer.hpp:43-45 | Empty exactly when nothing is held |
| RingBuffer.WrappedCount | include/wawo/bytes_ringbuffer.hpp:58-60 | The 32-bit wrap of the difference is undone by the remainder |
| Packet.Packet.WriteLeft | include/wawo/packet.hpp:186-211 | Prepends the bytes if and only if the left side can be extended far enough, and alters nothing else |
| Packet.Packet.Write | include/wawo/packet.hpp:213-234 | Appends the bytes if and only if the right side can be extended far enough, and alters nothing else |
| Packet.Packet.ReserveLeft | include/wawo/packet.hpp:186-191 | The growth loop terminates and the contents survive every move |
| Packet.Packet.ReserveRight | include/wawo/packet.hpp:213-219 | The growth loop terminates and the contents survive every reallocation |
| Packet.Packet.ExtendLeft | include/wawo/packet.hpp:48-65 | One extension keeps the contents; an empty packet gains no room to its left |
| Packet.Packet.ExtendRight | include/wawo/packet.hpp:67-76 | One extension keeps the contents |
| Packet.Packet.Read | include/wawo/packet.hpp:236-254 | Takes bytes off the front |
| Packet.Packet.Skip | include/wawo/packet.hpp:256-260 | Drops bytes off the front |
| Packet.Packet.Peek | include/wawo/packet.hpp:271-279 | Returns the front and leaves it |
| Packet.Packet.Copy | include/wawo/packet.hpp:112-139 | A copy holds the same bytes in a buffer of its own |
| HlenPacket.HlenPacket.Encode | include/wawo/net/tlp/hlen_packet.hpp:63-81 | The packet with its length in front; an empty packet is refused |
| HlenPacket.HlenPacket.DecodePackets | include/wawo/net/tlp/hlen_packet.hpp:84-190 | The loop over the ring buffer computes `Decode`, parse state and error code included |
| HlenPacket.ChunkingIndependent | include/wawo/net/tlp/hlen_packet.hpp:84-190 | However the stream is fed and whatever the limits, the packets handed out are the first ones in order, and no call fails |
| HlenPacket.CompleteWhenDrained | include/wawo/net/tlp/hlen_packet.hpp:133-169 | With every byte fed, a call not stopped by its limit has handed out every packet |
| HlenPacket.DrainsInTheEnd | include/wawo/net/tlp/hlen_packet.hpp:161-180 | Enough calls with a positive limit hand out every packet |
| HlenPacket.NoStall | include/wawo/net/tlp/hlen_packet.hpp:133-169 | A full buffer never stalls the decoder |
| HlenPacket.Progress | include/wawo/net/tlp/hlen_packet.hpp:84-190 | While a packet is missing, a byte can be fed or a call consumes bytes |
| HlenPacket.DecodeConserves | include/wawo/net/tlp/hlen_packet.hpp:133-184 | No byte is lost or invented by a call |
| HlenPacket.DecodeStops | include/wawo/net/tlp/hlen_packet.hpp:133-184 | What each return code says about what is left |
| HlenPacket.DecodeEnds | include/wawo/net/tlp/hlen_packet.hpp:133-184 | A call reads whole frames and stops exactly where it must: for want of bytes, at a length that is zero or exceeds the buffer, or when no more packets are wanted; the code says which |
| HlenPacket.NeverBroken | include/wawo/net/tlp/hlen_packet.hpp:141-160 | A stream of packets that fit raises neither error |
| HlenPacket.FramesPrefix | include/wawo/net/tlp/hlen_packet.hpp:63-81 | Frames are uniquely readable |
| HlenPacket.NextPackets | include/wawo/net/tlp/hlen_packet.hpp:84-190 | A call hands out the next packets of the list |
| HandshakeSystem.Safety | include/wawo/net/tlp/dh_symmetric_encrypt.hpp:229-496 | In every run no call reports an error or fails an assertion, each application reads a prefix of what the other encoded, and two ends with a cipher have the same key |
| HandshakeSystem.Completion | include/wawo/net/tlp/dh_symmetric_encrypt.hpp:229-496 | With nothing left to deliver, both ends transfer data under the key both compute, and every packet has arrived unchanged |
| HandshakeSystem.CanFinish | include/wawo/net/tlp/dh_symmetric_encrypt.hpp:463-496 | From every state of a run there is a continuation that delivers everything: no deadlock |
| HandshakeSystem.StepKeeps | include/wawo/net/tlp/dh_symmetric_encrypt.hpp:229-496 | Every move of either end keeps the invariant of the exchange |
| HandshakeSystem.ReadsData | include/wawo/net/tlp/symmetric_encrypt.hpp:36-51 | A call after the handshake decrypts the next packets as the other end encoded them |
| HandshakeSystem.ReadsFrame | include/wawo/net/tlp/dh_symmetric_encrypt.hpp:475-485 | A call before that handles at most one frame, the next |
| HandshakeSystem.PollMatchesSession | include/wawo/net/tlp/dh_symmetric_encrypt.hpp:463-496 | The polled end leaves the ring buffer and parse state as the frame decoder does |
| DhSymmetricEncrypt.HelloArrives | include/wawo/net/tlp/dh_symmetric_encrypt.hpp:298-373 | A hello is recovered from any random word and answered with a factor and the key |
| DhSymmetricEncrypt.RespArrives | include/wawo/net/tlp/dh_symmetric_encrypt.hpp:375-422 | The answer is recovered and gives the initiator its cipher |
| DhSymmetricEncrypt.OkArrives | include/wawo/net/tlp/dh_symmetric_encrypt.hpp:424-441 | The message under the end's own key completes the handshake |
| DhSymmetricEncrypt.HelloIff | include/wawo/net/tlp/dh_symmetric_encrypt.hpp:298-345 | An idle end goes on from a hello if and only if it is well formed and names XXTEA first; another first cipher is unknown, anything else refused or an assertion that fails |
| DhSymmetricEncrypt.WellFormedIff | include/wawo/net/tlp/dh_symmetric_encrypt.hpp:305-325 | What a well-formed hello is: a key and two counted lists of legal lengths |
| DhSymmetricEncrypt.GreetingWellFormed | include/wawo/net/tlp/dh_symmetric_encrypt.hpp:229-281 | The greeting is one, and offers XXTEA first |
| DhSymmetricEncrypt.RespIff | include/wawo/net/tlp/dh_symmetric_encrypt.hpp:375-422 | An answer is taken if and only if it has the length it must and names XXTEA |
| DhSymmetricEncrypt.DoneIff | include/wawo/net/tlp/dh_symmetric_encrypt.hpp:424-441 | A frame completes the handshake if and only if it is of the third kind, the end has a cipher and is in the handshake, and it decrypts to something that begins with the message |
| DhSymmetricEncrypt.OtherFrames | include/wawo/net/tlp/dh_symmetric_encrypt.hpp:287-300 | Frames of no known kind are refused, and frames out of place fail an assertion |
| DhSymmetricEncrypt.KeyBytesExactly | include/wawo/net/tlp/dh_symmetric_encrypt.hpp:333-340 | The eight bytes of the shared key, most significant first, and the padding |
| DhSymmetricEncrypt.SharedKeysDiffer | include/wawo/net/tlp/dh_symmetric_encrypt.hpp:333-340 | Different shared keys are different keys to the cipher |
| DhSymmetricEncrypt.OpensUpTo | include/wawo/net/tlp/symmetric_encrypt.hpp:36-51 | Packets are decrypted in order up to the first that cannot be |
| DhSymmetricEncrypt.PollsData | include/wawo/net/tlp/dh_symmetric_encrypt.hpp:463-475 | A call after the handshake hands out the decrypted packets up to the first that cannot be, and reports that one |
| DhSymmetricEncrypt.PollsFrame | include/wawo/net/tlp/dh_symmetric_encrypt.hpp:475-485 | A call before that takes one frame at most and hands out no packet |
| DhSymmetricEncrypt.DrawnOnce | include/wawo/net/tlp/dh_symmetric_encrypt.hpp:322-324 | A factor is drawn once and kept |
| DhSymmetricEncrypt.TagRead | include/wawo/net/tlp/dh_symmetric_encrypt.hpp:290-292 | The type of any frame is recovered through the obfuscation |
| DhSymmetricEncrypt.OpenSealed | include/wawo/net/tlp/symmetric_encrypt.hpp:26-51 | Packets sealed with a key open unchanged under it |
| DhSymmetricEncrypt.DhSymmetricEncrypt.HandshakeMakeHelloPacket | include/wawo/net/tlp/dh_symmetric_encrypt.hpp:229-281 | The greeting and the state of the initiator |
| DhSymmetricEncrypt.DhSymmetricEncrypt.HandshakePacketArrive | include/wawo/net/tlp/dh_symmetric_encrypt.hpp:287-452 | The frame handler in place computes `Arrive`, replies framed |
| DhSymmetricEncrypt.DhSymmetricEncrypt.Encode | include/wawo/net/tlp/dh_symmetric_encrypt.hpp:454-461 | Refused until data is transferred; then the frame of the encrypted packet |
| DhSymmetricEncrypt.DhSymmetricEncrypt.DecodePackets | include/wawo/net/tlp/dh_symmetric_encrypt.hpp:463-496 | The decoder in place computes `Poll` |
| DhSymmetricEncrypt.DhSymmetricEncrypt.MakeCipher | include/wawo/net/tlp/dh_symmetric_encrypt.hpp:333-340 | Eight bytes of the shared key, padded to sixteen |
| SharedMutex.Exclusion | include/wawo/thread/impl/shared_mutex.hpp:117-233 | In every run an exclusive owner is alone with no sharer and no upgrader, and at most one thread holds or awaits an upgrade |
| SharedMutex.Accounting | include/wawo/thread/impl/shared_mutex.hpp:26-91 | In every run the counters are the numbers of threads in each mode |
| SharedMutex.EntryConditions | include/wawo/thread/impl/shared_mutex.hpp:37-67 | Who is let in, in terms of what the other threads hold, both directions |
| SharedMutex.AssertionsHold | include/wawo/thread/impl/shared_mutex.hpp:59-181 | Every assertion of a legal call holds, but for `unlock_and_lock_shared`, which fails exactly when an upgrade is pending |
| SharedMutex.DowngradeCanFail | include/wawo/thread/impl/shared_mutex.hpp:173-181 | A run of two threads in which that assertion fails |
| SharedMutex.StepKeeps | include/wawo/thread/impl/shared_mutex.hpp:117-233 | Every stretch of every call keeps the invariant |
| SharedMutex.Monitor.EnterShared | include/wawo/thread/impl/shared_mutex.hpp:117-124 | Waits or enters as the state says |
| SharedMutex.Monitor.EnterExclusive | include/wawo/thread/impl/shared_mutex.hpp:155-164 | Waits or becomes the owner |
| SharedMutex.Monitor.EnterUpgrade | include/wawo/thread/impl/shared_mutex.hpp:202-208 | Waits or holds the upgrade and a share |
| SharedMutex.Monitor.LeaveShared | include/wawo/thread/impl/shared_mutex.hpp:125-147 | The share is given up, in either call that does so |
| SharedMutex.Monitor.LeaveExclusive | include/wawo/thread/impl/shared_mutex.hpp:165-171 | Ownership is given up |
| SharedMutex.Monitor.LeaveUpgrade | include/wawo/thread/impl/shared_mutex.hpp:210-219 | The upgrade and its share are given up |
| SharedMutex.Monitor.ExclusiveToShared | include/wawo/thread/impl/shared_mutex.hpp:173-181 | The owner becomes a sharer |
| SharedMutex.Monitor.BeginUp | include/wawo/thread/impl/shared_mutex.hpp:221-224 | The upgrade becomes pending and its share is given up |
| SharedMutex.Monitor.FinishUp | include/wawo/thread/impl/shared_mutex.hpp:224-233 | Waits or turns the pending upgrade into ownership |
| SequencialRunner.TagOrder | src/task/runner.cpp:160-213 | In every run, tasks of one tag begin in schedule order on one runner, and one begins only when those before it are finished |
| SequencialRunner.TagsShareIff | include/wawo/task/runner.hpp:215-222 | Tags share a runner exactly when they differ by a multiple of the number of runners |
| SequencialRunner.ExecutionOrder | src/task/runner.cpp:160-213 | What was begun, what is left of the swapped vector and what stands by is what the runner was given, in order |
| SequencialRunner.NothingForgotten | include/wawo/task/runner.hpp:121-129 | When every runner sleeps with no notification on its way, every task is finished |
| SequencialRunner.Advances | src/task/runner.cpp:160-213 | A runner not asleep for good has a move, and moves lead there |
| SequencialRunner.SwapAssertions | src/task/runner.cpp:179-183 | The assertions around the swap hold |
| SequencialRunner.MoveKeeps | src/task/runner.cpp:160-213 | Every move of a runner keeps its invariant |
| SequencialRunner.SequencialRunner.EnterBlock | src/task/runner.cpp:161-186 | Sleeps, or swaps the two vectors |
| SequencialRunner.SequencialRunner.RunBatch | src/task/runner.cpp:188-212 | The loop executes the whole batch in order |
| SequencialRunner.SequencialRunner.AssignTask | include/wawo/task/runner.hpp:121-129 | The task stands by, and a waiting runner is notified |
| SequencialRunner.AssignToPool | include/wawo/task/runner.hpp:215-222 | The tag chooses the runner; no other changes |
| TaskScheduler.NoLostWakeup | include/wawo/task/scheduler.hpp:66-71 | In every run, while m tasks are queued at least m runners, or all, are not asleep un-notified |
| TaskScheduler.EachOnceInOrder | src/task/runner.cpp:48-101 | Every task is started once, in the order of its priority, and all are when the pool is at rest |
| TaskScheduler.HighFirst | include/wawo/task/runner.hpp:30-38 | In every run, no normal task starts between the scheduling and the start of a high one |
| TaskScheduler.PriorityTaskQueue.FrontAndPop | include/wawo/task/runner.hpp:30-38 | The oldest task of the highest priority there is |
| TaskScheduler.PriorityTaskQueue.Push | include/wawo/task/runner.hpp:27-29 | The task joins the end of its queue |
| TaskScheduler.Scheduler.Schedule | include/wawo/task/scheduler.hpp:66-71 | Queues the task and notifies a waiter if one is counted |
| TaskScheduler.Scheduler.CheckBegin | src/task/runner.cpp:55-78 | Takes a task or goes to sleep |
| TaskScheduler.StepKeeps | src/task/runner.cpp:48-101 | Every step of the pool keeps its invariant |
| HttpChunked.ChunkedMessage | 3rd/http_parser/http_parser.c:1882-2031 | Any chunked message, cut anywhere: the callbacks are told its payload, each chunk's size, and its end once |
| HttpChunked.TakenIff | 3rd/http_parser/http_parser.c:1882-2031 | Whatever the bytes: they are taken for a complete message if and only if they begin with the coding of one, its size lines as `SizeLineIff` has them and its end with a line feed |
| HttpChunked.StreamBack | 3rd/http_parser/http_parser.c:1882-2031 | From any bytes taken for a message, its chunks |
| HttpChunked.PartialMessage | 3rd/http_parser/http_parser.c:1963-2031 | At any cut, what was told so far is a prefix of the payload |
| HttpChunked.IdentityMessage | 3rd/http_parser/http_parser.c:1830-1864 | A body of known length, cut anywhere: its bytes in order, then the end |
| HttpChunked.ParseChunked | 3rd/http_parser/http_parser.c:634-2040 | The parser object fed such pieces |
| HttpChunked.ParseIdentity | 3rd/http_parser/http_parser.c:634-2040 | The parser object fed a body of known length in pieces |
| HttpChunked.FeedAll | 3rd/http_parser/http_parser.c:634-2040 | Pieces fed one after the other are the whole fed at once |
| HttpChunked.RunLine | 3rd/http_parser/http_parser.c:1882-1961 | A size line, extensions included, leads into the data with exactly the size its bytes denote; bytes from 0x80 on, which the parser takes for zeros, are covered too |
| HttpChunked.OversizeRefused | 3rd/http_parser/http_parser.c:1898-1933 | A size is refused exactly when it reaches the bound |
| HttpChunked.SizeLineIff | 3rd/http_parser/http_parser.c:1882-1961 | A size line is taken if and only if all its bytes are taken for digits and the number is below the bound; a line taken is hexadecimal if and only if no byte is 0x80 or more |
| HttpChunked.HighByteTaken | 3rd/http_parser/http_parser.c:224-234 | The byte 0x80 in the place of a size, with two line ends, is taken for a complete message |
| HttpChunked.ToldIsPayload | 3rd/http_parser/http_parser.c:1952-2000 | The body told is the payload and the message is completed once, last |
| HttpBody.AcceptedIffBelowBound | 3rd/http_parser/http_parser.c:1920-1930 | The conservative overflow test refuses a number exactly from the bound on, so no accepted number wraps |
| HttpBody.ContentLength | 3rd/http_parser/http_parser.c:1505-1531 | The result is the number the digits write, spaces skipped, below the marker for no length; refused exactly for another byte or a number from the bound on |
| HttpBody.SpaceEndsNumberIff | 3rd/http_parser/http_parser.c:1505-1531 | A value with a space reads as what stands before the space if and only if no digit follows or all digits are zeros |
| HttpBody.SpaceSkipped | 3rd/http_parser/http_parser.c:1505-1531 | The value "1 2" reads as twelve |
| HttpBody.DigitTakenIff | 3rd/http_parser/http_parser.c:224-234 | Where a size digit may stand, a byte is taken if and only if it is 0-9, A-F, a-f or at least 0x80, the latter as zero |
| HttpBody.UnhexIsPlace | 3rd/http_parser/http_parser.c:224-234 | Each digit has its place among the sixteen, in either case, and no other byte a value but zero |
| HttpBody.HttpParser.Execute | 3rd/http_parser/http_parser.c:634-2040 | A buffer is parsed as its bytes one by one, whatever jumps are made |
| HttpBody.HttpParser.TakeBulk | 3rd/http_parser/http_parser.c:1963-1984 | The jump over body bytes, and the callback at the end of a known length |
| HttpBody.HttpParser.TakeByte | 3rd/http_parser/http_parser.c:1882-2000 | The states that take a single byte |
| HttpBody.RunAppend | 3rd/http_parser/http_parser.c:702-708 | Cutting the input anywhere changes nothing |
| HttpBody.RunData | 3rd/http_parser/http_parser.c:1963-1984 | The bulk jump is the bytes taken one by one |
| HttpBody.RunSound | 3rd/http_parser/http_parser.c:1882-2000 | No input makes an assertion of the body states fail |

## Left out

- FIN, RST, close, shutdown and teardown of WCP, its listener, and blocking waits: after a FIN the state claims do not match the code.
- Stand-alone window updates inside the run theorems: a run with one is outside their domain, and `WcpWindowUpdate` shows why it must be.
- 32-bit wrap of WCP sequence numbers: numbers are unbounded, as for runs of fewer than 2^32 sequenced packets.
- The result of connecting the UDP socket in `check_recv`, sockets, epoll, select, wpoll, logging, ICMP and address resolution.
- Accuracy of the round-trip estimate in WCP: its two gains are integer zero, so after the first sample it does not follow the path.
- The WCB class holds `sb`, `rb` and `rb_standby` as sequences and packets as values; a control packet queued twice is one entry with a count.
- Fairness of the network and the clock in WCP: that everything can arrive is proved, that it does depends on both.
- WcpStall.CanFinishIff: it is about two established sides without an error and with no SYN left to consume, buffers that hold more than a full packet (the least that can be set holds eight), and a sender that has not sent its last probe.
- The stack of Tarjan's algorithm and its data hold function identifiers rather than the function objects; the profile parsers, ratios and dot output of gprof2dot are not modelled.
- Addresses in WCP: packets carry none, so the branch that answers a packet from another address with RST and closes (`src/net/wcp.cpp:407-416`), and the update of the peer address in SYN_SENT, are not modelled.
- XXTEA: the product of the round constant and the number of rounds is written as repeated addition.
- Allocation failure in XXTEA and packets: a buffer that is asked for is there.
- DhSymmetricEncrypt.DhSymmetricEncrypt.HandshakePacketArrive: packets are byte sequences here, and what the source leaves to assertions or reads past an array is the outcome `Aborted`; the cookie is not modelled.
- DhSymmetricEncrypt.DhSymmetricEncrypt.Encode: the `m_cipher` object is its key.
- HandshakeSystem.Safety: packets are non-empty and fit the ring buffer once encrypted, which the encoder does not check.
- HlenPacket.HlenPacket.DecodePackets: the assertion on a zero length is not modelled, only the error code after it; the optional prefix symbol is not compiled in.
- Packet.Packet.WriteLeft: where the source throws at the capacity limit, which is where an empty packet without enough room to its left always ends, the method returns false.
- Shared mutex: the conditions and who is notified, hence progress of a pending upgrader; the count of threads is below 2^32.
- Task runners: stop, exit, `__block_until_no_new_task`, and tasks that throw.
- The header phase of the HTTP parser, trailers, upgrade, pause, callbacks that return an error, bodies that end with the connection, and what follows a message: the parser of the model stops there.
- HttpBody.HttpParser.Execute: after an error the callbacks may have been told fewer body bytes than were parsed, as in the source.
