# Verification of gooos

A Dafny model of the parts of the gooos kernel and its Tiny C interpreter where the most state and
branching sits, with proofs over every input, run and interleaving. Memory, tables, rings, queues
and flags are changed in place by classes and methods as in the Go source; each method is proved
equal to a function of the old state, and the properties are proved about those functions.

- **TCP** (`SeqSpace`, `TcpRing`, `TcpRetx`, `TcpCongestion`, `TcpRtt`, `TcpConnection`,
  `TcpReceive`, `TcpAck`, `TcpEffects`, `TcpLifecycle`, `TcpTcb`): the connection state machine with
  32-bit sequence numbers, proved against unbounded stream positions: what it never does, what it
  delivers, and what each state stands for.
- **Memory** (`PhysMem`, `PageTable`, `AddressSpaces`, `PageAccess`, `Vmm`, `ElfImage`, `SignalFrame`,
  `SignalLayout`): frames and four-level tables over raw words refine one plain page map per
  process, permissions included; the loader and the signal frame work through that translation.
- **Kernel threads** (`KList`, `KQueue`, `KQueueProgress`, `KSched`, `KSchedProgress`, `KDispatch`,
  `KeyboardRing`, `Pipes`, `PipeTables`): intrusive lists, queues with parking that always drain,
  placement and service of threads over two scheduling tiers, a lock-free ring, pipe lifetimes and
  descriptor tables.
- **Tiny C** (`TinyCAst`, `TinyCEval`, `TinyCSemantics`, `TinyCLaws`, `TinyCPrograms`, `TinyCMachine`,
  `TinyCParser`, `TinyCGrammar`): flag-driven return unwinding against a structured semantics, what
  operators and whole programs compute, and the expression parser against a grammar.
- **Wire formats** (`Checksum`, `Ipv4`, `TcpSegment`, `WireFormat`): what is built is accepted, byte
  by byte.

Conventions: `Exit(1)` in Tiny C and failed parses are results, not preconditions. A step budget
(`fuel`) appears in the Tiny C semantics so that looping programs are covered; results do not
depend on it. Clocks, the success of a packet transmission, and which pool slot an allocation takes
are parameters. Physical addresses are unbounded naturals.

Properties one would expect that do not hold of the code, with their exact conditions:

- With nothing in flight, an ACK exactly 2^31 away is accepted and moves sndUna past sndNxt
  (`TcpAck.FlightShrinksIff`, `TcpAck.SendSafetyIff`, `SeqSpace.AckTestIsArcExactly`).
- Data on a SYN|ACK is dropped, contrary to the comment at src/tcp.go:1112-1118
  (`TcpReceive.SynSentKeeps`).
- SHUT_RDWR empties the ring without restoring rcvWnd (`TcpReceive.ShutdownWindow`), and
  ESTABLISHED takes a FIN even when the payload before it was cut (`TcpReceive.FinPosition`).
- Slow start wraps 32 bits exactly if too much is acknowledged before the first loss
  (`TcpCongestion.SlowStartWraps`, `TcpCongestion.RunBoundedIff`).
- A signal is delivered inside a handler exactly when the handler registered anew and a tick
  followed (`SignalFrame.NestsExactly`, `SignalFrame.RegistrationReopens`).
- A pipe whose creation failed, for want of two free slots (`Pipes.LosesIff`), keeps a write
  reference no slot holds, so its channel is never closed (`Pipes.PipeLifetime`).
- Children go round the CPUs in turn except where the 32-bit spawn counter wraps on a number of CPUs
  that does not divide 2^32 (`KSchedProgress.RoundRobin`).
- The argument page and the stack replace segment bytes on the same pages (`ElfImage.SpawnImage`).

## Model

| member | source | states |
|---|---|---|
| SeqSpace.AckTestIsArc | src/tcp_flow.go:97-103 | for a flight of 1..2^31 bytes the two signed tests accept exactly the numbers from sndUna to sndNxt; with nothing in flight they accept sndUna and the one number 2^31 away |
| SeqSpace.AckTestIsArcExactly | src/tcp_flow.go:97-103 | the tests are that arc if and only if the flight is 1..2^31 |
| SeqSpace.ResetTestIsWindow | src/tcp.go:676-684 | the RST test accepts exactly rcvNxt..rcvNxt+rcvWnd (section 3.3 of RFC 793) |
| TcpRing.RingBuf.constructor | src/tcp.go:26-46 | a fresh ring holds no bytes |
| TcpRing.RingBuf.Reset | src/tcp.go:277-281 | the ring is empty again |
| TcpRing.RingBuf.Write | src/tcp.go:286-297 | appends the longest prefix of the source that fits and returns its length, across 32-bit counter wrap |
| TcpRing.RingBuf.Read | src/tcp.go:302-313 | hands out the oldest bytes in order, as many as asked for and held, and removes exactly those |
| TcpRetx.PopsExactlyCovered | src/tcp_retx.go:78-97 | an acknowledgement pops exactly the descriptors whose end it covers, and the rest stay ordered |
| TcpRetx.PushKeepsOrder | src/tcp_retx.go:51-60 | a pushed descriptor ending at the new sndNxt keeps the queue ordered |
| TcpRetx.RetxQueue.Front | src/tcp_retx.go:64-70 | the oldest descriptor |
| TcpRetx.RetxQueue.Push | src/tcp_retx.go:51-60 | appends, or refuses when full and leaves the queue alone |
| TcpRetx.RetxQueue.AckTo | src/tcp_retx.go:78-97 | drops the covered prefix; reports how many, the oldest send time and whether one was never retransmitted |
| TcpRetx.RetxQueue.Flush | src/tcp_retx.go:102-104 | empties the queue |
| TcpRetx.RetxQueue.RestampHead | src/tcp_retx.go:245-247 | only the head changes: one more transmission, stamped now |
| TcpCongestion.IncrementBound | src/tcp_cc.go:75-80 | an avoidance increment is floor(mss*mss/cwnd), at most one segment, and zero before it could wrap |
| TcpCongestion.AvoidanceIncrement | src/tcp_cc.go:54-81 | each avoidance ACK raises cwnd + cwndAccum by exactly floor(mss*mss/cwnd); nothing wraps for any 16-bit MSS |
| TcpCongestion.StepBounded | src/tcp_cc.go:54-132 | every ACK, duplicate ACK and timeout keeps cwnd >= mss, cwndAccum < mss and ssthresh >= 2*mss |
| TcpCongestion.RunBounded | src/tcp_cc.go:35-132 | the bounds hold and nothing wraps in every run with fewer than 2^32 - 2^17 bytes acked before the first loss |
| TcpCongestion.StepBoundedIff | src/tcp_cc.go:54-132 | from a bounded state a step stays bounded exactly when nothing wraps, and the only step that wraps is a slow-start increment past 2^32 |
| TcpCongestion.BoundedIffNoWrap | src/tcp_cc.go:54-132 | over runs from any bounded state the bounds hold throughout exactly when no step wraps |
| TcpCongestion.RunBoundedIff | src/tcp_cc.go:35-132 | from a fresh window the bounds hold throughout exactly when the first slow start, summed over the events in unbounded integers, stays below 2^32 |
| TcpCongestion.SlowStartWraps | src/tcp_cc.go:66-73 | a concrete run beyond that: slow start wraps and ends below one segment |
| TcpRtt.UpdateExact | src/tcp_rtt.go:48-67 | an update with samples below 2^28 overflows nowhere, the timeout sum included, and computes what unbounded integers would |
| TcpRtt.RunBounded | src/tcp_rtt.go:26-107 | over every sample sequence below 2^28 SRTT stays between the smallest and largest sample, and the RTO is srtt/8 + max(rttvar, 1) in unbounded integers, clamped to 100..6000 |
| TcpRtt.Converges | src/tcp_rtt.go:48-67 | under a constant sample R, SRTT reaches [R-7, R] within its initial distance and stays |
| TcpRtt.RestsInBand | src/tcp_rtt.go:48-67 | every value of that band is a resting point, so the band cannot be narrowed |
| TcpRtt.BackOffIsPower | src/tcp_retx.go:257-261 | the k-th back-off is min(2^k * rto, 6000) |
| TcpReceive.StepKeeps | src/tcp.go:670-829 | every event keeps rcvWnd + buffered = 8192 and read + buffered = the claimed stream prefix, and never moves the advertised edge left |
| TcpReceive.ReceiveSafety | src/tcp.go:754-810 | for every run from a fresh slot under loss, duplication and reordering: delivered plus buffered bytes are exactly the stream prefix rcvNxt claims, and rcvWnd + buffered = 8192 |
| TcpReceive.EdgeNeverMovesLeft | src/tcp_flow.go:162-189 | rcvNxt + lastAdvWin at any later point of a run is at or beyond any earlier one (section 4.2.2.16 of RFC 1122) |
| TcpReceive.AnnounceCovers | src/tcp_flow.go:162-189 | the advertised value never exceeds rcvWnd and never withdraws an earlier offer |
| TcpReceive.NeverTruncated | src/tcp.go:787-797 | an in-order payload inside the advertised edge is accepted to its last byte, in every reachable state |
| TcpReceive.EofMeansWholeStream | src/netsock.go:799-808 | a read that reports end of stream has delivered the whole stream |
| TcpReceive.ShutdownWindow | src/netsock.go:824-847 | SHUT_RDWR keeps rcvWnd + buffered = 8192 exactly when nothing was buffered |
| TcpReceive.FinPosition | src/tcp.go:787-809 | ESTABLISHED takes a FIN at its own position exactly when the payload before it fitted |
| TcpReceive.SynSentKeeps | src/tcp.go:1044-1119 | the SYN-ACK fixes the numbering and no payload byte on it is accepted |
| TcpEffects.StepTakes | src/tcp.go:754-1012 | in ESTABLISHED and both FIN-WAITs a segment is taken exactly when it starts at rcvNxt: then all its bytes stand behind the buffered ones and its FIN counts; otherwise no byte is buffered, and a FIN is taken only after our close when it directly follows the last byte received |
| TcpEffects.ArrivalTakes | src/tcp.go:670-1012 | the same in every reachable state: rx grows by exactly the payload and rcvNxt by its length, plus one for a FIN |
| TcpEffects.InOrderDelivers | src/tcp.go:754-1012 | delivery: after any number of in-order segments and reads, what was read followed by what is buffered has grown by exactly the bytes sent |
| TcpEffects.ReadDelivers | src/netsock.go:742-790 | a read hands out the oldest min(buffered, asked, 1500) bytes and reopens the window by as many, up to 8192 |
| TcpEffects.SillyWindowAvoided | src/tcp_flow.go:162-189 | the advertised window is the free space or the last offer; it grows by at least one segment or half the buffer, and less than that is ever held back |
| TcpEffects.AcceptsHandshake | src/tcp.go:712-749 | in SYN-RECEIVED exactly the acknowledgement of our SYN establishes, leaving nothing unacknowledged, and a FIN on it is taken |
| TcpEffects.CompletesHandshake | src/tcp.go:1044-1119 | in SYN-SENT a SYN acknowledging ours establishes, numbers the peer one past its SYN and takes the smaller segment size; a reset or bare SYN frees the slot; all else is ignored |
| TcpEffects.OpensWith | src/tcp.go:554-1209 | both opens spend one number on the SYN, queue it and time it |
| TcpAck.AckAdvances | src/tcp_flow.go:97-129 | for every flight up to 2^31 an accepted ACK moves sndUna forward to the acknowledged position, pops exactly the covered descriptors, and leaves the timer disarmed iff none is left |
| TcpAck.FlightShrinksIff | src/tcp_flow.go:97-103 | for every flight up to 2^31 an ACK never makes it grow, except exactly the number 2^31 away with nothing in flight, which makes it 2^31 |
| TcpAck.StepMoves | src/tcp.go:670-1119 | every event, echo passes within the bound included, keeps the send pointers and the queue in order and moves no position back, unless it is a segment StrayTaken singles out |
| TcpAck.StepFlightIff | src/tcp.go:670-1119 | an event keeps the flight within a bound below 2^31 exactly when it is not such a segment |
| TcpAck.SendSafety | src/tcp.go:670-1119 | over whole runs, for any bound of 2^16..2^31 the echo passes keep to, sndUna and sndNxt are wrapped positions that never move back and stay within the bound, with the queue ordered between them and the RTO in 100..6000 |
| TcpAck.SendSafetyIff | src/tcp.go:670-1438 | over every run, for a bound below 2^31, the flight stays within it if and only if every echo pass fits and no segment with the stray number is taken |
| TcpAck.SilentPeer | src/tcp_retx.go:161-304 | with a silent peer and scanner passes at any times: after k expiries the timeout is backed off k times, the expiries up to the eighth retransmit, the ninth frees the slot and there is no tenth |
| TcpAck.SilentPeerTimeout | src/tcp_retx.go:257-261 | that timeout is min(2^k * rto, 6000) |
| TcpAck.RunTimed | src/tcp_retx.go:210-304 | in every reachable state whatever is unacknowledged has a running timer, a timeout in 100..6000 and at most eight retransmissions |
| TcpAck.SilentFromReachable | src/tcp_retx.go:161-304 | SilentPeer from every reachable state outside TIME_WAIT with something unacknowledged, with nothing assumed of the timer |
| TcpAck.StepRunsCongestion | src/tcp_flow.go:104-129 | past the handshake each event of a connection runs the congestion machine by exactly the corresponding events and keeps the segment size |
| TcpAck.EstablishesFresh | src/tcp.go:712-749 | whatever completes the handshake, with or without data on it, leaves a fresh congestion state and a segment size that is not 0 |
| TcpAck.CongestionOverRuns | src/tcp.go:670-1119 | over every run of a connection cwnd, ssthresh and accumulator are those of the congestion machine on the events since the handshake, and bounded exactly as RunBoundedIff says |
| TcpEffects.AckTaken | src/tcp_flow.go:97-129 | an acknowledgement of a position from una to nxt moves una exactly there, drops exactly the descriptors ending at or before it, and leaves the timer running exactly if one is left; any other number, or no ACK, changes neither |
| TcpEffects.NewestWindow | src/tcp_flow.go:97-129 | the send window on record is that of the newest segment, by sequence number and then acknowledgement (section 3.9 of RFC 793) |
| TcpEffects.SendsWithinWindows | src/netsock.go:854-916 | a segment of n bytes goes out exactly if flight plus n fits the smaller of the two windows |
| TcpEffects.CloseSendsFin | src/tcp.go:912-942 | closing sends one FIN behind everything sent, from ESTABLISHED and CLOSE-WAIT only |
| TcpEffects.EchoReturns | src/tcp.go:1374-1438 | the echo service sends back exactly the bytes it takes out, at most a segment of them |
| TcpEffects.WindowGrows | src/tcp_cc.go:54-81 | slow start opens the window by the bytes acknowledged, at most a segment; avoidance by mss*mss/cwnd, carried over until it makes a segment |
| TcpEffects.TimeoutCollapses | src/tcp_retx.go:210-292 | a timeout resends and restamps the oldest descriptor, collapses the window to one segment and doubles the timeout up to 6000 |
| TcpEffects.ThreeDuplicates | src/tcp_cc.go:90-111 | two duplicates only count; the third halves the flight into the threshold, sets the window three segments above it and makes the next scanner pass resend the oldest descriptor without a collapse |
| TcpEffects.SampledByKarn | src/tcp_retx.go:78-97 | acknowledged descriptors feed the estimator exactly if one of them was never sent again and a tick has passed; the sample is the time since the oldest (Karn's rule) |
| TcpLifecycle.StateIsHistory | src/tcp.go:754-1038 | from an established connection on, in every run, the state is exactly the history of closes, FINs and acknowledgements of the two directions |
| TcpLifecycle.FreedExactly | src/tcp.go:670-1038 | past the handshake a connection ends exactly by a reset inside the window, the acknowledgement of our FIN in LAST-ACK, the ninth expiry, or the end of TIME-WAIT |
| TcpLifecycle.TimeWaitLasts | src/tcp_retx.go:161-204 | TIME-WAIT lasts 6000 ticks from its beginning or the last repeated FIN |
| TcpTcb.Tcb.constructor | src/tcp.go:81-184 | a zero slot is the fresh connection |
| TcpTcb.Tcb.CcInit | src/tcp_cc.go:35-43 | sets the state to the initial window of the effective MSS |
| TcpTcb.Tcb.CcOnAck | src/tcp_cc.go:54-81 | the in-place update is the congestion step for an ACK |
| TcpTcb.Tcb.CcOnDupAck | src/tcp_cc.go:90-111 | the in-place update is the congestion step for a duplicate ACK; reports the third |
| TcpTcb.Tcb.CcOnRto | src/tcp_cc.go:116-132 | the in-place update is the congestion step for a timeout |
| TcpTcb.Tcb.RttInit | src/tcp_rtt.go:26-38 | the first sample |
| TcpTcb.Tcb.RttUpdate | src/tcp_rtt.go:48-67 | a later sample, with 32-bit arithmetic written out |
| TcpTcb.Tcb.RttSample | src/tcp_rtt.go:74-83 | samples only when one popped descriptor was never retransmitted |
| TcpTcb.Tcb.ArmRto | src/tcp_retx.go:297-304 | sets the deadline anew, whether or not one was set, and clears the retransmission count |
| TcpTcb.Tcb.AdvertiseWin | src/tcp_flow.go:162-189 | returns and records the window to advertise |
| TcpTcb.Tcb.AckUpdate | src/tcp_flow.go:97-129 | the in-place ACK update equals the value model; reports whether everything is acknowledged |
| TcpTcb.Tcb.Receive | src/tcp.go:787-797 | buffers what fits, moves rcvNxt and shrinks rcvWnd by as much |
| TcpTcb.Tcb.HandleEstablished | src/tcp.go:754-810 | ESTABLISHED: ACK, duplicate ACK, in-order payload up to the free space, FIN; the slot changes in place exactly as the step ReceiveSafety and SendSafety are proved about |
| TcpTcb.Tcb.HandleFinWait1 | src/tcp.go:949-983 | FIN_WAIT_1: our FIN acknowledged or not, peer FIN or not, four outcomes; the slot changes in place exactly as the step ReceiveSafety and SendSafety are proved about |
| TcpTcb.Tcb.HandleFinWait2 | src/tcp.go:986-1012 | FIN_WAIT_2: payload still accepted, a due FIN enters TIME_WAIT; the slot changes in place exactly as the step ReceiveSafety and SendSafety are proved about |
| TcpTcb.Tcb.HandleClosing | src/tcp.go:1016-1025 | CLOSING: enters TIME_WAIT when everything is acknowledged; the slot changes in place exactly as the step ReceiveSafety and SendSafety are proved about |
| TcpTcb.Tcb.HandleTimeWait | src/tcp.go:1030-1038 | TIME_WAIT: a repeated FIN restarts the wait; the slot changes in place exactly as the step ReceiveSafety and SendSafety are proved about |
| TcpTcb.Tcb.HandleCloseWait | src/tcp.go:814-820 | CLOSE_WAIT: a repeated FIN is acknowledged again, nothing else is processed; the slot changes in place exactly as the step ReceiveSafety and SendSafety are proved about |
| TcpTcb.Tcb.HandleLastAck | src/tcp.go:824-829 | LAST_ACK: the slot is freed by the ACK of exactly sndNxt; the slot changes in place exactly as the step ReceiveSafety and SendSafety are proved about |
| TcpTcb.Tcb.HandleSynReceived | src/tcp.go:712-749 | SYN_RECEIVED: the acceptable ACK establishes and its payload is processed; the slot changes in place exactly as the step ReceiveSafety and SendSafety are proved about |
| TcpTcb.Tcb.HandleSynSent | src/tcp.go:1044-1119 | SYN_SENT: the acceptable SYN-ACK synchronises and establishes, a reset frees; the slot changes in place exactly as the step ReceiveSafety and SendSafety are proved about |
| TcpTcb.Tcb.Dispatch | src/tcp.go:670-707 | an in-window reset frees the slot, otherwise the handler of the state runs; the slot changes exactly as the modelled arrival |
| TcpTcb.Tcb.PassiveOpen | src/tcp.go:554-662 | the slot holds the peer numbering, the first window and an unacknowledged SYN-ACK, as the runs of ReceiveSafety start |
| TcpTcb.Tcb.ActiveOpen | src/tcp.go:1161-1209 | the slot holds an unacknowledged SYN, as the runs of SendSafety start |
| TcpTcb.Tcb.Close | src/tcp.go:912-942 | ESTABLISHED and CLOSE_WAIT move on and record one FIN if it went out; any other state is refused unchanged |
| TcpTcb.Tcb.Recv | src/netsock.go:742-790 | the caller gets the oldest bytes and the window reopens by as many |
| TcpTcb.Tcb.SendData | src/netsock.go:854-916 | one data segment recorded for retransmission, or only the window announced when it did not go out |
| TcpTcb.Tcb.Echo | src/tcp.go:1374-1438 | the echo service pass over one connection |
| TcpTcb.Tcb.RtoFire | src/tcp_retx.go:210-292 | an expiry gives the slot up after eight retransmissions, disarms on an empty queue, or restamps the head and backs off |
| TcpTcb.Tcb.Scan | src/tcp_retx.go:161-204 | one scanner pass: timer first, then TIME_WAIT expiry |
| PhysMem.StoredBytes | src/process.go:405-410 | a byte store changes that byte and no other |
| PhysMem.OrAdds | src/vm.go:294 | or-ing bits below position k into a multiple of 2^k is addition |
| PhysMem.BytesRoundTrip | src/user_signal.go:173-201 | a value below 256^n is recovered from its n little-endian bytes |
| PageTable.AllocFresh | src/vm.go:94-112 | the frame handed out is not in use, is zeroed, and no other frame is touched; the free stack stays duplicate-free |
| PageTable.FreeKeeps | src/vm.go:135-149 | a released frame goes back at most once and no other frame is touched |
| PageTable.ReleasedIsReused | src/vm.go:94-149 | a released frame is the next one handed out, up to 4096 of them; with none released the next frame is the one behind the last |
| PageTable.PathOfPage | src/vm.go:284-287 | the four indices are the page number in base 512 |
| PageTable.WalkIsResolve | src/vm.go:328-351 | walking level by level from a root that is not 0 is resolving the path |
| PageTable.StaysInTree | src/vm.go:233-239 | a walk over user indices stays inside the tables of its own tree |
| PageTable.CreateKeeps | src/vm.go:212-229 | linking a table changes no translation of any process and touches only the tree it serves |
| AddressSpaces.MapRefines | src/vm.go:283-295 | mapPageInto, for any flags, makes its page translate to the frame in the stored entry (nothing if not present) and leaves every other page of every process, every other tree and all kernel and data frames unchanged |
| AddressSpaces.PlainFlags | src/vm.go:294 | with nothing but flag bits in the flags that frame is the one asked for |
| AddressSpaces.UnmapRefines | src/vm.go:301-321 | unmapPageFrom makes its page translate to 0 and leaves everything else unchanged |
| AddressSpaces.SpawnRefines | src/proc_pml4.go:74-92 | a new process uses frames nobody used, has the kernel's entries 0 and 3 in the PDP its root leads to, translates no user page, and disturbs no frame in use |
| AddressSpaces.TranslationIsLastWrite | src/vm.go:94-351 | for any run of spawns, maps, unmaps, allocations and releases: in every process that exists at the end, whenever spawned, a page translates to what the last map or unmap of that page since its spawn said; kernel frames and the shared entries of the processes present at the start are never written and no table is unlinked; the invariant holds again |
| AddressSpaces.SharedToTheEnd | src/proc_pml4.go:74-92 | every process spawned during a run still goes through the PDP it was given at the end of the run, and that PDP still holds the kernel's entry 0 and, if present, entry 3 |
| AddressSpaces.TranslationFromBoot | src/vm.go:82-86 | the same from the state vmInit leaves, with no process and every page unmapped, and every process sharing the kernel's entries to the end |
| PageAccess.MapLetsIn | src/vm.go:212-295 | after mapPageInto all four entries on the way are present and the three links writable; all four have the user bit exactly if the flags do, and the page is writable exactly if its flags say so |
| PageAccess.MapOpens | src/vm.go:283-295 | a map stores address and flags in its leaf and takes no permission from any page of any process |
| PageAccess.UnmapClears | src/vm.go:301-321 | an unmap clears its leaf and no other |
| PageAccess.LeafDecides | src/vm.go:205-229 | the processor, which wants the bit at all four levels, decides by the leaf alone |
| PageAccess.AccessIsLastWrite | src/vm.go:94-351 | over every run of spawns, maps, unmaps, allocations and releases, Ring 3 can reach a page exactly if the last word stored for it is present with the user bit, and write it exactly if present with the write bit |
| PageAccess.AccessFromBoot | src/vm.go:82-86 | the same from boot, with nothing assumed of memory |
| Vmm.Machine.constructor | src/vm.go:82-86 | the bump pointer starts at the first page boundary at or after the kernel end |
| Vmm.Machine.AllocPage | src/vm.go:94-112 | pops the free stack or bumps, and zeroes the page |
| Vmm.Machine.FreePage | src/vm.go:135-149 | ignores 0, zeroes, pushes unless the stack is full |
| Vmm.Machine.WalkOrCreate | src/vm.go:212-229 | returns the next table, linking a fresh one if absent, with the user bit propagated |
| Vmm.Machine.WalkExisting | src/vm.go:233-239 | the next table, or 0 |
| Vmm.Machine.MapPageInto | src/vm.go:283-295 | three levels and the leaf store of address or flags |
| Vmm.Machine.UnmapPageFrom | src/vm.go:301-321 | clears the leaf when all three tables exist |
| Vmm.Machine.WalkAndGetPaddrIn | src/vm.go:328-351 | the translation of the page level by level, or 0; that is the resolved path when the root is not 0 |
| Vmm.Machine.CaptureKernelPdp0 | src/proc_pml4.go:52-63 | captured once, from the boot tables |
| Vmm.Machine.NewProcPml4 | src/proc_pml4.go:74-92 | two fresh tables, the shared entry 0 and, if present, entry 3 |
| ElfImage.DisjointImage | src/process.go:391-411 | for byte-disjoint segments the image is each segment's file bytes followed by zeros up to Memsz |
| ElfImage.SpawnedBytes | src/process.go:387-430 | what a child finds where, with the addresses written out: arguments cut to 256 bytes at 0x40300000, four zero pages from 0x7FFF0000, elsewhere file bytes and then zeros |
| ElfImage.SpawnGuarded | src/proc_pml4.go:74-92 | a new address space is open nowhere beyond its leaves |
| ElfImage.MapFresh | src/process.go:396-403 | mapping a fresh frame at a page gives it zeros, whatever it held, and changes nothing else |
| ElfImage.PokeByte | src/process.go:405-410 | a byte written through the child's translation changes that byte of the image; no table is touched |
| ElfImage.MapNewPage | src/process.go:414-426 | a frame that was free is mapped at the page and recorded; the page is all zero |
| ElfImage.Process.RecordPage | src/process.go:241-249 | appends the page and frame, or drops them when 512 are recorded |
| ElfImage.MapSegment | src/process.go:391-403 | afterwards exactly the pages mapped before and those of the segment are mapped; pages mapped before keep their frames |
| ElfImage.CopySegment | src/process.go:405-411 | the image becomes that of the segments so far plus this one |
| ElfImage.LoadImage | src/process.go:391-411 | the mapped pages are exactly those of the segments, every byte there reads as expected, the mappings are recorded in order, and no frame in use outside the child's tree is written |
| ElfImage.LoadArguments | src/process.go:413-419 | the argument page is new and holds the first 256 argument bytes and zeros, whatever a segment had put there |
| ElfImage.LoadStack | src/process.go:421-427 | the four stack pages are new and zero, whatever a segment had put there |
| ElfImage.SpawnImage | src/process.go:387-430 | from any consistent memory: every user address of the new tree reads as segments, arguments and stack say, every mapped page may be read and written by Ring 3, everything else is unmapped, the mappings are recorded, and no frame in use before is written |
| SignalFrame.WriteOne | src/user_signal.go:191-201 | a byte written through the tables changes that byte of the 104-byte window only, wherever its pages are mapped |
| SignalFrame.PushWrites | src/user_signal.go:207-210 | n pushed words end up in their n slots, exactly when all their bytes are mapped; translations are unchanged |
| SignalFrame.ReadsBack | src/user_signal.go:173-184 | the word whose bytes are stacked is the word read |
| SignalFrame.RoundTrip | src/user_signal.go:112-334 | after a delivery and a handler that leaves the 104 bytes intact, sigreturn restores RIP, RSP, RFLAGS and the nine registers exactly |
| SignalFrame.DeliveredExactly | src/user_signal.go:266-334 | a delivery succeeds exactly when one is due and the 104 bytes are mapped; otherwise trap frame and process state are unchanged |
| SignalLayout.DeliveredFrame | src/user_signal.go:266-334 | a delivery moves RIP to the handler and RSP down by 104, touches no other register, and leaves, as the processor reads words, the magic number and then R11, R10, R9, R8, RDI, RSI, RDX, RCX, RAX, RFLAGS, RSP and RIP at offsets 0 to 96 |
| SignalLayout.OnlyWindowWritten | src/user_signal.go:266-334 | no byte of memory changes but the 104 below the stack pointer |
| SignalLayout.SigreturnExactly | src/user_signal.go:112-167 | sigreturn is refused without a frame, kills on an unmapped byte or another magic number, and otherwise loads each register from its own offset and ends the handler |
| SignalLayout.RegistersExactly | src/user_signal.go:77-100 | only signal 14 without flags registers, and it clears both marks |
| SignalFrame.LoadedStack | src/process.go:391-427 | a process as loaded meets the frame's requirement for every window of user pages, mapped exactly where the loader mapped |
| SignalFrame.SpawnedStack | src/process.go:421-430 | in a spawned process every stack pointer in the four stack pages with 104 bytes below it there can take a signal |
| SignalFrame.ReopenedBetween | src/user_signal.go:266-334 | between two deliveries of any run lies a completed sigreturn or the registration of a handler other than 0 |
| SignalFrame.NestsExactly | src/user_signal.go:77-334 | after a delivery and before its sigreturn completes, a signal with its window mapped is delivered on top if and only if a handler other than 0 was registered since, as the last registration, and a tick followed |
| SignalFrame.RegistrationReopens | src/user_signal.go:77-100 | the shortest such run, whose delivery overwrites the saved frame pointer |
| SignalFrame.WriteU64Through | src/user_signal.go:191-201 | the byte loop equals the value model, stopping at the first unmapped byte |
| SignalFrame.PushU64Through | src/user_signal.go:207-210 | one word of the frame pushed |
| SignalFrame.ReadU64Through | src/user_signal.go:173-184 | the byte loop assembles the little-endian value, or fails |
| SignalFrame.MaybeDeliverSignal | src/user_signal.go:266-334 | the whole delivery in place equals the value model |
| SignalFrame.SysSigreturn | src/user_signal.go:112-167 | restore, refuse or kill, as the value model says |
| SignalFrame.SysSigaction | src/user_signal.go:77-100 | registration, with its checks |
| KQueue.QueueSafety | src/kthread_queue.go:39-139 | over every run with many producers and one consumer: popped followed by queued is exactly what was pushed, each producer's values once and in order; a parked consumer means empty; parked producers mean count + woken >= capacity |
| KQueue.NeverAllStuck | src/kthread_queue.go:39-139 | while some producer is inside Push, someone can run or a wake-up is still to be made |
| KQueueProgress.Drains | src/kthread_queue.go:39-139 | however the threads inside are scheduled, after a bounded number of steps none can move, and then every value started has come out, in order, and every producer has left Push |
| KQueueProgress.SomeScheduleDrains | src/kthread_queue.go:39-139 | from every reachable state there is such a schedule |
| KQueueProgress.QuietIsDrained | src/kthread_queue.go:39-139 | where nothing can move the queue is empty, every producer is out and the consumer waits |
| KQueueProgress.MovingDecreases | src/kthread_queue.go:39-139 | every step of a thread inside the queue, parking and wake-ups included, lowers one measure |
| KQueueProgress.PushExactly | src/kthread_queue.go:39-81 | with room the value goes to the back, the producer leaves and a waiting consumer is due; without, the producer parks on top of the stack and the entries stay |
| KQueueProgress.PopExactly | src/kthread_queue.go:85-139 | the oldest entry comes out and the producer parked last is claimed; of an empty queue nothing comes out and the consumer waits |
| KQueueProgress.TryExactly | src/kthread_queue.go:231-326 | TryPush adds exactly if there is room and TryPop takes exactly if there is an entry; otherwise nothing changes |
| KQueueProgress.LastParkedFirst | src/kthread_queue.go:65-120 | the producer that parked last is the first to be taken off |
| KQueue.StepInv | src/kthread_queue.go:39-139 | every critical section and every wake-up keeps all of this |
| KList.ChainFrame | src/kthread.go:63-65 | a chain depends only on the links of its own threads |
| KList.WakeLinks.PushLocked | src/kthread_sched.go:82-90 | the queue holds one thread more at its back, and only links of that queue changed |
| KList.WakeLinks.PopLocked | src/kthread_sched.go:93-104 | the front thread leaves, or nothing happens; only its link changed |
| KList.WakeLinks.PushTop | src/kthread_event.go:56-57 | the waiter stack has one thread more on top, and only its link changed |
| KList.WakeLinks.TakeTop | src/kthread_event.go:90-91 | the rest of the chain after its first thread, whose link alone is cleared |
| KQueue.Ring.PushOnce | src/kthread_queue.go:39-81 | one pass of Push: appended and the consumer taken off, or parked on top of the producer chain, or unchanged for a caller that is no kernel thread; links of other threads are kept |
| KQueue.Ring.PopOnce | src/kthread_queue.go:85-139 | one pass of Pop: the oldest entry and one producer taken off its chain, or parked, or unchanged for a caller that is no kernel thread; links of other threads are kept |
| KQueue.Ring.TryPush | src/kthread_queue.go:231-249 | appended, or refused when full with nothing changed |
| KQueue.Ring.TryPop | src/kthread_queue.go:304-326 | the oldest entry, or nothing when empty |
| KQueue.PushPass | src/kthread_queue.go:39-81 | a producer's pass on the ring is its step of the runs QueueSafety is about, from every reachable state |
| KQueue.PopPass | src/kthread_queue.go:85-139 | likewise the consumer's pass |
| KQueue.TryPushPass | src/kthread_queue.go:231-249 | likewise a push that does not park |
| KQueue.TryPopPass | src/kthread_queue.go:304-326 | likewise a pop that does not park |
| KSched.PlacementSafety | src/kthread_sched.go:273-501 | in every run on two or more cores each live thread is in exactly one queue, waiter list or CPU; only service queue 0 is used; Ring-3 queues hold hosts only; the shell never leaves CPU 0 and children never reach it |
| KSched.SignalMoves | src/kthread_event.go:80-96 | Signal moves every waiter to the back of its owner's queue on its tier, in order, and changes nothing else |
| KSched.StepInv | src/kthread_sched.go:273-501 | every spawn, dispatch, steal, yield, wait, signal and exit keeps the placement |
| KSched.StealSource | src/kthread_sched.go:393-405 | a steal victim is another CPU than 0 and oneself, with work |
| KSchedProgress.Served | src/kthread_sched.go:273-462 | a thread with i others before it in its ready queue has run by the time its CPU has made i + 1 dispatch passes, whatever happens in between |
| KSchedProgress.RunnableIsQueued | src/kthread_sched.go:273-501 | in every state of every run each runnable thread is in such a queue |
| KSchedProgress.OwnFirst | src/kthread_sched.go:273-462 | an idle CPU runs the front of its own queue |
| KSchedProgress.StealsNearest | src/kthread_sched.go:390-423 | with an empty queue it takes the front of the nearest non-empty Ring-3 queue after it, never CPU 0's; it stays idle exactly if all of them are empty |
| KSchedProgress.WorkConserving | src/kthread_sched.go:390-423 | after a pass a CPU other than 0 runs something if and only if any of their queues had work |
| KSchedProgress.YieldsToBack | src/kthread_sched.go:484-501 | a yielding thread goes to the back of its own CPU's queue of its own tier |
| KSchedProgress.WaitsOnlyIfClear | src/kthread_event.go:32-71 | waiting on a set flag does nothing; on a clear one the thread parks and its CPU is free |
| KSchedProgress.SignalledRuns | src/kthread_event.go:80-96 | whoever waits before a signal is runnable in its own ready queue after it, and the flag stays up for later ones |
| KSchedProgress.ExitsExactly | src/kthread_lifecycle.go:108-126 | an exiting thread frees its CPU and is in no queue or waiter list again |
| KSchedProgress.SpawnsLand | src/kthread_ring3.go:40-90 | service threads and the shell's host join CPU 0, a child's host the CPU whose turn it is, each at the back |
| KSchedProgress.RoundRobin | src/kthread_ring3.go:56-58 | the next child goes to the following CPU if and only if the 32-bit counter does not wrap or the number of those CPUs divides 2^32 |
| KDispatch.OthersStand | src/kthread_sched.go:82-104 | whatever is done at one list, every other queue and waiter chain still holds the same threads, because each thread is on at most one |
| KDispatch.OffListChange | src/kthread_event.go:90-92 | relinking a thread that is on no list breaks no chain |
| KDispatch.Scheduler.Push | src/kthread_sched.go:119-132 | runnable, owned by the target, at the back of its service queue; every other chain stands and links of threads on no list are kept |
| KDispatch.Scheduler.PushRing3 | src/kthread_sched.go:331-344 | the same on the Ring-3 tier |
| KDispatch.Scheduler.Pop | src/kthread_sched.go:137-146 | the front service thread, or nothing; every other chain stands |
| KDispatch.Scheduler.PopRing3 | src/kthread_sched.go:350-359 | the front thread, or nothing; every other chain stands |
| KDispatch.Scheduler.StealRing3 | src/kthread_sched.go:370-382 | never from CPU 0 nor from oneself |
| KDispatch.Scheduler.SpawnAt | src/kthread_lifecycle.go:24-34 | a service thread always lands on CPU 0 |
| KDispatch.Scheduler.SpawnRing3Wrapper | src/kthread_ring3.go:40-72 | a child lands round robin on CPUs 1..n-1 |
| KDispatch.Scheduler.SpawnRing3WrapperOnBsp | src/kthread_ring3.go:85-90 | the shell lands on CPU 0 |
| KDispatch.Scheduler.LoopOnce | src/kthread_sched.go:273-318 | dispatches the front service thread of CPU 0 |
| KDispatch.Scheduler.LoopRing3OnlyOnce | src/kthread_sched.go:434-462 | dispatches the front host of CPU 0 |
| KDispatch.Scheduler.LoopRing3Pass | src/kthread_sched.go:390-423 | own queue first, then the first neighbour with work |
| KDispatch.Scheduler.YieldCpu | src/kthread_sched.go:484-501 | back on its own tier of the same CPU |
| KDispatch.Scheduler.WaitPass | src/kthread_event.go:32-71 | passes if signalled, else the thread tops the event's waiter chain; every other chain stands |
| KDispatch.Scheduler.WakeThread | src/kthread_lifecycle.go:186-199 | a parked thread goes to its owner's queue; any other is left alone |
| KDispatch.Scheduler.SignalEvent | src/kthread_event.go:80-96 | the walk along the chain while it is being relinked equals waking them all; every other chain stands |
| KDispatch.Scheduler.ResetEvent | src/kthread_event.go:104-108 | clears the flag only |
| KDispatch.Scheduler.ExitThread | src/kthread_lifecycle.go:108-126 | the side table is cleared and the CPU freed; CPU 0 reclaims the slot |
| KeyboardRing.RingSafety | src/keyboard_irq.go:39-61 | for every interleaving of loads and stores the received events are a prefix of the accepted ones, head-tail stays in 0..64 across 32-bit wrap, and unread events are still in their slots |
| KeyboardRing.StepInv | src/keyboard_irq.go:39-61 | each single load or store keeps this |
| KeyboardRing.StoreInv | src/keyboard_irq.go:45 | the slot being written holds no unread event |
| KeyboardRing.DropsExactlyFull | src/keyboard_irq.go:39-61 | a send gives up exactly if 64 events wait when it looks, and counts it; a receive comes back empty exactly if none waits |
| KeyboardRing.SendsAccounted | src/keyboard_irq.go:39-61 | over every interleaving each call is accepted, in hand or one of the counted drops, and the accepted ones keep the order of the calls |
| KeyboardRing.Keyboard.Send | src/keyboard_irq.go:39-47 | an uninterrupted send is the sender's steps: accepted exactly when fewer than 64 wait |
| KeyboardRing.Keyboard.Receive | src/keyboard_irq.go:53-61 | the next unread event, or nothing when there is none |
| Pipes.PipeLifetime | src/pipe.go:41-139 | over any mix of pipe, dup2, close, spawn, exit, reads and writes, parked ones included: each refcount is the number of slots holding that end and the channel is closed once if no writer slot is left and never otherwise; the write count is right exactly for the pipes whose creation succeeded, and a failed one is never closed; read plus buffered is what was written |
| Pipes.HeldWriterOpen | src/pipe.go:50-67 | a held write end never sends on a closed channel |
| Pipes.EofExactly | src/pipe.go:91-106 | end of file is reported exactly when all written bytes were read and no slot holds the write end |
| Pipes.EofIsFinal | src/pipe.go:69-106 | after the channel is closed no continuation writes another byte, closes it again or brings back a write end |
| Pipes.StepKeeps | src/fd.go:262-348 | every operation keeps the counts |
| Pipes.PipeKeeps | src/userspace.go:724-748 | sys_pipe keeps the counts on success and on both failure paths |
| Pipes.LosesIff | src/userspace.go:724-748 | sys_pipe fails exactly when fewer than two slots are free |
| Pipes.InheritKeeps | src/process.go:363-371 | inheritance keeps the counts, sockets left out |
| PipeTables.Dup2Installs | src/fd.go:305-323 | after dup2 both slots hold what the old one held, the descriptor replaced has one slot less, no other slot of any process changes, and every count follows; from an empty slot or onto itself nothing happens |
| PipeTables.CloseClears | src/fd.go:289-299 | close empties that slot alone; the last write slot closes the channel and no other close does |
| PipeTables.SpawnInherits | src/process.go:363-371 | a child has its parent's slots without the sockets; every other table stays |
| PipeTables.ExitEmpties | src/fd.go:338-348 | an exiting process holds nothing and no other process loses anything |
| PipeTables.PipeTakesLowest | src/userspace.go:724-748 | with two free slots pipe puts the read end in the lowest and the write end in the next, of a new, empty, open pipe |
| PipeTables.PipeFailsCleanly | src/userspace.go:724-748 | pipe without two free slots leaves every table as it is |
| PipeTables.WritesExactly | src/pipe.go:50-67 | a byte written goes to the back of the channel; with no reader the pipe is broken, with 4096 bytes waiting the write parks |
| PipeTables.ReadsExactly | src/pipe.go:91-106 | a byte read is the oldest waiting; with none the read parks while a write end is held and reports end of file otherwise |
| PipeTables.Redirected | src/fd.go:305-323 | pipe, dup2 of the write end onto slot 1, a byte written to slot 1: the read end hands out that byte |
| Pipes.Kernel.CloseEnd | src/pipe.go:73-123 | one reference dropped; the last writer closes the channel, the last reader marks the pipe |
| Pipes.Kernel.BumpRef | src/fd.go:278-285 | one reference added to a pipe end |
| Pipes.Kernel.ProcAllocFd | src/fd.go:262-273 | the lowest free slot, or none |
| Pipes.Kernel.ProcClose | src/fd.go:289-299 | the slot is cleared and its descriptor closed |
| Pipes.Kernel.ProcDup2 | src/fd.go:305-323 | the target is closed first and then holds one more reference |
| Pipes.Kernel.ProcCloseAll | src/fd.go:338-348 | every slot closed and cleared |
| Pipes.Kernel.SpawnChild | src/process.go:363-371 | the child's table is the parent's without sockets, references bumped |
| Pipes.Kernel.SysPipe | src/userspace.go:724-748 | two slots, or the read end rolled back; succeeds exactly when two slots are free |
| Pipes.Kernel.PipeWrite | src/pipe.go:50-67 | exactly as many bytes as the channel and the reader allow are appended; a parked write first places its byte without looking at the reader |
| Pipes.Kernel.PipeRead | src/pipe.go:91-106 | the oldest bytes in order; end of file only with nothing read |
| TinyCEval.WrapMeaning | user/cmd/tinyc/eval.go:282-303 | 64-bit wrap-around: in range and congruent modulo 2^64 |
| TinyCEval.DivisionTruncates | user/cmd/tinyc/eval.go:290-303 | quotient and remainder recompose the dividend, the remainder with its sign |
| TinyCEval.DigitsValue | user/cmd/tinyc/eval.go:338-341 | the digits printed read back as the number |
| TinyCEval.SetThenLookup | user/cmd/tinyc/eval.go:25-49 | an assignment is what the next lookup sees, in the scope that owns the name; nothing else changes |
| TinyCEval.SharedElement | user/cmd/tinyc/eval.go:234-250 | an element stored through one name of an array is read through another |
| TinyCSemantics.EvalAgrees | user/cmd/tinyc/eval.go:216-280 | evalExpr gives the value, scopes, arrays and output of the structured semantics, with flags and depth unchanged |
| TinyCSemantics.CallAgrees | user/cmd/tinyc/eval.go:118-152 | a call gives the value its body returns, or 0, with the caller's flags restored |
| TinyCSemantics.StmtAgrees | user/cmd/tinyc/eval.go:163-214 | flag-driven statements do what Normal/Returned outcomes say |
| TinyCSemantics.BlockAgrees | user/cmd/tinyc/eval.go:154-161 | a block stops at the first return |
| TinyCSemantics.LoopAgrees | user/cmd/tinyc/eval.go:185-202 | while and for loops, the step skipped by a return |
| TinyCSemantics.PrintAgrees | user/cmd/tinyc/eval.go:328-358 | println evaluates and writes the same |
| TinyCSemantics.EvalKeepsFlags | user/cmd/tinyc/eval.go:118-152 | every completed evaluation leaves returned, retVal and callDepth as found, and no call is deeper than 256 |
| TinyCSemantics.BudgetIrrelevant | user/cmd/tinyc/eval.go:185-202 | any two step budgets that suffice give the same result |
| TinyCSemantics.Evaluate | user/cmd/tinyc/eval.go:118-121 | the call depth never exceeds 256 |
| TinyCLaws.ComparisonLaws | user/cmd/tinyc/eval.go:304-326 | on operands giving x and y, left first: < gives 1 exactly if y - x is positive, > if x - y is, == if neither, and <=, >=, != their complements |
| TinyCLaws.ArithmeticLaws | user/cmd/tinyc/eval.go:282-289 | +, -, * and negation give the 64-bit signed number congruent to the integer result modulo 2^64 |
| TinyCLaws.DivisionLaws | user/cmd/tinyc/eval.go:290-303 | / and % recompose the dividend with a remainder smaller than the divisor and of the dividend's sign, except -2^63 / -1, which wraps; a zero divisor ends the program with its message |
| TinyCLaws.CountEnds | user/cmd/tinyc/eval.go:185-191 | while (i < n) i = i + 1; from i <= n ends with i == n and changes nothing else, for all 64-bit values |
| TinyCLaws.PrintsDecimal | user/cmd/tinyc/eval.go:328-358 | println("%d", e) writes the value of e in decimal, without leading zeros, and a newline |
| TinyCLaws.ElementLaws | user/cmd/tinyc/eval.go:234-257 | inside the bounds a store changes that element alone and a load gives it; outside both end the program |
| TinyCLaws.DeclareThenLookup | user/cmd/tinyc/eval.go:170-178 | a declaration in a function hides the global of that name and changes no other |
| TinyCPrograms.SumExactly | user/cmd/tinyc/eval.go:118-152 | a recursive sum returns k(k+1)/2 and leaves the caller as it was exactly if its calls stay within 256 levels; otherwise the program ends with its message |
| TinyCPrograms.FindsFirst | user/cmd/tinyc/eval.go:118-214 | a search with a return inside a for loop over an array passed by name gives the first index below n that holds x, -1 if there is none, and ends the program where it runs past the array |
| TinyCPrograms.MaxReturns | user/cmd/tinyc/eval.go:179-214 | if (x < y) return y; else return x; returns the larger |
| TinyCMachine.Evaluator.Var | user/cmd/tinyc/eval.go:25-33 | the local binding, else the global one |
| TinyCMachine.Evaluator.Arr | user/cmd/tinyc/eval.go:52-60 | the local array, else the global one |
| TinyCMachine.Evaluator.Set | user/cmd/tinyc/eval.go:37-49 | set where the name lives, else in the current scope |
| TinyCMachine.Evaluator.EvalExpr | user/cmd/tinyc/eval.go:216-280 | evaluation in place equals the value model |
| TinyCMachine.Evaluator.BindParams | user/cmd/tinyc/eval.go:128-141 | arrays bound by reference, other arguments by value |
| TinyCMachine.Evaluator.Invoke | user/cmd/tinyc/eval.go:118-152 | a call in place, the caller's scope untouched by the body |
| TinyCMachine.Evaluator.ExecBlock | user/cmd/tinyc/eval.go:154-161 | the block loop |
| TinyCMachine.Evaluator.ExecStmt | user/cmd/tinyc/eval.go:163-214 | one statement in place |
| TinyCMachine.Evaluator.ExecLoop | user/cmd/tinyc/eval.go:185-202 | the while and for loops |
| TinyCMachine.Evaluator.ExecPrintln | user/cmd/tinyc/eval.go:328-358 | the format loop |
| TinyCParser.ParserRoundTrip | user/cmd/tinyc/parser.go:184-321 | every expression tree, shown with only the parentheses its levels need and followed by a token that cannot continue an expression, parses back to itself and stops at that token |
| TinyCParser.ParenthesesNeeded | user/cmd/tinyc/parser.go:188-295 | each of those parentheses is needed: without it the parser fails or stops before the end |
| TinyCGrammar.ParsesExactly | user/cmd/tinyc/parser.go:184-321 | for a grammar with its operator tiers written out: tokens followed by one that cannot continue an expression parse to a tree if and only if they derive it |
| TinyCGrammar.Unambiguous | user/cmd/tinyc/parser.go:184-321 | no token sequence derives two trees |
| TinyCGrammar.Precedence | user/cmd/tinyc/parser.go:206-234 | in a p b q c the tighter of the two operators takes b, with *, / and % above + and - above the comparisons, and within a tier the left one |
| TinyCGrammar.Complete | user/cmd/tinyc/parser.go:184-321 | every derivation is found by the parser, up to its last token |
| TinyCParser.BarePrintln | user/cmd/tinyc/parser.go:297-321 | println of a bare expression other than a string is println with the format %d |
| TinyCParser.Wrapped | user/cmd/tinyc/parser.go:188-295 | the same at every precedence level |
| TinyCParser.ChainFrom | user/cmd/tinyc/parser.go:206-234 | operators of a level group to the left |
| TinyCParser.Primary | user/cmd/tinyc/parser.go:245-321 | names, calls, elements, literals and println parse back |
| TinyCParser.ParseExpr | user/cmd/tinyc/parser.go:188-204 | a successful parse consumes at least one token |
| TinyCParser.Parser.ParseExpression | user/cmd/tinyc/parser.go:184-204 | right-associative assignment, in place |
| TinyCParser.Parser.ParseLevelAt | user/cmd/tinyc/parser.go:206-234 | one operator loop per level, in place |
| TinyCParser.Parser.ParseUnaryExpr | user/cmd/tinyc/parser.go:236-243 | a minus takes a primary only |
| TinyCParser.Parser.ParsePrimaryExpr | user/cmd/tinyc/parser.go:245-295 | primaries, in place |
| TinyCParser.Parser.ParsePrintlnRest | user/cmd/tinyc/parser.go:297-321 | a leading string is the format, anything else prints as %d |
| Checksum.FoldMeaning | src/ipv4.go:61-63 | folding keeps the sum modulo 65535 and only 0 folds to 0 |
| Checksum.FilledIsZero | src/ipv4.go:147-149 | filling in the checksum makes the data check to 0 |
| Checksum.WordChangeDetected | src/ipv4.go:52-65 | a change of one aligned word goes unnoticed exactly when the new word is congruent modulo 65535 and the sum is not zero |
| Checksum.Compute | src/ipv4.go:52-65 | the loops compute the complement of the folded 32-bit sum, which is the checksum up to 131074 bytes |
| Ipv4.BuiltChecksToZero | src/ipv4.go:121-150 | a built header always checks to 0 (section 3.1 of RFC 791) |
| Ipv4.BuiltIsAccepted | src/ipv4.go:71-150 | a built header with its payload and any padding parses back to the same fields and exactly the payload |
| Ipv4.PayloadBackIff | src/ipv4.go:121-150 | the payload comes back if and only if header and payload fit 65535 bytes |
| Ipv4.Sender.BuildHeader | src/ipv4.go:121-150 | twenty bytes written in place, the rest kept, the id advanced with wrap |
| TcpSegment.BuiltSegmentBack | src/tcp_segment.go:50-130 | tcpParse returns every field, the options and the payload of a built segment, and its checksum verifies |
| TcpSegment.SegmentChangeDetected | src/tcp_segment.go:181-228 | a one-word change of a verifying segment is accepted exactly when congruent modulo 65535 |
| WireFormat.HeaderLayout | src/ipv4.go:121-150 | every byte of the built IPv4 header at its offset (section 3.1 of RFC 791) |
| WireFormat.AcceptedExactly | src/ipv4.go:71-116 | a packet is accepted if and only if it is version 4, its lengths are in bounds, it is no fragment, its TTL lives and its header words sum to a multiple of 65535; its fields are those at their offsets |
| WireFormat.SegmentLayout | src/tcp_segment.go:88-130 | every field of the built TCP segment at its offset (section 3.1 of RFC 793) |
| WireFormat.SegmentTakenExactly | src/tcp_segment.go:50-84 | a segment is taken if and only if its header length is at least five words and within the packet |
| WireFormat.ChecksumCovers | src/tcp_segment.go:181-212 | the checksum covers source, destination, protocol 6, length and segment, and complements their sum modulo 65535 |
| WireFormat.SumLast | src/ipv4.go:52-60 | the sum is of big-endian 16-bit words, a last odd byte being a high half |
| TcpSegment.BuildSegment | src/tcp_segment.go:88-130 | the segment written in place, or 0 for bad options or a small buffer |
| TcpSegment.ComputeChecksum | src/tcp_segment.go:181-212 | pseudo-header and segment summed in 32 bits, folded and complemented, which is the checksum up to 131062 bytes |
| TcpSegment.Verify | src/tcp_segment.go:218-228 | recomputed in 32 bits with the field zeroed and compared |
| TcpSegment.SetChecksum | src/tcp_segment.go:233-237 | only the checksum field changes |

## Left out

- TCP persist and delayed-ACK timers, listener queues, option parsing, and recycling of slots: a run starts on a slot never used before.
- The contents of the TCP send buffer: only positions and descriptors are modelled on the send side.
- TcpAck.SendSafety: runs in which an echo pass does not fit are not covered, since the echo service looks at no window and the property fails for them (TcpAck.SendSafetyIff).
- TcpReceive.EofMeansWholeStream: says nothing of CLOSING and TIME_WAIT, where a drained read reports no end of stream.
- Walks in 0..1 GiB and under PDP entry 3, which are shared kernel mappings with 2 MiB pages; TLB flushes; `allocPagesContig`; reclaiming a process's tables (src/proc_pml4.go:101-144).
- Vmm.Machine.AllocPage: does not model running out of physical memory, which the source does not check either.
- SignalFrame.RoundTrip: the 104 bytes lie at user addresses whose frames are not page tables, which is how the loader maps a stack.
- SignalFrame.MaybeDeliverSignal: the process and its PML4 are given; the case of no current process is not modelled.
- ElfImage.SpawnImage: the ELF header checks and the heap limits are not part of this model; segments must have Filesz <= Memsz, file bytes that exist, and user addresses.
- Which signal quantum is due (src/user_signal.go:220-238): a pending signal is an event of its own.
- KQueue.QueueSafety: one consumer, as the source intends; a second one is modelled in KQueue.Ring.PopOnce only.
- KSched.PlacementSafety: linking oneself on a list and switching away is one step, and so are clearing the side table and exiting; a preemption between the two is not modelled, nor are idle threads and context switches.
- Threads parked on a bounded queue are not part of the scheduler's placement; the queue's methods say which links they leave alone.
- KeyboardRing.RingSafety: loads and stores are sequentially consistent, and the polling fallback as a second producer is not modelled.
- Pipes.Kernel.PipeWrite: a write that would park ends there and goes on as a parked write; ending a process while it is parked is not modelled.
- Closing a socket, file or console descriptor has no effect in the pipe model.
- The Tiny C lexer, statements in the parser, and the first pass of Run that registers globals and functions.
- Ipv4.BuiltIsAccepted: ARP, routing and transmission (src/ipv4.go:155-180) are not modelled.
- Hardware, boot, graphics, file system, shell and user programs other than tinyc.
