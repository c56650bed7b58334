# Bleed kernel: verified models

Dafny models of the cores of the Bleed kernel whose correctness rests on interleavings, shared state, in-place
updates or wrap-around arithmetic, and proofs of what those cores are for. `dafny verify dfyconfig.toml` checks
the whole project.

## What is modelled

* **TCP** (`Tcp*.dfy`, `Ring.dfy`). Sequence numbers are 32-bit; every position also has its unbounded place in
  the byte stream. The sending half (`TcpSendSpec`, `TcpSendFacts`) and the receiving half (`TcpReceiver`) are
  specified on positions. The kernel's own data, rings indexed modulo their size, wrapped numbers and the table of
  out-of-order ranges, are classes whose methods are proved to do what the specification says (`TcpReceiver`,
  `TcpSender`, `TcpConnection`). `TcpStream` runs two endpoints over a network that loses, duplicates, delays and
  reorders, and proves what reaches the reader; `TcpWire` runs two kernels that exchange only segments with 32-bit
  numbers, and shows that those are the same runs. `TcpProgress` and `TcpCongestion` say what a push, a timeout and
  an ack achieve, on the segments that go out, and `TcpDelivery` follows a segment sent again to the peer and its ack back. `TcpStates` follows the connection states over runs and shows
  that a silent peer is given up. `TcpListener` counts half-open and queued connections.
* **Scheduler hand-off** (`SchedHandoff.dfy`). Every section under `rq_lock`, every store made without it, the spin
  on `on_cpu` and the two halves of `sched_return` are steps of one machine over any number of CPUs and tasks.
  `SchedWake.dfy` says what a wake achieves in it, and that none is lost.
  `ReadyQueue.dfy` (over `DList.dfy`) is the linked lists and bitmaps below it, `Deadlines.dfy` the timed waits and
  `Futex.dfy` the futexes above it.
* **Big kernel lock and TLB shootdown** (`TlbShootdown.dfy`), one protocol over the steps of all CPUs. `FrameReuse.dfy`
  adds the frames behind the translations.
* **Copy-on-write memory and frame ownership** (`Cow*.dfy`, `AllocList.dfy`). One account of who holds which frame
  covers page tables, shared memory objects and messages. A page table is a map from page numbers to entries.
* **Allocators**: the page bitmaps (`Pmm*.dfy` over `Bitmaps.dfy`) and the kernel heap (`Slab.dfy`); **memfd**
  (`Memfd.dfy`).
* **The cycle guard** for cluster chains (`ChainGuard.dfy`) and **IPv4 fragmentation** (`Ipv4Frag.dfy`).
* `Collections.dfy` holds what several of these need of lists and finite sets.

The clock, allocation failures, options in SYN segments, round-trip samples and the decisions of other layers (which
address range is free, whether an answer could be copied to user space) are parameters.

## Where the code does not do what one might expect

Each of these is stated with its exact condition.

* The range test of `tcp_got_ack` alone takes one number for an ack that is none; the guard in `tcp_input` before it
  keeps exactly that number out (`TcpSender.RangeTestAlone`, `TcpSender.RangeTestFooled`).
* Timeout recovery sends the flight again up to where it ended when the timer ran out, unless a probe of a shut window
  has been counted as thrown away since; it then stops short, and the byte goes as new data
  (`TcpProgress.GoesFarExactly`, `TcpProgress.ProbeTakenBack`).
* `tlb_shootdown` does not flush the CPU that calls it. A page that somebody else took out without a shootdown may
  stay in the caller's own TLB (`TlbShootdown.Returns`, `TlbShootdown.SomeoneElses`).
* `vmm_unmap_free_pages` gives frames back before the shootdown, while other CPUs still reach them. None is handed out
  meanwhile if frames are taken only under the big kernel lock; the page allocator's own lock would not do
  (`FrameReuse.NeverReusedInReach`, `FrameReuse.TakenInReach`).
* The reaper may free a dead task while the CPU that left it is between clearing `on_cpu` and reading its state in
  `sched_return`. A task it frees is out of reach if and only if no CPU is there (`SchedHandoff.ReapedIsNowhere`,
  `SchedHandoff.ReapedTooSoon`).
* `ipc_recv` and `shm_map` go on without a word if a page table cannot be had; the reference is then lost. Frames are
  conserved over a run if and only if that never happens (`CowRuns.ConservedOverRuns`, `CowRuns.LostForGood`,
  `CowIpc.Recv`, `CowIpc.ShmMap`).
* Without memory for its table of reference counts `cow_ref_page` counts nothing, and a fork that shares a page all the
  same is not a copy. It is one if and only if the table is there by then (`CowRuns.TableDecides`,
  `CowMemory.Memory.Clone`).
* A memfd that grows shows what a mapping stored past its end in the last page. Growth reads as zeroes if and only if
  that part of the page is clean (`Memfd.SizedReads`, `Memfd.GrowsDirty`).
* The cycle guard stops every loop of at most 2^31 clusters, and no longer one (`ChainGuard.CaughtExactly`).
* Reassembly would never complete an empty datagram; `ipv4_input` does not hand it one
  (`Ipv4Frag.EmptyNeverCompletes`).
* The page allocator looks on either side of its cursor and misses runs that cross it (`Pmm.Region.FindFree`,
  `Pmm.MissesTheMiddle`). A fresh region also marks as many usable pages as its header has pages, although the header
  is not among them (`Pmm.Region.Init`).
* `cut_to` keeps the right bytes unless the size is within a page of 2^64, where the page count wraps
  (`Memfd.CutRight`, `Memfd.CutWrong`). The system calls that lead there refuse sizes of 2^63 and more.
* `kmalloc` returns a block of at least the size asked for, except in the fifteen sizes just below 2^64
  (`Slab.LargeEnough`). A wholly free slab of the 2048-byte class, which holds one object, is never given back; in every
  other class at most one is kept (`Slab.SpareIs`, `Slab.Heap.Kfree`).

## Model

| member | source | states |
|---|---|---|
| TcpSeq.WireOrder | kernel/src/net/tcp_priv.h:25-26 | SEQ_LT, SEQ_LEQ and equality of 32-bit numbers are those of the stream positions, for any two less than 2^31 apart |
| TcpSeq.WireCompare | kernel/src/net/tcp_priv.h:25-26 | exactly what the comparisons answer for any two positions less than 2^32 apart, the wrong answers included |
| TcpSeq.BeforeReader | kernel/src/net/tcp_priv.h:25-26 | for every 32-bit number the comparison with one's own position is the comparison of the position it is read as |
| Ring.Put | kernel/src/net/tcp_input.c:383-388 | the two memcpy calls put the data at consecutive ring places across the wrap and touch no other byte |
| Ring.Get | kernel/src/net/tcp.c:265-268 | the two memcpy calls read consecutive ring places across the wrap |
| TcpReceiver.MergedCovers | kernel/src/net/tcp_input.c:322-351 | merging a range into the table is set union of positions |
| TcpReceiver.MergedOk | kernel/src/net/tcp_input.c:322-351 | after a merge the ranges are sorted, strictly apart, beyond the first gap and within the window |
| TcpReceiver.OooAdd | kernel/src/net/tcp_input.c:322-351 | on wrapped numbers, an add is set union, or no change when the table is full and the range touches nothing in it |
| TcpReceiver.OooSettle | kernel/src/net/tcp_input.c:354-363 | rcv_nxt moves to the first position nobody has sent; what it passes was covered and what lies beyond stays covered |
| TcpReceiver.Receiver.constructor | kernel/src/net/tcp.c:10-36 | a fresh receiver knows nothing and expects the byte after the SYN |
| TcpReceiver.Receiver.Store | kernel/src/net/tcp_input.c:383-388 | data goes past the readable bytes in the ring; no unread byte is overwritten |
| TcpReceiver.Receiver.InOrder | kernel/src/net/tcp_input.c:382-403 | data at rcv_nxt extends the known positions and rcv_nxt becomes the first unknown one |
| TcpReceiver.Receiver.Island | kernel/src/net/tcp_input.c:382-403 | data past a hole is kept in place and added to the known positions, or dropped only with a full table |
| TcpReceiver.Receiver.GotData | kernel/src/net/tcp_input.c:366-419 | for every number, body and FIN: the new state is the old one with exactly the bytes that fit added at their stream positions, across both wraps |
| TcpReceiver.Receiver.TakeFin | kernel/src/net/tcp_input.c:404-415 | on 32-bit numbers, the peer has finished exactly when the FIN noted is next in line |
| TcpReceiver.Receiver.Recv | kernel/src/net/tcp.c:257-296 | the bytes handed out are those at the oldest unread positions, in order; peeking changes nothing |
| TcpSendFacts.AckKeeps | kernel/src/net/tcp_input.c:264-320 | every ack keeps the order of positions, the states' FIN conditions, the recovery bounds and the armed timer |
| TcpSendFacts.AckMoves | kernel/src/net/tcp_input.c:264-320 | an ack moves snd_una to the acked position exactly if that lies in (snd_una, snd_nxt] |
| TcpSendFacts.ResendAllKeeps | kernel/src/net/tcp_output.c:142-178 | retransmission repeats bytes of the stream at their own positions, none past snd_nxt |
| TcpSendFacts.PushDataKeeps | kernel/src/net/tcp_output.c:188-211 | new data stays within the given window and within what was accepted (how much of it goes is TcpProgress.LoopSends) |
| TcpSendFacts.PushKeeps | kernel/src/net/tcp_output.c:180-223 | every segment of a push is a piece of the stream at its own position; nothing new goes past min(snd_wnd, cwnd); anything in flight has the timer armed |
| TcpSendFacts.AcceptKeeps | kernel/src/net/tcp.c:225-255 | accepted bytes are appended to the stream within the ring's size |
| TcpSendFacts.TimeoutKeeps | kernel/src/net/tcp_output.c:278-315 | a timeout, be it a retransmission, a probe or giving up, keeps the sender's invariant and sends only pieces of the stream (which one is TcpProgress.TimeoutResends) |
| TcpProgress.TurnSends | kernel/src/net/tcp_output.c:188-201 | a turn of the send loop sends nothing exactly if everything has gone, the window is full, or acks are due and the next piece does not fit; else a whole segment, the last of the ring, or one that fills the window from an empty flight |
| TcpProgress.LoopSends | kernel/src/net/tcp_output.c:188-211 | new segments follow one another from the old snd_nxt to the new one, and with room left in the batch the loop stops only where no more may go |
| TcpProgress.LoopResends | kernel/src/net/tcp_output.c:170-177 | segments sent again follow one another from rtx, each as much unacked data as fits or the FIN, and end only at recover, the congestion window, snd_nxt or a full batch |
| TcpProgress.PushSends | kernel/src/net/tcp_output.c:180-223 | in every state, what tcp_push sends again and what it sends new, from where to where, when the FIN goes, and that nothing but a full batch leaves any of it out |
| TcpProgress.TimeoutResends | kernel/src/net/tcp_output.c:264-315 | with a retry left the timer runs again with twice the delay and the SYN, the probe or, with the push that follows, the oldest unacked segment at exactly snd_una goes out first; the congestion window is one segment and the threshold half the flight |
| TcpProgress.GoesFarExactly | kernel/src/net/tcp_output.c:159-178 | timeout recovery stops only at recover, the congestion window or a full batch if and only if none of the flight has been taken back, or one of the others stops it first |
| TcpProgress.ProbeTakenBack | kernel/src/net/tcp_input.c:264-320 | the runs in which it stops short: a probe timed out and the window then opened |
| TcpProgress.DuplicatesResend | kernel/src/net/tcp_input.c:248-262 | the third duplicate ack and no earlier one has the oldest segment sent again and sets the window and threshold of fast recovery |
| TcpProgress.RecoveryAcked | kernel/src/net/tcp_input.c:221-246 | in fast recovery an ack short of its end has the next hole filled; one that reaches it ends any recovery |
| TcpProgress.AckRestarts | kernel/src/net/tcp_input.c:264-320 | an ack of something new starts retries and timer over; which acks set the window; every other ack changes nothing |
| TcpProgress.WindowGrows | kernel/src/net/tcp_input.c:221-246 | the congestion window grows with every ack of something new, by at most a segment below the threshold and about one a round trip above it |
| TcpProgress.AcceptTakes | kernel/src/net/tcp.c:225-255 | all that is given is taken, or the ring is full |
| TcpCongestion.AckedWindow | kernel/src/net/tcp_input.c:221-246 | exactly what an ack of something new does to the congestion window, in and out of both recoveries: growth to the byte, deflation short of the end of fast recovery, the threshold at its end |
| TcpCongestion.DuplicateInflates | kernel/src/net/tcp_input.c:248-262 | a duplicate ack in fast recovery is worth one segment, in timeout recovery nothing |
| TcpCongestion.RetriesCount | kernel/src/net/tcp_input.c:264-320 | the count of retries starts over exactly for an ack of something new or one that says the window is shut |
| TcpCongestion.PushTimes | kernel/src/net/tcp_output.c:26-29 | a push starts a timer that is not running exactly if it sends something new or has a shut window to probe, and never moves one that is |
| TcpCongestion.GivesUp | kernel/src/net/tcp_output.c:278-315 | with no retry left the connection closes without a timer, resetting the peer of a finished handshake; with nothing to wait for the timer just stops |
| TcpCongestion.OpensEitherWay | kernel/src/net/tcp_input.c:88-174 | whichever side began and however often the SYN was sent, a connection opens with nothing in flight, no timer, the peer's window and ten segments of the size both can take |
| TcpCongestion.FirstFlight | kernel/src/net/tcp_output.c:180-223 | what is given to it goes out at once, in order from the first byte, as far as those reach |
| TcpDelivery.TickResends | kernel/src/net/tcp_output.c:348-352 | a tick that finds the timer run out sends the oldest unacked segment first |
| TcpDelivery.Answered | kernel/src/net/tcp_input.c:472-506 | a segment that carries anything is answered, and every segment of the answer acks what has come |
| TcpDelivery.OldestArrives | kernel/src/net/tcp_input.c:366-419 | a segment at the peer's snd_una moves the receiver past it, in whatever states and after whatever run |
| TcpDelivery.AckArrives | kernel/src/net/tcp_input.c:264-320 | an ack of something in flight moves snd_una to it, whatever else the segment brings |
| TcpDelivery.RoundTrip | kernel/src/net/tcp_output.c:278-315 | from every reachable pair of synchronised ends: a due tick's first segment delivered and one segment of the answer back, snd_una has moved on |
| TcpEndpoint.ShiftsAre | kernel/src/net/tcp_output.c:85-86 | the shifts of the window scale are quotients and products by powers of two |
| TcpEndpoint.WindowFits | kernel/src/net/tcp_output.c:20-24 | the window a segment carries, scaled back, is at most the free room, and less only by what the scale rounds off or the field cannot hold |
| TcpSender.AckAccepted | kernel/src/net/tcp_input.c:264-270 | behind the guard of tcp_input the range test accepts exactly the acks in (snd_una, snd_nxt] |
| TcpSender.RangeTestAlone | kernel/src/net/tcp_input.c:264-270 | without the guard the test is wrong for exactly one number, 2^31 away with nothing in flight |
| TcpSender.RangeTestFooled | kernel/src/net/tcp_input.c:480-482 | that number passes the range test and is caught by the guard |
| TcpSender.CcAckedTcb | kernel/src/net/tcp_input.c:221-246 | the congestion window on wrapped numbers moves as specified on positions |
| TcpSender.CcDupackTcb | kernel/src/net/tcp_input.c:248-262 | the third duplicate ack starts fast recovery as specified on positions |
| TcpSender.GotAckTcb | kernel/src/net/tcp_input.c:264-320 | the record after an ack is the one specified on positions, and exactly the acked bytes leave the ring |
| TcpSender.ReadTx | kernel/src/net/tcp_output.c:39-81 | the bytes of a segment read from the ring are those of the stream at its position |
| TcpSender.ResendAllTcb | kernel/src/net/tcp_output.c:142-178 | the retransmission loop emits, number for number, the segments specified |
| TcpSender.PushRecoveryTcb | kernel/src/net/tcp_output.c:159-178 | fast and timeout recovery resend as specified |
| TcpSender.PushDataTcb | kernel/src/net/tcp_output.c:188-211 | the send loop emits the segments specified, sizes by window, congestion window and mss, a short piece held back while acks are due |
| TcpSender.PushTcb | kernel/src/net/tcp_output.c:180-223 | the whole of tcp_push does on wrapped numbers what is specified on positions |
| TcpSender.TimeoutTcb | kernel/src/net/tcp_output.c:264-315 | the whole of tcp_timeout does on wrapped numbers what is specified on positions |
| TcpSender.Sender.GotAck | kernel/src/net/tcp_input.c:264-320 | the connection's sending half after an ack is the specified one and its ring again holds the stream from snd_una on |
| TcpSender.Sender.Push | kernel/src/net/tcp_output.c:180-223 | tcp_push on the ring and the record |
| TcpSender.Sender.Timeout | kernel/src/net/tcp_output.c:278-315 | tcp_timeout on the ring and the record |
| TcpSender.Sender.Send | kernel/src/net/tcp.c:225-255 | as many bytes as there is room for are appended to the stream, and the ring holds them |
| TcpSender.Sender.Child | kernel/src/net/tcp_input.c:128-174 | a listener's child starts with its SYN unacked |
| TcpConnection.Connection.GotData | kernel/src/net/tcp_input.c:366-419 | data and FIN at a connection on rings and numbers is the endpoint's step on positions |
| TcpConnection.Connection.Flush | kernel/src/net/tcp_output.c:83-89 | every segment of a batch goes out under its own number with the receiving half's present ack and window, and rcv_adv is the edge the last one announced |
| TcpConnection.Connection.Child | kernel/src/net/tcp_input.c:128-174 | a SYN at a listener makes a child that is the endpoint's step, and sends its SYN ack |
| TcpConnection.Connection.Refuse | kernel/src/net/tcp_input.c:483-486 | new data for a connection whose socket is gone is answered with a reset that acks, and closes it |
| TcpConnection.Connection.SyncedArrival | kernel/src/net/tcp_input.c:472-506 | a segment at a synchronised connection, in all its branches, is the endpoint's step |
| TcpConnection.Connection.HalfOpenArrival | kernel/src/net/tcp_input.c:177-219 | a segment at a half-open child is the endpoint's step |
| TcpConnection.Connection.SynSentArrival | kernel/src/net/tcp_input.c:88-125 | a segment at a connecting end is the endpoint's step |
| TcpConnection.Connection.ResetArrival | kernel/src/net/tcp_input.c:466-470 | a reset is believed exactly if its number is in the window |
| TcpConnection.Connection.Arrive | kernel/src/net/tcp_input.c:425-506 | every segment, read by its 32-bit numbers, makes the connection take a step of the endpoint and send exactly the wire segments of that step, acks, windows and reset flags included; the peer's numbering is the one its SYN gave; exactly which segments count as a sign of life, and when TIME_WAIT will end |
| TcpConnection.Connection.Write | kernel/src/net/tcp.c:225-255 | tcp_send is the endpoint's step with its wire segments; what it reports is what was appended to the stream |
| TcpConnection.TellsOf | kernel/src/net/tcp.c:274-278 | the test on wrapped numbers that decides whether the peer is told of the window is: less than a quarter of the ring announced, and two full segments to gain |
| TcpConnection.Connection.Take | kernel/src/net/tcp.c:257-296 | tcp_recv is the endpoint's step; what it returns is what has been handed out, and the peer is told of the window if and only if the free room, rcv_nxt and rcv_adv pass that test |
| TcpConnection.Connection.CloseWriting | kernel/src/net/tcp.c:199-223 | tcp_shutdown of the writing side is the endpoint's step with its wire segments |
| TcpConnection.Connection.Detach | kernel/src/net/tcp.c:406-433 | exactly when a closing socket resets or frees its connection, and that it otherwise is the endpoint's step towards a FIN |
| TcpConnection.Connection.TickOne | kernel/src/net/tcp_output.c:348-352 | the timer and the push of the tick are the endpoint's step with its wire segments |
| TcpConnection.Connection.KeepAlive | kernel/src/net/tcp_output.c:317-335 | a keepalive is the endpoint's probe, counted, or a reset once as many went unanswered as allowed |
| TcpConnection.Connection.Expire | kernel/src/net/tcp_output.c:355-360 | exactly when the tick ends TIME_WAIT or a lingering close, and that it is the endpoint's step |
| TcpStream.AbsorbAgrees | kernel/src/net/tcp_input.c:366-419 | wherever a segment of the peer's stream lands, what the receiver holds is the peer's stream |
| TcpStream.InputKeeps | kernel/src/net/tcp_input.c:425-506 | every arrival keeps an endpoint consistent and makes it say only true things |
| TcpStream.InputSafe | kernel/src/net/tcp_input.c:425-506 | an arrival keeps both directions of a connection safe |
| TcpStream.CalledSafe | kernel/src/net/tcp.c:199-433 | so does every call from the socket and every tick |
| TcpStream.StepSafe | kernel/src/net/tcp_input.c:425-506 | every step of either end with any segment ever sent keeps the invariant of the pair |
| TcpStream.StreamSafety | kernel/src/net/tcp.c:225-296 | in every state of every run, both ways: the bytes read are a prefix of the bytes the peer's tcp_send accepted, what is acknowledged has arrived, and end of file means all of it |
| TcpWire.ReadBack | kernel/src/net/tcp_input.c:425-506 | a segment less than 2^31 stale is read as what its sender meant, wherever either side has got to |
| TcpWire.ActRefines | kernel/src/net/tcp_output.c:39-89 | one action of a kernel on wire segments is a move of the endpoint, and what it sends is numbered as both sides count |
| TcpWire.WireStepRefines | kernel/src/net/tcp_input.c:425-506 | every step of two kernels over the wire is a step of the two endpoints |
| TcpWire.WireRunRefines | kernel/src/net/tcp_input.c:425-506 | so every run on the wire, from the first SYN on, is a run of the endpoints |
| TcpWire.WireSafety | kernel/src/net/tcp.c:225-296 | on the wire too, in every run and both ways: what tcp_recv has handed out is a prefix of what the peer's tcp_send took, and end of file means all of it |
| TcpStates.StateTable | kernel/src/net/tcp_input.c:287-297 | in every state of every run a synchronised state is the one its FIN sent, FIN acked and peer's FIN dictate, as in section 3.3.2 of RFC 9293 |
| TcpStates.InputWalk | kernel/src/net/tcp_input.c:425-506 | whatever arrives, the new state is exactly the one that the ack, the peer's FIN and our own FIN lead to, one edge of the diagram each; CLOSED is reached exactly by a reset, unwanted data, a lack of rings or the ack of the last FIN |
| TcpStates.CallWalk | kernel/src/net/tcp_output.c:213-219 | a call or tick closes the connection, sends our FIN along its edge, or leaves the state; and exactly when it gives up |
| TcpStates.NeverBack | kernel/src/net/tcp_input.c:287-297 | in every run no end is ever again in a state it has left, and none leaves CLOSED |
| TcpStates.PushArms | kernel/src/net/tcp_output.c:180-223 | after every push an end that waits for anything, a shut window included, has its timer running |
| TcpStates.AlwaysArmed | kernel/src/net/tcp_output.c:26-29 | so has, in every state of every run, every end that waits for an answer |
| TcpStates.QuietCount | kernel/src/net/tcp_output.c:278-315 | over any calls and ticks without an arrival, a waiting end has counted exactly the ticks that found its timer run out, or is closed |
| TcpStates.SilentPeer | kernel/src/net/tcp_output.c:278-315 | whatever the socket's owner does and however many ticks come early, a peer that never answers leads to CLOSED once one more tick than retries are left has found the timer run out |
| TcpStates.SilentPeerInTime | kernel/src/net/tcp_output.c:278-315 | and so by a given time: with ticks at most gap apart, RTO_MAX_MS + gap for each retry left |
| TcpListener.Listener.constructor | kernel/src/net/tcp.c:119-158 | the backlog is clamped and nothing is pending |
| TcpListener.Listener.Syn | kernel/src/net/tcp_input.c:128-174 | a SYN makes one more half-open child exactly while pending is below the backlog |
| TcpListener.Listener.DropChild | kernel/src/net/tcp_output.c:254-261 | a dropped child is counted no more |
| TcpListener.Listener.Established | kernel/src/net/tcp_input.c:177-219 | the end of the handshake moves a child to the tail of the queue and leaves pending as it is |
| TcpListener.Listener.Close | kernel/src/net/tcp_output.c:225-233 | a queued connection that dies stays queued and counted |
| TcpListener.Listener.Accept | kernel/src/net/tcp.c:160-186 | the longest waiting connection is handed out, and pending again equals half-open children plus queue length |
| TcpListener.Listener.Reap | kernel/src/net/tcp_output.c:337-372 | the tick frees only what nothing counts |
| TcpListener.Listener.Gone | kernel/src/net/tcp.c:388-404 | a listener that goes leaves nothing pending and no connection that points to it |
| SchedHandoff.LocalKept | kernel/src/sched/scheduler.c:191-203 | a change of one task's state that is right for that task is right for the whole machine |
| SchedHandoff.OwnKept | kernel/src/sched/scheduler.c:463-475 | yielding, blocking, stopping and dying keep the invariant, with or without the lock |
| SchedHandoff.OtherKept | kernel/src/sched/scheduler.c:495-524 | waking, continuing, burying, unlinking, freeing and creating tasks keep it (what a wake achieves is SchedWake.WakeIs) |
| SchedHandoff.NextKept | kernel/src/sched/scheduler.c:265-302 | the section of sched_next_context keeps it, for every choice of ready_pop |
| SchedHandoff.SwitchKept | kernel/src/sched/scheduler.c:226-262 | leaving the spin and switching keeps it |
| SchedHandoff.ReleaseKept | kernel/src/sched/scheduler.c:305-312 | clearing on_cpu keeps it |
| SchedHandoff.RequeueKept | kernel/src/sched/scheduler.c:314-320 | putting a task woken meanwhile back in line keeps it |
| SchedHandoff.HandOff | kernel/src/sched/scheduler.c:265-331 | in every state of every run: no task is current on two CPUs or taken by two, nothing is queued twice, only READY tasks are queued, and every READY task but the idle ones is queued once, on exactly one CPU, or being requeued |
| SchedHandoff.NothingToSkip | kernel/src/sched/scheduler.c:183-187 | ready_pop never finds a task that is not READY |
| SchedHandoff.ReapedIsNowhere | kernel/src/sched/sched_reaper.c:76-100 | a task the reaper frees is on no CPU, in no queue and wanted by nobody; it is out of reach altogether if and only if no CPU is between the two halves of its sched_return |
| SchedHandoff.ReapedTooSoon | kernel/src/sched/scheduler.c:305-320 | a run in which the reaper may free a task whose state another CPU is about to read |
| SchedHandoff.SomebodyCan | kernel/src/sched/scheduler.c:297-301 | in every state with a CPU on its way out of a task, some CPU can take its next step |
| SchedHandoff.AllGetThrough | kernel/src/sched/scheduler.c:297-301 | from every such state at most three steps per CPU bring all of them through: the spin cannot deadlock |
| SchedWake.WakeIs | kernel/src/sched/scheduler.c:495-524 | a wake makes a BLOCKED task READY, a continue a STOPPED one: in line once if it was on no CPU, otherwise in no queue and left to the CPU it is on; no other task and no task in any other state is changed |
| SchedWake.StateEnds | kernel/src/sched/scheduler.c:183-331 | of all steps of all CPUs, exactly which end READY, BLOCKED and STOPPED: READY ends when the task is popped or by its own hand, BLOCKED by a wake, a burial or its own hand, STOPPED by a continue or its own hand |
| SchedWake.RunningEnds | kernel/src/sched/scheduler.c:265-302 | RUNNING ends exactly when the task yields, blocks, stops or dies, or its own CPU picks another; yielding and being passed over make it READY |
| SchedWake.WakeNotLost | kernel/src/sched/scheduler.c:305-331 | over every run a task woken after it stored BLOCKED and before it left its CPU stays READY, in line or with that CPU, until it is popped or ends that itself; and is in line once that CPU has done the last step of its sched_return |
| SchedWake.WakeGetsThrough | kernel/src/sched/scheduler.c:297-331 | if its CPU has left its section, at most three steps per CPU, all of them of switches already begun, put the task in line |
| SchedWake.WokenRunsOn | kernel/src/sched/scheduler.c:265-302 | a task that finds itself woken on its way into the scheduler runs on or is in line when the section ends |
| ReadyQueue.EnqKept | kernel/src/sched/scheduler.c:94-122 | linking a task in keeps the links of all 64 lists, both ways, the bitmaps and every task's note of its place |
| ReadyQueue.DeqKept | kernel/src/sched/scheduler.c:124-146 | so does unlinking it, from the list it noted |
| ReadyQueue.Queue.Enqueue | kernel/src/sched/scheduler.c:94-122 | a task goes to the tail of its level, in the expired array if its quantum is spent; a queued or idle one changes nothing; and exactly when the running task has to give way |
| ReadyQueue.Queue.Dequeue | kernel/src/sched/scheduler.c:124-146 | exactly that task leaves exactly its list |
| ReadyQueue.PopOne | kernel/src/sched/scheduler.c:168-181 | one turn of the loop takes the first task in the order of levels and arrays, after the swap if one is due |
| ReadyQueue.Pop | kernel/src/sched/scheduler.c:168-189 | the first READY task in that order is returned, everyone before it was not READY, and none is returned only when the queue is empty |
| ReadyQueue.StillWaits | kernel/src/sched/scheduler.c:94-103 | over every run, while a task waits in the expired array expired_since is no later than its arrival there |
| ReadyQueue.NobodyStarves | kernel/src/sched/scheduler.c:168-189 | over every run a pop STARVE_TICKS or more after a task came into the expired array, by an enqueue or a swap, swaps the arrays first and takes from its array |
| DList.AppendedIs | kernel/src/sched/scheduler.c:105-113 | the links after linking in at the tail stand for the list with the task appended |
| DList.PrependedIs | kernel/src/sched/futex.c:55-62 | and after linking in at the head |
| DList.BetweenIs | kernel/src/sched/sched_wait.c:36-54 | and after linking in between two neighbours |
| DList.UnlinkedIs | kernel/src/sched/scheduler.c:130-145 | the links after unlinking stand for the list without it |
| Deadlines.EarlyEnough | kernel/src/sched/sched_wait.c:31-34 | at no tick before the one chosen will the time be up, even if ticks take two milliseconds |
| Deadlines.InsertedIs | kernel/src/sched/sched_wait.c:36-54 | insertion keeps the list sorted and adds exactly the entry |
| Deadlines.Waits.Walk | kernel/src/sched/sched_wait.c:36-54 | the walk along the links stops at the first later deadline |
| Deadlines.Waits.Insert | kernel/src/sched/sched_wait.c:36-54 | the links after the insertion stand for the list with the entry in that place |
| Deadlines.Waits.Remove | kernel/src/sched/sched_wait.c:56-69 | the links after the removal stand for the list without the task, and nothing changes if it has no deadline |
| Deadlines.Waits.Prepare | kernel/src/sched/sched_wait.c:121-145 | a wait with a deadline is queued and moves the next look forward if it needs to; one without changes nothing |
| Deadlines.Waits.WakeExpired | kernel/src/sched/sched_wait.c:200-214 | the loop unlinks exactly those whose deadline has come, in order |
| Deadlines.Waits.EventTick | kernel/src/sched/sched_wait.c:200-214 | a look wakes exactly those whose deadline has come, in order; a tick that does not look changes nothing |
| Deadlines.TickKept | kernel/src/sched/sched_wait.c:200-214 | after a tick that looked or one that did not, nobody whose deadline has come is still waiting |
| Deadlines.NobodyLate | kernel/src/sched/sched_wait.c:200-214 | in every run of waits, early finishes and ticks at most 2 ms apart, every wait is woken by the first tick at or after its deadline |
| Futex.PickIs | kernel/src/sched/futex.c:123-138 | the waiters picked are the first matching ones in bucket order, and nobody else goes |
| Futex.WantedIs | kernel/src/sched/futex.c:129 | the test of wake_key holds exactly for the same key and some bit set in both bitsets, bit by bit |
| Futex.PickWakes | kernel/src/sched/futex.c:123-138 | on the waiters' fields: whoever is woken slept on that key with a bit in common; with fewer than count woken nobody such is left; those woken stood before those left; nobody else changes |
| Futex.PickMoves | kernel/src/sched/futex.c:187-199 | the same of a requeue: whoever moves slept on the first key and is on the second, the first in the bucket first, all of them if there are no more than allowed |
| Futex.LinkKept | kernel/src/sched/futex.c:55-62 | linking a waiter in keeps the links of all buckets, both ways, and no waiter in two |
| Futex.UnlinkKept | kernel/src/sched/futex.c:64-72 | so does unlinking it from anywhere, head included |
| Futex.WakeList | kernel/src/sched/futex.c:123-138 | the walk along the links, which unlinks as it goes, wakes exactly those |
| Futex.MoveList | kernel/src/sched/futex.c:187-199 | the requeue walk moves each of the first matching waiters once to the head of its new bucket, also when that is the list being walked |
| Futex.WakeKept | kernel/src/sched/futex.c:123-138 | after a wake each bucket holds exactly the sleepers whose key hashes to it, once |
| Futex.MoveKept | kernel/src/sched/futex.c:187-199 | after a requeue too, with equal, colliding or different keys |
| Futex.Table.Enter | kernel/src/sched/futex.c:74-102 | a wait sleeps only if the value is as expected and the bitset is not empty |
| Futex.Table.Leave | kernel/src/sched/futex.c:109-119 | a wait returns zero exactly if it was woken, and leaves the bucket of its present key otherwise |
| Futex.Table.Wake | kernel/src/sched/futex.c:123-138 | the count returned is the number of waiters woken, at most the count asked for, and these are as PickWakes says; a wake whose bitset shares no bit with anyone's changes nothing |
| Futex.Table.Requeue | kernel/src/sched/futex.c:158-204 | the count returned is those woken plus those moved, as PickWakes and PickMoves say; all others are unchanged |
| Futex.StepConserves | kernel/src/sched/futex.c:74-204 | every step keeps the account of who was counted |
| Futex.Conservation | kernel/src/sched/futex.c:74-204 | over every run from an empty table each sleeper is in exactly its key's bucket, each wait returning zero was counted by exactly one wake, and wakes counted nobody else |
| TlbShootdown.TicketsOut | kernel/src/sched/bkl.c:5-30 | there are never more tickets out than CPUs |
| TlbShootdown.TicketCompare | kernel/src/sched/bkl.c:14-15 | so the 32-bit comparison a waiter spins on is the comparison of tickets |
| TlbShootdown.LockKept | kernel/src/sched/bkl.c:9-40 | every step keeps every outstanding ticket owned by exactly one CPU |
| TlbShootdown.NobodyBefore | kernel/src/sched/bkl.c:14-20 | whoever gets the lock finds it free and holds the lowest ticket: first come, first served |
| TlbShootdown.MutualExclusion | kernel/src/sched/bkl.c:9-30 | at most one CPU holds the lock, and it is the one served |
| TlbShootdown.ShootOwn | kernel/src/mm/tlb.c:28-47 | scanning and draining: everyone looked at is clean or still has to answer |
| TlbShootdown.OtherClean | kernel/src/sched/scheduler.c:254-256 | a CPU without the lock, also between storing active_cr3, loading cr3 and clearing the flag, gets no translation that is not there and drops its flag only when clean |
| TlbShootdown.Reachable | kernel/src/mm/tlb.c:7-48 | every state of every run keeps the protocol's invariant |
| TlbShootdown.Returns | kernel/src/mm/tlb.c:17-48 | when tlb_shootdown returns, a page out of the tables is out of every other TLB, and out of the caller's exactly if it was before |
| TlbShootdown.NeverAgain | kernel/src/mm/tlb.c:17-48 | after it returns no CPU ever makes an access through a translation the caller removed before, until the page is mapped again |
| TlbShootdown.SomeoneElses | kernel/src/mm/tlb.c:29-31 | a run in which the caller goes on using a page that another CPU took out without a shootdown |
| TlbShootdown.Answers | kernel/src/sched/bkl.c:15-19 | a flagged CPU can always take its next answering step, also while queued for the lock |
| TlbShootdown.Finishes | kernel/src/mm/tlb.c:40-47 | from every state in tlb_shootdown at most 6n + 2 steps of the caller and those it waits for let it return |
| FrameReuse.GoodKept | kernel/src/mm/vmm.c:192-252 | every step of mapping, sharing, unmapping, allocating and shooting down keeps what a TLB reaches equal to what the tables have or what is still to be shot down |
| FrameReuse.NeverReusedInReach | kernel/src/mm/vmm.c:192-252 | in every run in which frames are taken under the lock and not between an unmapping and its shootdown, a frame is handed out only when no CPU reaches it, and no CPU ever reaches a frame of the kernel's |
| FrameReuse.UnmapLeavesNothing | kernel/src/mm/vmm.c:246-250 | when vmm_unmap_free_pages returns nothing is left to shoot down, whatever the other CPUs did |
| FrameReuse.TakenInReach | kernel/src/mm/pmm.c:192-219 | a run in which a CPU without the big lock gets a frame that another still reaches |
| CowSpec.JoinKept | kernel/src/mm/cow.c:49-62 | one more counted holder keeps the account and reads what the others read |
| CowSpec.DemoteKept | kernel/src/mm/paging.c:485-489 | taking write access away at fork keeps the account and what everyone reads |
| CowSpec.DropKept | kernel/src/mm/paging.c:690-706 | a holder that goes takes only its own view with it; the last one frees the frame |
| CowSpec.TakeBackKept | kernel/src/mm/paging.c:550-562 | the last holder taking the frame back changes nothing that anyone reads |
| CowSpec.CopyOutKept | kernel/src/mm/paging.c:550-562 | nor does copying out for any other holder |
| CowSpec.MoveKept | kernel/src/ipc/zero_copy.c:186-225 | a private frame that changes hands keeps its bytes and stays private |
| CowSpec.PokeKept | kernel/src/mm/paging.c:483-495 | a store the hardware lets through changes the one view it should, or those of the shared frame |
| CowRuns.CloneKept | kernel/src/mm/paging.c:451-502 | cloning one page, of whatever kind, gives the child the parent's view and changes nobody's |
| CowRuns.FaultKept | kernel/src/mm/paging.c:533-567 | the fault handler changes nobody's view and leaves the page private and writable |
| CowRuns.StepRefines | kernel/src/mm/paging.c:409-567 | every operation on a page keeps the account of frames and reads as if fork had copied, if a clone that shares finds the table |
| CowRuns.CowRefinesCopying | kernel/src/mm/paging.c:409-567 | after any sequence of forks, faults, stores, unmaps and hand-overs, page by page in any order, everyone reads what they would with private copies, if each clone that shares finds the table |
| CowRuns.TableDecides | kernel/src/mm/cow.c:49-62 | a clone that takes write access away reads as a copy in every later run if and only if the table is there |
| CowRuns.LiveIsHeld | kernel/src/mm/cow.c:49-82 | a frame is live exactly while it has a holder |
| CowRuns.ConservedExactly | kernel/src/mm/cow.c:49-82 | every live frame is held by somebody who can give it back, and counted so, if and only if no reference was lost |
| CowRuns.ConservedOverRuns | kernel/src/ipc/zero_copy.c:227-277 | over every run frames stay conserved if and only if no receive and no mapping went without a page table |
| CowRuns.LostForGood | kernel/src/ipc/shm.c:147-179 | the frame of a lost reference is allocated for good, whatever comes |
| CowRuns.FreedByTheLast | kernel/src/mm/vmm.c:225-242 | a frame is freed only by unmapping, and only by its very last holder |
| CowMemory.ForkedAt | kernel/src/mm/paging.c:409-518 | the eager fork: the child reads what the parent reads and nobody else sees a difference |
| CowMemory.ClearedAt | kernel/src/mm/paging.c:643-722 | what unmapping a range removes, slot by slot |
| CowMemory.Memory.CowInit | kernel/src/mm/cow.c:17-47 | the table is there after it exactly if it was or there is memory |
| CowMemory.Memory.RefPage | kernel/src/mm/cow.c:49-62 | one reference more, for frames the table covers; nothing if there is no table and no memory for one |
| CowMemory.Memory.UnrefPage | kernel/src/mm/cow.c:64-82 | one reference less, never below zero, and the count that is left |
| CowMemory.Memory.RefCount | kernel/src/mm/cow.c:84-99 | the count, zero without a table |
| CowMemory.Memory.AllocPage | kernel/src/mm/pmm.c:192-219 | a frame that was free, or none if there is none |
| CowMemory.Memory.CloneOne | kernel/src/mm/paging.c:451-502 | one page of the walk is one clone step, asking for the table of counts where it shares, or nothing at all changes; and exactly when it fails |
| CowMemory.Memory.Clone | kernel/src/mm/paging.c:409-518 | the whole walk is the eager fork of the pages done, also when it fails halfway, if and only if there is a table of counts, memory for one, or no page to share |
| CowMemory.Memory.CowFault | kernel/src/mm/paging.c:533-567 | exactly when the fault is handled, and that nobody's view changes |
| CowMemory.Memory.Store | kernel/src/mm/paging.c:533-567 | a user's store, faulting if it must, reads as it would had every fork copied; and exactly when it goes through |
| CowMemory.Memory.Detach | kernel/src/mm/vmm.c:220-233 | one page of the unmapping walk, and whether its frame goes back |
| CowMemory.Memory.FreeRange | kernel/src/mm/vmm.c:192-252 | the walk with runs of neighbouring frames does what dropping page after page does |
| CowMemory.Memory.NewPage | kernel/src/mm/paging.c:586-609 | a page that is not there is backed by zeroes exactly if there is a frame and a table; otherwise nothing changes, the frame included |
| CowIpc.ShmCreate | kernel/src/ipc/shm.c:54-103 | all frames fresh and zeroed, or nothing changed; which sizes are refused; out of memory only for want of its own allocations, of the table of counts or of frames |
| CowIpc.ShmDrop | kernel/src/ipc/shm.c:46-52 | the object lets go of its frames; those still mapped live on |
| CowIpc.ShmMap | kernel/src/ipc/shm.c:147-179 | the pages named that have a table show the object's frames, exactly when the range is the object's and reserved; a reference is lost exactly if a table is missing |
| CowIpc.AttachedAt | kernel/src/ipc/shm.c:147-179 | what that means, slot by slot |
| CowIpc.Validate | kernel/src/ipc/zero_copy.c:128-154 | what can be sent is the sender's own, copy-on-write pages being made private first; nobody's view changes; it fails only for a page that is not, or with no frame free |
| CowIpc.CarriedAt | kernel/src/ipc/zero_copy.c:186-277 | what passing pages on does, slot by slot |
| CowIpc.Send | kernel/src/ipc/zero_copy.c:156-225 | all pages go into the message, or nothing that anyone reads changes; and what it can fail for, allocation and detaching included |
| CowIpc.Recv | kernel/src/ipc/zero_copy.c:227-277 | the receiver reads the pages that have a table, or none and they are freed; each result has its exact condition, and so has a loss |
| CowIpc.LandedAt | kernel/src/ipc/zero_copy.c:227-277 | what receiving does, slot by slot and table by table |
| CowIpc.LandedAll | kernel/src/ipc/zero_copy.c:227-277 | with all tables it carries everything over |
| CowIpc.DropMessage | kernel/src/ipc/zero_copy.c:279-300 | the frames of a message nobody will read are freed |
| CowIpc.HandedOver | kernel/src/ipc/zero_copy.c:156-277 | sent and received, the receiver reads page for page what the sender had, and the sender has it no more |
| AllocList.WithoutRight | kernel/src/ipc/zero_copy.c:42-102 | the range is gone, every other address has the file position behind it that it had, and the entries are disjoint again |
| AllocList.Detach | kernel/src/ipc/zero_copy.c:42-102 | all four ways of cutting an entry do that; exactly when each error is returned, and that it then changes nothing |
| ChainGuard.Guard.constructor | kernel/include/fs/chain_guard.h:13-17 | the mark is the first cluster |
| ChainGuard.Guard.Step | kernel/include/fs/chain_guard.h:20-29 | false exactly for the marked cluster; the counters never wrap |
| ChainGuard.ClockIs | kernel/include/fs/chain_guard.h:20-29 | where the mark is after k steps, before and after power saturates |
| ChainGuard.OnlyRepeats | kernel/include/fs/chain_guard.h:19-29 | a step returns false only for a cluster the chain has been to |
| ChainGuard.NoFalseAlarm | kernel/include/fs/chain_guard.h:19-29 | on a chain of distinct clusters no step returns false |
| ChainGuard.MarkInTime | kernel/include/fs/chain_guard.h:20-29 | a mark is set past the tail with power at least the period, early enough |
| ChainGuard.Caught | kernel/include/fs/chain_guard.h:6-29 | a chain with tail m and period p at most 2^31 is stopped within 3(m + p) steps |
| ChainGuard.CaughtExactly | kernel/include/fs/chain_guard.h:6-29 | a loop is ever stopped if and only if its period is at most 2^31 |
| ChainGuard.Walk | kernel/src/fs/fat32/fat32.c:541-572 | a directory walk ends; it stops at the first cluster with a free entry, adds after the last one in a full directory once each was visited in order, and fails only if the chain never ends, in a full directory exactly then |
| Ipv4Frag.Fragment | kernel/src/net/ipv4.c:211-237 | the pieces sent, for every payload up to 65515 bytes, the empty one included |
| Ipv4Frag.PieceOf | kernel/src/net/ipv4.c:221-234 | each piece has its bytes, its offset fits 13 bits and is read back, and only the last claims to be last |
| Ipv4Frag.Slot.Accept | kernel/src/net/ipv4_frag.c:71-108 | what a slot holds after a fragment, and when it gives the datagram out |
| Ipv4Frag.Slot.Mark | kernel/src/net/ipv4_frag.c:88-93 | on the bytes of the bitmap exactly the blocks are marked, and the block count is the number present, however often they come |
| Ipv4Frag.Exact | kernel/src/net/ipv4_frag.c:71-108 | however a datagram was cut, ordered, repeated or overlapped, the slot is complete exactly when every block has come, and then holds the payload |
| Ipv4Frag.RoundTrip | kernel/src/net/ipv4.c:211-237 | the pieces in any order with any repetitions: complete exactly when each has come, and then exactly the payload |
| Ipv4Frag.Deliver | kernel/src/net/ipv4_frag.c:71-108 | fragments fed one by one: nothing comes out until the last missing block has come, then exactly the payload does and the slot is free |
| Ipv4Frag.EmptyNeverCompletes | kernel/src/net/ipv4_frag.c:97-102 | an empty datagram would never complete, and carries a field that ipv4_input delivers directly |
| Ipv4Frag.FragSlot | kernel/src/net/ipv4_frag.c:34-69 | the slot of the same datagram, else the first free one, else the oldest; a slot newly taken stays free without a buffer |
| Bitmaps.WordIs | kernel/src/mm/pmm.c:135-139 | a word all ones or all zeroes is eight bytes that are |
| Pmm.Region.Init | kernel/src/mm/pmm.c:65-116 | a fresh region: which pages are free, and that available_pages counts them |
| Pmm.HeaderHolds | kernel/src/mm/pmm.c:80-81 | the header pages hold the entry and a bit for every page, and one page less would not |
| Pmm.Region.MarkUnavailable | kernel/src/mm/pmm.c:46-50 | exactly the run is marked and available_pages stays the number of clear bits |
| Pmm.Region.MarkAvailable | kernel/src/mm/pmm.c:52-63 | exactly the run is cleared, and a double free is not counted twice |
| Pmm.Region.FreeAt | kernel/src/mm/pmm.c:246-254 | a free goes no further than the region, and the cursor goes back to it if it was past it |
| Pmm.Region.Look | kernel/src/mm/pmm.c:132-156 | the pages passed over in one go are all alike |
| Pmm.Region.FindFreeInRange | kernel/src/mm/pmm.c:118-168 | for every bitmap, bounds and count, the start a bit-by-bit first-fit scan would find |
| Pmm.Region.FindFree | kernel/src/mm/pmm.c:170-189 | the first fit from the cursor on, else the first before it; it fails exactly if every run that fits crosses the cursor; and where the cursor is after |
| Pmm.MissesTheMiddle | kernel/src/mm/pmm.c:178-180 | a region that refuses pages it has |
| PmmRegions.RunInOneRegion | kernel/src/mm/pmm.c:78-104 | neighbouring usable frames are in one region, because each region begins with a header page |
| PmmRegions.CoalescedFree | kernel/src/mm/paging.c:697-721 | freeing a run in one call frees what freeing its frames one at a time would |
| PmmRegions.PmmInit | kernel/src/mm/pmm.c:65-116 | one region for each usable entry large enough, where it says, laid out apart |
| PmmRegions.Allocator.AllocPages | kernel/src/mm/pmm.c:192-219 | the walk along the regions, on their bitmaps: the first region that can give gives its next fit, and it fails exactly if none can |
| PmmRegions.Allocator.FreePages | kernel/src/mm/pmm.c:235-266 | the walk along the regions frees the run in the region it is in and touches no other |
| PmmRegions.GivenFrames | kernel/src/mm/pmm.c:192-219 | what is handed out was usable and free and is in use after |
| PmmRegions.StaysTaken | kernel/src/mm/pmm.c:192-266 | over every history a frame handed out stays in use until a free names it |
| PmmRegions.NeverTwice | kernel/src/mm/pmm.c:192-266 | over every history of allocations and frees, careless ones included, a frame handed out twice was freed in between: live allocations are disjoint |
| Slab.ClassFor | kernel/src/mm/kalloc.c:63-71 | the smallest class that is large enough |
| Slab.LargeEnough | kernel/src/mm/kalloc.c:123-139 | a large block is large enough, with the exact sizes for which it is not |
| Slab.InitPage | kernel/src/mm/kalloc.c:90-96 | the loop chains all slots of the page, in order |
| Slab.ChainElse | kernel/src/mm/kalloc.c:170-173 | what the owner of a live block writes cannot reach a free list |
| Slab.Apart | kernel/src/mm/kalloc.c:82-95 | any two live slots, of whatever pages and classes, are disjoint |
| Slab.BlocksApart | kernel/src/mm/kalloc.c:115-182 | any two blocks handed out, small or large, share no byte |
| Slab.TakeKept | kernel/src/mm/kalloc.c:170-176 | taking a slot keeps every free list a duplicate-free list of free_count slots and every slab on partial exactly if it should be |
| Slab.GiveClass | kernel/src/mm/kalloc.c:211-229 | so does giving one back, in all branches, for one-object slabs too |
| Slab.GiveKept | kernel/src/mm/kalloc.c:197-233 | giving a slot back keeps every free list, every class list and every other slot |
| Slab.SpareIs | kernel/src/mm/kalloc.c:215-230 | part of the heap's invariant: no wholly free slab of several objects is on a partial list, and no class has more than the cached one |
| Slab.NoneLiveIs | kernel/src/mm/kalloc.c:215-216 | free_count equals total_count exactly if none of the slab's slots is handed out |
| Slab.LastOfManyIs | kernel/src/mm/kalloc.c:215-229 | the test under which kfree gives a page back holds exactly for the last slot handed out of a slab of several while another slab of its class has none handed out |
| Slab.Heap.FindSlab | kernel/src/mm/kalloc.c:146-168 | a slab with a free slot: a half used one if there is any, else the cached one, and a new page only if no slot of the class is free |
| Slab.Heap.FreeSlot | kernel/src/mm/kalloc.c:207-229 | the slot is free again; the page leaves the slabs exactly in the case of LastOfManyIs, and no other page comes or goes |
| Slab.Heap.Kmalloc | kernel/src/mm/kalloc.c:115-182 | NULL exactly if nothing is asked for or no memory can be had; else an address, of a slot or of a large block, that was not handed out and now is, with at least the bytes asked for, out of a half used slab if its class has one; a page joins the slabs exactly if no slot of the class is free; every other block stays as it was |
| Slab.Heap.Kfree | kernel/src/mm/kalloc.c:184-239 | the block at the address, large or small as the header of its page says, is handed out no more, and every other block stays as it was; its page leaves the slabs if and only if the block was the last one handed out of a slab of several while another slab of the class had none, and no other page comes or goes |
| Memfd.CutRight | kernel/src/fs/memfd.c:80-90 | cutting keeps exactly the first size bytes, for every size whose page count does not wrap |
| Memfd.CutWrong | kernel/src/fs/memfd.c:80-90 | for every other size there is a file whose first byte is lost |
| Memfd.SizedReads | kernel/src/fs/memfd.c:80-101 | truncation keeps the first bytes; extension reads as zeroes if and only if the part of the last page that comes into the file is clean, which after a truncation it is |
| Memfd.GrowsDirty | kernel/src/fs/memfd.c:92-101 | a store through a mapping just past the end is in the file once it grows |
| Memfd.File.constructor | kernel/src/fs/memfd.c:199-221 | an empty file, sealed against seals unless sealing was asked for |
| Memfd.File.GrowSlots | kernel/src/fs/memfd.c:42-59 | growing keeps every page and adds holes; it fails exactly if there are too few slots and no memory for more |
| Memfd.File.Page | kernel/src/fs/memfd.c:61-77 | creating a page changes no byte of the file; and exactly when there is none to be had |
| Memfd.File.CutTo | kernel/src/fs/memfd.c:80-90 | the loop drops exactly the pages past size and zeroes the tail |
| Memfd.File.Resize | kernel/src/fs/memfd.c:92-101 | exactly when a seal refuses it, and that it then changes nothing; else the size changes as SizedReads says, for every length whose page count does not wrap |
| Memfd.File.Read | kernel/src/fs/memfd.c:103-124 | exactly the bytes of the plain file, holes as zeroes |
| Memfd.File.Reach | kernel/src/fs/memfd.c:134-138 | a write past the end extends the file unless a seal forbids it |
| Memfd.File.Write | kernel/src/fs/memfd.c:126-152 | exactly when it is refused and by what; else the plain write, cut short only at a page that cannot be had |
| Memfd.File.Fill | kernel/src/fs/memfd.c:140-151 | the bytes written are the first ones of the data and no other byte changes |
| Memfd.File.AddSeals | kernel/src/fs/memfd.c:174-184 | which seals are refused, and why |
| Memfd.File.TrackWriter | kernel/src/fs/memfd.c:191-197 | a writable mapping comes only while no write seal is on |
| Memfd.File.MapStore | kernel/src/fs/memfd.c:61-77 | a store through a writable mapping anywhere in a page of the file, its end or not, changes that byte of the page |
| Memfd.SealsStay | kernel/src/fs/memfd.c:174-197 | over every run seals are never taken off, and a file sealed against writing has no writable mapping |
| Memfd.Frozen | kernel/src/fs/memfd.c:92-197 | a file sealed against writing, shrinking and growing keeps its size and contents for the rest of every run |
| Memfd.PlainRun | kernel/src/fs/memfd.c:80-197 | over every run without a store past the end the file is a plain string of bytes, and growing adds zeroes whatever was there before |

## Left out

- TCP header encoding, checksums, SACK option bytes and netbuf exhaustion: a segment that is not sent is one that is lost.
- TCP resets in answer to segments for no connection and to acks at a listener, the reuse of a TIME_WAIT connection's ports and an unreachable host: in a run one step that closes a connection stands for what they lead to.
- TcpWire.WireSafety: the network keeps no segment until half the number space has gone by, as for TcpStream.StreamSafety; a listener's child draws one fixed number.
- TcpConnection.Connection.TickOne: the batch that tcp_tick fills starts empty for each connection.
- TcpStream.StreamSafety: segments more than 2^31 sequence numbers stale are not delivered, and the peer's mss is at least one; that a transfer comes to an end over a network that keeps delivering is claimed only round trip by round trip (TcpDelivery.RoundTrip).
- TcpDelivery.RoundTrip: the acks of the two segments delivered are not for a probe that their receiver has since counted as thrown away, and nobody has closed the receiver's socket.
- TcpEndpoint leaves out that a scaled receive window may pull its edge back by up to seven bytes, which nothing here depends on.
- TcpListener.Listener.Close: which event closes the connection is not modelled here.
- SchedHandoff.NextKept: which READY task is picked is left open; ReadyQueue says which.
- SchedHandoff.OtherKept: killing another task is modelled for zombies and blocked tasks, and every CPU has its idle task from the start; what a sched_return that comes too late reads in freed memory is not modelled.
- ReadyQueue.Pop: the wake-up of idle CPUs and the computation of a task's level from its bonus.
- Deadlines.NobodyLate: ticks are taken to be at most two milliseconds of clock counts apart.
- Futex keys as computed from page tables, and the sleep between the two sections of a wait.
- FrameReuse.NeverReusedInReach: one page is unmapped at a time with its own invalidation, and every frame is either mapped, the kernel's or free; that the kernel's callers keep the order stated is not proved of them one by one.
- TlbShootdown.Reachable: memory is sequentially consistent, user pages are fetched into a TLB only in user mode or under the lock, and the interrupt sent is a step that may come at any time.
- CowRuns.CowRefinesCopying: page table pages, kernel-only entries below the user boundary and reference counts beyond 2^32 are not modelled; mprotect is not part of this model.
- CowIpc.Send: what task_fault_in brings in before the checks is not modelled.
- CowIpc.ShmMap: the mmap layer is trusted to reserve a range of pages that are not mapped, as for CowIpc.Recv.
- The walk along page tables, level by level, is a walk along page numbers; dropping emptied tables is left out.
- PmmRegions.PmmInit: the usable entries of the memory map do not overlap, as the boot protocol promises; addresses are page numbers.
- ChainGuard.Walk: which entry within a cluster is free is left out, and so is what is written there.
- TcpConnection.Connection.Write: a pending error, which only a closed connection has, decides no more than the error code of a write of nothing; such codes are left out, as they are for TcpConnection.Connection.Take.
- Ipv4Frag.FragSlot: the four slots' headers are values; timeouts of half-built datagrams are left out.
- Memfd.File.Resize: says nothing of the contents for lengths within a page of 2^64, where Memfd.CutWrong shows what goes wrong.
- Slab.Heap.FindSlab: the class lock is given up while a page is fetched; what others do in between is not modelled.
- Slab.Heap.Kmalloc: the pages it is given are trusted to be unused, which PmmRegions.NeverTwice is about.
- Slab.Heap.Kfree: a pointer that is not a live block is outside the contract.
- Device drivers, ACPI, PCI, framebuffer, tty, boot code, interrupt entry and model-specific registers: nothing provable from the text.
- VFS, mounts, other file systems, sockets glue, unix sockets, epoll, DHCP, ARP and ICMP: they would add only easier members.
- ELF and module loading, fonts, boot arguments, the random pool and vendored printf: separate from the cores above.
