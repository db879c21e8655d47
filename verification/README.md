# Verified models of the turmoil simulation engines

Dafny models of four engines of the turmoil network-simulation workspace, with
proofs of what each keeps over whole runs.

- **The TCP kernel of turmoil-net.** `Common.dfy`, `Addresses.dfy` and
  `SeqSpace.dfy` (result types, addresses, wrapping sequence numbers),
  `TcbSpec.dfy` (the control block and what each operation does to one),
  `Connection.dfy` and `ConnectionSafety.dfy` (two hosts over a network that is
  the set of every segment ever emitted, any of which may be delivered at any
  time, any number of times, or never), `Retransmit.dfy`, `Handshake.dfy`,
  `Delivery.dfy` and `Accepting.dfy` (whole exchanges: opening, accepting, data,
  retransmission, closing), `SocketTable.dfy`, `KernelSpec.dfy` and `StackSpec.dfy` (the per-host table,
  inbound dispatch and every event of a kernel as values), `HostKernel.dfy` (the
  mutable kernel, whose methods are proved against those specifications and all
  keep `Valid`), and `Projection.dfy`, `KernelRuns.dfy` and `LoopbackRuns.dfy`
  (two whole kernels on one network, and one kernel that holds both ends:
  projected on one pair of endpoints, each run is a run of `Connection`, so the
  safety theorems are about the kernels).
- **The pending-operation log of turmoil-fs.** `FsSpec.dfy`, `FsNamespace.dfy`,
  `FsLinks.dfy`, `FsContent.dfy`, `FsSync.dfy`, `FsDurability.dfy`,
  `FsCapacity.dfy`, `FsQuota.dfy`, `FsMoves.dfy` (renames, links and removals
  through sync and crash) and `FsTree.dfy` (the name space as a tree), which take
  the log as a value: the reference is always "replay the log"; and `FsHost.dfy` (the mutable state).
- **The stream layer of turmoil.** `StreamSpec.dfy`, `StreamSafety.dfy`,
  `StreamRuns.dfy`, `StreamProgress.dfy` and `StreamHost.dfy` (credits, reorder
  buffer, channel and reader of one direction), `LinkSpec.dfy`, `LinkSafety.dfy`,
  `LinkTiming.dfy` and `LinkHost.dfy`
  (the link between two hosts).
- **The simulated io_uring ring.** `RingSpec.dfy` (the ring and its runs as
  values), `RingCounting.dfy`, `RingSafety.dfy` and `RingHost.dfy`.

Each mutable class is proved equal, step by step, to a function on values; the
whole-run theorems are about those functions. Randomness (latency, shuffles,
random partitions, spontaneous flushes) is a parameter of the step, so the
theorems hold for every outcome. Time and latency are natural numbers.

Where code and documentation differ, the model follows the code:

- `check_retx` is documented to abort with `ConnectionReset`
  (crates/turmoil-net/src/kernel/tcp.rs:1130); the code surfaces `TimedOut`.
- `close` is documented to reset a connection whose write side is live
  (crates/turmoil-net/src/kernel/mod.rs:187-198); the code queues a FIN and
  lingers, and resets only over unread bytes.
- `FlowControl` states its invariant as credits plus segments in flight
  (crates/turmoil/src/net/tcp/stream.rs:740-744); lost segments have to be
  counted too.

Properties that are false of the code as it stands come with a concrete
counterexample and the exact condition under which they hold:

- the walk against replay: `SelfRenameLosesFile`, `SelfRenameIff`;
- the walk against what is persisted: `StaleFileShinesThrough`, `PersistsIff`
  and `AdmittedIsCleanIff`;
- listings: `HardLinkIsHidden`, `ListingStepIff`;
- the emptiness check of rmdir and rename: `RenamedChildIsOverlooked` and
  `LinkedChildIsOverlooked`, `ChecksStepIff` (on `CountedStepIff` and
  `HasChildrenIff`);
- reading through the log: `ShrinkThenExtend`, `ReadIsReplayIff`;
- looking for the content behind hard links, which need not end: `LinkCycle`,
  `ResolveStepIff` and `AllResolveIff`;
- syncing without changing a read: `ShrinkThenExtend` again and
  `SyncOverRenamed`, `SyncKeepsReadIff` for every file and log, and
  `SyncChangesNoReadIff` for a synced file that is not itself renamed or linked;
- surviving a crash only once durable: `FileOverDirectory`,
  `CreateOverDurableIff`;
- the capacity: `TruncateOverfills`, `TruncateFitsIff`;
- taking only new segments: `FirstByteTakenAgain`, `OldSegmentTakenIff`;
- repairing any loss by retransmission: `LossIsRepaired` for lost data, but
  `RetransmissionAnsweredIff`: what arrived and whose acknowledgement alone was
  lost is never acknowledged again;
- a reader that reads lets the sender go on: `SmallReadsStall`,
  `WindowReopensIff`;
- every finished handshake waits in an accept queue: `ResetChildIsForgotten`,
  `PerformFollows` and `FinishedIsQueued`;
- reading what was written, there and only there: `WriteAfterRenameIsLost` and
  `ForeignWriteShows`, `WriteIsSeenIff` and `TruncationIsSeenIff`;
- a path linked again: `RelinkedReadsOld`, `RelinkIff`;
- the name space staying a tree: `TreeStepIff` and, for removals and renames,
  `RemovableIff` and `RenameKeepsTreeIff`.

## Model

| member | source | states |
|---|---|---|
| ConnectionSafety.PrefixSafety | crates/turmoil-net/src/kernel/tcp.rs:281-405 | In every run over a network that loses, reorders, delays and repeats segments, the bytes a host accepted are a prefix of those the peer application wrote, and the bytes its own application read are a prefix of those (below 2^32 - 1 bytes a direction) |
| ConnectionSafety.NoTruncatedEof | crates/turmoil-net/src/kernel/tcp.rs:1025-1030 | In every run, a read into nonempty buffers returns 0 only when every byte the peer wrote before its shutdown or clean drop has been read |
| ConnectionSafety.FinAckMeansDelivered | crates/turmoil-net/src/kernel/tcp.rs:304-328 | In every run, a host in FinWait2, or in Closed without an abort, knows that the peer accepted its whole stream and its FIN |
| ConnectionSafety.SendBufferRefinement | crates/turmoil-net/src/kernel/socket.rs:196-254 | In every run, send_buf is exactly the unacknowledged suffix of what was written, snd_una never passes what the peer accepted, and fin_seq is snd_una plus the buffer length until the FIN is acknowledged |
| ConnectionSafety.OldSegmentTakenIff | crates/turmoil-net/src/kernel/tcp.rs:337-346 | Why the bound on bytes: an old segment is taken for new data exactly when its position is congruent to the expected one modulo 2^32 |
| ConnectionSafety.FirstByteTakenAgain | crates/turmoil-net/src/kernel/tcp.rs:337-346 | Concrete: a block that has accepted 2^32 bytes takes the first byte of the stream, delivered once more, for the next |
| ConnectionSafety.RunOk | crates/turmoil-net/src/kernel/tcp.rs:194-276 | The invariant behind these holds after every sequence of connects, deliveries of any segment ever emitted, writes, reads, shutdowns, segmentations, retransmit sweeps, closes and reaps |
| KernelRuns.RunIsConnection | crates/turmoil-net/src/kernel/mod.rs:605-646 | Two whole kernels, any events on any of their sockets, any packets from anywhere on other tuples: projected on one pair of endpoints, every such run is a run of the connection, with the same blocks, the same bytes written and read, and the same segments on the network |
| KernelRuns.KernelPrefixSafety | crates/turmoil-net/src/kernel/tcp.rs:281-405 | So in every run of two kernels the bytes recv returned at one end are a prefix of the bytes send accepted at the other |
| KernelRuns.KernelNoTruncatedEof | crates/turmoil-net/src/kernel/tcp.rs:1025-1030 | and recv into nonempty buffers returns 0 only when all that the other application wrote was read, and it has closed its side |
| KernelRuns.KernelFinAckMeansDelivered | crates/turmoil-net/src/kernel/tcp.rs:304-328 | and a block whose FIN was acknowledged knows that the other end, unless aborted, has read or holds unread exactly the whole stream |
| KernelRuns.PairCanOpen | crates/turmoil-net/src/kernel/tcp.rs:81-126 | There are such runs for any two endpoints on concrete addresses of the two hosts: listener, connect, SYN, and both ends have a block |
| LoopbackRuns.LoopbackIsConnection | crates/turmoil-net/src/kernel/mod.rs:605-646 | One kernel holding both ends, its own packets looped back in any order, any number of times or never: projected on both ends, every run is a run of the connection |
| LoopbackRuns.LoopbackPrefixSafety | crates/turmoil-net/src/kernel/tcp.rs:281-405 | So there too the bytes recv returned at one end are a prefix of the bytes send accepted at the other |
| LoopbackRuns.LoopbackNoTruncatedEof | crates/turmoil-net/src/kernel/tcp.rs:1025-1030 | and end of file comes only after the whole stream, from a side that was closed |
| LoopbackRuns.LoopbackCanOpen | crates/turmoil-net/src/kernel/mod.rs:624-646 | There are such runs for any two concrete endpoints with different ports: listener, connect, SYN looped back, and both ends have a block |
| KernelRuns.EgressIsLegal | crates/turmoil-net/src/kernel/mod.rs:624-646 | What a kernel does by itself in an egress continues every such run; its own loopback packets never carry the peer's address |
| KernelRuns.PerformHomed | crates/turmoil-net/src/kernel/tcp.rs:131-192 | Every packet a kernel queues comes from an address of its own |
| Projection.EventIsStep | crates/turmoil-net/src/kernel/tcp.rs:131-276 | Every kernel event on the tuple is one step of the connection: block, lingering, bytes, segments sent |
| Projection.OtherEvent | crates/turmoil-net/src/kernel/tcp.rs:131-276 | Every other event leaves the block on the tuple alone and sends nothing on it |
| StackSpec.PerformKeeps | crates/turmoil-net/src/kernel/mod.rs:440-464 | Every event of a kernel keeps its indices, ready queues and backlogs coherent |
| Retransmit.RetransmitBudget | crates/turmoil-net/src/kernel/tcp.rs:1136-1195 | Whatever arrives and is called, a flow times out exactly at max(retx_threshold, 1) * (retx_max + 1) counted passes since snd_una last moved, after exactly retx_max retransmissions, one per full period; what each of these sends is `Delivery.RetransmissionResends` and `Delivery.HandshakeIsResent` |
| Delivery.RetransmissionResends | crates/turmoil-net/src/kernel/tcp.rs:1177-1187 | A sweep that retransmits makes the next segmentation send every buffered byte the window admits again, numbered on from snd_una, the FIN last exactly when it is queued and the window has room for it |
| Delivery.HandshakeIsResent | crates/turmoil-net/src/kernel/tcp.rs:1201-1230 | A SYN or SYN-ACK without an answer is sent again as it was |
| Delivery.SegmentOneNumbers | crates/turmoil-net/src/kernel/tcp.rs:1267-1326 | Segments of one sweep are numbered without gap or overlap from snd_nxt, and carry data or a FIN |
| Delivery.AllDelivered | crates/turmoil-net/src/kernel/tcp.rs:281-405 | One round of segmentation carries the whole send buffer and the FIN to an end that expects it, in order, and its last acknowledgement alone clears the sender |
| Delivery.LossIsRepaired | crates/turmoil-net/src/kernel/tcp.rs:1177-1187 | So does a retransmission, whatever was lost of the data in flight, if the receiver took none of it and has room |
| Delivery.RetransmissionAnsweredIff | crates/turmoil-net/src/kernel/tcp.rs:334-374 | A retransmission is answered exactly if the first byte the receiver misses lies a multiple of the MSS into it, or is the FIN; so after the loss of an acknowledgement alone it never is |
| Delivery.WrittenIsRead | crates/turmoil-net/src/kernel/tcp.rs:905-943 | What send accepts on one side, recv returns on the other, whole, and the sender's buffer is free again; also into a half-closed connection |
| Delivery.CallsByState | crates/turmoil-net/src/kernel/tcp.rs:1021-1038 | With nothing to read, recv waits while the peer may still send, also after one's own shutdown, and returns 0 once its FIN came; send after shutdown is BrokenPipe; neither works before the connection is open |
| Delivery.BackpressureIff | crates/turmoil-net/src/kernel/tcp.rs:930-943 | send waits exactly while the buffer is full, else fills it as far as the bytes go and returns how far; an acknowledgement of everything ends the wait |
| Delivery.WindowReopensIff | crates/turmoil-net/src/kernel/tcp.rs:1051-1055 | A read lets a sender stalled on a closed window go on exactly if it takes half of the receive capacity or more; no sweep does |
| Delivery.SmallReadsStall | crates/turmoil-net/src/kernel/tcp.rs:1051-1055 | So any number of smaller reads, to the last byte, leave it stalled for good |
| Delivery.ResetIsReported | crates/turmoil-net/src/kernel/tcp.rs:724-765 | After a RST, send, recv and shutdown all report ConnectionReset, and a connect in progress ConnectionRefused |
| Delivery.TimeoutIsReported | crates/turmoil-net/src/kernel/tcp.rs:733-765 | After a spent budget they, and a connect in progress, report TimedOut; before, nothing of the connection is lost |
| TcbSpec.AckedBytesFit | crates/turmoil-net/src/kernel/tcp.rs:300-315 | For any ACK, late, stale or too far, split_to is asked for no more than the buffer holds, and the FIN is acknowledged exactly together with the last byte |
| TcbSpec.OnSegmentKeepsSendSide | crates/turmoil-net/src/kernel/tcp.rs:281-405 | No inbound segment breaks the layout of the send side, moves snd_una past what is in flight, or adds to what is left to send |
| TcbSpec.CallsKeepSendSide | crates/turmoil-net/src/kernel/tcp.rs:905-977 | Neither do send, shutdown and recv break it |
| TcbSpec.CheckRetxKeepsSendSide | crates/turmoil-net/src/kernel/tcp.rs:1177-1187 | Nor do a go-back-N rewind and giving up |
| TcbSpec.SegmentOneSendsAll | crates/turmoil-net/src/kernel/tcp.rs:1267-1326 | Segmentation puts on the wire exactly the unsent bytes the window admits, in order, in pieces of at most one MSS, and changes nothing but snd_nxt |
| TcbSpec.SegmentOneSendsFin | crates/turmoil-net/src/kernel/tcp.rs:1291-1300 | The FIN goes out as the last segment, exactly when it is queued, all bytes before it are on the wire and the window has room |
| SeqSpace.Distance | crates/turmoil-net/src/kernel/tcp.rs:301-302 | wrapping_sub recovers the distance of two stream positions less than 2^32 apart, and its complement when taken the wrong way round |
| SeqSpace.SamePosition | crates/turmoil-net/src/kernel/tcp.rs:337-337 | Two positions carry the same number exactly when congruent modulo 2^32 |
| Handshake.OpeningCompletes | crates/turmoil-net/src/kernel/tcp.rs:407-490 | SYN, SYN-ACK and ACK leave both ends Established, in step, with nothing buffered and a window to send into, for any two initial sequence numbers, wrapping included; the connect is Pending before and Ready then |
| Handshake.ClosingCompletes | crates/turmoil-net/src/kernel/tcp.rs:948-977 | Shutdown on one side and then the other takes any open pair whose sent bytes are acknowledged, whatever it carried and has yet to read, through FinWait2 and CloseWait to Closed on both, with no abort and nothing unread lost, if the windows have room for the FINs |
| Handshake.CrossingCloseCompletes | crates/turmoil-net/src/kernel/tcp.rs:304-369 | Shutdown on both sides at once, the FINs crossing, closes both through Closing as cleanly |
| Handshake.RefusalIsReported | crates/turmoil-net/src/kernel/tcp.rs:143-192 | A SYN that finds no listener is answered by a RST acknowledging it, and the connecting side reports ConnectionRefused |
| Handshake.StraySegmentIsReset | crates/turmoil-net/src/kernel/tcp.rs:154-192 | A segment to a connection that is gone is answered by a RST numbered as its sender expects |
| Handshake.WindowIsHonoured | crates/turmoil-net/src/kernel/tcp.rs:337-346 | A segment next in order and within the advertised window is taken whole; nothing overruns the receive buffer |
| Handshake.SegmentsFitTheLink | crates/turmoil-net/src/kernel/tcp.rs:1331-1343 | Every packet of a segmentation sweep, headers included, fits the MTU of the link it leaves by |
| Handshake.SegmentsFillTheLink | crates/turmoil-net/src/kernel/tcp.rs:1331-1343 | and the first packet fills it exactly, with enough to send and a window to match |
| Handshake.SynAdmittedIff | crates/turmoil-net/src/kernel/tcp.rs:407-434 | A SYN that finds a listener opens a connection, in handshake and answered, exactly when handshaking children on the endpoint plus ready ones are below the backlog; otherwise nothing changes |
| Accepting.CompletionIsQueued | crates/turmoil-net/src/kernel/tcp.rs:242-258 | The ACK that completes a child's handshake, while a listener serves its endpoint, appends the child to the ready queue of the listener found, and touches no other queue |
| Accepting.PerformFollows | crates/turmoil-net/src/kernel/tcp.rs:492-510 | Through every kernel event: a socket that waits for accept either waited before, queued as before, or just left its handshake, and is queued exactly if it was not aborted |
| Accepting.FinishedIsQueued | crates/turmoil-net/src/kernel/tcp.rs:492-510 | So after any events every finished handshake nobody was given is in an accept queue, unless it was aborted |
| Accepting.ResetChildIsForgotten | crates/turmoil-net/src/kernel/tcp.rs:204-207 | A child whose handshake is reset is in no queue and stays for ever, and a new SYN on its tuple is not answered |
| Accepting.ConnectIsAccepted | crates/turmoil-net/src/kernel/mod.rs:440-464 | Between any two coherent kernels, connecting to an endpoint whose listener has room leads by SYN, SYN-ACK and ACK to an open pair of blocks, the child at the end of the listener's queue; with nobody before it, accept hands over the child, whose peer is the client's endpoint |
| Accepting.ListenerCloseResets | crates/turmoil-net/src/kernel/tcp.rs:665-694 | Closing a listener sends each unaccepted child's peer one RST numbered as it expects, nothing else, and the children are gone |
| Accepting.CloseResetsIff | crates/turmoil-net/src/kernel/tcp.rs:553-630 | Closing a live connection resets it exactly if received bytes were never read; otherwise it stays, its write side shut and its buffered bytes kept |
| Accepting.DoneIsReaped | crates/turmoil-net/src/kernel/tcp.rs:702-718 | A dropped connection that is done is reaped, and its tuple, and its port if nobody else is bound there, are free again |
| SocketTable.FindConnectionIsLinearScan | crates/turmoil-net/src/kernel/socket.rs:479-481 | The 4-tuple index finds exactly the socket a scan by bound endpoint and peer would |
| SocketTable.FindByBindIsLinearScan | crates/turmoil-net/src/kernel/socket.rs:456-462 | The bind index lists exactly the sockets bound to a key, once each |
| SocketTable.HandshakesAreChildren | crates/turmoil-net/src/kernel/tcp.rs:808-822 | Counting handshakes through the 4-tuple index counts each handshaking child of the endpoint once |
| SocketTable.RemoveKeeps | crates/turmoil-net/src/kernel/socket.rs:447-454 | Removing a socket no other listener has queued leaves indices, ready queues and backlogs coherent |
| SocketTable.SetTcbKeeps | crates/turmoil-net/src/kernel/tcp.rs:755-765 | So does replacing a block by one for the same peer, aborted or not |
| SocketTable.PromoteKeeps | crates/turmoil-net/src/kernel/tcp.rs:492-510 | So does promotion: a child moves from the handshake count to the ready queue of the listener serving its endpoint, within the backlog |
| SocketTable.AcceptKeeps | crates/turmoil-net/src/kernel/mod.rs:440-464 | So does accept: the oldest ready child, live, with a TCB and queued once, becomes the application's |
| SocketTable.AddChildKeeps | crates/turmoil-net/src/kernel/tcp.rs:436-471 | So does admitting a SYN against the backlog of its listener |
| SocketTable.ConnectKeeps | crates/turmoil-net/src/kernel/tcp.rs:81-108 | So does connecting an unbound socket from a free port |
| SocketTable.BindKeeps | crates/turmoil-net/src/kernel/mod.rs:300-303 | So does binding a key nobody is bound to |
| SocketTable.ListenKeeps | crates/turmoil-net/src/kernel/mod.rs:428-434 | So does listening on an endpoint without children |
| SocketTable.LingerKeeps | crates/turmoil-net/src/kernel/tcp.rs:610-630 | So does dropping a descriptor while its connection lingers |
| KernelSpec.FindListenerExact | crates/turmoil-net/src/kernel/tcp.rs:774-803 | A listener is found exactly if some listener of the family and port is on the address or the wildcard; it is such a one, and the one on the concrete address if there is any |
| KernelSpec.InboundKeeps | crates/turmoil-net/src/kernel/tcp.rs:131-159 | Whatever TCP segment arrives, the indices agree with the sockets, every ready fd is live and queued once, and handshaking plus ready children stay within the backlog of a listener on a concrete address |
| KernelSpec.ReplyRanksLower | crates/turmoil-net/src/kernel/tcp.rs:131-192 | A reply ranks strictly below what provoked it: SYN, then SYN-ACK, data or FIN, then ACK, then RST |
| KernelSpec.InboundAddsNoBacklog | crates/turmoil-net/src/kernel/tcp.rs:194-276 | No inbound segment adds to the unsent bytes and FINs of the host |
| KernelSpec.SegmentationProgress | crates/turmoil-net/src/kernel/tcp.rs:1237-1265 | A segmentation sweep that emits anything leaves strictly less to send |
| KernelSpec.SweepKeeps | crates/turmoil-net/src/kernel/tcp.rs:1136-1195 | Retransmit and segmentation sweeps keep the table coherent |
| KernelSpec.UnacceptedExact | crates/turmoil-net/src/kernel/tcp.rs:639-664 | The children reset with a closing listener are exactly those queued to it or handshaking on its port and address, each once |
| KernelSpec.CloseListenerKeeps | crates/turmoil-net/src/kernel/tcp.rs:631-695 | Closing a listener with its unaccepted children leaves the table coherent |
| KernelSpec.ReapKeeps | crates/turmoil-net/src/kernel/tcp.rs:702-718 | Reaping a finished socket touches no descriptor an application holds and leaves the table coherent |
| HostKernel.Kernel.constructor | crates/turmoil-net/src/kernel/mod.rs:160-174 | A new kernel has no sockets, an empty queue, and is coherent |
| HostKernel.Kernel.AddAddress | crates/turmoil-net/src/kernel/mod.rs:226-230 | The address is configured, once, and no other changes |
| HostKernel.Kernel.Insert | crates/turmoil-net/src/kernel/socket.rs:426-431 | A socket under the next id; ids are never reused |
| HostKernel.Kernel.InsertBinding | crates/turmoil-net/src/kernel/socket.rs:464-466 | The socket is appended to those bound to the key |
| HostKernel.Kernel.AllocatePort | crates/turmoil-net/src/kernel/socket.rs:543-559 | The first ephemeral port free from the cursor on, going round; none exactly when all are taken; the cursor moves just past it |
| HostKernel.FirstOfFamily | crates/turmoil-net/src/kernel/tcp.rs:871-875 | The first configured address of the family of the destination, none exactly when there is none |
| HostKernel.Kernel.ChoosePort | crates/turmoil-net/src/kernel/mod.rs:257-263 | The port asked for, or the first ephemeral one free from the cursor on, the cursor moving past it; none exactly when none was asked for and all are taken |
| HostKernel.Kernel.RemoveSocket | crates/turmoil-net/src/kernel/socket.rs:447-454 | The socket and every index entry that points at it go |
| HostKernel.Kernel.Open | crates/turmoil-net/src/kernel/mod.rs:183-185 | A fresh unbound socket under a new descriptor |
| HostKernel.Kernel.BindNew | crates/turmoil-net/src/kernel/mod.rs:300-303 | One new socket, bound under one new key, and a coherent table |
| HostKernel.Kernel.Bind | crates/turmoil-net/src/kernel/mod.rs:244-304 | AddrNotAvailable exactly for a foreign address; AddrInUse exactly on a conflict, or exhaustion where no port was asked for; else a new socket under the one new key, in conflict with none |
| HostKernel.Kernel.Listen | crates/turmoil-net/src/kernel/mod.rs:428-434 | A bound socket becomes a listener with an empty queue; NotFound without one; the table stays coherent |
| HostKernel.Kernel.BindListener | crates/turmoil-net/src/shim/tokio/net/tcp/listener.rs:18-28 | Bind then listen, as the shim does, needs nothing more and leaves a coherent listener, or fails as bind does and changes nothing |
| HostKernel.Kernel.ChooseSource | crates/turmoil-net/src/kernel/tcp.rs:864-884 | A client leaves from localhost towards loopback, else from the first address of the family, on a free port; AddrNotAvailable exactly when there is no such address |
| HostKernel.Kernel.StartConnect | crates/turmoil-net/src/kernel/tcp.rs:81-126 | Binding, block, index entry and SYN of a first poll together keep the table coherent |
| HostKernel.Kernel.InitialSequence | crates/turmoil-net/src/kernel/tcp.rs:892-899 | Successive connections start 2^16 apart, wrapping |
| HostKernel.Kernel.PollConnect | crates/turmoil-net/src/kernel/tcp.rs:47-128 | First poll: free local source, block in SynSent, index entry, SYN queued. Later polls: Ready, Pending, TimedOut or ConnectionRefused by the block |
| HostKernel.Kernel.PollAccept | crates/turmoil-net/src/kernel/mod.rs:440-464 | The oldest ready child and its peer, taken off the queue; Pending exactly when the queue is empty |
| HostKernel.Kernel.PollSend | crates/turmoil-net/src/kernel/tcp.rs:905-943 | Result and new block are those of Send, which the run theorems are about; errors without a socket or block; nothing else changes |
| HostKernel.Kernel.SendOn | crates/turmoil-net/src/kernel/tcp.rs:905-943 | The branches of poll_send on a block are those of Send |
| HostKernel.Kernel.PollShutdownWrite | crates/turmoil-net/src/kernel/tcp.rs:948-977 | Likewise for ShutdownWrite |
| HostKernel.Kernel.ShutdownWriteOn | crates/turmoil-net/src/kernel/tcp.rs:948-977 | The branches of poll_shutdown_write on a block are those of ShutdownWrite |
| HostKernel.Kernel.DrainInto | crates/turmoil-net/src/kernel/tcp.rs:1041-1050 | The buffers receive, in order, the first min(available, room) bytes, and exactly the rest stays |
| HostKernel.Kernel.PollRecvVectored | crates/turmoil-net/src/kernel/tcp.rs:992-1087 | Result, new block and window update are those of Recv |
| HostKernel.Kernel.RecvOn | crates/turmoil-net/src/kernel/tcp.rs:1000-1087 | The branches of poll_recv_vectored on a block are those of Recv |
| HostKernel.Kernel.TakeAck | crates/turmoil-net/src/kernel/tcp.rs:300-332 | The in-place ACK processing is DrainAck |
| HostKernel.Kernel.TakeData | crates/turmoil-net/src/kernel/tcp.rs:334-346 | The in-place data acceptance is AcceptData |
| HostKernel.Kernel.TakeFin | crates/turmoil-net/src/kernel/tcp.rs:348-369 | The in-place FIN acceptance is AcceptFin |
| HostKernel.Kernel.HandleEstablished | crates/turmoil-net/src/kernel/tcp.rs:281-405 | ACK, data, FIN and reply together are OnEstablished |
| HostKernel.Kernel.HandleSegment | crates/turmoil-net/src/kernel/tcp.rs:194-276 | RST, handshake, open and closed states together are OnSegment |
| HostKernel.Kernel.HandleOnConnection | crates/turmoil-net/src/kernel/tcp.rs:194-276 | New table and reply are those of OnConnection, of which `Accepting.CompletionIsQueued` shows that a finished child reaches the ready queue |
| HostKernel.Kernel.AcceptSyn | crates/turmoil-net/src/kernel/tcp.rs:407-490 | New table, sequence source and reply are those of OnSyn |
| HostKernel.Kernel.AdmitChild | crates/turmoil-net/src/kernel/tcp.rs:436-490 | A child bound to the tuple, in SynReceived, indexed, and its SYN-ACK queued |
| HostKernel.Kernel.PushToListener | crates/turmoil-net/src/kernel/tcp.rs:492-510 | The child is appended to the ready queue |
| HostKernel.Kernel.DeliverTcp | crates/turmoil-net/src/kernel/tcp.rs:131-159 | Connection, listener or RST: table, sequence source and reply are those of Inbound |
| HostKernel.Kernel.FindListenerOn | crates/turmoil-net/src/kernel/tcp.rs:774-803 | The nested scan finds what FindListener specifies |
| HostKernel.Kernel.Deliver | crates/turmoil-net/src/kernel/mod.rs:605-610 | Table and queue change as Inbound says, the kernel stays valid, the reply weighs less than the packet, and no more is left to send |
| HostKernel.Kernel.NextSegment | crates/turmoil-net/src/kernel/tcp.rs:1275-1301 | The next segment off the send buffer, or none exactly when window or data forbid |
| HostKernel.Kernel.Chop | crates/turmoil-net/src/kernel/tcp.rs:1267-1326 | The loop emits exactly the segments SegmentOne specifies, and ends |
| HostKernel.Kernel.SegmentOneOf | crates/turmoil-net/src/kernel/tcp.rs:1267-1326 | One socket of the segmentation sweep |
| HostKernel.Kernel.CountPass | crates/turmoil-net/src/kernel/tcp.rs:1165-1188 | One block of the retransmit sweep is CheckRetx, of which `Delivery.RetransmissionResends` shows what it makes go out again |
| HostKernel.Kernel.CheckRetxOf | crates/turmoil-net/src/kernel/tcp.rs:1161-1230 | One socket of the retransmit sweep, a stuck handshake re-emitted from snd_una - 1 |
| HostKernel.Kernel.SweepAll | crates/turmoil-net/src/kernel/tcp.rs:1136-1265 | Every socket is visited once, oldest first, and the packets leave in that order |
| HostKernel.Kernel.CollectUnaccepted | crates/turmoil-net/src/kernel/tcp.rs:639-664 | The list built is Unaccepted |
| HostKernel.Kernel.ResetAll | crates/turmoil-net/src/kernel/tcp.rs:665-694 | One RST for each, in order, and all of them removed |
| HostKernel.Kernel.Linger | crates/turmoil-net/src/kernel/tcp.rs:610-630 | The descriptor is gone; the block stays, its FIN queued behind the accepted bytes unless it was already |
| HostKernel.Kernel.CloseListener | crates/turmoil-net/src/kernel/tcp.rs:631-695 | The listener and exactly its unaccepted children go, each child with one RST |
| HostKernel.Kernel.Close | crates/turmoil-net/src/kernel/tcp.rs:533-698 | Unread bytes: RST and gone. Open otherwise: lingers behind its FIN. Listener: gone with its children. All else: gone silently |
| HostKernel.Kernel.ReapClosed | crates/turmoil-net/src/kernel/tcp.rs:702-718 | Exactly the dropped sockets that TCP has finished with go |
| HostKernel.Kernel.Pump | crates/turmoil-net/src/kernel/mod.rs:634-641 | Packets for other hosts are handed out, all of them, in order, and nothing else; local ones are delivered; the queue left weighs less |
| StackSpec.AwayExact | crates/turmoil-net/src/kernel/mod.rs:634-641 | What is handed out is exactly what is not for the host itself |
| HostKernel.Kernel.LoopBack | crates/turmoil-net/src/kernel/mod.rs:636-637 | A packet for the host itself is delivered to it, as an event of the kernel |
| HostKernel.Kernel.Round | crates/turmoil-net/src/kernel/mod.rs:629-642 | One round: segment, then pump; it stops on an empty queue, else less is left to send, or as much and a lighter queue |
| HostKernel.Kernel.PumpDry | crates/turmoil-net/src/kernel/mod.rs:629-642 | The rounds end |
| HostKernel.Kernel.Retransmit | crates/turmoil-net/src/kernel/mod.rs:628-628 | The retransmit sweep keeps the kernel valid |
| HostKernel.Kernel.SegmentEvery | crates/turmoil-net/src/kernel/mod.rs:630-630 | After segmentation nothing more can be sent; if it emitted anything, less is left to send |
| HostKernel.Kernel.Egress | crates/turmoil-net/src/kernel/mod.rs:624-646 | Ends from every valid state, by unsent bytes and FINs and then the summed rank of queued packets; leaves the queue empty, everything the windows admit on the wire and no finished socket behind; is a sequence of sweeps, loopback deliveries and reapings; and of all packets queued before or on the way hands out exactly those for other hosts, in order |
| HostKernel.Kernel.Handle | crates/turmoil-net/src/kernel/mod.rs:176-464 | Each event that the runs of two kernels are made of is what the corresponding method does to table, sequence source, descriptors and queue |
| FsNamespace.WalkRefinesReplay | crates/turmoil-fs/src/lib.rs:1350-1384 | For every log in which no rename has equal source and destination, the backward walk gives every path its kind after replaying creations, removals and renames forward, a rename of an absent path clearing its destination |
| FsNamespace.SelfRenameIff | crates/turmoil-fs/src/lib.rs:1370-1371 | After any further operation walk and replay go on agreeing exactly unless it renames an existing path to itself |
| FsNamespace.SelfRenameLosesFile | crates/turmoil-fs/src/lib.rs:1370-1371 | Concrete: create, rename to itself, and the walk reports nothing while replay has the file |
| FsNamespace.PersistsIff | crates/turmoil-fs/src/lib.rs:1205-1290 | Persisting one operation gives every path the kind the walk reports exactly under a stated condition on kinds; otherwise a stale entry of another kind shines through |
| FsNamespace.StaleFileShinesThrough | crates/turmoil-fs/src/lib.rs:1272-1280 | Concrete: a symlink renamed onto a file is a symlink to the walk and a file once persisted |
| FsNamespace.WalkRefinesPersistence | crates/turmoil-fs/src/lib.rs:1350-1384 | For every log of clean operations, the walk reports of every path exactly the kind it has once the whole log is persisted |
| FsNamespace.AdmittedIsCleanIff | crates/turmoil-fs/src/lib.rs:1426-1594 | An operation that passes the checks of its call is clean exactly when it renames nothing to itself, renames onto nothing of another kind, and creates a file over nothing |
| FsNamespace.ListingIsExact | crates/turmoil-fs/src/lib.rs:2192-2248 | For every log without pending hard links, every directory listing is precisely the children that exist |
| FsNamespace.ListingStepIff | crates/turmoil-fs/src/lib.rs:2219-2245 | Listings stay exact through every operation but a hard link at a name not stored, created or renamed to before as a file |
| FsNamespace.HardLinkIsHidden | crates/turmoil-fs/src/lib.rs:2219-2245 | Concrete: a pending hard link exists and is not listed |
| FsNamespace.HasChildrenIff | crates/turmoil-fs/src/lib.rs:1475-1516 | Every name has been accounted for by stable storage or a pending creation, at every point of the log, exactly if no operation was overlooked; then the emptiness check of rmdir and rename finds a child in precisely the directories that have one |
| FsNamespace.ChecksStepIff | crates/turmoil-fs/src/lib.rs:1475-1516 | While every name is accounted for, one more operation leaves the emptiness check exact, in every directory, exactly unless it is overlooked and lands in an otherwise empty directory |
| FsNamespace.CountedStepIff | crates/turmoil-fs/src/lib.rs:1475-1516 | One more operation leaves every name accounted for exactly unless it is a hard link, or a rename of an existing path to another, to a name not accounted for under that kind |
| FsNamespace.RenamedChildIsOverlooked | crates/turmoil-fs/src/lib.rs:1495-1514 | Concrete: a directory whose only child was renamed into it passes for empty |
| FsNamespace.LinkedChildIsOverlooked | crates/turmoil-fs/src/lib.rs:1495-1514 | Concrete: so does one whose only child was linked into it, and it can be removed |
| FsContent.ContentIsReplay | crates/turmoil-fs/src/lib.rs:1205-1262 | For a file not renamed, linked or removed itself, whatever the log does to others, replaying the whole log leaves exactly its own data operations applied in order |
| FsContent.LengthAgrees | crates/turmoil-fs/src/lib.rs:1387-1423 | The merged length is the length of that content, shrinking truncations included |
| FsContent.ByteAgrees | crates/turmoil-fs/src/lib.rs:1787-1845 | Byte by byte, for every log: what is persisted is what is read, except that a byte truncated off after its newest write is 0 |
| FsContent.ReadIsReplayIff | crates/turmoil-fs/src/lib.rs:1787-1845 | For such a file, read_file at any offset and length returns the slice of the replayed content exactly when no byte of its range resurfaces from behind a truncation |
| FsContent.ReadIsReplay | crates/turmoil-fs/src/lib.rs:1787-1845 | With creation, writes and non-shrinking truncations of it every read is that slice |
| FsContent.ShrinkThenExtend | crates/turmoil-fs/src/lib.rs:1817-1842 | Concrete: shrink then extend, and the old byte is read while 0 would be persisted |
| FsContent.UnmovedPaths | crates/turmoil-fs/src/lib.rs:1294-1331 | A path not itself renamed or linked has its content, and every write that reaches it, under its own name |
| FsContent.UnmovedReads | crates/turmoil-fs/src/lib.rs:1787-1861 | so reading it through links and renames is reading it under its name |
| FsLinks.ResolvesIff | crates/turmoil-fs/src/lib.rs:1324-1332 | A search for the content path that ends does so within as many hard links as the log is long |
| FsLinks.ResolveStepIff | crates/turmoil-fs/src/lib.rs:1309-1332 | While every search ends, one more operation leaves that so exactly unless it is a hard link, at a path that has none yet, whose target's own chain stops at that path |
| FsLinks.AllResolveIff | crates/turmoil-fs/src/lib.rs:1309-1332 | Every search has ended at every point of the log exactly if no such link was ever made |
| FsLinks.LinkCycle | crates/turmoil-fs/src/lib.rs:1309-1332 | Concrete: three admitted calls, the last a closing link, after which the search never ends |
| FsSync.SyncPersists | crates/turmoil-fs/src/lib.rs:1607-1645 | A file sync puts the file's whole content on stable storage and changes no other file |
| FsSync.SyncChangesNoReadIff | crates/turmoil-fs/src/lib.rs:1607-1686 | A sync of a file not itself renamed or linked changes a read of any file, itself renamed or linked or not, exactly when that file has the synced one as its content and a byte of the range resurfaces |
| FsSync.SyncChangesNoRead | crates/turmoil-fs/src/lib.rs:1607-1686 | With non-shrinking truncations of the synced file it changes no read of any file |
| FsSync.SyncSparesOthers | crates/turmoil-fs/src/lib.rs:1607-1686 | In every log, a sync changes no read of a file whose content the synced file does not feed |
| FsSync.SyncKeepsReadIff | crates/turmoil-fs/src/lib.rs:1607-1686 | In every log, whatever is renamed or linked: a sync of any file leaves a read of any file as it was exactly when the other paths' operations reach as far into the range and every byte is kept: it does not resurface, and no write of the synced path lies on top of a different byte |
| FsSync.SyncOverRenamed | crates/turmoil-fs/src/lib.rs:1607-1686 | Concrete: syncing a recreated file changes what its renamed predecessor reads |
| FsCapacity.UsedCoversDemand | crates/turmoil-fs/src/lib.rs:1028-1066 | used_bytes never falls below the sum over files of max(persisted length, merged length) |
| FsCapacity.UsedIsExactIff | crates/turmoil-fs/src/lib.rs:1028-1066 | and equals it exactly if no pending operation extends or truncates a file that is already longer than persisted: always with nothing pending |
| FsCapacity.WriteAdmittedIff | crates/turmoil-fs/src/lib.rs:1070-1078 | While it is exact and the file reads no shorter than persisted, a write is admitted exactly if it extends nothing or all files fit the disk with it |
| FsQuota.CapacityHolds | crates/turmoil-fs/src/shim/std/fs/mod.rs:852-860 | In every run of creations, admitted writes, non-extending truncations, syncs and crashes that sum never exceeds the capacity |
| FsQuota.TruncateFitsIff | crates/turmoil-fs/src/shim/std/fs/mod.rs:584-612 | A truncation, which is not checked, keeps within the capacity exactly when what the files need plus the extension does |
| FsQuota.TruncateOverfills | crates/turmoil-fs/src/shim/std/fs/mod.rs:584-612 | Concrete: created and extended on a disk with no room |
| FsDurability.CrashEqualsLastSync | crates/turmoil-fs/src/lib.rs:1111-1137 | After any run of creations, writes, truncations, syncs and crashes that creates no file under the name of a durable directory, a crash leaves exactly the files whose directory was synced since they were created, with the bytes readable right after their last sync, and exactly the directories that were synced, themselves or with their parent |
| FsDurability.CrashLeaves | crates/turmoil-fs/src/lib.rs:1111-1137 | In any state, an untorn crash leaves of a path what it was persisted as, file, directory or symlink, with its bytes or target, exactly if its entry is durable |
| FsMoves.RenameMovesBytes | crates/turmoil-fs/src/lib.rs:1272-1280 | For a stored file with one pending rename: syncing the directory of either name changes no read of the new one; after a crash then, the new name has the same bytes exactly if its own directory was synced or its entry was durable, and the old name is gone |
| FsMoves.LinkSharesBytes | crates/turmoil-fs/src/lib.rs:1205-1290 | For a stored file with one pending hard link: link and target read the same before and after syncing the link's directory, and the link survives a crash with the bytes |
| FsMoves.RemovalNeedsSync | crates/turmoil-fs/src/lib.rs:1698-1784 | A pending removal of a durable entry shows at once, is undone by a crash before its directory is synced, and by none after |
| FsMoves.NewSymlinkKeepsTarget | crates/turmoil-fs/src/lib.rs:1959-1998 | A new symlink reads as it was made: through the log, after the sync of its directory, after a crash then |
| FsMoves.RenameMovesTarget | crates/turmoil-fs/src/lib.rs:1959-1998 | A stored symlink that is renamed takes its target along, likewise |
| FsMoves.WriteIsSeenIff | crates/turmoil-fs/src/lib.rs:1787-1858 | A write under one name is read back through any name, whole, with no other byte changed, exactly if it feeds the content path of the reader, by being it or by pending renames; otherwise no read through that name sees anything of it |
| FsMoves.TruncationIsSeenIff | crates/turmoil-fs/src/lib.rs:1387-1423 | A truncation sets the length under the same condition, and otherwise changes nothing |
| FsMoves.WriteAfterRenameIsLost | crates/turmoil-fs/src/lib.rs:1698-1784 | A file renamed and then written under its new name reads as before; and though the write is synced, syncing the directory puts the old bytes in its place |
| FsMoves.ForeignWriteShows | crates/turmoil-fs/src/lib.rs:1848-1858 | Concrete: a file moves away, another is written and moves into its old place, and the write shows in the first |
| FsMoves.RelinkIff | crates/turmoil-fs/src/lib.rs:1309-1321 | A new hard link is followed to its target exactly if none was pending at the path before, not even one since removed, or that had the same target |
| FsMoves.RelinkedReadsOld | crates/turmoil-fs/src/lib.rs:1309-1321 | Concrete: linked, removed and linked to another file, all admitted, the path reads as the first |
| FsTree.TreeStepIff | crates/turmoil-fs/src/lib.rs:1426-1594 | Every call that passes its checks keeps every entry inside a directory, except exactly those that do away with the root or with a directory in which something is left |
| FsTree.RemovableIff | crates/turmoil-fs/src/lib.rs:1458-1472 | While the emptiness check is exact, exactly the empty directories can be removed, and the tree stays one unless that was the root |
| FsTree.RenamableIff | crates/turmoil-fs/src/lib.rs:1545-1594 | Then a directory can be renamed exactly to a free name in a directory or onto an empty directory, anything else onto what is no directory |
| FsTree.RenameKeepsTreeIff | crates/turmoil-fs/src/lib.rs:1545-1594 | and the tree stays one exactly if what was renamed was no directory, or an empty one other than the root and the new parent |
| FsDurability.CreateOverDurableIff | crates/turmoil-fs/src/lib.rs:1698-1784 | A newly created and synced file survives a crash before its directory is synced exactly if its name is already a durable entry |
| FsDurability.FileOverDirectory | crates/turmoil-fs/src/lib.rs:1698-1784 | Concrete run in which that happens |
| FsDurability.SyncDirAt | crates/turmoil-fs/src/lib.rs:1698-1784 | In a log of creations, writes and truncations: what a directory sync does to each path: entry, content, durability and log |
| FsHost.FsState.Kind | crates/turmoil-fs/src/lib.rs:1350-1384 | The loop computes the backward walk |
| FsHost.FsState.HardLinkTarget | crates/turmoil-fs/src/lib.rs:1309-1321 | The oldest pending hard link at the path |
| FsHost.FsState.BeforeRenames | crates/turmoil-fs/src/lib.rs:1294-1305 | Pending renames followed backwards |
| FsHost.FsState.ReadLinkTarget | crates/turmoil-fs/src/lib.rs:1959-1982 | The loops find the target ReadLink specifies |
| FsHost.FsState.IsRenamedTo | crates/turmoil-fs/src/lib.rs:1848-1858 | Pending renames followed forwards |
| FsHost.FsState.ContentOf | crates/turmoil-fs/src/lib.rs:1324-1332 | The recursion finds the content path |
| FsHost.FsState.Length | crates/turmoil-fs/src/lib.rs:1387-1423 | The loop computes the merged length, through links and renames |
| FsHost.FsState.ReadFile | crates/turmoil-fs/src/lib.rs:1787-1845 | The buffer receives exactly the merged bytes of the range, through links and renames; the rest of it is untouched |
| FsHost.FsState.OverlayWrites | crates/turmoil-fs/src/lib.rs:1817-1842 | The loop lays exactly the pending writes that reach the content over it |
| FsHost.FsState.DirEntries | crates/turmoil-fs/src/lib.rs:2192-2248 | The set built is the listing |
| FsHost.FsState.OfKind | crates/turmoil-fs/src/lib.rs:2192-2218 | The scan of stored names finds exactly the children still of their kind |
| FsHost.FsState.NamedBy | crates/turmoil-fs/src/lib.rs:2219-2245 | What one logged operation adds to a scan |
| FsHost.FsState.HasAnyChild | crates/turmoil-fs/src/lib.rs:1475-1516 | The scans of stored names and logged creations are the emptiness check |
| FsHost.FsState.UsedSpace | crates/turmoil-fs/src/lib.rs:1028-1066 | The two loops compute the estimate |
| FsHost.FsState.WriteAt | crates/turmoil-fs/src/shim/std/fs/mod.rs:852-866 | Admitted exactly when bytes past the end fit the estimate; then logged |
| FsHost.FsState.CheckSpace | crates/turmoil-fs/src/lib.rs:1070-1078 | Space exactly when the estimate and the bytes fit the capacity, or there is none set |
| FsHost.FsState.SetFileLen | crates/turmoil-fs/src/lib.rs:1873-1887 | Logged, unchecked |
| FsHost.FsState.CreateNew | crates/turmoil-fs/src/shim/std/fs/mod.rs:1281-1303 | Logged exactly when no file is there and the parent is a directory |
| FsHost.FsState.MakeDir | crates/turmoil-fs/src/lib.rs:1431-1455 | Logged exactly when nothing is there and the parent is a directory |
| FsHost.FsState.MakeSymlink | crates/turmoil-fs/src/lib.rs:1904-1926 | Likewise |
| FsHost.FsState.MakeHardLink | crates/turmoil-fs/src/lib.rs:1929-1956 | Likewise, and the target is a file |
| FsHost.FsState.Unlink | crates/turmoil-fs/src/lib.rs:1528-1542 | Logged exactly for a file or symlink |
| FsHost.FsState.RemoveDirectory | crates/turmoil-fs/src/lib.rs:1458-1472 | Logged exactly for a directory whose emptiness check passes |
| FsHost.FsState.RenamePath | crates/turmoil-fs/src/lib.rs:1545-1594 | Succeeds exactly when the checks pass, and then logs the rename |
| FsHost.FsState.ApplyToStored | crates/turmoil-fs/src/lib.rs:1205-1290 | One operation applied in place to stable storage is Apply, whose kinds `FsNamespace.PersistsIff`, data `FsContent.ContentIsReplay` and moved bytes `FsMoves.RenameMovesBytes` and `FsMoves.LinkSharesBytes` are about |
| FsHost.FsState.SyncData | crates/turmoil-fs/src/lib.rs:1607-1686 | fsync and fdatasync: the file's data operations leave the log in order, the others stay in order |
| FsHost.FsState.SyncEntries | crates/turmoil-fs/src/lib.rs:1698-1784 | The directory's entries leave the log, in order, and become durable |
| FsHost.FsState.Crashes | crates/turmoil-fs/src/lib.rs:1111-1137 | The log and whatever has no durable entry are lost |
| StreamRuns.CreditConservation | crates/turmoil/src/net/tcp/stream.rs:740-789 | In every run, credits plus data segments on the network, in the reorder buffer, in the channel and lost are the capacity; so the channel has room for whatever waits, and nothing next in order is left behind: the full branch is unreachable |
| StreamRuns.InOrderDelivery | crates/turmoil/src/host.rs:420-469 | In every run over a reordering, lossy network that may also fail to take a segment, the bytes read are a prefix of the bytes that writes accepted |
| StreamRuns.NoDuplicates | crates/turmoil/src/host.rs:438-440 | In every run, a segment on the network is neither in the reorder buffer nor consumed: the duplicate assertion never fires |
| StreamRuns.EofOnlyAtTheEnd | crates/turmoil/src/net/tcp/stream.rs:345-436 | In every run, either kind of read reports end of file only after the peer shut down and every byte its writes accepted was read |
| StreamProgress.WritesAreAccepted | crates/turmoil/src/net/tcp/stream.rs:600-604 | In every run, the counts that writes return name exactly the bytes accepted, in order: those of which reads return a prefix |
| StreamProgress.BlockedIff | crates/turmoil/src/net/tcp/stream.rs:758-773 | In every run, a write is told to wait exactly while as many data segments as the capacity are travelling, buffered, unread or lost |
| StreamProgress.ReadExact | crates/turmoil/src/net/tcp/stream.rs:345-403 | A vectored read with bytes at hand returns exactly the first of them, as many as there is room for in all buffers |
| StreamProgress.PollExact | crates/turmoil/src/net/tcp/stream.rs:405-436 | poll_read returns the first of them from one segment, as many as fit |
| StreamProgress.ReadsToTheEnd | crates/turmoil/src/net/tcp/stream.rs:345-403 | In every run with nothing travelling or lost, a read with room returns all the rest that writes took, and with no rest end of file exactly if the writer shut down |
| StreamProgress.ReliableLosesNothing | crates/turmoil/src/host.rs:435-469 | In every run nothing is lost but by the network failing, the reader or its host going away: reordering alone loses nothing |
| StreamSafety.DrainKeeps | crates/turmoil/src/host.rs:442-466 | Draining ends with the next segment not at hand, in order, none lost but one refused |
| StreamRuns.ReadKeeps | crates/turmoil/src/net/tcp/stream.rs:345-403 | A vectored read returns exactly the next unread bytes |
| StreamHost.StreamPipe.constructor | crates/turmoil/src/host.rs:404-418 | Numbers start at 1, the receiver at 0, credits at the capacity |
| StreamHost.StreamPipe.TryAcquire | crates/turmoil/src/net/tcp/stream.rs:758-773 | Takes a credit exactly when there is one |
| StreamHost.StreamPipe.Release | crates/turmoil/src/net/tcp/stream.rs:775-780 | Returns one credit |
| StreamHost.StreamPipe.AssignSeq | crates/turmoil/src/host.rs:420-424 | Consecutive numbers |
| StreamHost.StreamPipe.PostSegment | crates/turmoil/src/net/tcp/stream.rs:600-603 | The number is used up, and the segment travels or is lost |
| StreamHost.StreamPipe.Write | crates/turmoil/src/net/tcp/stream.rs:583-609 | BrokenPipe, nothing, Blocked, or one numbered segment for one credit, both used up even if the network does not take it |
| StreamHost.StreamPipe.CloseWrite | crates/turmoil/src/net/tcp/stream.rs:641-661 | The FIN takes the next number; the side is shut exactly if the network takes the FIN, so a failed shutdown can be tried again |
| StreamHost.StreamPipe.DrainOne | crates/turmoil/src/host.rs:442-466 | One turn of the loop: refused, left for a full channel, or moved on |
| StreamHost.StreamPipe.Buffer | crates/turmoil/src/host.rs:435-469 | The loop moves exactly what Drain says and returns the segment refused |
| StreamHost.StreamPipe.Receive | crates/turmoil/src/host.rs:542-577 | A delivery keeps the invariant, so the duplicate assertion holds on entry |
| StreamHost.StreamPipe.CopyInto | crates/turmoil/src/net/tcp/stream.rs:380-395 | The nested copy loop spreads bytes over the buffers as specified, empty buffers included |
| StreamHost.StreamPipe.TryReadVectored | crates/turmoil/src/net/tcp/stream.rs:345-403 | The outer loop is TryRead, credits returned as segments leave the channel |
| StreamHost.StreamPipe.ReadNothing | crates/turmoil/src/net/tcp/stream.rs:360-376 | Nothing at hand: the bytes so far, not yet, end of file, or reset |
| StreamSpec.Spread | crates/turmoil/src/net/tcp/stream.rs:380-395 | Bytes are left over only when every buffer is full |
| StreamHost.StreamPipe.PollReadInto | crates/turmoil/src/net/tcp/stream.rs:405-436 | poll_read takes from at most one segment, and takes it into hand, credit returned, even when the buffer is full but not of size 0 |
| LinkSafety.LinkConservation | crates/turmoil/src/top.rs:338-462 | In every run each message sent is, once, in exactly one of sent, deliverable to its destination, handed over, dropped |
| LinkSafety.NothingEarly | crates/turmoil/src/top.rs:415-437 | A scheduled message stays with its time until then, unless held, picked for manual delivery, or dropped by a partition |
| LinkSafety.HeldStays | crates/turmoil/src/top.rs:483-508 | A held message moves on only through a release or manual delivery; otherwise it stays, or a partition drops it |
| LinkTiming.ReleaseFrees | crates/turmoil/src/top.rs:493-501 | A release, by call or by chance, makes every held message due: deliverable, or scheduled for now and deliverable at the next tick |
| LinkTiming.NothingHeld | crates/turmoil/src/top.rs:493-501 | Right after a release nothing is held, what was scheduled keeps its time, and both directions carry messages |
| LinkTiming.SendOutcome | crates/turmoil/src/top.rs:374-408 | A new message is due at the clock plus its delay, deliverable at once if that is now; or held; or dropped: by the state of its direction after random breakage and repair |
| LinkTiming.DeliveredOnTime | crates/turmoil/src/top.rs:374-437 | In every run, a message sent in a healthy direction is neither deliverable nor handed over before its send time plus its delay, and is deliverable at the first tick from then on, unless held, picked or dropped |
| LinkTiming.HoldHolds | crates/turmoil/src/top.rs:483-490 | After a hold every message on the link is held, and so is every new one |
| LinkTiming.PartitionStops | crates/turmoil/src/top.rs:510-527 | A one-way partition drops what is sent in its direction until repaired, and leaves the other direction as it was |
| LinkTiming.FullPartitionStops | crates/turmoil/src/top.rs:503-535 | A full one drops both, until repaired |
| LinkTiming.ChanceBreaks | crates/turmoil/src/top.rs:465-481 | A link that carries messages in some direction and breaks by chance drops everything on it and all that is sent, until it is repaired by chance |
| LinkTiming.PickedIsDelivered | crates/turmoil/src/top.rs:316-320 | A message picked by hand is deliverable at the next tick |
| LinkSafety.SettleIsStable | crates/turmoil/src/top.rs:415-437 | The in-place scan is a stable partition |
| LinkSafety.SettleCounts | crates/turmoil/src/top.rs:415-437 | and loses and duplicates nothing |
| LinkHost.NetLink.ProcessDeliverables | crates/turmoil/src/top.rs:415-437 | Removing while scanning computes that partition |
| LinkHost.NetLink.ScanOne | crates/turmoil/src/top.rs:419-434 | A due message moves to the end of its destination's queue; any other stays |
| LinkHost.NetLink.SetTime | crates/turmoil/src/top.rs:410-413 | The clock moves and whatever is due leaves |
| LinkHost.NetLink.Shake | crates/turmoil/src/top.rs:465-481 | Random partition clears the link, random repair releases it |
| LinkHost.NetLink.EnqueueOne | crates/turmoil/src/top.rs:374-408 | Scheduled, held or dropped by the state of its direction |
| LinkHost.NetLink.Send | crates/turmoil/src/top.rs:338-408 | Random breakage or repair, then schedule, hold or drop, then whatever is due |
| LinkHost.NetLink.HoldMessages | crates/turmoil/src/top.rs:483-490 | Both directions hold and every message on the link is held |
| LinkHost.NetLink.ReleaseHeld | crates/turmoil/src/top.rs:493-501 | Both directions heal and the new list is ReleaseAll, of which `LinkTiming.ReleaseFrees` and `LinkTiming.NothingHeld` show that exactly the held messages go |
| LinkHost.NetLink.PartitionFrom | crates/turmoil/src/top.rs:510-518 | One direction breaks and exactly the messages from that host are dropped |
| LinkHost.NetLink.PartitionBoth | crates/turmoil/src/top.rs:503-508 | Both directions break and everything on the link is dropped |
| LinkHost.NetLink.TakeDeliverable | crates/turmoil/src/top.rs:449-454 | One host's queue is handed over, in order, and emptied |
| RingSafety.ExactlyOnce | crates/turmoil-io-uring/src/sim.rs:46-161 | In every run each user data is queued, in flight, ready and drained together exactly as often as pushed, and each submission is answered exactly once in one of these places |
| RingSafety.ResultsAreRight | crates/turmoil-io-uring/src/sim.rs:56-118 | In every run, a drained completion carries the user data of its submission and: 0 exactly for a cancellation that found its target in flight or ready when accepted, -ENOENT for one that missed, -ECANCELED for an operation that one found, which then never ran, -EINVAL for an unsupported entry; all others ran, none before acceptance plus latency |
| RingSafety.DueIsDrained | crates/turmoil-io-uring/src/cqueue.rs:90-141 | In every run, once all in flight is due, one sync and as many next as there are completions drain them all, whatever the shuffles |
| RingSafety.NeverShort | crates/turmoil-io-uring/src/cqueue.rs:117-141 | In every run with one consumer, next() yields one completion, whatever the shuffle and none before its time, as long as sync() has exposed any |
| RingCounting.AcceptCounts | crates/turmoil-io-uring/src/submit.rs:101-199 | One submission adds exactly one completion for itself to the pools, by user data and by submission, cancellations included: a victim is still answered |
| RingCounting.ScanSplits | crates/turmoil-io-uring/src/sim.rs:137-144 | The swap_remove scan loses and invents nothing |
| RingCounting.ScanSorts | crates/turmoil-io-uring/src/sim.rs:137-144 | and takes out what matured and nothing else |
| RingHost.RingState.CancelByData | crates/turmoil-io-uring/src/sim.rs:88-118 | In flight first, then ready; two completions for a hit, one for a miss, with the results `RingSafety.ResultsAreRight` is about |
| RingHost.RingState.Schedule | crates/turmoil-io-uring/src/sim.rs:46-53 | One more completion in flight |
| RingHost.RingState.PostImmediateError | crates/turmoil-io-uring/src/sim.rs:56-63 | One more, due now |
| RingHost.RingState.AcceptEntry | crates/turmoil-io-uring/src/submit.rs:101-199 | One entry: exactly one completion scheduled for it, or a cancellation |
| RingHost.RingState.Shuffle | crates/turmoil-io-uring/src/sim.rs:146-148 | Some order of the same completions |
| RingHost.RingState.NextDeadline | crates/turmoil-io-uring/src/sim.rs:123-128 | 0 with anything ready, else the earliest time in flight, none when nothing is |
| RingHost.RingState.ReadyCqCount | crates/turmoil-io-uring/src/sim.rs:131-133 | Ready plus matured |
| RingHost.RingState.PromoteMatured | crates/turmoil-io-uring/src/sim.rs:137-151 | The loop and a shuffle move exactly the matured completions |
| RingHost.RingState.PopReady | crates/turmoil-io-uring/src/sim.rs:154-161 | Promote, then the front of the ready queue |
| RingHost.RingState.SchedulePending | crates/turmoil-io-uring/src/submit.rs:80-201 | The queue is drained in order, one completion scheduled per entry |
| RingHost.RingState.Push | crates/turmoil-io-uring/src/squeue.rs:171-180 | Queued unless the queue is at its depth |
| RingHost.CompletionQueue.Next | crates/turmoil-io-uring/src/cqueue.rs:117-141 | Comes up short of what was exposed exactly when the ring holds nothing ready; counts down by one per yield |
| RingHost.CompletionQueue.Sync | crates/turmoil-io-uring/src/cqueue.rs:90-98 | Exposes as many as are ready or matured |

## Left out

- HostKernel.Kernel.Listen: asks that the bound socket has no block, does not listen yet and shares its endpoint with no handshaking child, because the shim only calls it right after `bind` (crates/turmoil-net/src/shim/tokio/net/tcp/listener.rs:21-26), where `BindListener` shows that this holds.
- HostKernel.Kernel.PollConnect: only for stream sockets that were opened and not bound, because the shim's connect opens its own socket (crates/turmoil-net/src/shim/tokio/net/tcp/stream.rs:30-31).
- HostKernel.Kernel.Close: only for a descriptor the application holds, or one already gone, because the shim closes each descriptor once.
- HostKernel.Kernel.Deliver: only for packets to a concrete address, because the 4-tuple index asserts one (crates/turmoil-net/src/kernel/socket.rs:470-475); UDP packets are carried by the pump and otherwise ignored.
- HostKernel.Kernel.constructor: asks for MTUs above the largest header and a send buffer below 2^32 - 1 bytes, because with a smaller MTU segmentation makes no progress.
- HostKernel.Kernel.SweepAll: resends handshakes and gives up within the pass, where the code does both right after it; the blocks concerned are disjoint and the packets leave in the same order.
- HostKernel.Kernel.AddAddress: only for concrete addresses, because connecting from a wildcard one or delivering to it trips the assertion of the 4-tuple index (crates/turmoil-net/src/kernel/socket.rs:470-475).
- HostKernel.Kernel.Handle: events are the calls that go through, on descriptors the application holds; the calls that fail change no table and are covered by the methods themselves.
- KernelRuns.RunIsConnection: the pair of endpoints is opened once, by connect at one host and by a SYN at the other; the hosts' addresses are disjoint and fixed.
- FsHost.FsState.Length: asks that the chain of pending hard links at the path ends, because otherwise the code recurses without end (`LinkCycle`).
- FsHost.FsState.ReadFile: as FsHost.FsState.Length.
- FsHost.FsState.WriteAt: as FsHost.FsState.Length; error injection and alignment are left out.
- FsContent.ReadIsReplayIff: for files that are not themselves renamed, linked or removed in the log, because moved or shared content does not agree with replay in general.
- FsDurability.SyncDirAt: without renames, links, symlinks and removals in the log.
- FsDurability.CrashEqualsLastSync: without torn writes, renames, links and removals.
- FsQuota.CapacityHolds: without torn writes, renames, links and removals.
- RingHost.RingState.SchedulePending: latencies are given, the page cache that shapes them is left out.
- Liveness of TCP delivery over runs: lost acknowledgements and small reads can stop it (`RetransmissionAnsweredIff`, `SmallReadsStall`); what is proved is what one exchange delivers.
- Delivery.LossIsRepaired: for data that fits the windows at once, because a longer buffer takes several rounds of the same exchange.
- FsMoves.RenameMovesBytes: for the only pending operation on its two names, because with others on them reads before and after a sync differ in general (`SyncOverRenamed`, `WriteAfterRenameIsLost`).
- Reuse of a 4-tuple: there is no TIME-WAIT, so one incarnation per tuple is assumed, and fewer than 2^32 - 1 bytes a direction.
- The backlog bound for wildcard listeners: handshaking children are counted per local address, so it holds for concrete addresses only.
- UDP, multicast, DNS, socket options, netstat, peek: only easy members.
- Wakers, async plumbing, mutexes and thread-locals: polls are atomic steps.
- Relative paths, timestamps, modes, link counts, symlink following, canonicalisation, and the page cache: easy, or outside the log's core.
- Latency distributions and probabilities: floating-point draws are parameters.
