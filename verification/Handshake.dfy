/** Whole exchanges between two blocks: opening, refusing and closing. */
module Handshake {
  import opened Common
  import opened SeqSpace
  import opened Addresses
  import opened TcbSpec
  import opened SocketTable
  import opened KernelSpec
  import opened StackSpec
  import HostKernel

  /** Each side's next number is what the other expects, in both directions. */
  predicate InStep(a: Tcb, b: Tcb) {
    && a.sndNxt == a.sndUna == b.rcvNxt
    && b.sndNxt == b.sndUna == a.rcvNxt
  }

  /** Open in both directions, and everything sent was acknowledged. */
  predicate Settled(t: Tcb) {
    t.state == Established && t.sendBuf == [] && !t.wrClosed && !t.peerFin && t.finSeq == None && !Aborted(t)
  }

  predicate OpenPair(a: Tcb, b: Tcb) {
    InStep(a, b) && Settled(a) && Settled(b)
  }

  /** SYN, SYN-ACK and ACK leave both sides established and in step, for any
      two initial sequence numbers, each with a window to send into, and the
      pending connect is then ready. */
  lemma OpeningCompletes(client: Endpoint, server: Endpoint, cIsn: U32, sIsn: U32, cCap: nat, sCap: nat)
    ensures var c0 := NewTcb(SynSent, server, cIsn, DEFAULT_WINDOW, 0);
            var s0 := NewTcb(SynReceived, client, sIsn, Syn(cIsn).window, WrappingAdd(Syn(cIsn).seqNo, 1));
            var (c1, ack) := OnSegment(c0, SynAck(sIsn, Syn(cIsn)), cCap);
            && ack.Some? && Promotes(s0, ack.value)
            && var s1 := OnSegment(s0, ack.value, sCap).0;
            && OpenPair(c1, s1) && c1.recvBuf == [] && s1.recvBuf == []
            && c1.sndWnd == 65535 && s1.sndWnd == Min(cCap, 65535)
            && HostKernel.Kernel.ConnectProgress(c0) == Pending && HostKernel.Kernel.ConnectProgress(c1) == Ready(())
  {
    AddThenSub(cIsn, 1);
    AddThenSub(sIsn, 1);
  }

  /** A SYN that finds no listener comes back as a RST that acknowledges it, and
      the connecting side is refused. */
  lemma RefusalIsReported(T: Table, server: Endpoint, client: Endpoint, cIsn: U32, isn: U32, cap: nat)
    requires IndicesAgree(T) && (server, client) !in T.connections && FindListener(T, server).None?
    ensures var c0 := NewTcb(SynSent, server, cIsn, DEFAULT_WINDOW, 0);
            var rst := Inbound(T, isn, cap, server, client, Syn(cIsn)).reply;
            && rst.Some? && rst.value.flags.rst && rst.value.flags.ack && rst.value.ack == c0.sndNxt
            && HostKernel.Kernel.ConnectProgress(OnSegment(c0, rst.value, cap).0) == Failed(ConnectionRefused)
  {
  }

  /** A segment to a connection that is gone is answered by a RST numbered as
      its sender expects. */
  lemma StraySegmentIsReset(T: Table, local: Endpoint, remote: Endpoint, peer: Tcb, mss: nat, isn: U32, cap: nat)
    requires IndicesAgree(T) && (local, remote) !in T.connections && CanEmit(peer)
    ensures var rst := Inbound(T, isn, cap, local, remote, EmitNext(peer, mss, cap).1).reply;
            rst.Some? && rst.value.flags.rst && rst.value.seqNo == peer.rcvNxt
  {
  }

  /** The FIN that segmentation sends right after a shutdown with nothing
      buffered. */
  lemma FinOnly(t: Tcb, mss: nat, cap: nat)
    requires t.sendBuf == [] && t.sndNxt == t.sndUna && t.finSeq == None && !t.wrClosed && t.sndWnd > 0 && mss > 0
    requires t.state == Established || t.state == CloseWait
    ensures var q := QueueFin(t);
            && SendSideOk(q) && Transmitting(q.state)
            && SegmentOne(q, mss, cap)
               == (q.(sndNxt := WrappingAdd(t.sndNxt, 1)),
                   [Segment(t.sndNxt, t.rcvNxt, ACK.(fin := true), AdvertisedWindow(cap, |t.recvBuf|), [])])
  {
    var q := QueueFin(t);
    EmitProgress(q, mss, cap);
    var q1 := EmitNext(q, mss, cap).0;
    assert !CanEmit(q1);
    assert SegmentOne(q1, mss, cap) == (q1, []);
    assert [EmitNext(q, mss, cap).1] + [] == [EmitNext(q, mss, cap).1];
  }

  lemma FinAccepted(t: Tcb, f: Segment, cap: nat)
    requires t.state == Established || t.state == FinWait2
    requires SendSideOk(t) && !t.peerFin && f.flags == ACK.(fin := true) && f.payload == []
    requires f.seqNo == t.rcvNxt && f.ack == t.sndNxt == t.sndUna
    ensures OnSegment(t, f, cap)
         == (t.(sndWnd := f.window, peerFin := true, rcvNxt := WrappingAdd(t.rcvNxt, 1),
             state := AfterPeerFin(t.state)),
             Some(Segment(t.sndNxt, WrappingAdd(t.rcvNxt, 1), ACK, AdvertisedWindow(cap, |t.recvBuf|), [])))
  {
    assert t.recvBuf + f.payload[..0] == t.recvBuf;
  }

  lemma FinAckAccepted(t: Tcb, a: Segment, cap: nat)
    requires t.state == FinWait1 || t.state == LastAck || t.state == Closing
    requires SendSideOk(t) && t.sendBuf == [] && t.finSeq == Some(t.sndUna) && t.sndNxt == WrappingAdd(t.sndUna, 1)
    requires a.flags == ACK && a.payload == [] && a.ack == t.sndNxt
    ensures OnSegment(t, a, cap)
         == (t.(sndUna := a.ack, sndWnd := a.window, egressSinceAck := 0, retxAttempts := 0,
             state := AfterFinAck(t.state)), None)
  {
    AddThenSub(t.sndUna, 1);
    assert t.sendBuf[0..] == t.sendBuf && t.recvBuf + a.payload[..0] == t.recvBuf;
  }

  /** Half of a close: one side shuts down, segments, and is acknowledged. */
  function HalfClose(a: Tcb, b: Tcb, mss: nat, cap: nat): (Tcb, Tcb)
    requires a.sendBuf == [] && a.sndNxt == a.sndUna && a.finSeq == None && !a.wrClosed && a.sndWnd > 0 && mss > 0
    requires a.state == Established || a.state == CloseWait
    requires SendSideOk(b)
  {
    FinOnly(a, mss, cap);
    var (a1, fins) := SegmentOne(QueueFin(a), mss, cap);
    var (b1, ack) := OnSegment(b, fins[0], cap);
    SegmentOneSendsAll(QueueFin(a), mss, cap);
    (if ack.Some? then OnSegment(a1, ack.value, cap).0 else a1, b1)
  }

  /** Shutdown on one side and then on the other closes both, cleanly, from any
      open pair, whatever it carried and however much of that is still unread,
      as long as the windows have room for the FINs. */
  lemma ClosingCompletes(a: Tcb, b: Tcb, mss: nat, cap: nat)
    requires OpenPair(a, b) && SendSideOk(a) && SendSideOk(b) && mss > 0
    requires a.sndWnd > 0 && |a.recvBuf| < cap
    ensures var (a1, b1) := HalfClose(a, b, mss, cap);
            && a1.state == FinWait2 && b1.state == CloseWait && SendSideOk(a1)
            && b1.sendBuf == [] && b1.sndNxt == b1.sndUna && b1.finSeq == None && !b1.wrClosed && b1.sndWnd > 0
            && var (b2, a2) := HalfClose(b1, a1, mss, cap);
            && a2.state == Closed && b2.state == Closed && !Aborted(a2) && !Aborted(b2)
            && a2.recvBuf == a.recvBuf && b2.recvBuf == b.recvBuf
  {
    FinOnly(a, mss, cap);
    var q := QueueFin(a).(sndNxt := WrappingAdd(a.sndNxt, 1));
    var fin := SegmentOne(QueueFin(a), mss, cap).1[0];
    FinAccepted(b, fin, cap);
    var (b1, ack) := OnSegment(b, fin, cap);
    SegmentOneSendsAll(QueueFin(a), mss, cap);
    FinAckAccepted(q, ack.value, cap);
    var a1 := OnSegment(q, ack.value, cap).0;
    OnSegmentKeepsSendSide(q, ack.value, cap);
    FinOnly(b1, mss, cap);
    var fin2 := SegmentOne(QueueFin(b1), mss, cap).1[0];
    FinAccepted(a1, fin2, cap);
    SegmentOneSendsAll(QueueFin(b1), mss, cap);
    FinAckAccepted(QueueFin(b1).(sndNxt := WrappingAdd(b1.sndNxt, 1)), OnSegment(a1, fin2, cap).1.value, cap);
  }

  /** A FIN that crosses one's own. */
  lemma FinCrosses(t: Tcb, f: Segment, cap: nat)
    requires t.state == FinWait1 && SendSideOk(t) && !t.peerFin && t.sndNxt == WrappingAdd(t.sndUna, 1)
    requires f.flags == ACK.(fin := true) && f.payload == [] && f.seqNo == t.rcvNxt && f.ack == t.sndUna
    ensures OnSegment(t, f, cap)
         == (t.(sndWnd := f.window, peerFin := true, rcvNxt := WrappingAdd(t.rcvNxt, 1), state := Closing),
             Some(Segment(t.sndNxt, WrappingAdd(t.rcvNxt, 1), ACK, AdvertisedWindow(cap, |t.recvBuf|), [])))
  {
    assert t.recvBuf + f.payload[..0] == t.recvBuf;
  }

  /** One side of it: its own FIN is out, the other's comes, then the ACK. */
  lemma CrossingCloses(t: Tcb, f: Segment, a: Segment, mss: nat, cap: nat)
    requires Settled(t) && SendSideOk(t) && t.sndNxt == t.sndUna && t.sndWnd > 0 && mss > 0
    requires f.flags == ACK.(fin := true) && f.payload == [] && f.seqNo == t.rcvNxt && f.ack == t.sndUna
    requires a.flags == ACK && a.payload == [] && a.ack == WrappingAdd(t.sndNxt, 1)
    ensures var q := QueueFin(t).(sndNxt := WrappingAdd(t.sndNxt, 1));
            && SendSideOk(q)
            && var (t1, ack) := OnSegment(q, f, cap);
            && SendSideOk(t1) && t1.state == Closing
            && ack == Some(Segment(WrappingAdd(t.sndNxt, 1), WrappingAdd(t.rcvNxt, 1), ACK,
                                   AdvertisedWindow(cap, |t.recvBuf|), []))
            && var t2 := OnSegment(t1, a, cap).0;
            && t2.state == Closed && !Aborted(t2) && t2.recvBuf == t.recvBuf
  {
    FinOnly(t, mss, cap);
    SegmentOneSendsAll(QueueFin(t), mss, cap);
    var q := QueueFin(t).(sndNxt := WrappingAdd(t.sndNxt, 1));
    FinCrosses(q, f, cap);
    OnSegmentKeepsSendSide(q, f, cap);
    FinAckAccepted(OnSegment(q, f, cap).0, a, cap);
  }

  /** Both sides shut down at once: the FINs cross, and both still close. */
  lemma {:induction false} CrossingCloseCompletes(a: Tcb, b: Tcb, mss: nat, cap: nat)
    requires OpenPair(a, b) && SendSideOk(a) && SendSideOk(b) && mss > 0 && a.sndWnd > 0 && b.sndWnd > 0
    ensures SendSideOk(QueueFin(a)) && SendSideOk(QueueFin(b))
    ensures QueueFin(a).state == QueueFin(b).state == FinWait1
    ensures var (a1, finA) := SegmentOne(QueueFin(a), mss, cap);
            var (b1, finB) := SegmentOne(QueueFin(b), mss, cap);
            && |finA| == |finB| == 1 && SendSideOk(a1) && SendSideOk(b1)
            && var (a2, ackA) := OnSegment(a1, finB[0], cap);
            && var (b2, ackB) := OnSegment(b1, finA[0], cap);
            && ackA.Some? && ackB.Some? && SendSideOk(a2) && SendSideOk(b2)
            && var (a3, b3) := (OnSegment(a2, ackB.value, cap).0, OnSegment(b2, ackA.value, cap).0);
            && a3.state == b3.state == Closed && !Aborted(a3) && !Aborted(b3)
            && a3.recvBuf == a.recvBuf && b3.recvBuf == b.recvBuf
  {
    FinOnly(a, mss, cap);
    FinOnly(b, mss, cap);
    var finA, finB := SegmentOne(QueueFin(a), mss, cap).1[0], SegmentOne(QueueFin(b), mss, cap).1[0];
    var ackA := Segment(WrappingAdd(a.sndNxt, 1), WrappingAdd(a.rcvNxt, 1), ACK, AdvertisedWindow(cap, |a.recvBuf|),
      []);
    var ackB := Segment(WrappingAdd(b.sndNxt, 1), WrappingAdd(b.rcvNxt, 1), ACK, AdvertisedWindow(cap, |b.recvBuf|),
      []);
    CrossingCloses(a, finB, ackB, mss, cap);
    CrossingCloses(b, finA, ackA, mss, cap);
  }

  // ---- limits ----

  /** A segment no longer than the window last advertised is taken whole, if it
      is next in order; nothing overruns the receive buffer. */
  lemma WindowIsHonoured(t: Tcb, s: Segment, cap: nat)
    requires |t.recvBuf| <= cap
    ensures |AcceptData(t, s, cap).recvBuf| <= cap
    ensures s.seqNo == t.rcvNxt && !t.peerFin && |s.payload| <= AdvertisedWindow(cap, |t.recvBuf|) ==>
              AcceptData(t, s, cap).recvBuf == t.recvBuf + s.payload
              && AcceptData(t, s, cap).rcvNxt == WrappingAdd(t.rcvNxt, |s.payload|)
  {
    assert s.payload[..|s.payload|] == s.payload;
  }

  /** Bytes of a packet that are not payload: an IP header without options, and
      a TCP header. */
  function Headers(ip: Ip): nat {
    if ip.V4? then 40 else 60
  }

  function LinkMtu(lim: Limits, ip: Ip): nat {
    if ip.Loopback() then lim.loopbackMtu else lim.mtu
  }

  /** Every packet of a segmentation sweep fits the link it leaves by. */
  lemma SegmentsFitTheLink(s: Socket, lim: Limits, i: nat)
    requires LimitsOk(lim) && i < |Visit(s, lim, Segmentation).1|
    ensures var p := Visit(s, lim, Segmentation).1[i];
            && p.Tcp? && p.src == s.bound.value.At()
            && |p.seg.payload| + Headers(p.src.ip) <= LinkMtu(lim, p.src.ip)
  {
    SegmentationDrains(s, lim);
    var at := s.bound.value.At();
    var ss := SegmentOne(s.tcb.value, MssFor(lim, at.ip), lim.recvCap).1;
    SegmentOneSendsAll(s.tcb.value, MssFor(lim, at.ip), lim.recvCap);
    PacketsAt(at, s.tcb.value.peer, ss, i);
  }

  /** With enough to send and a window to match, the link is filled. */
  lemma SegmentsFillTheLink(s: Socket, lim: Limits)
    requires LimitsOk(lim) && Sends(s) && s.tcb.value.sndUna == s.tcb.value.sndNxt
    requires var mtu := LinkMtu(lim, s.bound.value.addr); |s.tcb.value.sendBuf| >= mtu && s.tcb.value.sndWnd >= mtu
    ensures var ps := Visit(s, lim, Segmentation).1;
            && ps != [] && ps[0].Tcp?
            && |ps[0].seg.payload| + Headers(s.bound.value.addr) == LinkMtu(lim, s.bound.value.addr)
  {
    var mss := MssFor(lim, s.bound.value.addr);
    assert CanEmit(s.tcb.value);
    EmitProgress(s.tcb.value, mss, lim.recvCap);
    var ss := SegmentOne(s.tcb.value, mss, lim.recvCap).1;
    assert ss[0] == EmitNext(s.tcb.value, mss, lim.recvCap).1;
    assert Packets(s.bound.value.At(), s.tcb.value.peer, ss)[0].seg == ss[0];
  }

  lemma {:induction false} PacketsAt(local: Endpoint, remote: Endpoint, ss: seq<Segment>, i: nat)
    requires i < |Packets(local, remote, ss)|
    ensures |Packets(local, remote, ss)| == |ss| && Packets(local, remote, ss)[i] == Tcp(local, remote, ss[i])
  {
    if |ss| > 1 {
      PacketsAt(local, remote, ss[1..], if i > 0 then i - 1 else 0);
    }
  }

  /** A SYN on a free tuple that finds a listener opens a connection exactly
      when handshaking children on the endpoint and ready ones stay below the
      backlog; and then it is in handshake and answered. */
  lemma SynAdmittedIff(T: Table, isn: U32, cap: nat, local: Endpoint, remote: Endpoint, s: Segment)
    requires IndicesAgree(T) && (local, remote) !in T.connections && FindListener(T, local).Some?
    requires s.flags.syn && !s.flags.ack && !local.ip.Unspecified()
    ensures var l := FindListener(T, local).value;
            var e := Inbound(T, isn, cap, local, remote, s);
            && Listening(T, l)
            && ((local, remote) in e.table.connections <==>
                  |Children(T, local)| + |ReadyOf(T, l)| < T.sockets[l].listen.value.backlog)
            && ((local, remote) in e.table.connections ==>
                  InHandshake(e.table, e.table.connections[(local, remote)]) && e.reply == Some(SynAck(isn, s)))
            && ((local, remote) !in e.table.connections ==> e.table == T && e.reply == None)
  {
    FindListenerExact(T, local);
    HandshakesAreChildren(T, local);
  }
}
