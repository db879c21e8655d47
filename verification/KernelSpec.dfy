/** What one host's kernel does with an inbound packet and with one egress
    sweep, over the socket table as a value. */
module KernelSpec {
  import opened Common
  import opened SeqSpace
  import opened Addresses
  import opened TcbSpec
  import opened SocketTable

  /** Packets carry ports with their addresses; UDP never provokes a reply. */
  datatype Packet = Tcp(src: Endpoint, dst: Endpoint, seg: Segment) | Udp(src: Endpoint, dst: Endpoint)

  function Reply(local: Endpoint, remote: Endpoint, s: Option<Segment>): seq<Packet> {
    if s.Some? then [Tcp(local, remote, s.value)] else []
  }

  // ---- listeners ----

  function FirstListening(T: Table, fds: seq<Fd>): Option<Fd> {
    if fds == [] then None
    else if Listening(T, fds[0]) then Some(fds[0])
    else FirstListening(T, fds[1..])
  }

  function ExactKey(local: Endpoint): BindKey {
    BindKey(local.ip.Family(), Stream, local.ip, local.port)
  }

  function WildcardKey(local: Endpoint): BindKey {
    BindKey(local.ip.Family(), Stream, if local.ip.V4? then V4(0) else V6(0), local.port)
  }

  /** The listener on the endpoint itself, else on the wildcard address. */
  function FindListener(T: Table, local: Endpoint): Option<Fd> {
    var exact := FirstListening(T, BoundAt(T, ExactKey(local)));
    if exact.Some? then exact else FirstListening(T, BoundAt(T, WildcardKey(local)))
  }

  lemma {:induction false} FirstListeningFinds(T: Table, fds: seq<Fd>)
    ensures var r := FirstListening(T, fds);
            && (r.Some? ==> r.value in fds && Listening(T, r.value))
            && (r.None? ==> forall fd :: fd in fds ==> !Listening(T, fd))
  {
    if fds != [] {
      FirstListeningFinds(T, fds[1..]);
    }
  }

  /** A listener is found exactly if some listener serves the endpoint; it is
      one that does, and one on the concrete endpoint itself if there is any. */
  lemma FindListenerExact(T: Table, local: Endpoint)
    requires IndicesAgree(T) && !local.ip.Unspecified()
    ensures var r := FindListener(T, local);
            && (r.Some? ==> Serves(T, r.value, local))
            && (r.None? ==> forall m :: !Serves(T, m, local))
            && (forall m :: Counts(T, m) && T.sockets[m].bound.value.At() == local ==> r == Some(m))
  {
    var exact := ExactKey(local);
    FirstListeningFinds(T, BoundAt(T, exact));
    FirstListeningFinds(T, BoundAt(T, WildcardKey(local)));
    var r := FindListener(T, local);
    if r.Some? {
      FindByBindIsLinearScan(T, r.value, exact);
      FindByBindIsLinearScan(T, r.value, WildcardKey(local));
    }
    forall m | Serves(T, m, local) ensures r.Some? {
      assert SocketOk(T, m);
      FindByBindIsLinearScan(T, m, exact);
      FindByBindIsLinearScan(T, m, WildcardKey(local));
    }
    forall m | Counts(T, m) && T.sockets[m].bound.value.At() == local ensures r == Some(m) {
      assert SocketOk(T, m);
      FindByBindIsLinearScan(T, m, exact);
      assert Owns(T, m, exact);
      assert Owns(T, r.value, exact) by {
        assert SocketOk(T, r.value);
      }
    }
  }

  // ---- inbound ----

  /** The server side of a SYN: a child bound to the listener's tuple. */
  function ChildSocket(T: Table, l: Fd, local: Endpoint, remote: Endpoint, isn: U32, s: Segment): Socket
    requires Listening(T, l)
  {
    var domain, ty := T.sockets[l].domain, T.sockets[l].ty;
    Socket(domain, ty, Some(BindKey(domain, ty, local.ip, local.port)),
           Some(NewTcb(SynReceived, remote, isn, s.window, WrappingAdd(s.seqNo, 1))), None, false)
  }

  function SynAck(isn: U32, s: Segment): Segment {
    Segment(isn, WrappingAdd(s.seqNo, 1), ACK.(syn := true), DEFAULT_WINDOW, [])
  }

  /** Successive connections start 64 KiB of sequence space apart. */
  function NextIsn(isn: U32): U32 {
    WrappingAdd(isn, 0x1_0000)
  }

  predicate BacklogFull(T: Table, l: Fd, local: Endpoint)
    requires Listening(T, l)
  {
    |HandshakesOn(T, local)| + |ReadyOf(T, l)| >= T.sockets[l].listen.value.backlog
  }

  /** The table, the sequence source and the reply after a TCP segment. */
  datatype Effect = Effect(table: Table, isn: U32, reply: Option<Segment>)

  function OnConnection(T: Table, isn: U32, cap: nat, fd: Fd, local: Endpoint, s: Segment): Effect
    requires fd in T.sockets && SocketOk(T, fd) && T.sockets[fd].tcb.Some?
  {
    var t := T.sockets[fd].tcb.value;
    var (t', reply) := OnSegment(t, s, cap);
    var l := FindListener(T, local);
    if Promotes(t, s) && l.Some? && l.value != fd && Listening(T, l.value)
    then Effect(Promote(T, fd, t', l.value), isn, reply)
    else Effect(SetTcb(T, fd, t'), isn, reply)
  }

  function OnSyn(T: Table, isn: U32, local: Endpoint, remote: Endpoint, s: Segment): Effect {
    var l := FindListener(T, local);
    if l.None? || !Listening(T, l.value) then Effect(T, isn, Some(RstFor(s)))
    else if BacklogFull(T, l.value, local) then Effect(T, isn, None)
    else Effect(AddChild(T, ChildSocket(T, l.value, local, remote, isn, s)), NextIsn(isn), Some(SynAck(isn, s)))
  }

  /** Inbound TCP: the connection if there is one, else a listener for a SYN,
      else a RST, except in answer to a RST. */
  function Inbound(T: Table, isn: U32, cap: nat, local: Endpoint, remote: Endpoint, s: Segment): Effect
    requires IndicesAgree(T)
  {
    if (local, remote) in T.connections then
      assert IsConnection(T, T.connections[(local, remote)], local, remote);
      OnConnection(T, isn, cap, T.connections[(local, remote)], local, s)
    else if s.flags.syn && !s.flags.ack then OnSyn(T, isn, local, remote, s)
    else Effect(T, isn, if s.flags.rst then None else Some(RstFor(s)))
  }

  lemma {:induction false} OnConnectionKeeps(T: Table, handles: set<Fd>, isn: U32, cap: nat, fd: Fd, local: Endpoint,
      remote: Endpoint, s: Segment)
    requires Coherent(T, handles) && IsConnection(T, fd, local, remote)
    ensures SocketOk(T, fd)
    ensures Coherent(OnConnection(T, isn, cap, fd, local, s).table, handles)
  {
    assert SocketOk(T, fd);
    var t := T.sockets[fd].tcb.value;
    OnSegmentKeepsTcb(t, s, cap);
    var t' := OnSegment(t, s, cap).0;
    FindListenerExact(T, local);
    var l := FindListener(T, local);
    if Promotes(t, s) && l.Some? {
      assert SocketOk(T, l.value);
      PromoteKeeps(T, handles, fd, t', l.value);
    } else {
      SetTcbKeeps(T, handles, fd, t');
    }
  }

  lemma OnSegmentKeepsTcb(t: Tcb, s: Segment, cap: nat)
    requires TcbOk(t)
    ensures var t' := OnSegment(t, s, cap).0;
            TcbOk(t') && t'.peer == t.peer && (t'.state == SynReceived ==> t.state == SynReceived && !Promotes(t, s))
  {
    OnSegmentKeepsSendSide(t, s, cap);
  }

  lemma {:induction false} OnSynKeeps(T: Table, handles: set<Fd>, isn: U32, local: Endpoint, remote: Endpoint,
      s: Segment)
    requires Coherent(T, handles) && !local.ip.Unspecified() && (local, remote) !in T.connections
    ensures Coherent(OnSyn(T, isn, local, remote, s).table, handles)
  {
    FindListenerExact(T, local);
    var l := FindListener(T, local);
    if l.Some? {
      assert SocketOk(T, l.value);
      HandshakesAreChildren(T, local);
      if !BacklogFull(T, l.value, local) {
        AddChildKeeps(T, handles, ChildSocket(T, l.value, local, remote, isn, s), l.value);
      }
    }
  }

  /** Whatever arrives, the indices, the queues and the backlogs stay coherent. */
  lemma InboundKeeps(T: Table, handles: set<Fd>, isn: U32, cap: nat, local: Endpoint, remote: Endpoint, s: Segment)
    requires Coherent(T, handles) && !local.ip.Unspecified()
    ensures Coherent(Inbound(T, isn, cap, local, remote, s).table, handles)
  {
    if (local, remote) in T.connections {
      OnConnectionKeeps(T, handles, isn, cap, T.connections[(local, remote)], local, remote, s);
    } else if s.flags.syn && !s.flags.ack {
      OnSynKeeps(T, handles, isn, local, remote, s);
    }
  }

  // ---- why egress ends ----

  /** How many further replies a packet can set off: SYN, then SYN-ACK or
      data or FIN, then ACK, then RST. */
  function Rank(p: Packet): nat {
    if p.Udp? then 0
    else if p.seg.flags.syn && !p.seg.flags.ack then 3
    else if p.seg.flags.rst then 0
    else if p.seg.flags.syn || p.seg.flags.fin || p.seg.payload != [] then 2
    else 1
  }

  function Weight(ps: seq<Packet>): nat {
    if ps == [] then 0 else Rank(ps[0]) + 1 + Weight(ps[1..])
  }

  lemma {:induction false} WeightAppend(ps: seq<Packet>, qs: seq<Packet>)
    ensures Weight(ps + qs) == Weight(ps) + Weight(qs)
  {
    if ps == [] {
      assert ps + qs == qs;
    } else {
      WeightAppend(ps[1..], qs);
      assert (ps + qs)[1..] == ps[1..] + qs;
    }
  }

  /** A reply always ranks below what provoked it. */
  lemma ReplyRanksLower(T: Table, isn: U32, cap: nat, local: Endpoint, remote: Endpoint, s: Segment)
    requires IndicesAgree(T)
    ensures var r := Inbound(T, isn, cap, local, remote, s).reply;
            r.Some? ==> Rank(Tcp(local, remote, r.value)) < Rank(Tcp(remote, local, s))
  {
    if (local, remote) in T.connections {
      var fd := T.connections[(local, remote)];
      assert IsConnection(T, fd, local, remote);
      assert SocketOk(T, fd);
    }
  }

  function TcbBacklog(sockets: map<Fd, Socket>, fd: Fd): nat {
    if fd in sockets && sockets[fd].tcb.Some? then Backlog(sockets[fd].tcb.value) else 0
  }

  /** Bytes and FINs still to be put on the wire, over sockets below `n`. */
  function TotalBacklog(sockets: map<Fd, Socket>, n: nat): nat {
    if n == 0 then 0 else TotalBacklog(sockets, n - 1) + TcbBacklog(sockets, n - 1)
  }

  lemma {:induction false} TotalMonotone(a: map<Fd, Socket>, b: map<Fd, Socket>, n: nat)
    requires forall fd :: 0 <= fd < n ==> TcbBacklog(b, fd) <= TcbBacklog(a, fd)
    ensures TotalBacklog(b, n) <= TotalBacklog(a, n)
    ensures (exists fd :: 0 <= fd < n && TcbBacklog(b, fd) < TcbBacklog(a, fd)) ==>
            TotalBacklog(b, n) < TotalBacklog(a, n)
  {
    if n > 0 {
      TotalMonotone(a, b, n - 1);
    }
  }

  lemma SetTcbBacklog(T: Table, fd: Fd, t: Tcb)
    requires fd in T.sockets && T.sockets[fd].tcb.Some? && Backlog(t) <= Backlog(T.sockets[fd].tcb.value)
    ensures TotalBacklog(SetTcb(T, fd, t).sockets, T.nextId) <= TotalBacklog(T.sockets, T.nextId)
  {
    var sockets' := SetTcb(T, fd, t).sockets;
    forall g | 0 <= g < T.nextId ensures TcbBacklog(sockets', g) <= TcbBacklog(T.sockets, g) {
    }
    TotalMonotone(T.sockets, sockets', T.nextId);
  }

  lemma SameTcbsSameBacklog(a: map<Fd, Socket>, b: map<Fd, Socket>, n: nat)
    requires a.Keys == b.Keys && forall fd :: fd in a ==> a[fd].tcb == b[fd].tcb
    ensures TotalBacklog(a, n) == TotalBacklog(b, n)
  {
    forall fd | 0 <= fd < n ensures TcbBacklog(a, fd) == TcbBacklog(b, fd) {
    }
    TotalMonotone(a, b, n);
    TotalMonotone(b, a, n);
  }

  lemma OnConnectionBacklog(T: Table, isn: U32, cap: nat, fd: Fd, local: Endpoint, s: Segment)
    requires fd in T.sockets && SocketOk(T, fd) && T.sockets[fd].tcb.Some?
    ensures var T' := OnConnection(T, isn, cap, fd, local, s).table;
            T'.nextId == T.nextId && TotalBacklog(T'.sockets, T.nextId) <= TotalBacklog(T.sockets, T.nextId)
  {
    var t' := OnSegment(T.sockets[fd].tcb.value, s, cap).0;
    OnSegmentKeepsSendSide(T.sockets[fd].tcb.value, s, cap);
    SetTcbBacklog(T, fd, t');
    SameTcbsSameBacklog(SetTcb(T, fd, t').sockets, OnConnection(T, isn, cap, fd, local, s).table.sockets, T.nextId);
  }

  lemma NewSocketBacklog(a: map<Fd, Socket>, n: nat, s: Socket)
    requires n !in a && s.tcb.Some? && Backlog(s.tcb.value) == 0
    ensures TotalBacklog(a[n := s], n + 1) == TotalBacklog(a, n)
  {
    forall fd | 0 <= fd < n ensures TcbBacklog(a[n := s], fd) == TcbBacklog(a, fd) {
    }
    TotalMonotone(a, a[n := s], n);
    TotalMonotone(a[n := s], a, n);
  }

  /** No inbound segment adds to what is left to send. */
  lemma InboundAddsNoBacklog(T: Table, isn: U32, cap: nat, local: Endpoint, remote: Endpoint, s: Segment)
    requires IndicesAgree(T)
    ensures var T' := Inbound(T, isn, cap, local, remote, s).table;
            TotalBacklog(T'.sockets, T'.nextId) <= TotalBacklog(T.sockets, T.nextId)
  {
    if (local, remote) in T.connections {
      var fd := T.connections[(local, remote)];
      assert IsConnection(T, fd, local, remote);
      OnConnectionBacklog(T, isn, cap, fd, local, s);
    } else if s.flags.syn && !s.flags.ack {
      OnSynBacklog(T, isn, local, remote, s);
    }
  }

  lemma OnSynBacklog(T: Table, isn: U32, local: Endpoint, remote: Endpoint, s: Segment)
    requires IndicesAgree(T)
    ensures var T' := OnSyn(T, isn, local, remote, s).table;
            TotalBacklog(T'.sockets, T'.nextId) == TotalBacklog(T.sockets, T.nextId)
  {
    var T' := OnSyn(T, isn, local, remote, s).table;
    if T' != T {
      var child := ChildSocket(T, FindListener(T, local).value, local, remote, isn, s);
      assert T.nextId !in T.sockets;
      NewSocketBacklog(T.sockets, T.nextId, child);
    }
  }

  // ---- sweeps over every socket ----

  datatype Limits = Limits(mtu: nat, loopbackMtu: nat, recvCap: nat, retxThreshold: nat, retxMax: nat)

  const TCP_HEADER: nat := 20

  function IpHeader(ip: Ip): nat {
    if ip.V4? then 20 else 40
  }

  /** Payload that fits a segment leaving `ip`. */
  function MssFor(lim: Limits, ip: Ip): nat {
    SaturatingSub(SaturatingSub(if ip.Loopback() then lim.loopbackMtu else lim.mtu, IpHeader(ip)), TCP_HEADER)
  }

  /** Both links carry more than the headers. */
  predicate LimitsOk(lim: Limits) {
    lim.mtu > 60 && lim.loopbackMtu > 60
  }

  function Packets(local: Endpoint, remote: Endpoint, ss: seq<Segment>): seq<Packet> {
    if ss == [] then [] else [Tcp(local, remote, ss[0])] + Packets(local, remote, ss[1..])
  }

  predicate Sends(s: Socket) {
    s.tcb.Some? && s.bound.Some? && SendSideOk(s.tcb.value) && Transmitting(s.tcb.value.state)
  }

  datatype Sweep = Retransmission | Segmentation

  /** What a sweep makes of one socket, and the packets that provokes. */
  function Visit(s: Socket, lim: Limits, sweep: Sweep): (Socket, seq<Packet>)
    requires LimitsOk(lim)
  {
    if sweep == Segmentation && Sends(s) then
      var at := s.bound.value.At();
      var (t, ss) := SegmentOne(s.tcb.value, MssFor(lim, at.ip), lim.recvCap);
      (s.(tcb := Some(t)), Packets(at, t.peer, ss))
    else if sweep == Retransmission && s.tcb.Some? && s.bound.Some? then
      var (t, action) := CheckRetx(s.tcb.value, lim.retxThreshold, lim.retxMax);
      (s.(tcb := Some(t)),
       if action == ResendHandshake then [Tcp(s.bound.value.At(), t.peer, HandshakeSegment(t))] else [])
    else (s, [])
  }

  function VisitAt(sockets: map<Fd, Socket>, fd: Fd, lim: Limits, sweep: Sweep): seq<Packet>
    requires LimitsOk(lim)
  {
    if fd in sockets then Visit(sockets[fd], lim, sweep).1 else []
  }

  /** The packets of a sweep over the sockets below `n`, in order of age. */
  function SweepPackets(sockets: map<Fd, Socket>, n: nat, lim: Limits, sweep: Sweep): seq<Packet>
    requires LimitsOk(lim)
  {
    if n == 0 then [] else SweepPackets(sockets, n - 1, lim, sweep) + VisitAt(sockets, n - 1, lim, sweep)
  }

  function SweepSockets(sockets: map<Fd, Socket>, lim: Limits, sweep: Sweep): map<Fd, Socket>
    requires LimitsOk(lim)
  {
    map fd | fd in sockets :: Visit(sockets[fd], lim, sweep).0
  }

  function SweepTable(T: Table, lim: Limits, sweep: Sweep): Table
    requires LimitsOk(lim)
  {
    T.(sockets := SweepSockets(T.sockets, lim, sweep))
  }

  predicate NoHandshakeAdded(s: Socket, s': Socket) {
    s'.tcb.Some? && s'.tcb.value.state == SynReceived ==> s.tcb.Some? && s.tcb.value.state == SynReceived
  }

  lemma VisitKeeps(s: Socket, lim: Limits, sweep: Sweep)
    requires LimitsOk(lim) && (s.tcb.Some? ==> TcbOk(s.tcb.value))
    ensures var s' := Visit(s, lim, sweep).0;
            && SameSocketShape(s, s') && s'.listen == s.listen && s'.fdClosed == s.fdClosed
            && NoHandshakeAdded(s, s')
  {
    if sweep == Segmentation && Sends(s) {
      SegmentOneSendsAll(s.tcb.value, MssFor(lim, s.bound.value.addr), lim.recvCap);
    } else if s.tcb.Some? {
      CheckRetxKeepsSendSide(s.tcb.value, lim.retxThreshold, lim.retxMax);
    }
  }

  /** Either sweep keeps the indices, the queues and the backlogs coherent. */
  lemma SweepKeeps(T: Table, handles: set<Fd>, lim: Limits, sweep: Sweep)
    requires Coherent(T, handles) && LimitsOk(lim)
    ensures Coherent(SweepTable(T, lim, sweep), handles)
  {
    var T' := SweepTable(T, lim, sweep);
    SweepQuiet(T, lim, sweep);
    ShapeKeepsIndices(T, T');
    QuietKeepsQueues(T, T', handles);
    QuietKeepsBacklogs(T, T');
  }

  lemma {:induction false} SweepQuiet(T: Table, lim: Limits, sweep: Sweep)
    requires IndicesAgree(T) && LimitsOk(lim)
    ensures var T' := SweepTable(T, lim, sweep);
            && SameShape(T, T')
            && (forall l :: Listening(T, l) ==> T'.sockets[l].listen == T.sockets[l].listen)
            && (forall fd :: InHandshake(T', fd) ==> InHandshake(T, fd))
            && (forall fd :: fd in T.sockets ==> T'.sockets[fd].fdClosed == T.sockets[fd].fdClosed)
  {
    var T' := SweepTable(T, lim, sweep);
    forall fd | fd in T.sockets
      ensures SameSocketShape(T.sockets[fd], T'.sockets[fd])
      ensures T'.sockets[fd].listen == T.sockets[fd].listen && T'.sockets[fd].fdClosed == T.sockets[fd].fdClosed
      ensures NoHandshakeAdded(T.sockets[fd], T'.sockets[fd])
    {
      assert SocketOk(T, fd);
      VisitKeeps(T.sockets[fd], lim, sweep);
    }
  }

  // ---- what segmentation leaves behind ----

  /** Whatever was emitted came out of the backlog, and nothing more can be. */
  lemma {:induction false} SegmentOneDrains(t: Tcb, mss: nat, cap: nat)
    requires SendSideOk(t) && Transmitting(t.state) && mss > 0
    ensures var r := SegmentOne(t, mss, cap);
            && Backlog(r.0) <= Backlog(t)
            && (r.1 != [] ==> Backlog(r.0) < Backlog(t))
            && !CanEmit(r.0)
    decreases Backlog(t)
  {
    if CanEmit(t) {
      EmitProgress(t, mss, cap);
      SegmentOneDrains(EmitNext(t, mss, cap).0, mss, cap);
    }
  }

  /** Everything the peer's window admits is on the wire. */
  predicate Drained(s: Socket) {
    Sends(s) ==> !CanEmit(s.tcb.value)
  }

  lemma SegmentationDrains(s: Socket, lim: Limits)
    requires LimitsOk(lim)
    ensures Drained(Visit(s, lim, Segmentation).0)
    ensures Visit(s, lim, Segmentation).1 == [] || Sends(s)
  {
    if Sends(s) {
      SegmentOneDrains(s.tcb.value, MssFor(lim, s.bound.value.addr), lim.recvCap);
    }
  }

  lemma VisitBacklog(sockets: map<Fd, Socket>, fd: Fd, lim: Limits)
    requires LimitsOk(lim)
    ensures var sockets' := SweepSockets(sockets, lim, Segmentation);
            && TcbBacklog(sockets', fd) <= TcbBacklog(sockets, fd)
            && (VisitAt(sockets, fd, lim, Segmentation) != [] ==> TcbBacklog(sockets', fd) < TcbBacklog(sockets, fd))
  {
    if fd in sockets && Sends(sockets[fd]) {
      SegmentOneDrains(sockets[fd].tcb.value, MssFor(lim, sockets[fd].bound.value.addr), lim.recvCap);
    }
  }

  lemma {:induction false} SomeVisitEmits(sockets: map<Fd, Socket>, n: nat, lim: Limits) returns (fd: Fd)
    requires LimitsOk(lim) && SweepPackets(sockets, n, lim, Segmentation) != []
    ensures fd < n && VisitAt(sockets, fd, lim, Segmentation) != []
  {
    if SweepPackets(sockets, n - 1, lim, Segmentation) != [] {
      fd := SomeVisitEmits(sockets, n - 1, lim);
    } else {
      fd := n - 1;
    }
  }

  /** Segmentation that emits anything shrinks the backlog. */
  lemma SegmentationProgress(sockets: map<Fd, Socket>, n: nat, lim: Limits)
    requires LimitsOk(lim)
    ensures var b, b' := TotalBacklog(sockets, n), TotalBacklog(SweepSockets(sockets, lim, Segmentation), n);
            b' <= b && (SweepPackets(sockets, n, lim, Segmentation) != [] ==> b' < b)
  {
    var sockets' := SweepSockets(sockets, lim, Segmentation);
    forall fd | 0 <= fd < n ensures TcbBacklog(sockets', fd) <= TcbBacklog(sockets, fd) {
      VisitBacklog(sockets, fd, lim);
    }
    if SweepPackets(sockets, n, lim, Segmentation) != [] {
      var fd := SomeVisitEmits(sockets, n, lim);
      VisitBacklog(sockets, fd, lim);
    }
    TotalMonotone(sockets, sockets', n);
  }

  // ---- closing ----

  /** A child of the closing listener `l` whose handshake is unfinished: same
      port, and same address unless the listener is on a wildcard. */
  predicate Unfinished(T: Table, l: Fd, fd: Fd) {
    && l in T.sockets && T.sockets[l].bound.Some?
    && fd != l && InHandshake(T, fd) && T.sockets[fd].bound.Some?
    && T.sockets[fd].bound.value.port == T.sockets[l].bound.value.port
    && (T.sockets[l].bound.value.addr.Unspecified() || T.sockets[fd].bound.value.addr == T.sockets[l].bound.value.addr)
  }

  function UnfinishedBelow(T: Table, l: Fd, n: nat): seq<Fd>
    requires Listening(T, l)
  {
    if n == 0 then []
    else UnfinishedBelow(T, l, n - 1)
         + (if Unfinished(T, l, n - 1) && n - 1 !in ReadyOf(T, l) then [n - 1] else [])
  }

  /** Every child nobody accepted: first the ready ones, then the handshaking. */
  function Unaccepted(T: Table, l: Fd): seq<Fd>
    requires Listening(T, l)
  {
    ReadyOf(T, l) + UnfinishedBelow(T, l, T.nextId)
  }

  function RemoveAll(T: Table, fds: seq<Fd>): Table {
    if fds == [] then T else Remove(RemoveAll(T, fds[..|fds| - 1]), fds[|fds| - 1])
  }

  function RstOf(T: Table, fd: Fd): seq<Packet> {
    if fd in T.sockets && T.sockets[fd].tcb.Some? && T.sockets[fd].bound.Some?
    then [Tcp(T.sockets[fd].bound.value.At(), T.sockets[fd].tcb.value.peer, RstFrom(T.sockets[fd].tcb.value))]
    else []
  }

  /** One RST for each of the sockets, in order. */
  function Rsts(T: Table, fds: seq<Fd>): seq<Packet> {
    if fds == [] then [] else Rsts(T, fds[..|fds| - 1]) + RstOf(T, fds[|fds| - 1])
  }

  lemma {:induction false} UnfinishedBelowExact(T: Table, l: Fd, n: nat, fd: Fd)
    requires Listening(T, l)
    ensures fd in UnfinishedBelow(T, l, n) <==> fd < n && Unfinished(T, l, fd) && fd !in ReadyOf(T, l)
    ensures NoDuplicates(UnfinishedBelow(T, l, n))
  {
    if n > 0 {
      UnfinishedBelowExact(T, l, n - 1, fd);
      UnfinishedBelowExact(T, l, n - 1, n - 1);
    }
  }

  /** Each unaccepted child is listed once, and nothing else is. */
  lemma UnacceptedExact(T: Table, handles: set<Fd>, l: Fd, fd: Fd)
    requires Coherent(T, handles) && Listening(T, l)
    ensures fd in Unaccepted(T, l) <==> Queued(T, l, fd) || Unfinished(T, l, fd)
    ensures NoDuplicates(Unaccepted(T, l))
    ensures fd in Unaccepted(T, l) ==> fd != l && fd in T.sockets && T.sockets[fd].tcb.Some? && fd !in handles
  {
    UnfinishedBelowExact(T, l, T.nextId, fd);
    forall i | 0 <= i < |ReadyOf(T, l)| ensures ReadyOf(T, l)[i] !in UnfinishedBelow(T, l, T.nextId) {
      UnfinishedBelowExact(T, l, T.nextId, ReadyOf(T, l)[i]);
    }
    if fd in T.sockets { assert SocketOk(T, fd); }
    assert SocketOk(T, l);
    if Queued(T, l, fd) { assert Waiting(T, handles, fd); }
  }

  lemma {:induction false} RemoveAllSockets(T: Table, fds: seq<Fd>)
    ensures RemoveAll(T, fds).nextId == T.nextId
    ensures RemoveAll(T, fds).sockets == map fd | fd in T.sockets && fd !in fds :: T.sockets[fd]
  {
    if fds != [] {
      var before := fds[..|fds| - 1];
      RemoveAllSockets(T, before);
      assert fds == before + [fds[|fds| - 1]];
    }
  }

  /** Nobody holds `fd` and no listener but `l` has it queued. */
  ghost predicate Discardable(T: Table, handles: set<Fd>, l: Fd, fd: Fd)
    requires l in T.sockets
  {
    fd != l && fd !in handles && forall m :: !Queued(StopListening(T, l), m, fd)
  }

  lemma DiscardKeeps(T: Table, handles: set<Fd>, l: Fd, fd: Fd)
    requires l in T.sockets && Coherent(StopListening(T, l), handles) && Discardable(T, handles, l, fd)
    ensures l in Remove(T, fd).sockets && Coherent(StopListening(Remove(T, fd), l), handles)
  {
    RemoveAndStop(T, l, fd);
    RemoveKeeps(StopListening(T, l), handles, fd);
    assert handles - {fd} == handles;
  }

  lemma StaysDiscardable(T: Table, handles: set<Fd>, l: Fd, fds: seq<Fd>, fd: Fd)
    requires l in T.sockets && l !in fds && Discardable(T, handles, l, fd)
    ensures l in RemoveAll(T, fds).sockets && Discardable(RemoveAll(T, fds), handles, l, fd)
  {
    RemoveAllSockets(T, fds);
    var T1 := RemoveAll(T, fds);
    forall m ensures !Queued(StopListening(T1, l), m, fd) {
      assert !Queued(StopListening(T, l), m, fd);
    }
  }

  /** Any number of them can go, while `l` stops listening. */
  lemma {:induction false} RemoveAllKeeps(T: Table, handles: set<Fd>, l: Fd, fds: seq<Fd>)
    requires l in T.sockets && Coherent(StopListening(T, l), handles)
    requires forall fd :: fd in fds ==> Discardable(T, handles, l, fd)
    ensures l in RemoveAll(T, fds).sockets
    ensures Coherent(StopListening(RemoveAll(T, fds), l), handles)
  {
    if fds != [] {
      var before, fd := fds[..|fds| - 1], fds[|fds| - 1];
      assert forall g :: g in before ==> g in fds;
      RemoveAllKeeps(T, handles, l, before);
      assert fd in fds && Discardable(T, handles, l, fd);
      StaysDiscardable(T, handles, l, before, fd);
      DiscardKeeps(RemoveAll(T, before), handles, l, fd);
    }
  }

  lemma NotWaiting(T: Table, handles: set<Fd>, fd: Fd)
    requires QueuesAgree(T, handles)
    ensures !Waiting(T, handles, fd) ==> forall m :: !Queued(T, m, fd)
  {
  }

  /** Closing a listener with all its unaccepted children. */
  lemma CloseListenerKeeps(T: Table, handles: set<Fd>, l: Fd)
    requires Coherent(T, handles) && Listening(T, l)
    ensures Coherent(Remove(RemoveAll(T, Unaccepted(T, l)), l), handles - {l})
  {
    var cs := Unaccepted(T, l);
    StopListeningKeeps(T, handles, l);
    forall fd | fd in cs ensures Discardable(T, handles, l, fd) {
      UnacceptedExact(T, handles, l, fd);
      NotWaiting(T, handles, fd);
    }
    RemoveAllKeeps(T, handles, l, cs);
    RemoveAllSockets(T, cs);
    var T1 := RemoveAll(T, cs);
    RemoveAndStop(T1, l, l + 1);
    assert StopListening(T1, l).sockets[l].tcb.None? by {
      assert SocketOk(T, l);
    }
    NotWaiting(StopListening(T1, l), handles, l);
    RemoveKeeps(StopListening(T1, l), handles, l);
  }

  /** The shim dropped it and TCP has finished with it. */
  predicate Reapable(s: Socket) {
    s.fdClosed && (s.tcb.None? || s.tcb.value.state == Closed || s.tcb.value.reset)
  }

  lemma ReapKeeps(T: Table, handles: set<Fd>, fd: Fd)
    requires Coherent(T, handles) && fd in T.sockets && Reapable(T.sockets[fd])
    ensures Coherent(Remove(T, fd), handles) && fd !in handles
  {
    NotWaiting(T, handles, fd);
    RemoveKeeps(T, handles, fd);
    assert handles - {fd} == handles;
  }
}
