/** One pair of endpoints, seen through the socket table of one of the hosts:
    every event of the kernel is one step of `Connection`, or none. */
module Projection {
  import opened Common
  import opened SeqSpace
  import opened Addresses
  import opened TcbSpec
  import opened SocketTable
  import opened KernelSpec
  import opened StackSpec
  import Connection

  type Host = Connection.Host
  type Config = Connection.Config

  // ---- one end of the connection ----

  /** One end: its own endpoint and the other. */
  datatype End = End(local: Endpoint, remote: Endpoint) {
    function Key(): (Endpoint, Endpoint) { (local, remote) }
  }

  /** What the applications at one end did: whether the tuple was ever opened,
      the bytes `send` accepted, whether the write side was closed, and the
      bytes `recv` returned. */
  datatype Tape = Tape(used: bool, written: seq<Byte>, finished: bool, read: seq<Byte>)

  const BLANK := Tape(false, [], false, [])

  predicate Connects(T: Table, end: End) {
    end.Key() in T.connections && HasBlock(T.sockets, T.connections[end.Key()])
  }

  function FdOf(T: Table, end: End): Fd
    requires Connects(T, end)
  {
    T.connections[end.Key()]
  }

  function BlockOf(T: Table, end: End): Tcb
    requires Connects(T, end)
  {
    T.sockets[FdOf(T, end)].tcb.value
  }

  predicate IsOurs(T: Table, end: End, fd: Fd) {
    Connects(T, end) && FdOf(T, end) == fd
  }

  function Written(t: Tcb, buf: seq<Byte>, cap: nat): seq<Byte> {
    var r := Send(t, buf, cap).1;
    if r.Ready? then buf[..r.value] else []
  }

  function Returned(t: Tcb, lens: seq<nat>, cap: nat): seq<Byte> {
    var r := Recv(t, lens, cap).1;
    if r.Ready? then r.value else []
  }

  function WrittenBy(k: Stack, setup: Setup, e: Event, end: End): seq<Byte> {
    if Able(k, e) && e.Wrote? && IsOurs(k.table, end, e.fd)
    then Written(BlockOf(k.table, end), e.buf, setup.sendCap) else []
  }

  function ReadBy(k: Stack, setup: Setup, e: Event, end: End): seq<Byte> {
    if Able(k, e) && e.Received? && IsOurs(k.table, end, e.fd)
    then Returned(BlockOf(k.table, end), e.lens, setup.lim.recvCap) else []
  }

  /** The tape once the table is `T` and so much more was written and read. */
  function Extend(tape: Tape, T: Table, end: End, written: seq<Byte>, read: seq<Byte>): Tape {
    Tape(tape.used || Connects(T, end),
         tape.written + written,
         tape.finished || (Connects(T, end) && BlockOf(T, end).wrClosed),
         tape.read + read)
  }

  /** `recv` at an end into nonempty buffers would return 0. */
  predicate SeesEof(T: Table, end: End, lens: seq<nat>, cap: nat) {
    Connects(T, end) && TcbSpec.Total(lens) > 0 && Recv(BlockOf(T, end), lens, cap).1 == Ready([])
  }

  // ---- the event as the connection sees it ----

  predicate OnTuple(p: Packet, end: End) {
    p.Tcp? && p.src == end.remote && p.dst == end.local
  }

  function AnswerTo(T: Table, local: Endpoint): Connection.Answer {
    var l := FindListener(T, local);
    if l.None? || !Listening(T, l.value) then Connection.Refuse
    else if BacklogFull(T, l.value, local) then Connection.Ignore
    else Connection.Accept
  }

  function Project(k: Stack, e: Event, end: End): Option<Connection.Op> {
    var T := k.table;
    if !Able(k, e) then None else
    match e
    case Connected(fd, src, peer) => if End(src, peer) == end then Some(Connection.Connect(k.isn)) else None
    case Wrote(fd, buf) => if IsOurs(T, end, fd) then Some(Connection.Write(buf)) else None
    case ShutDown(fd) => if IsOurs(T, end, fd) then Some(Connection.Shutdown) else None
    case Received(fd, lens) => if IsOurs(T, end, fd) then Some(Connection.Read(lens)) else None
    case Arrived(p) =>
      if OnTuple(p, end) then Some(Connection.Deliver(p.seg, k.isn, AnswerTo(T, end.local))) else None
    case Swept(sweep) =>
      if !Connects(T, end) then None
      else if sweep == Segmentation then Some(Connection.SegmentOut) else Some(Connection.Retransmit)
    case Dropped(fd) =>
      if IsOurs(T, end, fd) then Some(Connection.Close)
      else if Listening(T, fd) && Connects(T, end) && FdOf(T, end) in Unaccepted(T, fd)
          then Some(Connection.CloseListener)
      else None
    case Reaped(fd) => if IsOurs(T, end, fd) then Some(Connection.Reap) else None
    case _ => None
  }

  function CfgOf(setup: Setup, end: End): (cfg: Config)
    requires setup.Ok()
    ensures Connection.ConfigOk(cfg)
  {
    Connection.Config(setup.sendCap, setup.lim.recvCap, MssFor(setup.lim, end.local.ip),
                      setup.lim.retxThreshold, setup.lim.retxMax, end.remote)
  }

  function Carried(ps: seq<Packet>, end: End): set<Segment> {
    set p | p in ps && p.Tcp? && p.src == end.local && p.dst == end.remote :: p.seg
  }

  lemma CarriedAppend(ps: seq<Packet>, qs: seq<Packet>, end: End)
    ensures Carried(ps + qs, end) == Carried(ps, end) + Carried(qs, end)
  {
  }

  /** An end of the tuple in the terms that both models share: its block and
      whether it lingers, what its applications did, and whether that is
      nothing at all yet. */
  datatype Picture = Picture(block: Option<(Tcb, bool)>, tape: Tape, blank: bool)

  function Seen(T: Table, tape: Tape, end: End): Picture {
    Picture(if Connects(T, end) then Some((BlockOf(T, end), T.sockets[FdOf(T, end)].fdClosed)) else None,
            tape, !tape.used)
  }

  function Shown(h: Host): Picture {
    Picture(if h.phase == Connection.Live then Some((h.tcb, h.fdClosed)) else None,
            Tape(h.phase != Connection.Idle, h.sent, h.tcb.wrClosed, h.read),
            h.phase == Connection.Idle && !h.fdClosed && !h.tcb.wrClosed)
  }

  /** The host of `Connection` that this end of the tuple is. */
  predicate Mirrors(T: Table, tape: Tape, h: Host, end: End) {
    Seen(T, tape, end) == Shown(h)
  }

  /** What the indices say of the socket on the tuple. */
  predicate EndOk(T: Table, end: End) {
    Connects(T, end) ==>
      var s := T.sockets[FdOf(T, end)];
      && s.bound.Some? && s.bound.value.At() == end.local && s.tcb.value.peer == end.remote
      && s.listen.None? && TcbOk(s.tcb.value) && FdOf(T, end) < T.nextId
  }

  lemma EndIsOk(T: Table, end: End)
    requires IndicesAgree(T)
    ensures EndOk(T, end)
    ensures Connects(T, end) <==> end.Key() in T.connections
  {
    if end.Key() in T.connections {
      assert IsConnection(T, T.connections[end.Key()], end.local, end.remote);
      assert SocketOk(T, T.connections[end.Key()]);
    }
  }

  lemma OursIff(T: Table, end: End, fd: Fd)
    requires IndicesAgree(T)
    ensures IsOurs(T, end, fd) <==> IsConnection(T, fd, end.local, end.remote)
  {
    FindConnectionIsLinearScan(T, fd, end.local, end.remote);
    EndIsOk(T, end);
  }

  // ---- events that pass it by ----

  /** The same block, or none, on the tuple. */
  predicate SameEnd(T: Table, T': Table, end: End) {
    && (Connects(T', end) <==> Connects(T, end))
    && (Connects(T, end) ==>
          && BlockOf(T', end) == BlockOf(T, end)
          && T'.sockets[FdOf(T', end)].fdClosed == T.sockets[FdOf(T, end)].fdClosed)
  }

  lemma {:induction false} PacketsCarried(local: Endpoint, remote: Endpoint, ss: seq<Segment>, end: End)
    ensures Carried(Packets(local, remote, ss), end) == if End(local, remote) == end then Connection.Segments(ss)
            else {}
  {
    if ss == [] {
      assert Connection.Segments(ss) == {};
    } else {
      PacketsCarried(local, remote, ss[1..], end);
      CarriedAppend([Tcp(local, remote, ss[0])], Packets(local, remote, ss[1..]), end);
      assert ss == [ss[0]] + ss[1..];
      assert Connection.Segments(ss) == {ss[0]} + Connection.Segments(ss[1..]);
      assert Carried([Tcp(local, remote, ss[0])], end) == if End(local, remote) == end then {ss[0]} else {};
    }
  }

  lemma VisitCarried(T: Table, fd: Fd, lim: Limits, sweep: Sweep, end: End)
    requires IndicesAgree(T) && LimitsOk(lim) && !IsOurs(T, end, fd)
    ensures Carried(VisitAt(T.sockets, fd, lim, sweep), end) == {}
  {
    OursIff(T, end, fd);
    if fd in T.sockets && Sends(T.sockets[fd]) && sweep == Segmentation {
      var s := T.sockets[fd];
      SegmentOneSendsAll(s.tcb.value, MssFor(lim, s.bound.value.At().ip), lim.recvCap);
      var (t, ss) := SegmentOne(s.tcb.value, MssFor(lim, s.bound.value.At().ip), lim.recvCap);
      PacketsCarried(s.bound.value.At(), t.peer, ss, end);
    }
  }

  /** What a sweep of the sockets below `n` sends on the tuple. */
  function CarriedBelow(T: Table, n: nat, lim: Limits, sweep: Sweep, end: End): set<Segment>
    requires LimitsOk(lim)
  {
    if Connects(T, end) && FdOf(T, end) < n then Carried(VisitAt(T.sockets, FdOf(T, end), lim, sweep), end) else {}
  }

  lemma CarriedNext(T: Table, n: nat, lim: Limits, sweep: Sweep, end: End)
    requires IndicesAgree(T) && LimitsOk(lim)
    ensures CarriedBelow(T, n + 1, lim, sweep, end)
         == CarriedBelow(T, n, lim, sweep, end) + Carried(VisitAt(T.sockets, n, lim, sweep), end)
  {
    if !IsOurs(T, end, n) {
      VisitCarried(T, n, lim, sweep, end);
    }
  }

  /** A sweep's packets on the tuple are those of its socket. */
  lemma {:induction false} SweepCarried(T: Table, n: nat, lim: Limits, sweep: Sweep, end: End)
    requires IndicesAgree(T) && LimitsOk(lim)
    ensures Carried(SweepPackets(T.sockets, n, lim, sweep), end) == CarriedBelow(T, n, lim, sweep, end)
  {
    if n > 0 {
      SweepCarried(T, n - 1, lim, sweep, end);
      CarriedAppend(SweepPackets(T.sockets, n - 1, lim, sweep), VisitAt(T.sockets, n - 1, lim, sweep), end);
      CarriedNext(T, n - 1, lim, sweep, end);
    }
  }

  lemma {:induction false} RstsCarried(T: Table, fds: seq<Fd>, end: End)
    requires IndicesAgree(T)
    ensures Carried(Rsts(T, fds), end)
         == if Connects(T, end) && FdOf(T, end) in fds then {RstFrom(BlockOf(T, end))} else {}
  {
    if fds != [] {
      var before, fd := fds[..|fds| - 1], fds[|fds| - 1];
      RstsCarried(T, before, end);
      CarriedAppend(Rsts(T, before), RstOf(T, fd), end);
      RstCarried(T, fd, end);
      assert fds == before + [fd];
    }
  }

  lemma RstCarried(T: Table, fd: Fd, end: End)
    requires IndicesAgree(T)
    ensures Carried(RstOf(T, fd), end) == if IsOurs(T, end, fd) then {RstFrom(BlockOf(T, end))} else {}
  {
    OursIff(T, end, fd);
  }

  lemma {:induction false} RemoveAllConnections(T: Table, fds: seq<Fd>)
    ensures RemoveAll(T, fds).connections == map c | c in T.connections && T.connections[c] !in fds :: T.connections[c]
  {
    if fds != [] {
      var before := fds[..|fds| - 1];
      RemoveAllConnections(T, before);
      assert fds == before + [fds[|fds| - 1]];
    }
  }

  lemma RemoveEnd(T: Table, fd: Fd, end: End)
    ensures if IsOurs(T, end, fd) then !Connects(Remove(T, fd), end) else SameEnd(T, Remove(T, fd), end)
  {
  }

  lemma RemoveAllEnd(T: Table, fds: seq<Fd>, end: End)
    ensures if Connects(T, end) && FdOf(T, end) in fds then !Connects(RemoveAll(T, fds), end)
            else SameEnd(T, RemoveAll(T, fds), end)
  {
    RemoveAllSockets(T, fds);
    RemoveAllConnections(T, fds);
  }

  lemma DropListenerEnd(T: Table, l: Fd, end: End)
    requires IndicesAgree(T) && Listening(T, l)
    ensures var (T', out) := Drop(T, l);
            if Connects(T, end) && FdOf(T, end) in Unaccepted(T, l)
            then !Connects(T', end) && Carried(out, end) == {RstFrom(BlockOf(T, end))}
            else SameEnd(T, T', end) && Carried(out, end) == {}
  {
    var fds := Unaccepted(T, l);
    RstsCarried(T, fds, end);
    RemoveAllEnd(T, fds, end);
    RemoveAllSockets(T, fds);
    RemoveEnd(RemoveAll(T, fds), l, end);
    assert SocketOk(T, l);
  }

  // ---- where an event leaves the host ----

  /** The table, the queued packets and the tape after an event are those of
      the host and the segments it emitted. */
  predicate Lands(T: Table, out: seq<Packet>, tape: Tape, w: seq<Byte>, r: seq<Byte>, h: Host, segs: set<Segment>,
      end: End) {
    Mirrors(T, Extend(tape, T, end, w, r), h, end) && segs == Carried(out, end)
  }

  lemma SameLands(T: Table, T': Table, out: seq<Packet>, tape: Tape, h: Host, end: End)
    requires Mirrors(T, tape, h, end) && SameEnd(T, T', end) && Carried(out, end) == {}
    ensures Lands(T', out, tape, [], [], h, {}, end)
  {
  }

  /** Another block. */
  lemma BlockLands(T: Table, T': Table, out: seq<Packet>, tape: Tape, w: seq<Byte>, r: seq<Byte>, h: Host, h': Host,
      end: End)
    requires Mirrors(T, tape, h, end) && Connects(T, end) && Connects(T', end)
    requires BlockOf(T', end) == h'.tcb && T'.sockets[FdOf(T', end)].fdClosed == h'.fdClosed
    requires h'.phase == h.phase && (h.tcb.wrClosed ==> h'.tcb.wrClosed) && h'.sent == h.sent + w
             && h'.read == h.read + r
    ensures Lands(T', out, tape, w, r, h', Carried(out, end), end)
  {
  }

  /** A first block. */
  lemma OpenLands(T: Table, T': Table, out: seq<Packet>, tape: Tape, h: Host, h': Host, end: End)
    requires Mirrors(T, tape, h, end) && h.phase == Connection.Idle && Connects(T', end)
    requires BlockOf(T', end) == h'.tcb && !T'.sockets[FdOf(T', end)].fdClosed
    requires h' == Connection.Open(h, h'.tcb, h'.isn)
    ensures Lands(T', out, tape, [], [], h', Carried(out, end), end)
  {
  }

  /** No block any more. */
  lemma GoneLands(T: Table, T': Table, out: seq<Packet>, tape: Tape, h: Host, end: End)
    requires Mirrors(T, tape, h, end) && Connects(T, end) && !Connects(T', end)
    ensures Lands(T', out, tape, [], [], h.(phase := Connection.Gone), Carried(out, end), end)
  {
  }

  // ---- events that have nothing to do with the tuple ----

  lemma SetTcbOther(T: Table, fd: Fd, t: Tcb, end: End)
    requires HasBlock(T.sockets, fd) && !IsOurs(T, end, fd)
    ensures SameEnd(T, SetTcb(T, fd, t), end)
  {
  }

  lemma RecvOther(T: Table, fd: Fd, t: Tcb, s: Option<Segment>, end: End)
    requires IndicesAgree(T) && HasBlock(T.sockets, fd) && !IsOurs(T, end, fd)
    requires T.sockets[fd].bound.Some? && t.peer == T.sockets[fd].tcb.value.peer
    ensures SameEnd(T, SetTcb(T, fd, t), end)
    ensures Carried(Reply(T.sockets[fd].bound.value.At(), t.peer, s), end) == {}
  {
    OursIff(T, end, fd);
    SetTcbOther(T, fd, t, end);
  }

  lemma KeptEnd(T: Table, T': Table, end: End)
    requires IndicesAgree(T) && (end.Key() in T'.connections <==> end.Key() in T.connections)
    requires Connects(T, end) ==>
               && T'.connections[end.Key()] == FdOf(T, end)
               && FdOf(T, end) in T'.sockets && T'.sockets[FdOf(T, end)] == T.sockets[FdOf(T, end)]
    ensures SameEnd(T, T', end)
  {
    EndIsOk(T, end);
  }

  lemma SegmentOther(T: Table, isn: U32, cap: nat, fd: Fd, local: Endpoint, s: Segment, end: End)
    requires IndicesAgree(T) && HasBlock(T.sockets, fd) && SocketOk(T, fd) && !IsOurs(T, end, fd)
    ensures SameEnd(T, OnConnection(T, isn, cap, fd, local, s).table, end)
  {
    EndIsOk(T, end);
    SetTcbOther(T, fd, OnSegment(T.sockets[fd].tcb.value, s, cap).0, end);
  }

  lemma SynOther(T: Table, isn: U32, local: Endpoint, remote: Endpoint, s: Segment, end: End)
    requires IndicesAgree(T) && End(local, remote) != end
    ensures SameEnd(T, OnSyn(T, isn, local, remote, s).table, end)
  {
    EndIsOk(T, end);
    KeptEnd(T, OnSyn(T, isn, local, remote, s).table, end);
  }

  lemma {:induction false} ArrivalOther(T: Table, isn: U32, cap: nat, local: Endpoint, remote: Endpoint, s: Segment,
      end: End)
    requires IndicesAgree(T) && End(local, remote) != end
    ensures var effect := Inbound(T, isn, cap, local, remote, s);
            SameEnd(T, effect.table, end) && Carried(Reply(local, remote, effect.reply), end) == {}
  {
    if (local, remote) in T.connections {
      var fd := T.connections[(local, remote)];
      assert IsConnection(T, fd, local, remote) && SocketOk(T, fd);
      OursIff(T, end, fd);
      SegmentOther(T, isn, cap, fd, local, s, end);
    } else if s.flags.syn && !s.flags.ack {
      SynOther(T, isn, local, remote, s, end);
    }
  }

  lemma NewSocketEnd(T: Table, T': Table, end: End)
    requires IndicesAgree(T) && T'.connections == T.connections
    requires T'.sockets.Keys == T.sockets.Keys + {T.nextId}
    requires forall fd :: fd in T.sockets ==> T'.sockets[fd] == T.sockets[fd]
    ensures SameEnd(T, T', end)
  {
    KeptEnd(T, T', end);
  }

  lemma SocketChangeEnd(T: Table, fd: Fd, s: Socket, end: End)
    requires IndicesAgree(T) && fd in T.sockets && T.sockets[fd].tcb.None?
    ensures SameEnd(T, SetSocket(T, fd, s), end)
  {
    KeptEnd(T, SetSocket(T, fd, s), end);
  }

  lemma OtherConnectEnd(T: Table, fd: Fd, s: Socket, end: End)
    requires IndicesAgree(T) && fd in T.sockets && T.sockets[fd].tcb.None? && s.bound.Some? && s.tcb.Some?
    requires End(s.bound.value.At(), s.tcb.value.peer) != end
    ensures SameEnd(T, Attach(T, fd, s), end)
  {
    KeptEnd(T, Attach(T, fd, s), end);
  }

  lemma LingerOther(T: Table, fd: Fd, s: Socket, end: End)
    requires !IsOurs(T, end, fd) && fd in T.sockets && s.tcb.Some? == T.sockets[fd].tcb.Some?
    ensures SameEnd(T, SetSocket(T, fd, s), end)
  {
  }

  lemma {:induction false} DropOther(T: Table, fd: Fd, end: End)
    requires IndicesAgree(T) && fd in T.sockets && !IsOurs(T, end, fd)
    requires Listening(T, fd) && Connects(T, end) ==> FdOf(T, end) !in Unaccepted(T, fd)
    ensures var (T', out) := Drop(T, fd);
            SameEnd(T, T', end) && Carried(out, end) == {}
  {
    if Listening(T, fd) {
      DropListenerEnd(T, fd, end);
    } else {
      RstCarried(T, fd, end);
      RemoveEnd(T, fd, end);
      if T.sockets[fd].tcb.Some? {
        LingerOther(T, fd, LingeringSocket(T.sockets[fd]), end);
      }
    }
  }

  lemma {:induction false} OtherSocketEvent(k: Stack, setup: Setup, e: Event, end: End)
    requires setup.Ok() && IndicesAgree(k.table) && Able(k, e) && Project(k, e, end) == None
    requires e.Opened? || e.Bound? || e.Listened? || e.Connected? || e.Accepted?
    ensures var (k', out) := Perform(k, setup, e);
            SameEnd(k.table, k'.table, end) && Carried(out, end) == {}
  {
    var T, T' := k.table, Perform(k, setup, e).0.table;
    match e
    case Connected(fd, src, peer) =>
      assert SocketOk(T, fd);
      OtherConnectEnd(T, fd, ClientSocket(T.sockets[fd], src, peer, k.isn), end);
    case Listened(fd, _) => SocketChangeEnd(T, fd, T'.sockets[fd], end);
    case Accepted(fd) =>
      assert SocketOk(T, fd);
      SocketChangeEnd(T, fd, T'.sockets[fd], end);
    case Opened(_, _) =>
      NextIdKeepsIndices(T);
      NewSocketEnd(T, T', end);
    case Bound(_) =>
      NextIdKeepsIndices(T);
      NewSocketEnd(T, T', end);
  }

  /** What has nothing to do with the tuple leaves it alone. */
  lemma {:induction false} OtherEvent(k: Stack, setup: Setup, e: Event, end: End)
    requires setup.Ok() && IndicesAgree(k.table) && Project(k, e, end) == None
    ensures var (k', out) := Perform(k, setup, e);
            SameEnd(k.table, k'.table, end) && Carried(out, end) == {}
  {
    var T := k.table;
    if Able(k, e) {
      match e
      case Wrote(fd, buf) => SetTcbOther(T, fd, Send(T.sockets[fd].tcb.value, buf, setup.sendCap).0, end);
      case ShutDown(fd) => SetTcbOther(T, fd, ShutdownWrite(T.sockets[fd].tcb.value).0, end);
      case Received(fd, lens) =>
        assert SocketOk(T, fd);
        var (t, _, update) := Recv(T.sockets[fd].tcb.value, lens, setup.lim.recvCap);
        RecvOther(T, fd, t, update, end);
      case Arrived(p) => if p.Tcp? { ArrivalOther(T, k.isn, setup.lim.recvCap, p.dst, p.src, p.seg, end); }
      case Swept(sweep) =>
        SweepCarried(T, T.nextId, setup.lim, sweep, end);
        SweepAbsent(T, setup.lim, sweep, end);
      case Dropped(fd) => DropOther(T, fd, end);
      case Reaped(fd) => RemoveEnd(T, fd, end);
      case _ => OtherSocketEvent(k, setup, e, end);
    }
  }

  lemma SweepAbsent(T: Table, lim: Limits, sweep: Sweep, end: End)
    requires IndicesAgree(T) && LimitsOk(lim) && !Connects(T, end)
    ensures !Connects(SweepTable(T, lim, sweep), end)
  {
    EndIsOk(T, end);
  }

  // ---- events that are steps of the connection ----

  lemma ReplyCarried(end: End, s: Option<Segment>)
    ensures Carried(Reply(end.local, end.remote, s), end) == Connection.Emitted(s)
  {
  }

  lemma SetTcbOurs(T: Table, t: Tcb, end: End)
    requires Connects(T, end)
    ensures var T' := SetTcb(T, FdOf(T, end), t);
            && Connects(T', end) && BlockOf(T', end) == t && FdOf(T', end) == FdOf(T, end)
            && T'.sockets[FdOf(T', end)].fdClosed == T.sockets[FdOf(T, end)].fdClosed
  {
  }

  lemma WriteLands(T: Table, setup: Setup, buf: seq<Byte>, end: End, tape: Tape, h: Host)
    requires setup.Ok() && Mirrors(T, tape, h, end) && Connects(T, end)
    ensures var (h', segs) := Connection.DoWrite(h, CfgOf(setup, end), buf);
            Lands(SetTcb(T, FdOf(T, end), Send(h.tcb, buf, setup.sendCap).0), [], tape,
                  Written(h.tcb, buf, setup.sendCap), [], h', segs, end)
  {
    var t := Send(h.tcb, buf, setup.sendCap).0;
    SetTcbOurs(T, t, end);
    BlockLands(T, SetTcb(T, FdOf(T, end), t), [], tape, Written(h.tcb, buf, setup.sendCap), [], h,
               Connection.DoWrite(h, CfgOf(setup, end), buf).0, end);
  }

  lemma ShutdownLands(T: Table, end: End, tape: Tape, h: Host)
    requires Mirrors(T, tape, h, end) && Connects(T, end)
    ensures var t := ShutdownWrite(h.tcb).0;
            Lands(SetTcb(T, FdOf(T, end), t), [], tape, [], [], h.(tcb := t), {}, end)
  {
    var t := ShutdownWrite(h.tcb).0;
    SetTcbOurs(T, t, end);
    BlockLands(T, SetTcb(T, FdOf(T, end), t), [], tape, [], [], h, h.(tcb := t), end);
  }

  lemma ReadLands(T: Table, setup: Setup, lens: seq<nat>, end: End, tape: Tape, h: Host)
    requires setup.Ok() && Mirrors(T, tape, h, end) && Connects(T, end)
    ensures var (t, _, update) := Recv(h.tcb, lens, setup.lim.recvCap);
            var (h', segs) := Connection.DoRead(h, CfgOf(setup, end), lens);
            Lands(SetTcb(T, FdOf(T, end), t), Reply(end.local, end.remote, update), tape,
                  [], Returned(h.tcb, lens, setup.lim.recvCap), h', segs, end)
  {
    var (t, _, update) := Recv(h.tcb, lens, setup.lim.recvCap);
    SetTcbOurs(T, t, end);
    ReplyCarried(end, update);
    BlockLands(T, SetTcb(T, FdOf(T, end), t), Reply(end.local, end.remote, update), tape,
               [], Returned(h.tcb, lens, setup.lim.recvCap), h, Connection.DoRead(h, CfgOf(setup, end), lens).0, end);
  }

  lemma ConnectLands(T: Table, fd: Fd, s: Socket, setup: Setup, isn: U32, end: End, tape: Tape, h: Host)
    requires setup.Ok() && Mirrors(T, tape, h, end) && h.phase == Connection.Idle && !h.listens && fd in T.sockets
             && !s.fdClosed
    ensures var (h', segs) := Connection.DoConnect(h, CfgOf(setup, end), isn);
            Lands(Attach(T, fd, ClientSocket(s, end.local, end.remote, isn)), [Tcp(end.local, end.remote, Syn(isn))],
                tape,
                  [], [], h', segs, end)
  {
    var T' := Attach(T, fd, ClientSocket(s, end.local, end.remote, isn));
    var h' := Connection.DoConnect(h, CfgOf(setup, end), isn).0;
    assert Carried([Tcp(end.local, end.remote, Syn(isn))], end) == {Syn(isn)};
    OpenLands(T, T', [Tcp(end.local, end.remote, Syn(isn))], tape, h, h', end);
  }

  /** A promotion queues the descriptor, and otherwise is the change of block. */
  lemma SegmentEnd(T: Table, isn: U32, cap: nat, s: Segment, end: End)
    requires IndicesAgree(T) && Connects(T, end) && SocketOk(T, FdOf(T, end))
    ensures var effect := OnConnection(T, isn, cap, FdOf(T, end), end.local, s);
            var (t, reply) := OnSegment(BlockOf(T, end), s, cap);
            && effect.reply == reply && Connects(effect.table, end) && BlockOf(effect.table, end) == t
            && effect.table.sockets[FdOf(effect.table, end)].fdClosed == T.sockets[FdOf(T, end)].fdClosed
  {
    SetTcbOurs(T, OnSegment(BlockOf(T, end), s, cap).0, end);
  }

  lemma FinishedStays(t: Tcb, s: Segment, cap: nat)
    requires SendSideOk(t)
    ensures OnSegment(t, s, cap).0.wrClosed == t.wrClosed
  {
  }

  lemma {:induction false} SegmentLands(T: Table, isn: U32, setup: Setup, s: Segment, end: End, tape: Tape, h: Host)
    requires setup.Ok() && IndicesAgree(T) && Mirrors(T, tape, h, end) && Connects(T, end) && Connection.Sane(h)
    ensures var effect := Inbound(T, isn, setup.lim.recvCap, end.local, end.remote, s);
            var (h', segs) := Connection.DoDeliver(h, CfgOf(setup, end), s, isn, AnswerTo(T, end.local));
            Lands(effect.table, Reply(end.local, end.remote, effect.reply), tape, [], [], h', segs, end)
  {
    EndIsOk(T, end);
    assert SocketOk(T, FdOf(T, end));
    var effect := OnConnection(T, isn, setup.lim.recvCap, FdOf(T, end), end.local, s);
    SegmentEnd(T, isn, setup.lim.recvCap, s, end);
    FinishedStays(h.tcb, s, setup.lim.recvCap);
    ReplyCarried(end, effect.reply);
    BlockLands(T, effect.table, Reply(end.local, end.remote, effect.reply), tape, [], [], h,
               Connection.Absorb(h, OnSegment(h.tcb, s, setup.lim.recvCap).0), end);
  }

  lemma {:induction false} StrayLands(T: Table, isn: U32, setup: Setup, s: Segment, end: End, tape: Tape, h: Host)
    requires setup.Ok() && IndicesAgree(T) && Mirrors(T, tape, h, end) && !Connects(T, end) && Connection.Sane(h)
    requires Connects(Inbound(T, isn, setup.lim.recvCap, end.local, end.remote, s).table, end) ==>
               h.phase == Connection.Idle && h.listens
    ensures var effect := Inbound(T, isn, setup.lim.recvCap, end.local, end.remote, s);
            var (h', segs) := Connection.DoDeliver(h, CfgOf(setup, end), s, isn, AnswerTo(T, end.local));
            Lands(effect.table, Reply(end.local, end.remote, effect.reply), tape, [], [], h', segs, end)
  {
    EndIsOk(T, end);
    var effect := Inbound(T, isn, setup.lim.recvCap, end.local, end.remote, s);
    ReplyCarried(end, effect.reply);
    if Connects(effect.table, end) {
      OpenLands(T, effect.table, Reply(end.local, end.remote, effect.reply), tape, h,
                Connection.DoDeliver(h, CfgOf(setup, end), s, isn, AnswerTo(T, end.local)).0, end);
    }
  }

  lemma SweepEnd(T: Table, lim: Limits, sweep: Sweep, end: End)
    requires LimitsOk(lim) && EndOk(T, end) && Connects(T, end)
    ensures var T' := SweepTable(T, lim, sweep);
            var s := Visit(T.sockets[FdOf(T, end)], lim, sweep).0;
            s.tcb.Some? && Connects(T', end) && T'.sockets[FdOf(T', end)] == s
  {
  }

  lemma SegmentationIs(s: Socket, setup: Setup, end: End)
    requires setup.Ok() && s.bound.Some? && s.bound.value.At() == end.local && s.tcb.Some?
             && s.tcb.value.peer == end.remote
    requires SendSideOk(s.tcb.value)
    ensures var (s', out) := Visit(s, setup.lim, Segmentation);
            var mss := MssFor(setup.lim, end.local.ip);
            if Transmitting(s.tcb.value.state) then
              var (t, ss) := SegmentOne(s.tcb.value, mss, setup.lim.recvCap);
              s' == s.(tcb := Some(t)) && Carried(out, end) == Connection.Segments(ss)
                  && t.wrClosed == s.tcb.value.wrClosed
            else s' == s && Carried(out, end) == {}
  {
    if Transmitting(s.tcb.value.state) {
      var mss := MssFor(setup.lim, end.local.ip);
      SegmentOneSendsAll(s.tcb.value, mss, setup.lim.recvCap);
      PacketsCarried(end.local, end.remote, SegmentOne(s.tcb.value, mss, setup.lim.recvCap).1, end);
    }
  }

  lemma RetransmissionIs(s: Socket, setup: Setup, end: End)
    requires setup.Ok() && s.bound.Some? && s.bound.value.At() == end.local && s.tcb.Some?
             && s.tcb.value.peer == end.remote
    ensures var (s', out) := Visit(s, setup.lim, Retransmission);
            var (t, action) := CheckRetx(s.tcb.value, setup.lim.retxThreshold, setup.lim.retxMax);
            && s' == s.(tcb := Some(t)) && t.wrClosed == s.tcb.value.wrClosed
            && Carried(out, end) == if action == ResendHandshake then {HandshakeSegment(t)} else {}
  {
    var t := CheckRetx(s.tcb.value, setup.lim.retxThreshold, setup.lim.retxMax).0;
    assert Carried([Tcp(end.local, end.remote, HandshakeSegment(t))], end) == {HandshakeSegment(t)};
  }

  function SweepOp(sweep: Sweep): Connection.Op {
    if sweep == Segmentation then Connection.SegmentOut else Connection.Retransmit
  }

  lemma {:induction false} SweepLands(T: Table, setup: Setup, sweep: Sweep, end: End, tape: Tape, h: Host,
      inbound: set<Segment>)
    requires setup.Ok() && EndOk(T, end) && Mirrors(T, tape, h, end) && Connects(T, end) && Connection.Sane(h)
    ensures var s := T.sockets[FdOf(T, end)];
            var (h', segs) := Connection.Step(h, CfgOf(setup, end), SweepOp(sweep), inbound);
            Lands(SweepTable(T, setup.lim, sweep), Visit(s, setup.lim, sweep).1, tape, [], [], h', segs, end)
  {
    var s := T.sockets[FdOf(T, end)];
    SweepEnd(T, setup.lim, sweep, end);
    SegmentationIs(s, setup, end);
    RetransmissionIs(s, setup, end);
    BlockLands(T, SweepTable(T, setup.lim, sweep), Visit(s, setup.lim, sweep).1, tape, [], [], h,
               Connection.Step(h, CfgOf(setup, end), SweepOp(sweep), inbound).0, end);
  }

  lemma CloseLands(T: Table, end: End, tape: Tape, h: Host)
    requires IndicesAgree(T) && Mirrors(T, tape, h, end) && Connects(T, end)
    ensures var (T', out) := Drop(T, FdOf(T, end));
            var (h', segs) := Connection.DoClose(h);
            Lands(T', out, tape, [], [], h', segs, end)
  {
    EndIsOk(T, end);
    var fd := FdOf(T, end);
    var (T', out) := Drop(T, fd);
    RstCarried(T, fd, end);
    RemoveEnd(T, fd, end);
    if Abandons(h.tcb) || h.tcb.recvBuf != [] {
      GoneLands(T, T', out, tape, h, end);
    } else {
      BlockLands(T, T', out, tape, [], [], h, Connection.DoClose(h).0, end);
    }
  }

  /** The tuple gets a block it did not have. */
  ghost predicate Opens(k: Stack, setup: Setup, e: Event, end: End) {
    !Connects(k.table, end) && Connects(Perform(k, setup, e).0.table, end)
  }

  /** An end is opened once: by `connect` at one end, by a SYN at the other. */
  ghost predicate OpensOnce(k: Stack, setup: Setup, e: Event, end: End, tape: Tape, listens: bool) {
    Opens(k, setup, e, end) ==> !tape.used && if listens then e.Arrived? else e.Connected?
  }

  /** Where an event leaves this end, and what it sends on the tuple. */
  ghost function AfterEvent(k: Stack, setup: Setup, e: Event, end: End, tape: Tape): (Picture, set<Segment>) {
    var (k', out) := Perform(k, setup, e);
    (Seen(k'.table, Extend(tape, k'.table, end, WrittenBy(k, setup, e, end), ReadBy(k, setup, e, end)), end),
        Carried(out, end))
  }

  /** Where a step leaves the host, and what it sends. */
  function AfterStep(h: Host, setup: Setup, end: End, op: Connection.Op, inbound: set<Segment>): (Picture, set<Segment>)
    requires setup.Ok() && Connection.Sane(h)
  {
    var (h', segs) := Connection.Step(h, CfgOf(setup, end), op, inbound);
    (Shown(h'), segs)
  }

  /** The application holds it, so it is not closed. */
  lemma HeldIsOpen(k: Stack, end: End, tape: Tape, h: Host, fd: Fd)
    requires QueuesAgree(k.table, k.handles) && Mirrors(k.table, tape, h, end) && IsOurs(k.table, end, fd)
             && fd in k.handles
    ensures !h.fdClosed && h.phase == Connection.Live
  {
  }

  lemma {:induction false} WriteAgrees(k: Stack, setup: Setup, fd: Fd, buf: seq<Byte>, end: End, tape: Tape, h: Host,
      inbound: set<Segment>)
    requires setup.Ok() && IndicesAgree(k.table) && Mirrors(k.table, tape, h, end) && Connection.Sane(h) && !h.fdClosed
    requires Able(k, Wrote(fd, buf)) && IsOurs(k.table, end, fd)
    ensures AfterEvent(k, setup, Wrote(fd, buf), end, tape) == AfterStep(h, setup, end, Connection.Write(buf), inbound)
  {
    var T' := SetTcb(k.table, fd, Send(h.tcb, buf, setup.sendCap).0);
    assert Perform(k, setup, Wrote(fd, buf)) == (k.(table := T'), []);
    WriteLands(k.table, setup, buf, end, tape, h);
  }

  lemma {:induction false} ShutdownAgrees(k: Stack, setup: Setup, fd: Fd, end: End, tape: Tape, h: Host,
      inbound: set<Segment>)
    requires setup.Ok() && IndicesAgree(k.table) && Mirrors(k.table, tape, h, end) && Connection.Sane(h) && !h.fdClosed
    requires Able(k, ShutDown(fd)) && IsOurs(k.table, end, fd)
    ensures AfterEvent(k, setup, ShutDown(fd), end, tape) == AfterStep(h, setup, end, Connection.Shutdown, inbound)
  {
    var T' := SetTcb(k.table, fd, ShutdownWrite(h.tcb).0);
    assert Perform(k, setup, ShutDown(fd)) == (k.(table := T'), []);
    ShutdownLands(k.table, end, tape, h);
  }

  lemma {:induction false} ReadAgrees(k: Stack, setup: Setup, fd: Fd, lens: seq<nat>, end: End, tape: Tape, h: Host,
      inbound: set<Segment>)
    requires setup.Ok() && IndicesAgree(k.table) && Mirrors(k.table, tape, h, end) && Connection.Sane(h) && !h.fdClosed
    requires Able(k, Received(fd, lens)) && IsOurs(k.table, end, fd)
    ensures AfterEvent(k, setup, Received(fd, lens), end, tape)
          == AfterStep(h, setup, end, Connection.Read(lens), inbound)
  {
    EndIsOk(k.table, end);
    var (t, _, update) := Recv(h.tcb, lens, setup.lim.recvCap);
    assert Perform(k, setup, Received(fd, lens))
        == (k.(table := SetTcb(k.table, fd, t)), Reply(end.local, end.remote, update));
    ReadLands(k.table, setup, lens, end, tape, h);
  }

  lemma {:induction false} ConnectAgrees(k: Stack, setup: Setup, e: Event, end: End, tape: Tape, h: Host,
      inbound: set<Segment>)
    requires setup.Ok() && IndicesAgree(k.table) && Mirrors(k.table, tape, h, end) && Connection.Sane(h)
    requires Able(k, e) && e.Connected? && End(e.src, e.peer) == end && !k.table.sockets[e.fd].fdClosed
    requires OpensOnce(k, setup, e, end, tape, h.listens)
    ensures AfterEvent(k, setup, e, end, tape) == AfterStep(h, setup, end, Connection.Connect(k.isn), inbound)
  {
    EndIsOk(k.table, end);
    ClientAttachable(k.table, e.fd, e.src, e.peer, k.isn);
    assert Connects(Attach(k.table, e.fd, ClientSocket(k.table.sockets[e.fd], e.src, e.peer, k.isn)), end);
    assert Opens(k, setup, e, end);
    ConnectLands(k.table, e.fd, k.table.sockets[e.fd], setup, k.isn, end, tape, h);
  }

  lemma {:induction false} ArrivalAgrees(k: Stack, setup: Setup, p: Packet, end: End, tape: Tape, h: Host,
      inbound: set<Segment>)
    requires setup.Ok() && IndicesAgree(k.table) && Mirrors(k.table, tape, h, end) && Connection.Sane(h)
    requires Able(k, Arrived(p)) && OnTuple(p, end) && p.seg in inbound
    requires OpensOnce(k, setup, Arrived(p), end, tape, h.listens)
    ensures AfterEvent(k, setup, Arrived(p), end, tape)
         == AfterStep(h, setup, end, Connection.Deliver(p.seg, k.isn, AnswerTo(k.table, end.local)), inbound)
  {
    if Connects(k.table, end) {
      SegmentLands(k.table, k.isn, setup, p.seg, end, tape, h);
    } else {
      StrayLands(k.table, k.isn, setup, p.seg, end, tape, h);
    }
  }

  lemma SweepPerforms(k: Stack, setup: Setup, sweep: Sweep)
    requires setup.Ok() && IndicesAgree(k.table)
    ensures Perform(k, setup, Swept(sweep))
         == (k.(table := SweepTable(k.table, setup.lim, sweep)),
             SweepPackets(k.table.sockets, k.table.nextId, setup.lim, sweep))
  {
  }

  lemma {:induction false} SweepAgrees(k: Stack, setup: Setup, sweep: Sweep, end: End, tape: Tape, h: Host,
      inbound: set<Segment>)
    requires setup.Ok() && IndicesAgree(k.table) && Mirrors(k.table, tape, h, end) && Connection.Sane(h)
    requires Connects(k.table, end)
    ensures AfterEvent(k, setup, Swept(sweep), end, tape) == AfterStep(h, setup, end, SweepOp(sweep), inbound)
  {
    EndIsOk(k.table, end);
    SweepPerforms(k, setup, sweep);
    SweepLands(k.table, setup, sweep, end, tape, h, inbound);
    SweepCarried(k.table, k.table.nextId, setup.lim, sweep, end);
  }

  lemma ReapStep(h: Host, setup: Setup, end: End, inbound: set<Segment>)
    requires setup.Ok() && Connection.Sane(h)
    requires h.phase == Connection.Live && h.fdClosed && (h.tcb.state == Closed || h.tcb.reset)
    ensures AfterStep(h, setup, end, Connection.Reap, inbound) == (Shown(h.(phase := Connection.Gone)), {})
  {
  }

  lemma {:induction false} ReapAgrees(k: Stack, setup: Setup, fd: Fd, end: End, tape: Tape, h: Host,
      inbound: set<Segment>)
    requires setup.Ok() && IndicesAgree(k.table) && Mirrors(k.table, tape, h, end) && Connection.Sane(h)
    requires Able(k, Reaped(fd)) && IsOurs(k.table, end, fd)
    ensures AfterEvent(k, setup, Reaped(fd), end, tape) == AfterStep(h, setup, end, Connection.Reap, inbound)
  {
    assert Perform(k, setup, Reaped(fd)) == (k.(table := Remove(k.table, fd)), []);
    RemoveEnd(k.table, fd, end);
    GoneLands(k.table, Remove(k.table, fd), [], tape, h, end);
    assert Carried([], end) == {};
    ReapStep(h, setup, end, inbound);
  }

  lemma {:induction false} CloseAgrees(k: Stack, setup: Setup, fd: Fd, end: End, tape: Tape, h: Host,
      inbound: set<Segment>)
    requires setup.Ok() && IndicesAgree(k.table) && Mirrors(k.table, tape, h, end) && Connection.Sane(h) && !h.fdClosed
    requires Able(k, Dropped(fd)) && IsOurs(k.table, end, fd)
    ensures AfterEvent(k, setup, Dropped(fd), end, tape) == AfterStep(h, setup, end, Connection.Close, inbound)
  {
    var (T', out) := Drop(k.table, fd);
    assert Perform(k, setup, Dropped(fd)) == (k.(table := T', handles := k.handles - {fd}), out);
    CloseLands(k.table, end, tape, h);
  }

  lemma {:induction false} ListenerDropAgrees(k: Stack, setup: Setup, l: Fd, end: End, tape: Tape, h: Host,
      inbound: set<Segment>)
    requires setup.Ok() && IndicesAgree(k.table) && Mirrors(k.table, tape, h, end) && Connection.Sane(h)
    requires Able(k, Dropped(l)) && Listening(k.table, l) && Connects(k.table, end)
             && FdOf(k.table, end) in Unaccepted(k.table, l)
    ensures AfterEvent(k, setup, Dropped(l), end, tape) == AfterStep(h, setup, end, Connection.CloseListener, inbound)
  {
    var (T', out) := Drop(k.table, l);
    assert Perform(k, setup, Dropped(l)) == (k.(table := T', handles := k.handles - {l}), out);
    DropListenerEnd(k.table, l, end);
    GoneLands(k.table, T', out, tape, h, end);
  }

  lemma {:induction false} CallIsStep(k: Stack, setup: Setup, e: Event, end: End, tape: Tape, h: Host,
      inbound: set<Segment>)
    requires setup.Ok() && IndicesAgree(k.table) && QueuesAgree(k.table, k.handles)
    requires Mirrors(k.table, tape, h, end) && Connection.Sane(h)
    requires Able(k, e) && (e.Wrote? || e.ShutDown? || e.Received? || e.Dropped?) && IsOurs(k.table, end, e.fd)
    ensures AfterEvent(k, setup, e, end, tape) == AfterStep(h, setup, end, Project(k, e, end).value, inbound)
  {
    HeldIsOpen(k, end, tape, h, e.fd);
    match e
    case Wrote(fd, buf) => WriteAgrees(k, setup, fd, buf, end, tape, h, inbound);
    case ShutDown(fd) => ShutdownAgrees(k, setup, fd, end, tape, h, inbound);
    case Received(fd, lens) => ReadAgrees(k, setup, fd, lens, end, tape, h, inbound);
    case Dropped(fd) => CloseAgrees(k, setup, fd, end, tape, h, inbound);
  }

  /** Every event that concerns the tuple is the step of the connection that it
      projects to. */
  lemma {:induction false} EventIsStep(k: Stack, setup: Setup, e: Event, end: End, tape: Tape, h: Host,
      inbound: set<Segment>)
    requires setup.Ok() && IndicesAgree(k.table) && QueuesAgree(k.table, k.handles)
    requires Mirrors(k.table, tape, h, end) && Connection.Sane(h)
    requires Project(k, e, end).Some? && OpensOnce(k, setup, e, end, tape, h.listens)
    requires e.Arrived? ==> e.packet.Tcp? && e.packet.seg in inbound
    ensures AfterEvent(k, setup, e, end, tape) == AfterStep(h, setup, end, Project(k, e, end).value, inbound)
  {
    match e
    case Connected(_, _, _) => ConnectAgrees(k, setup, e, end, tape, h, inbound);
    case Arrived(p) => ArrivalAgrees(k, setup, p, end, tape, h, inbound);
    case Swept(sweep) => SweepAgrees(k, setup, sweep, end, tape, h, inbound);
    case Reaped(fd) => ReapAgrees(k, setup, fd, end, tape, h, inbound);
    case Dropped(fd) =>
      if IsOurs(k.table, end, fd) {
        CallIsStep(k, setup, e, end, tape, h, inbound);
      } else {
        ListenerDropAgrees(k, setup, fd, end, tape, h, inbound);
      }
    case Wrote(_, _) => CallIsStep(k, setup, e, end, tape, h, inbound);
    case ShutDown(_) => CallIsStep(k, setup, e, end, tape, h, inbound);
    case Received(_, _) => CallIsStep(k, setup, e, end, tape, h, inbound);
  }

  lemma NothingSaid(k: Stack, setup: Setup, e: Event, end: End)
    requires Project(k, e, end) == None
    ensures WrittenBy(k, setup, e, end) == [] && ReadBy(k, setup, e, end) == []
  {
  }

  lemma {:induction false} EventIsNoStep(k: Stack, setup: Setup, e: Event, end: End, tape: Tape, h: Host)
    requires setup.Ok() && IndicesAgree(k.table) && Mirrors(k.table, tape, h, end) && Project(k, e, end) == None
    ensures AfterEvent(k, setup, e, end, tape) == (Shown(h), {})
  {
    OtherEvent(k, setup, e, end);
    NothingSaid(k, setup, e, end);
    SameLands(k.table, Perform(k, setup, e).0.table, Perform(k, setup, e).1, tape, h, end);
  }

  // ---- any event ----

  lemma ListensStays(h: Host, cfg: Config, op: Connection.Op, inbound: set<Segment>)
    requires Connection.Sane(h) && Connection.ConfigOk(cfg)
    ensures Connection.Step(h, cfg, op, inbound).0.listens == h.listens
  {
  }

  function StepOf(h: Host, setup: Setup, end: End, op: Option<Connection.Op>, inbound: set<Segment>)
    : (Host, set<Segment>)
    requires setup.Ok() && Connection.Sane(h)
  {
    if op.None? then (h, {}) else Connection.Step(h, CfgOf(setup, end), op.value, inbound)
  }

  /** Every event, on the tuple or not. */
  lemma {:induction false} EventSteps(k: Stack, setup: Setup, e: Event, end: End, tape: Tape, h: Host,
      inbound: set<Segment>)
    requires setup.Ok() && StackOk(k) && Mirrors(k.table, tape, h, end) && Connection.Sane(h)
    requires OpensOnce(k, setup, e, end, tape, h.listens)
    requires e.Arrived? && OnTuple(e.packet, end) ==> e.packet.seg in inbound
    ensures var (h', more) := StepOf(h, setup, end, Project(k, e, end), inbound);
            AfterEvent(k, setup, e, end, tape) == (Shown(h'), more) && h'.listens == h.listens
  {
    if Project(k, e, end) == None {
      EventIsNoStep(k, setup, e, end, tape, h);
    } else {
      EventIsStep(k, setup, e, end, tape, h, inbound);
      ListensStays(h, CfgOf(setup, end), Project(k, e, end).value, inbound);
    }
  }

  lemma {:induction false} ConnectionSnoc(net: Connection.Net, before: seq<Connection.Action>, byClient: bool,
      op: Connection.Op)
    requires net.Ok()
    ensures var c := Connection.Run(net, before);
            Connection.Run(net, before + [Connection.Action(byClient, op)])
            == if byClient then
                 var (h, out) := Connection.Step(c.client, net.clientCfg, op, c.fromServer);
                 c.(client := h, fromClient := c.fromClient + out)
               else
                 var (h, out) := Connection.Step(c.server, net.serverCfg, op, c.fromClient);
                 c.(server := h, fromServer := c.fromServer + out)
  {
    var all := before + [Connection.Action(byClient, op)];
    assert all[..|all| - 1] == before;
  }
}
