/** Two kernels on one network. Whatever else the two do, the connection of one
    pair of endpoints is a run of `Connection`; so what holds of those holds of
    the kernels. */
module KernelRuns {
  import opened Common
  import opened SeqSpace
  import opened Addresses
  import opened TcbSpec
  import opened SocketTable
  import opened KernelSpec
  import opened StackSpec
  import opened Projection
  import Connection
  import ConnectionSafety

  /** A host's kernel, what its applications did at this end, and every packet
      it ever queued. */
  datatype Side = Side(stack: Stack, tape: Tape, out: seq<Packet>)

  datatype Pair = Pair(client: Side, server: Side)

  datatype Act = Act(byClient: bool, event: Event)

  /** The two endpoints, and the two hosts' settings and addresses. */
  datatype Wire = Wire(
    client: Endpoint, server: Endpoint,
    clientSetup: Setup, serverSetup: Setup,
    clientIps: seq<Ip>, serverIps: seq<Ip>)
  {
    predicate Ok() {
      && clientSetup.Ok() && serverSetup.Ok()
      && !LocalTo(clientIps, server.ip) && !LocalTo(serverIps, client.ip)
    }

    function ClientEnd(): End { End(client, server) }

    function ServerEnd(): End { End(server, client) }

    function Net(): (net: Connection.Net)
      requires Ok()
      ensures net.Ok()
    {
      Connection.Net(CfgOf(clientSetup, ClientEnd()), CfgOf(serverSetup, ServerEnd()))
    }
  }

  const EMPTY := Side(Stack(Table(1, map[], map[], map[]), 0x0100_0000, {}), BLANK, [])

  /** One side after an event of its own. */
  ghost function Turn(side: Side, setup: Setup, e: Event, end: End): Side {
    var k, (k', out) := side.stack, Perform(side.stack, setup, e);
    Side(k', Extend(side.tape, k'.table, end, WrittenBy(k, setup, e, end), ReadBy(k, setup, e, end)), side.out + out)
  }

  ghost function Advance(wire: Wire, w: Pair, a: Act): Pair {
    if a.byClient then w.(client := Turn(w.client, wire.clientSetup, a.event, wire.ClientEnd()))
    else w.(server := Turn(w.server, wire.serverSetup, a.event, wire.ServerEnd()))
  }

  /** Any sequence of events at the two hosts, in any order. */
  ghost function Run(wire: Wire, acts: seq<Act>): Pair {
    if acts == [] then Pair(EMPTY, EMPTY)
    else Advance(wire, Run(wire, acts[..|acts| - 1]), acts[|acts| - 1])
  }

  /** What the network and the hosts can do: a host connects from an address of
      its own; it is handed packets for its own addresses, and those that carry
      this pair of endpoints were queued by one of the two hosts, at any time
      before, and may come any number of times or never; all other packets may
      come from anywhere. The pair is opened once, from the client's side. */
  ghost predicate Allowed(me: Side, peer: Side, setup: Setup, e: Event, end: End, ips: seq<Ip>, listens: bool) {
    && (e.Connected? ==> LocalTo(ips, e.src.ip))
    && (e.Arrived? ==> LocalTo(ips, e.packet.dst.ip))
    && (e.Arrived? && OnTuple(e.packet, end) ==> e.packet in me.out || e.packet in peer.out)
    && OpensOnce(me.stack, setup, e, end, me.tape, listens)
  }

  ghost predicate Admissible(wire: Wire, w: Pair, a: Act) {
    if a.byClient then Allowed(w.client, w.server, wire.clientSetup, a.event, wire.ClientEnd(), wire.clientIps, false)
    else Allowed(w.server, w.client, wire.serverSetup, a.event, wire.ServerEnd(), wire.serverIps, true)
  }

  ghost predicate Legal(wire: Wire, acts: seq<Act>) {
    acts != [] ==>
      var before := acts[..|acts| - 1];
      Legal(wire, before) && Admissible(wire, Run(wire, before), acts[|acts| - 1])
  }

  // ---- packets come from their sources ----

  ghost predicate Homed(T: Table, ips: seq<Ip>) {
    forall fd :: HasBlock(T.sockets, fd) && T.sockets[fd].bound.Some? ==> LocalTo(ips, T.sockets[fd].bound.value.addr)
  }

  predicate FromHere(ps: seq<Packet>, ips: seq<Ip>) {
    forall i :: 0 <= i < |ps| ==> ps[i].Tcp? ==> LocalTo(ips, ps[i].src.ip)
  }

  /** Every socket with a block had it before, on the same endpoint. */
  lemma HomedStays(T: Table, T': Table, ips: seq<Ip>)
    requires Homed(T, ips)
    requires forall fd :: HasBlock(T'.sockets, fd) ==>
          HasBlock(T.sockets, fd) && T'.sockets[fd].bound == T.sockets[fd].bound
    ensures Homed(T', ips)
  {
  }

  lemma {:induction false} PacketsFromHere(local: Endpoint, remote: Endpoint, ss: seq<Segment>, ips: seq<Ip>)
    requires LocalTo(ips, local.ip)
    ensures FromHere(Packets(local, remote, ss), ips)
  {
    if ss != [] {
      PacketsFromHere(local, remote, ss[1..], ips);
    }
  }

  lemma VisitFromHere(s: Socket, lim: Limits, sweep: Sweep, ips: seq<Ip>)
    requires LimitsOk(lim) && (s.tcb.Some? && s.bound.Some? ==> LocalTo(ips, s.bound.value.addr))
    ensures FromHere(Visit(s, lim, sweep).1, ips)
    ensures var s' := Visit(s, lim, sweep).0; s'.bound == s.bound && (s'.tcb.Some? <==> s.tcb.Some?)
  {
    if sweep == Segmentation && Sends(s) {
      var at := s.bound.value.At();
      var (t, ss) := SegmentOne(s.tcb.value, MssFor(lim, at.ip), lim.recvCap);
      PacketsFromHere(at, t.peer, ss, ips);
    }
  }

  lemma {:induction false} SweepFromHere(T: Table, n: nat, lim: Limits, sweep: Sweep, ips: seq<Ip>)
    requires LimitsOk(lim) && Homed(T, ips)
    ensures FromHere(SweepPackets(T.sockets, n, lim, sweep), ips)
  {
    if n > 0 {
      SweepFromHere(T, n - 1, lim, sweep, ips);
      if n - 1 in T.sockets {
        VisitFromHere(T.sockets[n - 1], lim, sweep, ips);
      }
    }
  }

  lemma SweepHomed(T: Table, lim: Limits, sweep: Sweep, ips: seq<Ip>)
    requires LimitsOk(lim) && Homed(T, ips)
    ensures Homed(SweepTable(T, lim, sweep), ips)
  {
    forall fd | fd in T.sockets
      ensures var s' := Visit(T.sockets[fd], lim, sweep).0;
              s'.bound == T.sockets[fd].bound && (s'.tcb.Some? <==> T.sockets[fd].tcb.Some?)
    {
      VisitFromHere(T.sockets[fd], lim, sweep, ips);
    }
    HomedStays(T, SweepTable(T, lim, sweep), ips);
  }

  lemma {:induction false} RstsFromHere(T: Table, fds: seq<Fd>, ips: seq<Ip>)
    requires Homed(T, ips)
    ensures FromHere(Rsts(T, fds), ips)
  {
    if fds != [] {
      RstsFromHere(T, fds[..|fds| - 1], ips);
    }
  }

  lemma DropHomed(T: Table, fd: Fd, ips: seq<Ip>)
    requires Homed(T, ips) && fd in T.sockets
    ensures Homed(Drop(T, fd).0, ips) && FromHere(Drop(T, fd).1, ips)
  {
    if T.sockets[fd].listen.Some? {
      var fds := Unaccepted(T, fd);
      RemoveAllSockets(T, fds);
      RstsFromHere(T, fds, ips);
    }
    HomedStays(T, Drop(T, fd).0, ips);
  }

  lemma InboundHomed(T: Table, isn: U32, cap: nat, local: Endpoint, remote: Endpoint, s: Segment, ips: seq<Ip>)
    requires IndicesAgree(T) && Homed(T, ips) && LocalTo(ips, local.ip)
    ensures Homed(Inbound(T, isn, cap, local, remote, s).table, ips)
  {
    var T' := Inbound(T, isn, cap, local, remote, s).table;
    if (local, remote) in T.connections {
      assert IsConnection(T, T.connections[(local, remote)], local, remote);
      HomedStays(T, T', ips);
    }
  }

  /** Sockets and system calls: no block but a client's is new. */
  lemma {:induction false} CallHomed(k: Stack, setup: Setup, e: Event, ips: seq<Ip>)
    requires setup.Ok() && IndicesAgree(k.table) && Homed(k.table, ips) && Able(k, e)
    requires !e.Arrived? && !e.Swept? && !e.Dropped? && (e.Connected? ==> LocalTo(ips, e.src.ip))
    ensures Homed(Perform(k, setup, e).0.table, ips) && FromHere(Perform(k, setup, e).1, ips)
  {
    if e.Received? {
      assert SocketOk(k.table, e.fd);
    }
    if !e.Connected? {
      HomedStays(k.table, Perform(k, setup, e).0.table, ips);
    }
  }

  /** Whatever an event queues comes from an address of the host. */
  lemma {:induction false} PerformHomed(k: Stack, setup: Setup, e: Event, ips: seq<Ip>)
    requires setup.Ok() && IndicesAgree(k.table) && Homed(k.table, ips)
    requires e.Connected? ==> LocalTo(ips, e.src.ip)
    requires e.Arrived? ==> LocalTo(ips, e.packet.dst.ip)
    ensures Homed(Perform(k, setup, e).0.table, ips) && FromHere(Perform(k, setup, e).1, ips)
  {
    if Able(k, e) {
      match e
      case Arrived(p) =>
        if p.Tcp? {
          InboundHomed(k.table, k.isn, setup.lim.recvCap, p.dst, p.src, p.seg, ips);
        }
      case Swept(sweep) =>
        SweepPerforms(k, setup, sweep);
        SweepFromHere(k.table, k.table.nextId, setup.lim, sweep, ips);
        SweepHomed(k.table, setup.lim, sweep, ips);
      case Dropped(fd) => DropHomed(k.table, fd, ips);
      case _ => CallHomed(k, setup, e, ips);
    }
  }

  // ---- the run of the connection ----

  /** One side and the host of `Connection` it is. */
  ghost predicate Twin(side: Side, h: Host, segs: set<Segment>, end: End, ips: seq<Ip>) {
    && Mirrors(side.stack.table, side.tape, h, end) && segs == Carried(side.out, end)
    && StackOk(side.stack) && Homed(side.stack.table, ips) && FromHere(side.out, ips)
  }

  lemma TurnHomed(side: Side, setup: Setup, e: Event, end: End, ips: seq<Ip>)
    requires setup.Ok() && StackOk(side.stack) && Homed(side.stack.table, ips) && FromHere(side.out, ips)
    requires e.Connected? ==> LocalTo(ips, e.src.ip)
    requires e.Arrived? ==> LocalTo(ips, e.packet.dst.ip)
    ensures var side' := Turn(side, setup, e, end); Homed(side'.stack.table, ips) && FromHere(side'.out, ips)
  {
    PerformHomed(side.stack, setup, e, ips);
  }

  /** A packet with this pair of endpoints came from the other host. */
  lemma FromThePeer(me: Side, peer: Side, p: Packet, end: End, ips: seq<Ip>)
    requires FromHere(me.out, ips) && !LocalTo(ips, end.remote.ip)
    requires OnTuple(p, end) && (p in me.out || p in peer.out)
    ensures p.seg in Carried(peer.out, End(end.remote, end.local))
  {
  }

  lemma {:induction false} TurnIsStep(me: Side, peer: Side, setup: Setup, e: Event, end: End, ips: seq<Ip>, h: Host,
      segs: set<Segment>)
    requires setup.Ok() && Connection.Sane(h) && !LocalTo(ips, end.remote.ip)
    requires Twin(me, h, segs, end, ips) && Allowed(me, peer, setup, e, end, ips, h.listens)
    ensures var (h', more) := StepOf(h, setup, end, Project(me.stack, e, end),
            Carried(peer.out, End(end.remote, end.local)));
            Twin(Turn(me, setup, e, end), h', segs + more, end, ips) && h'.listens == h.listens
  {
    TurnHomed(me, setup, e, end, ips);
    PerformKeeps(me.stack, setup, e);
    CarriedAppend(me.out, Perform(me.stack, setup, e).1, end);
    if e.Arrived? && OnTuple(e.packet, end) {
      FromThePeer(me, peer, e.packet, end, ips);
    }
    EventSteps(me.stack, setup, e, end, me.tape, h, Carried(peer.out, End(end.remote, end.local)));
  }

  function ProjectAct(wire: Wire, w: Pair, a: Act): seq<Connection.Action> {
    var op := if a.byClient then Project(w.client.stack, a.event, wire.ClientEnd())
              else Project(w.server.stack, a.event, wire.ServerEnd());
    if op.Some? then [Connection.Action(a.byClient, op.value)] else []
  }

  /** What the run is for the connection. */
  ghost function ProjectRun(wire: Wire, acts: seq<Act>): seq<Connection.Action> {
    if acts == [] then []
    else ProjectRun(wire, acts[..|acts| - 1]) + ProjectAct(wire, Run(wire, acts[..|acts| - 1]), acts[|acts| - 1])
  }

  ghost predicate Twins(wire: Wire, w: Pair, c: Connection.World) {
    && Twin(w.client, c.client, c.fromClient, wire.ClientEnd(), wire.clientIps) && !c.client.listens
    && Twin(w.server, c.server, c.fromServer, wire.ServerEnd(), wire.serverIps) && c.server.listens
  }

  lemma {:induction false} ActIsStep(wire: Wire, w: Pair, a: Act, before: seq<Connection.Action>)
    requires wire.Ok()
    requires Twins(wire, w, Connection.Run(wire.Net(), before)) && Admissible(wire, w, a)
    ensures Twins(wire, Advance(wire, w, a), Connection.Run(wire.Net(), before + ProjectAct(wire, w, a)))
  {
    var c := Connection.Run(wire.Net(), before);
    var step := ProjectAct(wire, w, a);
    if a.byClient {
      TurnIsStep(w.client, w.server, wire.clientSetup, a.event, wire.ClientEnd(), wire.clientIps, c.client,
          c.fromClient);
    } else {
      TurnIsStep(w.server, w.client, wire.serverSetup, a.event, wire.ServerEnd(), wire.serverIps, c.server,
          c.fromServer);
    }
    if step == [] {
      assert before + step == before;
    } else {
      ConnectionSnoc(wire.Net(), before, a.byClient, step[0].op);
    }
  }

  lemma StartsAsTwins(wire: Wire)
    requires wire.Ok()
    ensures Twins(wire, Run(wire, []), Connection.Run(wire.Net(), []))
  {
    assert Carried([], wire.ClientEnd()) == {} == Carried([], wire.ServerEnd());
  }

  lemma {:induction false} RunSnoc(wire: Wire, acts: seq<Act>)
    requires acts != []
    ensures var before, a := acts[..|acts| - 1], acts[|acts| - 1];
            && Run(wire, acts) == Advance(wire, Run(wire, before), a)
            && ProjectRun(wire, acts) == ProjectRun(wire, before) + ProjectAct(wire, Run(wire, before), a)
  {
  }

  /** The kernels' run, projected on one pair of endpoints, is the run of the
      connection: the same blocks, the same bytes written and read, the same
      segments on the network. */
  lemma {:induction false} RunIsConnection(wire: Wire, acts: seq<Act>)
    requires wire.Ok() && Legal(wire, acts)
    ensures Twins(wire, Run(wire, acts), Connection.Run(wire.Net(), ProjectRun(wire, acts)))
  {
    if acts == [] {
      StartsAsTwins(wire);
    } else {
      var before := acts[..|acts| - 1];
      RunIsConnection(wire, before);
      RunSnoc(wire, acts);
      ActIsStep(wire, Run(wire, before), acts[|acts| - 1], ProjectRun(wire, before));
    }
  }

  // ---- so the kernels are safe ----

  /** Fewer than 2^32 - 1 bytes were written in each direction. */
  predicate Bounded(w: Pair) {
    FitsSequenceSpace(|w.client.tape.written|) && FitsSequenceSpace(|w.server.tape.written|)
  }

  /** Whatever the two hosts and the network do, the bytes that `recv` returned
      at either end are a prefix of those that `send` accepted at the other. */
  lemma {:induction false} KernelPrefixSafety(wire: Wire, acts: seq<Act>)
    requires wire.Ok() && Legal(wire, acts) && Bounded(Run(wire, acts))
    ensures var w := Run(wire, acts);
            w.server.tape.read <= w.client.tape.written && w.client.tape.read <= w.server.tape.written
  {
    RunIsConnection(wire, acts);
    ConnectionSafety.PrefixSafety(wire.Net(), ProjectRun(wire, acts));
  }

  /** `recv` into nonempty buffers returns 0 only when every byte the other
      application wrote was read, and that application has closed its side. */
  lemma {:induction false} KernelNoTruncatedEof(wire: Wire, acts: seq<Act>, lens: seq<nat>)
    requires wire.Ok() && Legal(wire, acts) && Bounded(Run(wire, acts))
    ensures var w := Run(wire, acts);
            && (SeesEof(w.server.stack.table, wire.ServerEnd(), lens, wire.serverSetup.lim.recvCap) ==>
                  w.server.tape.read == w.client.tape.written && w.client.tape.finished)
            && (SeesEof(w.client.stack.table, wire.ClientEnd(), lens, wire.clientSetup.lim.recvCap) ==>
                  w.client.tape.read == w.server.tape.written && w.server.tape.finished)
  {
    RunIsConnection(wire, acts);
    if TcbSpec.Total(lens) > 0 {
      ConnectionSafety.NoTruncatedEof(wire.Net(), ProjectRun(wire, acts), lens);
    }
  }

  /** A block that has seen its FIN acknowledged: FinWait2, or Closed without an
      abort. */
  predicate SawFinAck(t: Tcb) {
    !Aborted(t) && (t.state == FinWait2 || t.state == Closed)
  }

  /** An end whose block holds, unread, just what its application has not yet
      read of the whole stream, and the FIN. */
  predicate HasItAll(T: Table, tape: Tape, end: End, written: seq<Byte>) {
    Connects(T, end) && !Aborted(BlockOf(T, end)) ==>
      tape.read + BlockOf(T, end).recvBuf == written && BlockOf(T, end).peerFin
  }

  lemma {:induction false} KernelFinAckMeansDelivered(wire: Wire, acts: seq<Act>)
    requires wire.Ok() && Legal(wire, acts) && Bounded(Run(wire, acts))
    ensures var w := Run(wire, acts);
            Connects(w.client.stack.table, wire.ClientEnd())
                && SawFinAck(BlockOf(w.client.stack.table, wire.ClientEnd())) ==>
              HasItAll(w.server.stack.table, w.server.tape, wire.ServerEnd(), w.client.tape.written)
    ensures var w := Run(wire, acts);
            Connects(w.server.stack.table, wire.ServerEnd())
                && SawFinAck(BlockOf(w.server.stack.table, wire.ServerEnd())) ==>
              HasItAll(w.client.stack.table, w.client.tape, wire.ClientEnd(), w.server.tape.written)
  {
    RunIsConnection(wire, acts);
    ConnectionSafety.RunOk(wire.Net(), ProjectRun(wire, acts));
    ConnectionSafety.FinAckMeansDelivered(wire.Net(), ProjectRun(wire, acts));
  }

  // ---- what a kernel does by itself is part of such a run ----

  function SideAt(w: Pair, byClient: bool): Side {
    if byClient then w.client else w.server
  }

  function SetupAt(wire: Wire, byClient: bool): Setup {
    if byClient then wire.clientSetup else wire.serverSetup
  }

  function EndAt(wire: Wire, byClient: bool): End {
    if byClient then wire.ClientEnd() else wire.ServerEnd()
  }

  function IpsAt(wire: Wire, byClient: bool): seq<Ip> {
    if byClient then wire.clientIps else wire.serverIps
  }

  function ActsOf(byClient: bool, es: seq<Event>): seq<Act> {
    if es == [] then [] else ActsOf(byClient, es[..|es| - 1]) + [Act(byClient, es[|es| - 1])]
  }

  /** Its own packets do not carry the peer's address, so nothing it does by
      itself opens the pair. */
  lemma InternalOpensNothing(side: Side, setup: Setup, e: Event, end: End, ips: seq<Ip>)
    requires setup.Ok() && IndicesAgree(side.stack.table) && FromHere(side.out, ips) && !LocalTo(ips, end.remote.ip)
    requires Internal(e, side.out, ips)
    ensures !Opens(side.stack, setup, e, end)
  {
    if Project(side.stack, e, end) == None {
      OtherEvent(side.stack, setup, e, end);
    }
  }

  lemma {:induction false} RunAct(wire: Wire, acts: seq<Act>, a: Act)
    requires Legal(wire, acts) && Admissible(wire, Run(wire, acts), a)
    ensures Legal(wire, acts + [a]) && Run(wire, acts + [a]) == Advance(wire, Run(wire, acts), a)
  {
    assert (acts + [a])[..|acts + [a]| - 1] == acts;
  }

  /** One more event of the kernel's own. */
  lemma {:induction false} InternalAct(wire: Wire, acts: seq<Act>, byClient: bool, e: Event)
    requires wire.Ok() && Legal(wire, acts)
    requires Internal(e, SideAt(Run(wire, acts), byClient).out, IpsAt(wire, byClient))
    ensures var side := SideAt(Run(wire, acts), byClient);
            var side' := SideAt(Run(wire, acts + [Act(byClient, e)]), byClient);
            var (k, out) := Perform(side.stack, SetupAt(wire, byClient), e);
            Legal(wire, acts + [Act(byClient, e)]) && side'.stack == k && side'.out == side.out + out
  {
    RunIsConnection(wire, acts);
    InternalOpensNothing(SideAt(Run(wire, acts), byClient), SetupAt(wire, byClient), e, EndAt(wire, byClient),
        IpsAt(wire, byClient));
    RunAct(wire, acts, Act(byClient, e));
  }

  lemma {:induction false} ActsOfLast(acts: seq<Act>, byClient: bool, es: seq<Event>)
    requires es != []
    ensures acts + ActsOf(byClient, es) == (acts + ActsOf(byClient, es[..|es| - 1])) + [Act(byClient, es[|es| - 1])]
  {
  }

  lemma {:induction false} InternalNext(wire: Wire, acts: seq<Act>, byClient: bool, start: Side, queue: seq<Packet>,
      es: seq<Event>)
    requires es != [] && wire.Ok() && Legal(wire, acts) && forall p :: p in queue ==> p in start.out
    requires var side := SideAt(Run(wire, acts), byClient);
             var (k, out) := Play(start.stack, SetupAt(wire, byClient), es[..|es| - 1]);
             && side.stack == k && side.out == start.out + out
             && Internal(es[|es| - 1], queue + out, IpsAt(wire, byClient))
    ensures var side := SideAt(Run(wire, acts + [Act(byClient, es[|es| - 1])]), byClient);
            var (k, out) := Play(start.stack, SetupAt(wire, byClient), es);
            Legal(wire, acts + [Act(byClient, es[|es| - 1])]) && side.stack == k && side.out == start.out + out
  {
    var e := es[|es| - 1];
    var (k, out) := Play(start.stack, SetupAt(wire, byClient), es[..|es| - 1]);
    InternalAct(wire, acts, byClient, e);
    Associates(start.out, out, Perform(k, SetupAt(wire, byClient), e).1);
  }

  /** The events of an egress, and any others of the kernel's own, continue
      every run: their packets are what the peer may be handed. */
  lemma {:induction false} EgressIsLegal(wire: Wire, acts: seq<Act>, byClient: bool, queue: seq<Packet>, es: seq<Event>)
    requires wire.Ok() && Legal(wire, acts)
    requires forall p :: p in queue ==> p in SideAt(Run(wire, acts), byClient).out
    requires AllInternal(SideAt(Run(wire, acts), byClient).stack, SetupAt(wire, byClient), queue, es,
             IpsAt(wire, byClient))
    ensures var start := SideAt(Run(wire, acts), byClient);
            var side := SideAt(Run(wire, acts + ActsOf(byClient, es)), byClient);
            var (k, out) := Play(start.stack, SetupAt(wire, byClient), es);
            Legal(wire, acts + ActsOf(byClient, es)) && side.stack == k && side.out == start.out + out
  {
    var start := SideAt(Run(wire, acts), byClient);
    if es == [] {
      assert acts + [] == acts && start.out + [] == start.out;
    } else {
      EgressIsLegal(wire, acts, byClient, queue, es[..|es| - 1]);
      InternalNext(wire, acts + ActsOf(byClient, es[..|es| - 1]), byClient, start, queue, es);
      ActsOfLast(acts, byClient, es);
    }
  }
  // ---- there are such runs ----

  /** A listener at the one end, a connect at the other, and the SYN delivered. */
  function OpeningActs(wire: Wire): seq<Act> {
    [Act(false, Bound(ExactKey(wire.server))),
     Act(false, Listened(1, 1)),
     Act(true, Opened(wire.client.ip.Family(), Stream)),
     Act(true, Connected(1, wire.client, wire.server)),
     Act(false, Arrived(Tcp(wire.client, wire.server, Syn(0x0100_0000))))]
  }

  function ListeningTable(server: Endpoint): Table {
    Table(2,
          map[1 := Socket(server.ip.Family(), Stream, Some(ExactKey(server)), None, Some(ListenState(1, [])), false)],
          map[ExactKey(server) := [1]], map[])
  }

  lemma EmptyIsOk()
    ensures StackOk(EMPTY.stack)
  {
  }

  lemma BoundTable(server: Endpoint)
    ensures BindNew(EMPTY.stack.table, ExactKey(server))
         == Table(2, map[1 := NewSocket(server.ip.Family(), Stream).(bound := Some(ExactKey(server)))],
                  map[ExactKey(server) := [1]], map[])
  {
    assert [] + [1] == [1];
  }

  /** The same, once it listens. */
  lemma ListeningIs(server: Endpoint)
    ensures var T := BindNew(EMPTY.stack.table, ExactKey(server));
            && 1 in T.sockets && T.sockets[1].bound == Some(ExactKey(server)) && T.sockets[1].listen.None?
            && T.sockets[1].tcb.None? && T.sockets[1].ty == Stream && Children(T, server) == {}
            && SetSocket(T, 1, T.sockets[1].(listen := Some(ListenState(1, [])))) == ListeningTable(server)
  {
    BoundTable(server);
    var T := BindNew(EMPTY.stack.table, ExactKey(server));
    var s := T.sockets[1].(listen := Some(ListenState(1, [])));
    assert map[1 := T.sockets[1]][1 := s] == map[1 := s];
  }

  lemma ListenerOpens(server: Endpoint, setup: Setup)
    requires setup.Ok()
    ensures var k1 := Perform(EMPTY.stack, setup, Bound(ExactKey(server)));
            var k2 := Perform(k1.0, setup, Listened(1, 1));
            && k1.1 == [] && k1.0.table.connections == map[]
            && k2 == (Stack(ListeningTable(server), 0x0100_0000, {1}), []) && StackOk(k2.0)
  {
    EmptyIsOk();
    ListeningIs(server);
    PerformKeeps(EMPTY.stack, setup, Bound(ExactKey(server)));
    var k1 := Stack(BindNew(EMPTY.stack.table, ExactKey(server)), 0x0100_0000, {1});
    assert EMPTY.stack.handles + {1} == {1};
    assert Perform(EMPTY.stack, setup, Bound(ExactKey(server))) == (k1, []);
    assert ExactKey(server).At() == server;
    PerformKeeps(k1, setup, Listened(1, 1));
  }

  lemma ListenerFound(server: Endpoint)
    ensures FindListener(ListeningTable(server), server) == Some(1)
    ensures !BacklogFull(ListeningTable(server), 1, server)
  {
    assert HandshakesOn(ListeningTable(server), server) == {};
  }

  lemma SynOpens(server: Endpoint, client: Endpoint, setup: Setup, isn: U32)
    requires setup.Ok() && !server.ip.Unspecified()
    requires StackOk(Stack(ListeningTable(server), isn, {1}))
    ensures var k := Perform(Stack(ListeningTable(server), isn, {1}), setup, Arrived(Tcp(client, server, Syn(isn)))).0;
            Connects(k.table, End(server, client))
  {
    ListenerFound(server);
  }

  lemma ClientOpens(client: Endpoint, server: Endpoint, setup: Setup)
    requires setup.Ok() && !client.ip.Unspecified()
    ensures var k1 := Perform(EMPTY.stack, setup, Opened(client.ip.Family(), Stream));
            var k2 := Perform(k1.0, setup, Connected(1, client, server));
            && k1.1 == [] && k1.0.table.connections == map[]
            && k2.1 == [Tcp(client, server, Syn(0x0100_0000))] && Connects(k2.0.table, End(client, server))
  {
    EmptyIsOk();
    PerformKeeps(EMPTY.stack, setup, Opened(client.ip.Family(), Stream));
  }

  /** The server's side before the SYN, and after. */
  lemma ServerTurns(wire: Wire)
    requires wire.Ok() && !wire.server.ip.Unspecified()
    ensures var end := wire.ServerEnd();
            var s1 := Turn(EMPTY, wire.serverSetup, Bound(ExactKey(wire.server)), end);
            var s2 := Turn(s1, wire.serverSetup, Listened(1, 1), end);
            var s3 := Turn(s2, wire.serverSetup, Arrived(Tcp(wire.client, wire.server, Syn(0x0100_0000))), end);
            && !Connects(s1.stack.table, end) && !Connects(s2.stack.table, end) && !s2.tape.used
            && Connects(s3.stack.table, end)
  {
    ListenerOpens(wire.server, wire.serverSetup);
    SynOpens(wire.server, wire.client, wire.serverSetup, 0x0100_0000);
  }

  lemma ClientTurns(wire: Wire)
    requires wire.Ok() && !wire.client.ip.Unspecified()
    ensures var end := wire.ClientEnd();
            var c1 := Turn(EMPTY, wire.clientSetup, Opened(wire.client.ip.Family(), Stream), end);
            var c2 := Turn(c1, wire.clientSetup, Connected(1, wire.client, wire.server), end);
            && !Connects(c1.stack.table, end) && !c1.tape.used && c1.out == []
            && Connects(c2.stack.table, end) && c2.out == [Tcp(wire.client, wire.server, Syn(0x0100_0000))]
  {
    ClientOpens(wire.client, wire.server, wire.clientSetup);
  }

  ghost function ServerListening(wire: Wire): Side {
    Turn(Turn(EMPTY, wire.serverSetup, Bound(ExactKey(wire.server)), wire.ServerEnd()),
         wire.serverSetup, Listened(1, 1), wire.ServerEnd())
  }

  ghost function ClientConnecting(wire: Wire): Side {
    Turn(Turn(EMPTY, wire.clientSetup, Opened(wire.client.ip.Family(), Stream), wire.ClientEnd()),
         wire.clientSetup, Connected(1, wire.client, wire.server), wire.ClientEnd())
  }

  lemma Prefixes(wire: Wire, n: nat)
    requires n < 5
    ensures var acts := OpeningActs(wire);
            var next := acts[..n + 1];
            next[..|next| - 1] == acts[..n] && next[|next| - 1] == acts[n] && acts[..5] == acts
  {
  }

  /** One act further. */
  lemma {:induction false} NextAct(wire: Wire, n: nat, w: Pair)
    requires n < 5 && Legal(wire, OpeningActs(wire)[..n]) && Run(wire, OpeningActs(wire)[..n]) == w
    requires Admissible(wire, w, OpeningActs(wire)[n])
    ensures Legal(wire, OpeningActs(wire)[..n + 1])
    ensures Run(wire, OpeningActs(wire)[..n + 1]) == Advance(wire, w, OpeningActs(wire)[n])
  {
    Prefixes(wire, n);
  }

  lemma {:induction false} PairListens(wire: Wire)
    requires wire.Ok() && !wire.server.ip.Unspecified()
    ensures var acts := OpeningActs(wire)[..2];
            Legal(wire, acts) && Run(wire, acts) == Pair(EMPTY, ServerListening(wire))
  {
    ServerTurns(wire);
    assert OpeningActs(wire)[..0] == [];
    NextAct(wire, 0, Pair(EMPTY, EMPTY));
    var s1 := Turn(EMPTY, wire.serverSetup, Bound(ExactKey(wire.server)), wire.ServerEnd());
    NextAct(wire, 1, Pair(EMPTY, s1));
  }

  lemma {:induction false} PairOpens(wire: Wire)
    requires wire.Ok() && !wire.server.ip.Unspecified() && !wire.client.ip.Unspecified()
    ensures var acts := OpeningActs(wire)[..3];
            var c1 := Turn(EMPTY, wire.clientSetup, Opened(wire.client.ip.Family(), Stream), wire.ClientEnd());
            Legal(wire, acts) && Run(wire, acts) == Pair(c1, ServerListening(wire))
  {
    PairListens(wire);
    ClientTurns(wire);
    NextAct(wire, 2, Pair(EMPTY, ServerListening(wire)));
  }

  lemma {:induction false} PairConnects(wire: Wire)
    requires wire.Ok() && !wire.server.ip.Unspecified() && !wire.client.ip.Unspecified()
    requires LocalTo(wire.clientIps, wire.client.ip)
    ensures var acts := OpeningActs(wire)[..4];
            Legal(wire, acts) && Run(wire, acts) == Pair(ClientConnecting(wire), ServerListening(wire))
  {
    PairOpens(wire);
    ClientTurns(wire);
    var c1 := Turn(EMPTY, wire.clientSetup, Opened(wire.client.ip.Family(), Stream), wire.ClientEnd());
    NextAct(wire, 3, Pair(c1, ServerListening(wire)));
  }

  /** Any two endpoints on addresses of the two hosts can be connected. */
  lemma {:induction false} PairCanOpen(wire: Wire)
    requires wire.Ok() && !wire.client.ip.Unspecified() && !wire.server.ip.Unspecified()
    requires LocalTo(wire.clientIps, wire.client.ip) && LocalTo(wire.serverIps, wire.server.ip)
    ensures var acts := OpeningActs(wire);
            var w := Run(wire, acts);
            && Legal(wire, acts)
            && Connects(w.client.stack.table, wire.ClientEnd()) && Connects(w.server.stack.table, wire.ServerEnd())
  {
    PairConnects(wire);
    ServerTurns(wire);
    ClientTurns(wire);
    NextAct(wire, 4, Pair(ClientConnecting(wire), ServerListening(wire)));
    Prefixes(wire, 4);
  }
}
