/** The whole kernel as a value: every event that changes its sockets, and the
    packets each puts on the outbound queue. */
module StackSpec {
  import opened Common
  import opened SeqSpace
  import opened Addresses
  import opened TcbSpec
  import opened SocketTable
  import opened KernelSpec

  /** The socket table, the sequence source, and the descriptors that
      applications hold. */
  datatype Stack = Stack(table: Table, isn: U32, handles: set<Fd>)

  datatype Setup = Setup(lim: Limits, sendCap: nat) {
    predicate Ok() { LimitsOk(lim) && sendCap + 1 < MODULUS }
  }

  datatype Event =
    | Opened(domain: Domain, ty: SocketType)
    | Bound(key: BindKey)
    | Listened(fd: Fd, backlog: nat)
    | Connected(fd: Fd, src: Endpoint, peer: Endpoint)
    | Accepted(fd: Fd)
    | Wrote(fd: Fd, buf: seq<Byte>)
    | ShutDown(fd: Fd)
    | Received(fd: Fd, lens: seq<nat>)
    | Arrived(packet: Packet)
    | Swept(sweep: Sweep)
    | Dropped(fd: Fd)
    | Reaped(fd: Fd)

  predicate PortInUse(bindings: map<BindKey, seq<Fd>>, domain: Domain, ty: SocketType, port: nat) {
    exists key :: key in bindings && key.domain == domain && key.ty == ty && key.port == port
  }

  predicate HasBlock(sockets: map<Fd, Socket>, fd: Fd) {
    fd in sockets && sockets[fd].tcb.Some?
  }

  /** A block that is not worth a FIN or a RST any more. */
  predicate Abandons(t: Tcb) {
    Aborted(t) || t.state == Closed || Handshaking(t.state)
  }

  /** When the calls go through, for the rest of this model: on descriptors the
      application holds, on free ports and endpoints, for concrete addresses. */
  predicate Able(k: Stack, e: Event) {
    var T := k.table;
    match e
    case Opened(_, _) => true
    case Bound(key) => key !in T.bindings && key.domain == key.addr.Family()
    case Listened(fd, _) =>
      && fd in T.sockets && T.sockets[fd].bound.Some? && T.sockets[fd].ty == Stream && T.sockets[fd].tcb.None?
      && T.sockets[fd].listen.None? && Children(T, T.sockets[fd].bound.value.At()) == {}
    case Connected(fd, src, _) =>
      && fd in k.handles && fd in T.sockets && T.sockets[fd].ty == Stream && T.sockets[fd].bound.None?
      && T.sockets[fd].domain == src.ip.Family() && !src.ip.Unspecified()
      && !PortInUse(T.bindings, T.sockets[fd].domain, Stream, src.port)
    case Accepted(fd) => Listening(T, fd) && ReadyOf(T, fd) != []
    case Wrote(fd, _) => fd in k.handles && HasBlock(T.sockets, fd)
    case ShutDown(fd) => fd in k.handles && HasBlock(T.sockets, fd)
    case Received(fd, _) => fd in k.handles && HasBlock(T.sockets, fd)
    case Arrived(p) => !p.dst.ip.Unspecified()
    case Swept(_) => true
    case Dropped(fd) => fd in k.handles && fd in T.sockets
    case Reaped(fd) => fd in T.sockets && Reapable(T.sockets[fd])
  }

  function Syn(isn: U32): Segment {
    Segment(isn, 0, NO_FLAGS.(syn := true), DEFAULT_WINDOW, [])
  }

  /** A client's socket once its SYN is out. */
  function ClientSocket(s: Socket, src: Endpoint, peer: Endpoint, isn: U32): Socket {
    s.(bound := Some(BindKey(s.domain, Stream, src.ip, src.port)),
       tcb := Some(NewTcb(SynSent, peer, isn, DEFAULT_WINDOW, 0)))
  }

  function LingeringSocket(s: Socket): Socket
    requires s.tcb.Some?
  {
    s.(fdClosed := true, tcb := Some(if s.tcb.value.wrClosed then s.tcb.value else QueueFin(s.tcb.value)))
  }

  /** `close`: a listener goes with its children; unread bytes mean RST; an open
      connection lingers behind its FIN; all else goes. */
  function Drop(T: Table, fd: Fd): (Table, seq<Packet>)
    requires fd in T.sockets
  {
    var s := T.sockets[fd];
    if s.listen.Some? then (Remove(RemoveAll(T, Unaccepted(T, fd)), fd), Rsts(T, Unaccepted(T, fd)))
    else if s.tcb.Some? && !Abandons(s.tcb.value) then
      if s.tcb.value.recvBuf != [] then (Remove(T, fd), RstOf(T, fd))
      else (SetSocket(T, fd, LingeringSocket(s)), [])
    else (Remove(T, fd), [])
  }

  /** What an event makes of a kernel whose indices agree, and the packets it
      queues; nothing, where the call does not go through. */
  ghost function Perform(k: Stack, setup: Setup, e: Event): (Stack, seq<Packet>) {
    var T := k.table;
    if !(Able(k, e) && setup.Ok() && IndicesAgree(T)) then (k, []) else
    match e
    case Opened(domain, ty) =>
      (k.(table := Insert(T, NewSocket(domain, ty)), handles := k.handles + {T.nextId}), [])
    case Bound(key) => (k.(table := BindNew(T, key), handles := k.handles + {T.nextId}), [])
    case Listened(fd, backlog) =>
      (k.(table := SetSocket(T, fd, T.sockets[fd].(listen := Some(ListenState(backlog, []))))), [])
    case Connected(fd, src, peer) =>
      (k.(table := Attach(T, fd, ClientSocket(T.sockets[fd], src, peer, k.isn)), isn := NextIsn(k.isn)),
       [Tcp(src, peer, Syn(k.isn))])
    case Accepted(fd) =>
      (k.(table := SetReady(T, fd, ReadyOf(T, fd)[1..]), handles := k.handles + {ReadyOf(T, fd)[0]}), [])
    case Wrote(fd, buf) => (k.(table := SetTcb(T, fd, Send(T.sockets[fd].tcb.value, buf, setup.sendCap).0)), [])
    case ShutDown(fd) => (k.(table := SetTcb(T, fd, ShutdownWrite(T.sockets[fd].tcb.value).0)), [])
    case Received(fd, lens) =>
      assert SocketOk(T, fd);
      var (t, _, update) := Recv(T.sockets[fd].tcb.value, lens, setup.lim.recvCap);
      (k.(table := SetTcb(T, fd, t)), Reply(T.sockets[fd].bound.value.At(), t.peer, update))
    case Arrived(p) =>
      if p.Udp? then (k, [])
      else
        var effect := Inbound(T, k.isn, setup.lim.recvCap, p.dst, p.src, p.seg);
        (k.(table := effect.table, isn := effect.isn), Reply(p.dst, p.src, effect.reply))
    case Swept(sweep) =>
      (k.(table := SweepTable(T, setup.lim, sweep)), SweepPackets(T.sockets, T.nextId, setup.lim, sweep))
    case Dropped(fd) =>
      var (T', out) := Drop(T, fd);
      (k.(table := T', handles := k.handles - {fd}), out)
    case Reaped(fd) => (k.(table := Remove(T, fd)), [])
  }

  /** Only connecting, reading, arrivals, sweeps and closing queue packets. */
  lemma Silent(k: Stack, setup: Setup, e: Event)
    requires !e.Connected? && !e.Received? && !e.Arrived? && !e.Swept? && !e.Dropped?
    ensures Perform(k, setup, e).1 == []
  {
  }

  lemma ArrivalPerforms(k: Stack, setup: Setup, p: Packet)
    requires setup.Ok() && IndicesAgree(k.table) && !p.dst.ip.Unspecified()
    ensures Perform(k, setup, Arrived(p))
         == if p.Udp? then (k, [])
            else
              var effect := Inbound(k.table, k.isn, setup.lim.recvCap, p.dst, p.src, p.seg);
              (k.(table := effect.table, isn := effect.isn), Reply(p.dst, p.src, effect.reply))
  {
  }

  // ---- every event keeps the kernel coherent ----

  ghost predicate StackOk(k: Stack) {
    Coherent(k.table, k.handles)
  }

  lemma ClientAttachable(T: Table, fd: Fd, src: Endpoint, peer: Endpoint, isn: U32)
    requires IndicesAgree(T) && fd in T.sockets && !T.sockets[fd].fdClosed
    requires T.sockets[fd].ty == Stream && T.sockets[fd].bound.None?
    requires T.sockets[fd].domain == src.ip.Family() && !src.ip.Unspecified()
    requires !PortInUse(T.bindings, T.sockets[fd].domain, Stream, src.port)
    ensures Attachable(T, fd, ClientSocket(T.sockets[fd], src, peer, isn))
  {
    assert SocketOk(T, fd);
    forall c | c in T.connections ensures PortInUse(T.bindings, c.0.ip.Family(), Stream, c.0.port) {
      var g := T.connections[c];
      assert IsConnection(T, g, c.0, c.1) && SocketOk(T, g);
    }
  }

  predicate AfterCall(t: Tcb, t': Tcb) {
    TcbOk(t') && t'.peer == t.peer && (t'.state == SynReceived ==> t.state == SynReceived)
  }

  lemma CallsAreOk(t: Tcb, buf: seq<Byte>, sendCap: nat, lens: seq<nat>, recvCap: nat)
    requires sendCap + 1 < MODULUS
    ensures TcbOk(t) ==>
              && AfterCall(t, Send(t, buf, sendCap).0)
              && AfterCall(t, ShutdownWrite(t).0)
              && AfterCall(t, Recv(t, lens, recvCap).0)
  {
    if TcbOk(t) {
      CallsKeepSendSide(t, buf, sendCap, lens, recvCap);
    }
  }

  /** A system call's new block keeps the table coherent. */
  lemma CallKeeps(T: Table, handles: set<Fd>, fd: Fd, t: Tcb)
    requires Coherent(T, handles) && HasBlock(T.sockets, fd)
    requires TcbOk(T.sockets[fd].tcb.value) ==> AfterCall(T.sockets[fd].tcb.value, t)
    ensures Coherent(SetTcb(T, fd, t), handles)
  {
    assert SocketOk(T, fd);
    SetTcbKeeps(T, handles, fd, t);
  }

  lemma LingerIsOk(T: Table, handles: set<Fd>, fd: Fd)
    requires Coherent(T, handles) && fd in handles && HasBlock(T.sockets, fd)
    requires !Abandons(T.sockets[fd].tcb.value)
    ensures Coherent(SetSocket(T, fd, LingeringSocket(T.sockets[fd])), handles - {fd})
  {
    assert SocketOk(T, fd);
    var t := T.sockets[fd].tcb.value;
    CallsKeepSendSide(t, [], 0, [], 0);
    LingerKeeps(T, handles, fd, if t.wrClosed then t else QueueFin(t));
  }

  lemma RemoveHeldKeeps(T: Table, handles: set<Fd>, fd: Fd)
    requires Coherent(T, handles) && fd in handles
    ensures Coherent(Remove(T, fd), handles - {fd})
  {
    NotWaiting(T, handles, fd);
    RemoveKeeps(T, handles, fd);
  }

  lemma {:induction false} DropKeeps(T: Table, handles: set<Fd>, fd: Fd)
    requires Coherent(T, handles) && fd in handles && fd in T.sockets
    ensures Coherent(Drop(T, fd).0, handles - {fd})
  {
    var s := T.sockets[fd];
    if s.listen.Some? {
      CloseListenerKeeps(T, handles, fd);
    } else if s.tcb.Some? && !Abandons(s.tcb.value) && s.tcb.value.recvBuf == [] {
      LingerIsOk(T, handles, fd);
    } else {
      RemoveHeldKeeps(T, handles, fd);
    }
  }

  lemma {:induction false} CallEventKeeps(k: Stack, setup: Setup, e: Event)
    requires setup.Ok() && StackOk(k) && Able(k, e) && (e.Wrote? || e.ShutDown? || e.Received?)
    ensures StackOk(Perform(k, setup, e).0)
  {
    var t := k.table.sockets[e.fd].tcb.value;
    match e
    case Wrote(fd, buf) =>
      CallsAreOk(t, buf, setup.sendCap, [], 0);
      CallKeeps(k.table, k.handles, fd, Send(t, buf, setup.sendCap).0);
    case ShutDown(fd) =>
      CallsAreOk(t, [], setup.sendCap, [], 0);
      CallKeeps(k.table, k.handles, fd, ShutdownWrite(t).0);
    case Received(fd, lens) =>
      CallsAreOk(t, [], setup.sendCap, lens, setup.lim.recvCap);
      CallKeeps(k.table, k.handles, fd, Recv(t, lens, setup.lim.recvCap).0);
  }

  lemma {:induction false} SocketEventKeeps(k: Stack, setup: Setup, e: Event)
    requires setup.Ok() && StackOk(k) && Able(k, e)
    requires e.Opened? || e.Bound? || e.Listened? || e.Connected? || e.Accepted?
    ensures StackOk(Perform(k, setup, e).0)
  {
    match e
    case Opened(domain, ty) => OpenKeeps(k.table, k.handles, domain, ty);
    case Bound(key) => BindKeeps(k.table, k.handles, key);
    case Listened(fd, backlog) =>
      assert SocketOk(k.table, fd);
      ListenKeeps(k.table, k.handles, fd, backlog);
    case Connected(fd, src, peer) =>
      ClientAttachable(k.table, fd, src, peer, k.isn);
      ConnectKeeps(k.table, k.handles, fd, ClientSocket(k.table.sockets[fd], src, peer, k.isn));
    case Accepted(fd) => AcceptKeeps(k.table, k.handles, fd);
  }

  /** Whatever happens, the indices, the queues and the backlogs stay coherent. */
  lemma {:induction false} PerformKeeps(k: Stack, setup: Setup, e: Event)
    requires setup.Ok() && StackOk(k)
    ensures StackOk(Perform(k, setup, e).0)
  {
    if Able(k, e) {
      match e
      case Arrived(p) =>
        if p.Tcp? {
          InboundKeeps(k.table, k.handles, k.isn, setup.lim.recvCap, p.dst, p.src, p.seg);
        }
      case Swept(sweep) => SweepKeeps(k.table, k.handles, setup.lim, sweep);
      case Dropped(fd) => DropKeeps(k.table, k.handles, fd);
      case Reaped(fd) => ReapKeeps(k.table, k.handles, fd);
      case Wrote(_, _) => CallEventKeeps(k, setup, e);
      case ShutDown(_) => CallEventKeeps(k, setup, e);
      case Received(_, _) => CallEventKeeps(k, setup, e);
      case _ => SocketEventKeeps(k, setup, e);
    }
  }

  /** Any number of events, one after the other. */
  ghost function Play(k: Stack, setup: Setup, es: seq<Event>): (Stack, seq<Packet>) {
    if es == [] then (k, [])
    else
      var (k1, out) := Play(k, setup, es[..|es| - 1]);
      var (k2, more) := Perform(k1, setup, es[|es| - 1]);
      (k2, out + more)
  }

  lemma {:induction false} PlayKeeps(k: Stack, setup: Setup, es: seq<Event>)
    requires setup.Ok() && StackOk(k)
    ensures StackOk(Play(k, setup, es).0)
  {
    if es != [] {
      PlayKeeps(k, setup, es[..|es| - 1]);
      PerformKeeps(Play(k, setup, es[..|es| - 1]).0, setup, es[|es| - 1]);
    }
  }

  lemma {:induction false} PlaySnoc(k: Stack, setup: Setup, es: seq<Event>, e: Event)
    ensures var (k1, out) := Play(k, setup, es);
            var (k2, more) := Perform(k1, setup, e);
            Play(k, setup, es + [e]) == (k2, out + more)
  {
    assert (es + [e])[..|es + [e]| - 1] == es;
  }

  // ---- what the kernel does by itself ----

  /** An address of this host; loopback always is one. */
  predicate LocalTo(addresses: seq<Ip>, ip: Ip) {
    ip.Loopback() || ip in addresses
  }

  /** The packets for other hosts, in order. */
  function Away(ps: seq<Packet>, addresses: seq<Ip>): seq<Packet> {
    if ps == [] then []
    else Away(ps[..|ps| - 1], addresses) + (if LocalTo(addresses, ps[|ps| - 1].dst.ip) then [] else [ps[|ps| - 1]])
  }

  lemma {:induction false} AwaySnoc(ps: seq<Packet>, p: Packet, addresses: seq<Ip>)
    ensures Away(ps + [p], addresses) == Away(ps, addresses) + (if LocalTo(addresses, p.dst.ip) then [] else [p])
  {
    assert (ps + [p])[..|ps + [p]| - 1] == ps;
  }

  lemma {:induction false} AwayAppend(ps: seq<Packet>, qs: seq<Packet>, addresses: seq<Ip>)
    ensures Away(ps + qs, addresses) == Away(ps, addresses) + Away(qs, addresses)
  {
    if qs == [] {
      assert ps + qs == ps;
    } else {
      AwayAppend(ps, qs[..|qs| - 1], addresses);
      assert (ps + qs)[..|ps + qs| - 1] == ps + qs[..|qs| - 1];
    }
  }

  /** Exactly those. */
  lemma {:induction false} AwayExact(ps: seq<Packet>, addresses: seq<Ip>, p: Packet)
    ensures p in Away(ps, addresses) <==> p in ps && !LocalTo(addresses, p.dst.ip)
  {
    if ps != [] {
      AwayExact(ps[..|ps| - 1], addresses, p);
      assert ps == ps[..|ps| - 1] + [ps[|ps| - 1]];
    }
  }

  lemma NothingAdded(ps: seq<Packet>)
    ensures ps + [] == ps
  {
  }

  /** Sweeps, reaping, and packets for the host itself that it queued before. */
  predicate Internal(e: Event, queued: seq<Packet>, addresses: seq<Ip>) {
    e.Swept? || e.Reaped? || (e.Arrived? && e.packet in queued && LocalTo(addresses, e.packet.dst.ip))
  }

  ghost predicate AllInternal(k: Stack, setup: Setup, queue: seq<Packet>, es: seq<Event>, addresses: seq<Ip>) {
    es != [] ==>
      var before := es[..|es| - 1];
      && AllInternal(k, setup, queue, before, addresses)
      && Internal(es[|es| - 1], queue + Play(k, setup, before).1, addresses)
  }

  /** From `k0` with `queue` waiting, the kernel came by itself to `k`, having
      had `all` in its queue. */
  ghost predicate Tracks(k0: Stack, setup: Setup, queue: seq<Packet>, es: seq<Event>, addresses: seq<Ip>, k: Stack,
      all: seq<Packet>) {
    && Play(k0, setup, es).0 == k && queue + Play(k0, setup, es).1 == all
    && AllInternal(k0, setup, queue, es, addresses)
  }

  lemma Associates(a: seq<Packet>, b: seq<Packet>, c: seq<Packet>)
    ensures (a + b) + c == a + (b + c)
  {
  }

  lemma {:induction false} TracksStart(k: Stack, setup: Setup, queue: seq<Packet>, addresses: seq<Ip>)
    ensures Tracks(k, setup, queue, [], addresses, k, queue)
  {
    assert queue + [] == queue;
  }

  lemma {:induction false} InternalNext(k: Stack, setup: Setup, queue: seq<Packet>, es: seq<Event>,
      addresses: seq<Ip>, e: Event)
    requires AllInternal(k, setup, queue, es, addresses)
    requires Internal(e, queue + Play(k, setup, es).1, addresses)
    ensures AllInternal(k, setup, queue, es + [e], addresses)
  {
    assert (es + [e])[..|es + [e]| - 1] == es;
  }

  lemma {:induction false} TracksNext(k0: Stack, setup: Setup, queue: seq<Packet>, es: seq<Event>, addresses: seq<Ip>,
      k: Stack, all: seq<Packet>, e: Event)
    requires Tracks(k0, setup, queue, es, addresses, k, all) && Internal(e, all, addresses)
    ensures Tracks(k0, setup, queue, es + [e], addresses, Perform(k, setup, e).0, all + Perform(k, setup, e).1)
  {
    PlaySnoc(k0, setup, es, e);
    InternalNext(k0, setup, queue, es, addresses, e);
    Associates(queue, Play(k0, setup, es).1, Perform(k, setup, e).1);
  }
}
