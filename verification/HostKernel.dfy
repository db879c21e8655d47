/** The per-host network stack: socket table, outbound queue, and every
    operation the shim or the fabric performs on them. Each method is proved
    against the specification of the value modules, and keeps `Valid`. */
module HostKernel {
  import opened Common
  import opened SeqSpace
  import opened Addresses
  import opened TcbSpec
  import SocketTable
  import opened KernelSpec
  import opened StackSpec

  type Fd = SocketTable.Fd
  type Socket = SocketTable.Socket
  type BindKey = SocketTable.BindKey
  type Table = SocketTable.Table

  const FIRST_PORT: nat := 49152
  const LAST_PORT: nat := 65535
  const PORTS: nat := 16384

  /** The `k`-th port after `start`, going round the ephemeral range. */
  function PortAt(start: nat, k: nat): nat {
    if start + k <= LAST_PORT then start + k else SaturatingSub(start + k, PORTS)
  }

  function NextPort(p: nat): nat {
    if p == LAST_PORT then FIRST_PORT else p + 1
  }

  /** The first port free from `start` on is `k` ports away. */
  predicate FreeAfter(bindings: map<BindKey, seq<Fd>>, domain: Domain, ty: SocketTable.SocketType, start: nat, k: nat) {
    && !PortInUse(bindings, domain, ty, PortAt(start, k))
    && forall j :: 0 <= j < k ==> PortInUse(bindings, domain, ty, PortAt(start, j))
  }

  predicate AllInUse(bindings: map<BindKey, seq<Fd>>, domain: Domain, ty: SocketTable.SocketType) {
    forall p :: FIRST_PORT <= p <= LAST_PORT ==> PortInUse(bindings, domain, ty, p)
  }

  /** Same tuple, or one of the two is the wildcard. */
  predicate Conflicts(bound: BindKey, key: BindKey) {
    && bound.domain == key.domain && bound.ty == key.ty && bound.port == key.port
    && (bound.addr == key.addr || bound.addr.Unspecified() || key.addr.Unspecified())
  }

  predicate Taken(bindings: map<BindKey, seq<Fd>>, key: BindKey) {
    exists k :: k in bindings && Conflicts(k, key)
  }

  predicate BoundAs(key: BindKey, ip: Ip, asked: nat, ty: SocketTable.SocketType) {
    && key.addr == ip && key.domain == ip.Family() && key.ty == ty
    && (if asked == 0 then FIRST_PORT <= key.port <= LAST_PORT else key.port == asked)
  }

  /** The first configured address of the family of `ip`. */
  function FirstOfFamily(addresses: seq<Ip>, ip: Ip): (r: Option<Ip>)
    ensures r.Some? ==>
              exists i :: 0 <= i < |addresses| && addresses[i] == r.value && r.value.Family() == ip.Family()
                && forall j :: 0 <= j < i ==> addresses[j].Family() != ip.Family()
    ensures r.None? ==> forall a :: a in addresses ==> a.Family() != ip.Family()
  {
    if addresses == [] then None
    else if addresses[0].Family() == ip.Family() then Some(addresses[0])
    else
      assert forall i :: 0 < i < |addresses| ==> addresses[i] == addresses[1..][i - 1];
      FirstOfFamily(addresses[1..], ip)
  }

  /** A kernel as it was, and the packets waiting in its queue. */
  datatype Origin = Origin(stack: Stack, queue: seq<Packet>)

  class Kernel {
    var nextId: Fd
    var sockets: map<Fd, Socket>
    var bindings: map<BindKey, seq<Fd>>
    var connections: map<(Endpoint, Endpoint), Fd>
    var portCursor: nat
    var addresses: seq<Ip>
    var outbound: seq<Packet>
    var tcpIsn: U32
    const limits: Limits
    const sendBufCap: nat
    /** The descriptors that applications hold. */
    ghost var handles: set<Fd>

    function Tab(): Table
      reads this
    {
      SocketTable.Table(nextId, sockets, bindings, connections)
    }

    function SetupOf(): Setup {
      Setup(limits, sendBufCap)
    }

    ghost function Snapshot(): Stack
      reads this
    {
      Stack(Tab(), tcpIsn, handles)
    }

    ghost predicate Valid()
      reads this
    {
      && SocketTable.Coherent(Tab(), handles)
      && FIRST_PORT <= portCursor <= LAST_PORT
      && (forall a :: a in addresses ==> !a.Unspecified())
      && LimitsOk(limits) && sendBufCap + 1 < MODULUS
    }

    constructor (limits: Limits, sendBufCap: nat)
      requires LimitsOk(limits) && sendBufCap + 1 < MODULUS
      ensures Valid() && handles == {} && sockets == map[] && outbound == []
    {
      this.limits, this.sendBufCap := limits, sendBufCap;
      nextId, sockets, bindings, connections := 1, map[], map[], map[];
      portCursor, addresses, outbound, tcpIsn := FIRST_PORT, [], [], 0x0100_0000;
      handles := {};
    }

    method AddAddress(addr: Ip)
      requires Valid() && !addr.Unspecified()
      modifies `addresses
      ensures Valid() && old(addresses) <= addresses && addr in addresses
      ensures forall a :: a in addresses ==> a in old(addresses) || a == addr
    {
      if addr !in addresses {
        addresses := addresses + [addr];
      }
    }

    predicate IsLocal(addr: Ip)
      reads this
    {
      LocalTo(addresses, addr)
    }

    // ---- the socket table ----

    method Insert(s: Socket) returns (fd: Fd)
      modifies `nextId, `sockets
      ensures fd == old(nextId) && Tab() == SocketTable.Insert(old(Tab()), s)
    {
      fd := nextId;
      nextId := nextId + 1;
      sockets := sockets[fd := s];
    }

    method RemoveSocket(fd: Fd)
      modifies `sockets, `bindings, `connections
      ensures Tab() == SocketTable.Remove(old(Tab()), fd)
    {
      bindings := map key | key in bindings && SocketTable.Without(bindings[key], fd) != []
                    :: SocketTable.Without(bindings[key], fd);
      connections := map c | c in connections && connections[c] != fd :: connections[c];
      sockets := sockets - {fd};
    }

    method InsertBinding(key: BindKey, fd: Fd)
      modifies `bindings
      ensures Tab() == SocketTable.InsertBinding(old(Tab()), key, fd)
    {
      if key in bindings {
        bindings := bindings[key := bindings[key] + [fd]];
      } else {
        bindings := bindings[key := [fd]];
        assert [] + [fd] == [fd];
      }
    }

    /** Ephemeral ports: the first free one from the cursor on, going round;
        none exactly when every port of the range is taken. */
    method AllocatePort(domain: Domain, ty: SocketTable.SocketType) returns (r: Option<nat>)
      requires FIRST_PORT <= portCursor <= LAST_PORT
      modifies `portCursor
      ensures FIRST_PORT <= portCursor <= LAST_PORT
      ensures r.Some? ==>
                exists k: nat :: FreeAfter(bindings, domain, ty, old(portCursor), k) && k < PORTS
                  && r.value == PortAt(old(portCursor), k) && portCursor == NextPort(r.value)
      ensures r.None? <==> AllInUse(bindings, domain, ty)
      ensures r.None? ==> portCursor == old(portCursor)
    {
      var start := portCursor;
      ghost var k := 0;
      while true
        invariant 0 <= k < PORTS && portCursor == PortAt(start, k)
        invariant forall j :: 0 <= j < k ==> PortInUse(bindings, domain, ty, PortAt(start, j))
        decreases PORTS - k
      {
        var p := portCursor;
        portCursor := NextPort(p);
        if !PortInUse(bindings, domain, ty, p) {
          assert FreeAfter(bindings, domain, ty, start, k);
          return Some(p);
        }
        k := k + 1;
        if portCursor == start {
          forall q | FIRST_PORT <= q <= LAST_PORT ensures PortInUse(bindings, domain, ty, q) {
            var j := if start <= q then q - start else q - start + PORTS;
            assert q == PortAt(start, j);
          }
          return None;
        }
      }
    }

    // ---- opening, binding, listening ----

    method Open(domain: Domain, ty: SocketTable.SocketType) returns (fd: Fd)
      requires Valid()
      modifies `nextId, `sockets, `handles
      ensures Valid() && fd == old(nextId) && handles == old(handles) + {fd}
      ensures Tab() == SocketTable.Insert(old(Tab()), SocketTable.NewSocket(domain, ty))
    {
      SocketTable.OpenKeeps(Tab(), handles, domain, ty);
      fd := Insert(SocketTable.NewSocket(domain, ty));
      handles := handles + {fd};
    }

    /** The port asked for, or the next free ephemeral one. */
    method ChoosePort(domain: Domain, ty: SocketTable.SocketType, asked: nat) returns (r: Option<nat>)
      requires FIRST_PORT <= portCursor <= LAST_PORT
      modifies `portCursor
      ensures FIRST_PORT <= portCursor <= LAST_PORT
      ensures asked != 0 ==> r == Some(asked) && portCursor == old(portCursor)
      ensures asked == 0 && r.Some? ==>
                && FIRST_PORT <= r.value <= LAST_PORT && !PortInUse(bindings, domain, ty, r.value)
                && exists k: nat :: FreeAfter(bindings, domain, ty, old(portCursor), k) && k < PORTS
                     && r.value == PortAt(old(portCursor), k) && portCursor == NextPort(r.value)
      ensures r.None? <==> asked == 0 && AllInUse(bindings, domain, ty)
      ensures r.None? ==> portCursor == old(portCursor)
    {
      if asked == 0 {
        r := AllocatePort(domain, ty);
      } else {
        r := Some(asked);
      }
    }

    method BindNew(key: BindKey) returns (fd: Fd)
      requires Valid() && key !in bindings && key.domain == key.addr.Family()
      modifies `nextId, `sockets, `bindings, `handles
      ensures Valid() && fd == old(nextId) && handles == old(handles) + {fd}
      ensures Tab() == SocketTable.BindNew(old(Tab()), key)
    {
      SocketTable.BindKeeps(Tab(), handles, key);
      fd := Insert(SocketTable.NewSocket(key.domain, key.ty));
      InsertBinding(key, fd);
      sockets := sockets[fd := sockets[fd].(bound := Some(key))];
      handles := handles + {fd};
      assert Tab() == SocketTable.BindNew(old(Tab()), key);
    }

    /** `bind`: a configured or wildcard address, the asked port or a free one,
        and no conflict with a socket already bound. */
    method Bind(ip: Ip, asked: nat, ty: SocketTable.SocketType) returns (r: Poll<Fd>)
      requires Valid()
      modifies `nextId, `sockets, `bindings, `portCursor, `handles
      ensures Valid() && !r.Pending?
      ensures r == Failed(AddrNotAvailable) <==> !ip.Unspecified() && !IsLocal(ip)
      ensures r.Failed? ==> Tab() == old(Tab()) && handles == old(handles) && r.error in {AddrNotAvailable, AddrInUse}
      ensures r == Failed(AddrInUse) <==>
                && (ip.Unspecified() || IsLocal(ip))
                && if asked == 0 then AllInUse(old(bindings), ip.Family(), ty)
                   else Taken(old(bindings), SocketTable.BindKey(ip.Family(), ty, ip, asked))
      ensures r.Ready? ==>
                && r.value == old(nextId) && handles == old(handles) + {r.value}
                && r.value in sockets && sockets[r.value].bound.Some?
                && BoundAs(sockets[r.value].bound.value, ip, asked, ty)
                && !Taken(old(bindings), sockets[r.value].bound.value)
                && Tab() == SocketTable.BindNew(old(Tab()), sockets[r.value].bound.value)
    {
      if !ip.Unspecified() && !IsLocal(ip) {
        return Failed(AddrNotAvailable);
      }
      var port := ChoosePort(ip.Family(), ty, asked);
      if port.None? {
        return Failed(AddrInUse);
      }
      var key := SocketTable.BindKey(ip.Family(), ty, ip, port.value);
      assert Taken(bindings, key) ==> PortInUse(bindings, ip.Family(), ty, port.value);
      if Taken(bindings, key) {
        return Failed(AddrInUse);
      }
      assert key in bindings ==> Conflicts(key, key);
      var fd := BindNew(key);
      return Ready(fd);
    }

    /** `listen`, on a bound stream socket alone on its endpoint, as it is
        right after `bind`. */
    method Listen(fd: Fd, backlog: nat) returns (r: Poll<()>)
      requires Valid()
      requires fd in sockets ==>
                 && sockets[fd].bound.Some? && sockets[fd].ty == SocketTable.Stream && sockets[fd].tcb.None?
                 && sockets[fd].listen.None? && SocketTable.Children(Tab(), sockets[fd].bound.value.At()) == {}
      modifies `sockets
      ensures Valid()
      ensures fd !in old(sockets) <==> r == Failed(NotFound)
      ensures fd in old(sockets) ==>
                && r == Ready(())
                && sockets == old(sockets)[
                     fd := old(sockets)[fd].(listen := Some(SocketTable.ListenState(backlog, [])))]
      ensures r == Failed(NotFound) ==> sockets == old(sockets)
    {
      if fd !in sockets {
        return Failed(NotFound);
      }
      assert SocketTable.SocketOk(Tab(), fd);
      SocketTable.ListenKeeps(Tab(), handles, fd, backlog);
      sockets := sockets[fd := sockets[fd].(listen := Some(SocketTable.ListenState(backlog, [])))];
      return Ready(());
    }

    /** What the shim's listener does: bind, then listen. */
    method BindListener(ip: Ip, asked: nat, backlog: nat) returns (r: Poll<Fd>)
      requires Valid()
      modifies `nextId, `sockets, `bindings, `portCursor, `handles
      ensures Valid()
      ensures r.Ready? ==>
                && SocketTable.Listening(Tab(), r.value) && handles == old(handles) + {r.value}
                && sockets[r.value].bound.Some? && BoundAs(sockets[r.value].bound.value, ip, asked, SocketTable.Stream)
                && sockets[r.value].listen == Some(SocketTable.ListenState(backlog, []))
      ensures r.Failed? ==> Tab() == old(Tab()) && handles == old(handles)
      ensures r == Failed(AddrNotAvailable) <==> !ip.Unspecified() && !IsLocal(ip)
      ensures !r.Ready? && r != Failed(AddrNotAvailable) ==>
                && r == Failed(AddrInUse)
                && if asked == 0 then AllInUse(bindings, ip.Family(), SocketTable.Stream)
                   else Taken(bindings, SocketTable.BindKey(ip.Family(), SocketTable.Stream, ip, asked))
    {
      r := Bind(ip, asked, SocketTable.Stream);
      if r.Ready? {
        NoChildrenYet(old(Tab()), r.value, sockets[r.value].bound.value);
        var _ := Listen(r.value, backlog);
      }
    }

    static lemma NoChildrenYet(T: Table, fd: Fd, key: BindKey)
      requires SocketTable.IndicesAgree(T) && !Taken(T.bindings, key)
      requires key.domain == key.addr.Family() && key.ty == SocketTable.Stream
      ensures SocketTable.Children(SocketTable.BindNew(T, key), key.At()) == {}
    {
      forall g | g in T.sockets && T.sockets[g].tcb.Some? ensures T.sockets[g].bound.value.At() != key.At() {
        assert SocketTable.SocketOk(T, g);
        assert T.sockets[g].bound.value == key ==> Conflicts(key, key);
      }
    }

    // ---- emitting ----

    method Emit(src: Endpoint, dst: Endpoint, seg: Segment)
      modifies `outbound
      ensures outbound == old(outbound) + [Tcp(src, dst, seg)]
    {
      outbound := outbound + [Tcp(src, dst, seg)];
    }

    method EmitReply(src: Endpoint, dst: Endpoint, seg: Option<Segment>)
      modifies `outbound
      ensures outbound == old(outbound) + Reply(src, dst, seg)
    {
      if seg.Some? {
        Emit(src, dst, seg.value);
      }
    }

    method InitialSequence() returns (isn: U32)
      modifies `tcpIsn
      ensures isn == old(tcpIsn) && tcpIsn == NextIsn(isn)
    {
      isn := tcpIsn;
      tcpIsn := WrappingAdd(tcpIsn, 0x1_0000);
    }

    method SetTcb(fd: Fd, t: Tcb)
      requires fd in sockets
      modifies `sockets
      ensures Tab() == SocketTable.SetTcb(old(Tab()), fd, t)
    {
      sockets := sockets[fd := sockets[fd].(tcb := Some(t))];
    }

    // ---- connect ----

    /** The source address and port of an unbound client. */
    method ChooseSource(domain: Domain, dst: Ip) returns (r: Poll<Endpoint>)
      requires FIRST_PORT <= portCursor <= LAST_PORT
      modifies `portCursor
      ensures FIRST_PORT <= portCursor <= LAST_PORT && !r.Pending?
      ensures r == Failed(AddrNotAvailable) <==> !dst.Loopback() && FirstOfFamily(addresses, dst).None?
      ensures r.Failed? && r != Failed(AddrNotAvailable) ==>
                && r == Failed(AddrInUse)
                && AllInUse(bindings, domain, SocketTable.Stream)
      ensures r.Ready? ==>
                && r.value.ip == (if dst.Loopback() then Localhost(dst) else FirstOfFamily(addresses, dst).value)
                && FIRST_PORT <= r.value.port <= LAST_PORT
                && !PortInUse(bindings, domain, SocketTable.Stream, r.value.port)
    {
      var local := if dst.Loopback() then Some(Localhost(dst)) else FirstOfFamily(addresses, dst);
      if local.None? {
        return Failed(AddrNotAvailable);
      }
      var port := AllocatePort(domain, SocketTable.Stream);
      if port.None? {
        return Failed(AddrInUse);
      }
      return Ready(Endpoint(local.value, port.value));
    }

    /** The first poll of a connect: bind, build the block, index it, send SYN. */
    method StartConnect(fd: Fd, src: Endpoint, peer: Endpoint)
      requires Valid() && fd in handles
      requires sockets[fd].ty == SocketTable.Stream && sockets[fd].bound.None?
      requires sockets[fd].domain == src.ip.Family() && !src.ip.Unspecified()
      requires !PortInUse(bindings, sockets[fd].domain, SocketTable.Stream, src.port)
      modifies `sockets, `bindings, `connections, `outbound, `tcpIsn
      ensures Valid()
      ensures Tab() == SocketTable.Attach(old(Tab()), fd, ClientSocket(old(sockets)[fd], src, peer, old(tcpIsn)))
      ensures tcpIsn == NextIsn(old(tcpIsn))
      ensures outbound == old(outbound)
                + [Tcp(src, peer, Segment(old(tcpIsn), 0, NO_FLAGS.(syn := true), DEFAULT_WINDOW, []))]
    {
      ClientAttachable(Tab(), fd, src, peer, tcpIsn);
      SocketTable.ConnectKeeps(Tab(), handles, fd, ClientSocket(sockets[fd], src, peer, tcpIsn));
      AttachClient(fd, src, peer);
    }

    method AttachClient(fd: Fd, src: Endpoint, peer: Endpoint)
      requires fd in sockets
      modifies `sockets, `bindings, `connections, `outbound, `tcpIsn
      ensures Tab() == SocketTable.Attach(old(Tab()), fd, ClientSocket(old(sockets)[fd], src, peer, old(tcpIsn)))
      ensures tcpIsn == NextIsn(old(tcpIsn))
      ensures outbound == old(outbound)
                + [Tcp(src, peer, Segment(old(tcpIsn), 0, NO_FLAGS.(syn := true), DEFAULT_WINDOW, []))]
    {
      var key := SocketTable.BindKey(sockets[fd].domain, SocketTable.Stream, src.ip, src.port);
      InsertBinding(key, fd);
      sockets := sockets[fd := sockets[fd].(bound := Some(key))];
      var isn := InitialSequence();
      SetTcb(fd, NewTcb(SynSent, peer, isn, DEFAULT_WINDOW, 0));
      connections := connections[(src, peer) := fd];
      assert Tab() == SocketTable.Attach(old(Tab()), fd, ClientSocket(old(sockets)[fd], src, peer, isn));
      Emit(src, peer, Segment(isn, 0, NO_FLAGS.(syn := true), DEFAULT_WINDOW, []));
    }

    static function ConnectProgress(t: Tcb): Poll<()> {
      if t.state == Established then Ready(())
      else if Handshaking(t.state) then Pending
      else if t.timedOut then Failed(TimedOut)
      else Failed(ConnectionRefused)
    }

    /** `connect` on a socket the application opened and never bound. */
    method PollConnect(fd: Fd, peer: Endpoint) returns (r: Poll<()>)
      requires Valid() && (fd in sockets ==> fd in handles && sockets[fd].ty == SocketTable.Stream)
      requires fd in sockets ==> sockets[fd].tcb.Some? || sockets[fd].bound.None?
      modifies `sockets, `bindings, `connections, `outbound, `tcpIsn, `portCursor
      ensures Valid()
      ensures fd !in old(sockets) ==> r == Failed(NotFound)
      ensures fd in old(sockets) && old(sockets)[fd].domain != peer.ip.Family() ==> r == Failed(FamilyNotSupported)
      ensures fd in old(sockets) && old(sockets)[fd].domain == peer.ip.Family() && old(sockets)[fd].tcb.Some? ==>
                r == ConnectProgress(old(sockets)[fd].tcb.value)
      ensures r != Pending || old(sockets)[fd].tcb.Some? ==> Tab() == old(Tab()) && outbound == old(outbound)
      ensures r == Pending && old(sockets)[fd].tcb.None? ==>
                && fd in sockets && sockets[fd].bound.Some?
                && !PortInUse(old(bindings), old(sockets)[fd].domain, SocketTable.Stream, sockets[fd].bound.value.port)
                && var src := sockets[fd].bound.value.At();
                && IsLocal(src.ip)
                && Tab() == SocketTable.Attach(old(Tab()), fd, ClientSocket(old(sockets)[fd], src, peer, old(tcpIsn)))
                && outbound == old(outbound)
                     + [Tcp(src, peer, Segment(old(tcpIsn), 0, NO_FLAGS.(syn := true), DEFAULT_WINDOW, []))]
    {
      if fd !in sockets {
        return Failed(NotFound);
      }
      if sockets[fd].domain != peer.ip.Family() {
        return Failed(FamilyNotSupported);
      }
      if sockets[fd].tcb.Some? {
        return ConnectProgress(sockets[fd].tcb.value);
      }
      var src := ChooseSource(sockets[fd].domain, peer.ip);
      if src.Failed? {
        return Failed(src.error);
      }
      StartConnect(fd, src.value, peer);
      return Pending;
    }

    // ---- established sockets ----

    /** `accept`: the oldest finished handshake, now the application's. */
    method PollAccept(fd: Fd) returns (r: Poll<(Fd, Endpoint)>)
      requires Valid() && (fd in sockets ==> SocketTable.Listening(Tab(), fd))
      modifies `sockets, `handles
      ensures Valid()
      ensures fd !in old(sockets) <==> r == Failed(NotFound)
      ensures r.Failed? ==> r == Failed(NotFound)
      ensures !r.Ready? ==> Tab() == old(Tab()) && handles == old(handles)
      ensures r.Pending? ==> old(SocketTable.ReadyOf(Tab(), fd)) == []
      ensures r.Ready? ==>
                && old(SocketTable.ReadyOf(Tab(), fd)) != [] && r.value.0 == old(SocketTable.ReadyOf(Tab(), fd))[0]
                && Tab() == SocketTable.SetReady(old(Tab()), fd, old(SocketTable.ReadyOf(Tab(), fd))[1..])
                && r.value.0 in sockets && sockets[r.value.0].tcb.Some?
                && r.value.1 == sockets[r.value.0].tcb.value.peer
                && r.value.0 !in old(handles) && handles == old(handles) + {r.value.0}
    {
      if fd !in sockets {
        return Failed(NotFound);
      }
      var listen := sockets[fd].listen.value;
      if listen.ready == [] {
        return Pending;
      }
      var child := listen.ready[0];
      assert SocketTable.Queued(Tab(), fd, child);
      SocketTable.AcceptKeeps(Tab(), handles, fd);
      sockets := sockets[fd := sockets[fd].(listen := Some(listen.(ready := listen.ready[1..])))];
      handles := handles + {child};
      return Ready((child, sockets[child].tcb.value.peer));
    }

    /** `send` on a block. */
    method SendOn(fd: Fd, buf: seq<Byte>) returns (r: Poll<nat>)
      requires fd in sockets && sockets[fd].tcb.Some?
      modifies `sockets
      ensures r == Send(old(sockets)[fd].tcb.value, buf, sendBufCap).1
      ensures Tab() == SocketTable.SetTcb(old(Tab()), fd, Send(old(sockets)[fd].tcb.value, buf, sendBufCap).0)
    {
      var t := sockets[fd].tcb.value;
      assert sockets == sockets[fd := sockets[fd].(tcb := Some(t))];
      var error := AbortError(t);
      if error.Some? {
        return Failed(error.value);
      }
      if t.wrClosed {
        return Failed(BrokenPipe);
      }
      if t.state != Established && t.state != CloseWait {
        return Failed(NotConnected);
      }
      var space := SaturatingSub(sendBufCap, |t.sendBuf|);
      if space == 0 {
        return Pending;
      }
      var n := Min(|buf|, space);
      SetTcb(fd, t.(sendBuf := t.sendBuf + buf[..n]));
      return Ready(n);
    }

    method PollSend(fd: Fd, buf: seq<Byte>) returns (r: Poll<nat>)
      requires Valid()
      modifies `sockets
      ensures Valid()
      ensures fd !in old(sockets) ==> r == Failed(NotFound)
      ensures fd in old(sockets) && old(sockets)[fd].tcb.None? ==> r == Failed(NotConnected)
      ensures !HasBlock(old(sockets), fd) ==> sockets == old(sockets)
      ensures HasBlock(old(sockets), fd) ==>
                var (t, n) := Send(old(sockets)[fd].tcb.value, buf, sendBufCap);
                r == n && Tab() == SocketTable.SetTcb(old(Tab()), fd, t)
    {
      if fd !in sockets {
        return Failed(NotFound);
      }
      if sockets[fd].tcb.None? {
        return Failed(NotConnected);
      }
      CallsAreOk(sockets[fd].tcb.value, buf, sendBufCap, [], 0);
      CallKeeps(Tab(), handles, fd, Send(sockets[fd].tcb.value, buf, sendBufCap).0);
      r := SendOn(fd, buf);
    }

    /** `shutdown(Write)` on a block: queue the FIN behind the accepted bytes, once. */
    method ShutdownWriteOn(fd: Fd) returns (r: Poll<()>)
      requires fd in sockets && sockets[fd].tcb.Some?
      modifies `sockets
      ensures r == ShutdownWrite(old(sockets)[fd].tcb.value).1
      ensures Tab() == SocketTable.SetTcb(old(Tab()), fd, ShutdownWrite(old(sockets)[fd].tcb.value).0)
    {
      var t := sockets[fd].tcb.value;
      assert sockets == sockets[fd := sockets[fd].(tcb := Some(t))];
      var error := AbortError(t);
      if error.Some? {
        return Failed(error.value);
      }
      if t.wrClosed {
        return Ready(());
      }
      var finSeq := WrappingAdd(t.sndUna, |t.sendBuf|);
      SetTcb(fd, t.(finSeq := Some(finSeq), wrClosed := true, state := AfterShutdown(t.state)));
      return Ready(());
    }

    method PollShutdownWrite(fd: Fd) returns (r: Poll<()>)
      requires Valid()
      modifies `sockets
      ensures Valid()
      ensures fd !in old(sockets) ==> r == Failed(NotFound)
      ensures fd in old(sockets) && old(sockets)[fd].tcb.None? ==> r == Failed(NotConnected)
      ensures !HasBlock(old(sockets), fd) ==> sockets == old(sockets)
      ensures HasBlock(old(sockets), fd) ==>
                var (t, done) := ShutdownWrite(old(sockets)[fd].tcb.value);
                r == done && Tab() == SocketTable.SetTcb(old(Tab()), fd, t)
    {
      if fd !in sockets {
        return Failed(NotFound);
      }
      if sockets[fd].tcb.None? {
        return Failed(NotConnected);
      }
      CallsAreOk(sockets[fd].tcb.value, [], sendBufCap, [], 0);
      CallKeeps(Tab(), handles, fd, ShutdownWrite(sockets[fd].tcb.value).0);
      r := ShutdownWriteOn(fd);
    }

    /** Drain a receive buffer into buffers of the given lengths, in order. */
    static method DrainInto(recvBuf: seq<Byte>, lens: seq<nat>) returns (got: seq<Byte>, rest: seq<Byte>)
      ensures got == recvBuf[..Min(|recvBuf|, Total(lens))]
      ensures rest == recvBuf[Min(|recvBuf|, Total(lens))..]
    {
      got, rest := [], recvBuf;
      var i := 0;
      while i < |lens|
        invariant 0 <= i <= |lens| && got + rest == recvBuf
        invariant |got| == Min(|recvBuf|, Total(lens[..i]))
      {
        var len := Min(|rest|, lens[i]);
        got, rest := got + rest[..len], rest[len..];
        TotalSnoc(lens[..i], lens[i]);
        assert lens[..i + 1] == lens[..i] + [lens[i]];
        i := i + 1;
        if rest == [] {
          TotalPrefix(lens, i);
          break;
        }
      }
      assert i == |lens| ==> lens[..i] == lens;
    }

    static lemma {:induction false} TotalSnoc(lens: seq<nat>, n: nat)
      ensures Total(lens + [n]) == Total(lens) + n
    {
      if lens != [] {
        TotalSnoc(lens[1..], n);
        assert (lens + [n])[1..] == lens[1..] + [n];
      }
    }

    static lemma {:induction false} TotalPrefix(lens: seq<nat>, i: nat)
      requires i <= |lens|
      ensures Total(lens[..i]) <= Total(lens)
    {
      if i > 0 {
        TotalPrefix(lens[1..], i - 1);
        assert lens[..i][1..] == lens[1..][..i - 1];
      }
    }

    /** `recv` on a block, into several buffers, with the window update. */
    method RecvOn(fd: Fd, lens: seq<nat>) returns (r: Poll<seq<Byte>>)
      requires HasBlock(sockets, fd) && sockets[fd].bound.Some?
      modifies `sockets, `outbound
      ensures var (t, data, update) := Recv(old(sockets)[fd].tcb.value, lens, limits.recvCap);
              && r == data && Tab() == SocketTable.SetTcb(old(Tab()), fd, t)
              && outbound == old(outbound) + Reply(old(sockets)[fd].bound.value.At(), t.peer, update)
    {
      var t := sockets[fd].tcb.value;
      assert sockets == sockets[fd := sockets[fd].(tcb := Some(t))];
      var error := AbortError(t);
      if error.Some? {
        return Failed(error.value);
      }
      if t.recvBuf == [] {
        if t.peerFin {
          return Ready([]);
        }
        if t.state != Established && t.state != FinWait1 && t.state != FinWait2 && t.state != CloseWait {
          return Failed(NotConnected);
        }
        return Pending;
      }
      var local := sockets[fd].bound.value.At();
      var got, rest := DrainInto(t.recvBuf, lens);
      t := t.(recvBuf := rest);
      SetTcb(fd, t);
      if |got| >= limits.recvCap / 2 {
        Emit(local, t.peer, Segment(t.sndNxt, t.rcvNxt, ACK, AdvertisedWindow(limits.recvCap, |t.recvBuf|), []));
      }
      return Ready(got);
    }

    method PollRecvVectored(fd: Fd, lens: seq<nat>) returns (r: Poll<seq<Byte>>)
      requires Valid()
      modifies `sockets, `outbound
      ensures Valid()
      ensures fd !in old(sockets) ==> r == Failed(NotFound)
      ensures fd in old(sockets) && old(sockets)[fd].tcb.None? ==> r == Failed(NotConnected)
      ensures !HasBlock(old(sockets), fd) ==> sockets == old(sockets) && outbound == old(outbound)
      ensures HasBlock(old(sockets), fd) ==>
                && old(sockets)[fd].bound.Some?
                && var (t, data, update) := Recv(old(sockets)[fd].tcb.value, lens, limits.recvCap);
                && r == data && Tab() == SocketTable.SetTcb(old(Tab()), fd, t)
                && outbound == old(outbound) + Reply(old(sockets)[fd].bound.value.At(), t.peer, update)
    {
      if fd !in sockets {
        return Failed(NotFound);
      }
      if sockets[fd].tcb.None? {
        return Failed(NotConnected);
      }
      assert SocketTable.SocketOk(Tab(), fd);
      CallsAreOk(sockets[fd].tcb.value, [], sendBufCap, lens, limits.recvCap);
      CallKeeps(Tab(), handles, fd, Recv(sockets[fd].tcb.value, lens, limits.recvCap).0);
      r := RecvOn(fd, lens);
    }

    // ---- inbound ----

    method FindListenerOn(local: Endpoint) returns (r: Option<Fd>)
      requires SocketTable.IndicesAgree(Tab())
      ensures r == FindListener(Tab(), local)
    {
      var T := Tab();
      var keys := [ExactKey(local), WildcardKey(local)];
      for k := 0 to 2
        invariant k > 0 ==> FirstListening(T, SocketTable.BoundAt(T, keys[0])).None?
        invariant k > 1 ==> FirstListening(T, SocketTable.BoundAt(T, keys[1])).None?
      {
        var fds := SocketTable.BoundAt(T, keys[k]);
        for i := 0 to |fds|
          invariant FirstListening(T, fds) == FirstListening(T, fds[i..])
        {
          SocketTable.FindByBindIsLinearScan(T, fds[i], keys[k]);
          if sockets[fds[i]].listen.Some? {
            return Some(fds[i]);
          }
        }
      }
      return None;
    }

    /** Drain what `s` acknowledges and refresh the window. */
    static method TakeAck(t: Tcb, s: Segment) returns (tcb: Tcb)
      requires SendSideOk(t) && t.state != Closed
      ensures tcb == DrainAck(t, s)
    {
      tcb := t;
      var acked := WrappingSub(s.ack, tcb.sndUna);
      var inFlight := WrappingSub(tcb.sndNxt, tcb.sndUna);
      if 0 < acked <= inFlight {
        var finAcked := tcb.finSeq.Some? && s.ack == WrappingAdd(tcb.finSeq.value, 1);
        var dataBytes := if finAcked then acked - 1 else acked;
        AckedBytesFit(t, s);
        if dataBytes > 0 {
          tcb := tcb.(sendBuf := tcb.sendBuf[dataBytes..]);
        }
        tcb := tcb.(sndUna := s.ack);
        tcb := tcb.(egressSinceAck := 0, retxAttempts := 0);
        if finAcked {
          tcb := tcb.(state := AfterFinAck(tcb.state));
        }
      }
      tcb := tcb.(sndWnd := s.window);
    }

    /** Accept in-order bytes that fit. */
    static method TakeData(t: Tcb, s: Segment, recvCap: nat) returns (tcb: Tcb, took: bool)
      ensures tcb == AcceptData(t, s, recvCap) && (took <==> Takes(t, s, recvCap) > 0)
    {
      tcb, took := t, false;
      if s.payload != [] && s.seqNo == tcb.rcvNxt && !tcb.peerFin {
        var room := SaturatingSub(recvCap, |tcb.recvBuf|);
        var n := Min(|s.payload|, room);
        if n > 0 {
          tcb := tcb.(recvBuf := tcb.recvBuf + s.payload[..n]);
          tcb := tcb.(rcvNxt := WrappingAdd(tcb.rcvNxt, n));
          took := true;
        }
      }
    }

    /** Accept a FIN that lands in order. */
    static method TakeFin(t: Tcb, s: Segment) returns (tcb: Tcb, took: bool)
      ensures tcb == AcceptFin(t, s) && (took <==> TakesFin(t, s))
    {
      tcb, took := t, false;
      if s.flags.fin && !tcb.peerFin {
        var finSeq := WrappingAdd(s.seqNo, |s.payload|);
        if finSeq == tcb.rcvNxt {
          tcb := tcb.(peerFin := true);
          tcb := tcb.(rcvNxt := WrappingAdd(tcb.rcvNxt, 1));
          took := true;
          tcb := tcb.(state := AfterPeerFin(tcb.state));
        }
      }
    }

    static method HandleEstablished(t: Tcb, s: Segment, recvCap: nat) returns (tcb: Tcb, reply: Option<Segment>)
      requires SendSideOk(t) && t.state != Closed
      ensures (tcb, reply) == OnEstablished(t, s, recvCap)
    {
      tcb := t;
      if s.flags.ack {
        tcb := TakeAck(tcb, s);
      }
      var tookData, tookFin;
      tcb, tookData := TakeData(tcb, s, recvCap);
      tcb, tookFin := TakeFin(tcb, s);
      reply := None;
      if tookData || tookFin {
        reply := Some(Segment(tcb.sndNxt, tcb.rcvNxt, ACK, AdvertisedWindow(recvCap, |tcb.recvBuf|), []));
      }
    }

    /** What a segment does to the block of its connection. */
    static method HandleSegment(t: Tcb, s: Segment, recvCap: nat) returns (tcb: Tcb, reply: Option<Segment>)
      requires SendSideOk(t)
      ensures (tcb, reply) == OnSegment(t, s, recvCap)
    {
      tcb, reply := t, None;
      if s.flags.rst {
        tcb := t.(state := Closed, reset := true, sendBuf := [], recvBuf := []);
        return;
      }
      match t.state {
        case SynSent =>
          if s.flags.syn && s.flags.ack {
            tcb := t.(state := Established, rcvNxt := WrappingAdd(s.seqNo, 1), sndWnd := s.window);
            reply := Some(Segment(tcb.sndNxt, tcb.rcvNxt, ACK, AdvertisedWindow(recvCap, 0), []));
          }
        case SynReceived =>
          if s.flags.ack && !s.flags.syn && s.ack == t.sndNxt {
            tcb := t.(state := Established, sndWnd := s.window);
          }
        case Closed =>
        case _ =>
          tcb, reply := HandleEstablished(t, s, recvCap);
      }
    }

    method HandleOnConnection(fd: Fd, local: Endpoint, remote: Endpoint, s: Segment)
      requires SocketTable.IndicesAgree(Tab()) && SocketTable.IsConnection(Tab(), fd, local, remote)
      modifies `sockets, `outbound
      ensures SocketTable.SocketOk(old(Tab()), fd)
      ensures var e := OnConnection(old(Tab()), tcpIsn, limits.recvCap, fd, local, s);
              Tab() == e.table && outbound == old(outbound) + Reply(local, remote, e.reply)
    {
      assert SocketTable.SocketOk(Tab(), fd);
      var t := sockets[fd].tcb.value;
      var l := FindListenerOn(local);
      FirstListeningFinds(Tab(), SocketTable.BoundAt(Tab(), ExactKey(local)));
      FirstListeningFinds(Tab(), SocketTable.BoundAt(Tab(), WildcardKey(local)));
      var t', reply := HandleSegment(t, s, limits.recvCap);
      SetTcb(fd, t');
      if t.state == SynReceived && t'.state == Established && l.Some? {
        PushToListener(l.value, fd);
      }
      EmitReply(local, remote, reply);
    }

    method PushToListener(l: Fd, child: Fd)
      requires SocketTable.Listening(Tab(), l)
      modifies `sockets
      ensures Tab() == SocketTable.SetReady(old(Tab()), l, old(SocketTable.ReadyOf(Tab(), l)) + [child])
    {
      var listen := sockets[l].listen.value;
      sockets := sockets[l := sockets[l].(listen := Some(listen.(ready := listen.ready + [child])))];
    }

    /** A SYN for a listener: dropped on a full backlog, else a child. */
    method AcceptSyn(l: Fd, local: Endpoint, remote: Endpoint, s: Segment)
      requires SocketTable.Listening(Tab(), l) && FindListener(Tab(), local) == Some(l)
      modifies `nextId, `sockets, `bindings, `connections, `outbound, `tcpIsn
      ensures var e := OnSyn(old(Tab()), old(tcpIsn), local, remote, s);
              Tab() == e.table && tcpIsn == e.isn && outbound == old(outbound) + Reply(local, remote, e.reply)
    {
      var listen := sockets[l].listen.value;
      var inFlight := |SocketTable.HandshakesOn(Tab(), local)|;
      if inFlight + |listen.ready| >= listen.backlog {
        return;
      }
      AdmitChild(l, local, remote, s);
    }

    method AdmitChild(l: Fd, local: Endpoint, remote: Endpoint, s: Segment)
      requires SocketTable.Listening(Tab(), l)
      modifies `nextId, `sockets, `bindings, `connections, `outbound, `tcpIsn
      ensures Tab() == SocketTable.AddChild(old(Tab()), ChildSocket(old(Tab()), l, local, remote, old(tcpIsn), s))
      ensures tcpIsn == NextIsn(old(tcpIsn))
      ensures outbound == old(outbound) + Reply(local, remote, Some(SynAck(old(tcpIsn), s)))
    {
      var domain, ty := sockets[l].domain, sockets[l].ty;
      var child := Insert(SocketTable.NewSocket(domain, ty));
      var key := SocketTable.BindKey(domain, ty, local.ip, local.port);
      InsertBinding(key, child);
      var isn := InitialSequence();
      sockets := sockets[child := sockets[child].(
        bound := Some(key),
        tcb := Some(NewTcb(SynReceived, remote, isn, s.window, WrappingAdd(s.seqNo, 1))))];
      connections := connections[(local, remote) := child];
      assert Tab() == SocketTable.AddChild(old(Tab()), ChildSocket(old(Tab()), l, local, remote, isn, s));
      Emit(local, remote, SynAck(isn, s));
    }

    /** Inbound dispatch of a TCP segment. */
    method DeliverTcp(local: Endpoint, remote: Endpoint, s: Segment)
      requires SocketTable.IndicesAgree(Tab())
      modifies `nextId, `sockets, `bindings, `connections, `outbound, `tcpIsn
      ensures var e := Inbound(old(Tab()), old(tcpIsn), limits.recvCap, local, remote, s);
              Tab() == e.table && tcpIsn == e.isn && outbound == old(outbound) + Reply(local, remote, e.reply)
    {
      if (local, remote) in connections {
        var fd := connections[(local, remote)];
        assert SocketTable.IsConnection(Tab(), fd, local, remote);
        HandleOnConnection(fd, local, remote, s);
        return;
      }
      if s.flags.syn && !s.flags.ack {
        var l := FindListenerOn(local);
        if l.Some? {
          FirstListeningFinds(Tab(), SocketTable.BoundAt(Tab(), ExactKey(local)));
          FirstListeningFinds(Tab(), SocketTable.BoundAt(Tab(), WildcardKey(local)));
          AcceptSyn(l.value, local, remote, s);
          return;
        }
        Emit(local, remote, RstFor(s));
        return;
      }
      if !s.flags.rst {
        Emit(local, remote, RstFor(s));
      }
    }

    /** An inbound packet for one of this host's concrete addresses: replies
        rank below it, and nothing more is left to send than before. */
    method Deliver(p: Packet)
      requires Valid() && !p.dst.ip.Unspecified()
      modifies `nextId, `sockets, `bindings, `connections, `outbound, `tcpIsn
      ensures Valid()
      ensures p.Tcp? ==>
                var e := Inbound(old(Tab()), old(tcpIsn), limits.recvCap, p.dst, p.src, p.seg);
                Tab() == e.table && tcpIsn == e.isn && outbound == old(outbound) + Reply(p.dst, p.src, e.reply)
      ensures p.Udp? ==> Tab() == old(Tab()) && outbound == old(outbound) && tcpIsn == old(tcpIsn)
      ensures Weight(outbound) <= old(Weight(outbound)) + Rank(p)
      ensures TotalBacklog(sockets, nextId) <= old(TotalBacklog(sockets, nextId))
    {
      if p.Tcp? {
        InboundKeeps(Tab(), handles, tcpIsn, limits.recvCap, p.dst, p.src, p.seg);
        InboundAddsNoBacklog(Tab(), tcpIsn, limits.recvCap, p.dst, p.src, p.seg);
        ReplyRanksLower(Tab(), tcpIsn, limits.recvCap, p.dst, p.src, p.seg);
        ghost var reply := Inbound(Tab(), tcpIsn, limits.recvCap, p.dst, p.src, p.seg).reply;
        WeightAppend(outbound, Reply(p.dst, p.src, reply));
        DeliverTcp(p.dst, p.src, p.seg);
      }
    }

    // ---- egress ----

    /** The next segment of a block, if its window and data allow one. */
    static method NextSegment(t: Tcb, mss: nat, recvCap: nat) returns (r: Option<(Tcb, Segment)>)
      ensures r.Some? <==> CanEmit(t)
      ensures r.Some? ==> r.value == EmitNext(t, mss, recvCap)
    {
      var inFlight := WrappingSub(t.sndNxt, t.sndUna);
      var unsent := SaturatingSub(|t.sendBuf|, inFlight);
      var room := SaturatingSub(t.sndWnd, inFlight);
      var finPending := t.finSeq == Some(t.sndNxt);
      var window := AdvertisedWindow(recvCap, |t.recvBuf|);
      if unsent > 0 && room > 0 {
        var n := Min(Min(unsent, mss), room);
        var payload := t.sendBuf[inFlight..inFlight + n];
        return Some((t.(sndNxt := WrappingAdd(t.sndNxt, n)),
                     Segment(t.sndNxt, t.rcvNxt, ACK.(psh := payload != []), window, payload)));
      } else if finPending && room > 0 {
        return Some((t.(sndNxt := WrappingAdd(t.sndNxt, 1)),
                     Segment(t.sndNxt, t.rcvNxt, ACK.(fin := true), window, [])));
      } else {
        return None;
      }
    }

    /** One emission, and what remains. */
    static lemma Unfold(t: Tcb, mss: nat, recvCap: nat, local: Endpoint, remote: Endpoint)
      requires SendSideOk(t) && Transmitting(t.state) && mss > 0 && CanEmit(t)
      ensures var (t', seg) := EmitNext(t, mss, recvCap);
              && SendSideOk(t') && t'.state == t.state && t'.peer == t.peer && Backlog(t') < Backlog(t)
              && SegmentOne(t, mss, recvCap).0 == SegmentOne(t', mss, recvCap).0
              && Packets(local, remote, SegmentOne(t, mss, recvCap).1)
                 == [Tcp(local, remote, seg)] + Packets(local, remote, SegmentOne(t', mss, recvCap).1)
    {
      EmitProgress(t, mss, recvCap);
      var (t', seg) := EmitNext(t, mss, recvCap);
      assert SegmentOne(t, mss, recvCap).1[1..] == SegmentOne(t', mss, recvCap).1;
    }

    /** What is out so far, and what chopping `t` on would add, is all. */
    static ghost predicate Chopped(t0: Tcb, t: Tcb, local: Endpoint, mss: nat, recvCap: nat, out: seq<Packet>)
      requires SendSideOk(t0) && Transmitting(t0.state) && mss > 0
    {
      && SendSideOk(t) && Transmitting(t.state) && t.peer == t0.peer
      && SegmentOne(t0, mss, recvCap).0 == SegmentOne(t, mss, recvCap).0
      && Packets(local, t0.peer, SegmentOne(t0, mss, recvCap).1)
         == out + Packets(local, t0.peer, SegmentOne(t, mss, recvCap).1)
    }

    static lemma {:induction false} ChopNext(t0: Tcb, t: Tcb, local: Endpoint, mss: nat, recvCap: nat, out: seq<Packet>)
      requires SendSideOk(t0) && Transmitting(t0.state) && mss > 0 && Chopped(t0, t, local, mss, recvCap, out)
      ensures CanEmit(t) ==>
                var (t', seg) := EmitNext(t, mss, recvCap);
                Chopped(t0, t', local, mss, recvCap, out + [Tcp(local, t0.peer, seg)]) && Backlog(t') < Backlog(t)
      ensures !CanEmit(t) ==>
                t == SegmentOne(t0, mss, recvCap).0 && out == Packets(local, t0.peer, SegmentOne(t0, mss, recvCap).1)
    {
      if CanEmit(t) {
        Unfold(t, mss, recvCap, local, t0.peer);
        var (t', seg) := EmitNext(t, mss, recvCap);
        Joined(out, [Tcp(local, t0.peer, seg)], Packets(local, t0.peer, SegmentOne(t', mss, recvCap).1));
      }
    }

    /** Chop a block's unsent bytes into segments, then its FIN. */
    static method Chop(t0: Tcb, local: Endpoint, mss: nat, recvCap: nat) returns (t: Tcb, out: seq<Packet>)
      requires SendSideOk(t0) && Transmitting(t0.state) && mss > 0
      ensures t == SegmentOne(t0, mss, recvCap).0
      ensures out == Packets(local, t0.peer, SegmentOne(t0, mss, recvCap).1)
    {
      t, out := t0, [];
      while true
        invariant Chopped(t0, t, local, mss, recvCap, out)
        decreases Backlog(t)
      {
        ChopNext(t0, t, local, mss, recvCap, out);
        var next := NextSegment(t, mss, recvCap);
        if next.None? {
          return;
        }
        t, out := next.value.0, out + [Tcp(local, t0.peer, next.value.1)];
      }
    }

    method SegmentOneOf(fd: Fd)
      requires LimitsOk(limits) && fd in sockets && Sends(sockets[fd])
      modifies `sockets, `outbound
      ensures sockets == old(sockets)[fd := Visit(old(sockets)[fd], limits, Segmentation).0]
      ensures outbound == old(outbound) + Visit(old(sockets)[fd], limits, Segmentation).1
    {
      var local := sockets[fd].bound.value.At();
      SegmentOneSendsAll(sockets[fd].tcb.value, MssFor(limits, local.ip), limits.recvCap);
      var t, out := Chop(sockets[fd].tcb.value, local, MssFor(limits, local.ip), limits.recvCap);
      SetTcb(fd, t);
      outbound := outbound + out;
    }

    /** One block of the retransmit sweep: count, resend, rewind or give up. */
    static method CountPass(t0: Tcb, threshold: nat, max: nat) returns (t: Tcb, action: RetxAction)
      ensures (t, action) == CheckRetx(t0, threshold, max)
    {
      t := t0;
      var handshake := t.state == SynSent || t.state == SynReceived;
      var data := Transmitting(t.state) && t.sndUna != t.sndNxt;
      if !handshake && !data {
        return t, Wait;
      }
      t := t.(egressSinceAck := t.egressSinceAck + 1);
      if t.egressSinceAck < threshold {
        return t, Wait;
      }
      if t.retxAttempts >= max {
        return t.(state := Closed, timedOut := true, sendBuf := [], recvBuf := []), GiveUp;
      }
      t := t.(retxAttempts := t.retxAttempts + 1, egressSinceAck := 0);
      if handshake {
        return t, ResendHandshake;
      }
      return t.(sndNxt := t.sndUna), Rewind;
    }

    method CheckRetxOf(fd: Fd)
      requires LimitsOk(limits) && fd in sockets && sockets[fd].tcb.Some? && sockets[fd].bound.Some?
      modifies `sockets, `outbound
      ensures sockets == old(sockets)[fd := Visit(old(sockets)[fd], limits, Retransmission).0]
      ensures outbound == old(outbound) + Visit(old(sockets)[fd], limits, Retransmission).1
    {
      var t, action := CountPass(sockets[fd].tcb.value, limits.retxThreshold, limits.retxMax);
      SetTcb(fd, t);
      if action == ResendHandshake {
        Emit(sockets[fd].bound.value.At(), t.peer,
             Segment(WrappingSub(t.sndUna, 1), if t.state == SynSent then 0 else t.rcvNxt,
                     NO_FLAGS.(syn := true, ack := t.state == SynReceived), DEFAULT_WINDOW, []));
      }
    }

    /** One socket of a sweep, if it is still there. */
    method VisitSocket(fd: Fd, sweep: Sweep)
      requires LimitsOk(limits)
      modifies `sockets, `outbound
      ensures sockets == Visited(old(sockets), fd, limits, sweep)
      ensures outbound == old(outbound) + VisitAt(old(sockets), fd, limits, sweep)
    {
      if fd !in sockets {
        return;
      }
      match sweep
      case Segmentation =>
        if Sends(sockets[fd]) {
          SegmentOneOf(fd);
        }
      case Retransmission =>
        if sockets[fd].tcb.Some? && sockets[fd].bound.Some? {
          CheckRetxOf(fd);
        }
    }

    static function Visited(sockets: map<Fd, Socket>, fd: Fd, lim: Limits, sweep: Sweep): map<Fd, Socket>
      requires LimitsOk(lim)
    {
      if fd in sockets then sockets[fd := Visit(sockets[fd], lim, sweep).0] else sockets
    }

    /** The sockets once those below `n` were visited. */
    static function SweptBelow(sockets: map<Fd, Socket>, n: nat, lim: Limits, sweep: Sweep): map<Fd, Socket>
      requires LimitsOk(lim)
    {
      map fd | fd in sockets :: if fd < n then Visit(sockets[fd], lim, sweep).0 else sockets[fd]
    }

    static lemma SweptNext(sockets: map<Fd, Socket>, n: nat, lim: Limits, sweep: Sweep)
      requires LimitsOk(lim)
      ensures SweptBelow(sockets, n + 1, lim, sweep) == Visited(SweptBelow(sockets, n, lim, sweep), n, lim, sweep)
      ensures VisitAt(SweptBelow(sockets, n, lim, sweep), n, lim, sweep) == VisitAt(sockets, n, lim, sweep)
    {
      var a, b := SweptBelow(sockets, n + 1, lim, sweep), Visited(SweptBelow(sockets, n, lim, sweep), n, lim, sweep);
      assert a.Keys == b.Keys;
      forall fd | fd in a ensures a[fd] == b[fd] {
      }
    }

    static lemma SweptEnds(sockets: map<Fd, Socket>, n: nat, lim: Limits, sweep: Sweep)
      requires LimitsOk(lim) && forall fd :: fd in sockets ==> fd < n
      ensures SweptBelow(sockets, 0, lim, sweep) == sockets
      ensures SweptBelow(sockets, n, lim, sweep) == SweepSockets(sockets, lim, sweep)
    {
    }

    /** A sweep from `start` has visited the sockets below `fd`. */
    ghost predicate SweptTo(fd: Fd, sweep: Sweep, start: map<Fd, Socket>, out: seq<Packet>)
      requires LimitsOk(limits)
      reads this
    {
      && sockets == SweptBelow(start, fd, limits, sweep)
      && outbound == out + SweepPackets(start, fd, limits, sweep)
    }

    static lemma Joined(a: seq<Packet>, b: seq<Packet>, c: seq<Packet>)
      ensures (a + b) + c == a + (b + c)
    {
    }

    method SweepStep(fd: Fd, sweep: Sweep, ghost start: map<Fd, Socket>, ghost out: seq<Packet>)
      requires LimitsOk(limits) && SweptTo(fd, sweep, start, out)
      modifies `sockets, `outbound
      ensures SweptTo(fd + 1, sweep, start, out)
    {
      SweptNext(start, fd, limits, sweep);
      VisitSocket(fd, sweep);
      Joined(out, SweepPackets(start, fd, limits, sweep), VisitAt(start, fd, limits, sweep));
    }

    /** `check_retx` and `segment_all`: one sweep over every socket, oldest first. */
    method SweepAll(sweep: Sweep)
      requires LimitsOk(limits) && forall fd :: fd in sockets ==> fd < nextId
      modifies `sockets, `outbound
      ensures Tab() == SweepTable(old(Tab()), limits, sweep)
      ensures outbound == old(outbound) + SweepPackets(old(sockets), nextId, limits, sweep)
    {
      ghost var start, out := sockets, outbound;
      var fd := 0;
      SweptEnds(start, nextId, limits, sweep);
      while fd < nextId
        invariant fd <= nextId && SweptTo(fd, sweep, start, out)
      {
        SweepStep(fd, sweep, start, out);
        fd := fd + 1;
      }
    }

    // ---- closing ----

    /** Children of a closing listener: queued ones, then those in handshake. */
    method CollectUnaccepted(l: Fd) returns (children: seq<Fd>)
      requires SocketTable.Listening(Tab(), l) && sockets[l].bound.Some?
      ensures children == Unaccepted(Tab(), l)
    {
      var at := sockets[l].bound.value;
      var wildcard := at.addr.Unspecified();
      children := sockets[l].listen.value.ready;
      var fd := 0;
      while fd < nextId
        invariant fd <= nextId
        invariant children == SocketTable.ReadyOf(Tab(), l) + UnfinishedBelow(Tab(), l, fd)
      {
        UnfinishedBelowExact(Tab(), l, fd, fd);
        if fd in sockets && fd != l && fd !in children
           && sockets[fd].tcb.Some? && sockets[fd].bound.Some? && sockets[fd].tcb.value.state == SynReceived
           && sockets[fd].bound.value.port == at.port && (wildcard || sockets[fd].bound.value.addr == at.addr)
        {
          children := children + [fd];
        }
        fd := fd + 1;
      }
    }

    /** Reset and remove the given sockets one by one. */
    method ResetAll(fds: seq<Fd>)
      requires SocketTable.NoDuplicates(fds)
      requires forall fd :: fd in fds ==> fd in sockets && sockets[fd].tcb.Some? && sockets[fd].bound.Some?
      modifies `sockets, `bindings, `connections, `outbound
      ensures Tab() == RemoveAll(old(Tab()), fds)
      ensures outbound == old(outbound) + Rsts(old(Tab()), fds)
    {
      var i := 0;
      while i < |fds|
        invariant i <= |fds|
        invariant Tab() == RemoveAll(old(Tab()), fds[..i])
        invariant outbound == old(outbound) + Rsts(old(Tab()), fds[..i])
      {
        var fd := fds[i];
        RemoveAllSockets(old(Tab()), fds[..i]);
        assert fds[..i + 1][..i] == fds[..i];
        var t := sockets[fd].tcb.value;
        Emit(sockets[fd].bound.value.At(), t.peer, Segment(t.sndNxt, t.rcvNxt, ACK.(rst := true), 0, []));
        RemoveSocket(fd);
        i := i + 1;
      }
      assert fds[..|fds|] == fds;
    }

    /** Close a listener: its unaccepted children are reset, and it goes. */
    method CloseListener(fd: Fd)
      requires Valid() && fd in handles && SocketTable.Listening(Tab(), fd)
      modifies `sockets, `bindings, `connections, `outbound, `handles
      ensures Valid() && handles == old(handles) - {fd}
      ensures Tab() == SocketTable.Remove(RemoveAll(old(Tab()), Unaccepted(old(Tab()), fd)), fd)
      ensures outbound == old(outbound) + Rsts(old(Tab()), Unaccepted(old(Tab()), fd))
    {
      ghost var T := Tab();
      CloseListenerKeeps(T, handles, fd);
      assert SocketTable.SocketOk(T, fd);
      ChildrenAreConnected(T, handles, fd);
      var children := CollectUnaccepted(fd);
      ResetAll(children);
      RemoveSocket(fd);
      handles := handles - {fd};
    }

    static lemma ChildrenAreConnected(T: Table, handles: set<Fd>, l: Fd)
      requires SocketTable.Coherent(T, handles) && SocketTable.Listening(T, l)
      ensures SocketTable.NoDuplicates(Unaccepted(T, l))
      ensures forall fd :: fd in Unaccepted(T, l) ==>
            fd in T.sockets && T.sockets[fd].tcb.Some? && T.sockets[fd].bound.Some?
    {
      UnacceptedExact(T, handles, l, l);
      forall fd | fd in Unaccepted(T, l)
          ensures fd in T.sockets && T.sockets[fd].tcb.Some? && T.sockets[fd].bound.Some? {
        UnacceptedExact(T, handles, l, fd);
        assert SocketTable.SocketOk(T, fd);
      }
    }

    /** A descriptor dropped on an open connection with nothing left to read:
        the block lingers behind its FIN. */
    method Linger(fd: Fd)
      requires Valid() && fd in handles && HasBlock(sockets, fd) && !Abandons(sockets[fd].tcb.value)
      modifies `sockets, `handles
      ensures Valid() && handles == old(handles) - {fd}
      ensures Tab() == SocketTable.SetSocket(old(Tab()), fd, LingeringSocket(old(sockets)[fd]))
    {
      var t := sockets[fd].tcb.value;
      LingerIsOk(Tab(), handles, fd);
      if !t.wrClosed {
        t := t.(finSeq := Some(WrappingAdd(t.sndUna, |t.sendBuf|)), wrClosed := true, state := AfterShutdown(t.state));
      }
      sockets := sockets[fd := sockets[fd].(fdClosed := true, tcb := Some(t))];
      handles := handles - {fd};
    }

    method RemoveHeld(fd: Fd)
      requires Valid() && fd in handles && !SocketTable.Listening(Tab(), fd)
      modifies `sockets, `bindings, `connections, `handles
      ensures Valid() && handles == old(handles) - {fd}
      ensures Tab() == SocketTable.Remove(old(Tab()), fd)
    {
      NotWaiting(Tab(), handles, fd);
      SocketTable.RemoveKeeps(Tab(), handles, fd);
      RemoveSocket(fd);
      handles := handles - {fd};
    }

    /** `close` of a descriptor: a listener goes with its children; unread bytes
        mean RST; an open connection lingers behind its FIN; all else goes. */
    method Close(fd: Fd)
      requires Valid() && (fd in sockets ==> fd in handles)
      modifies `sockets, `bindings, `connections, `outbound, `handles
      ensures Valid() && handles == old(handles) - {fd}
      ensures fd !in old(sockets) ==> Tab() == old(Tab()) && outbound == old(outbound)
      ensures fd in old(sockets) ==>
                Tab() == Drop(old(Tab()), fd).0 && outbound == old(outbound) + Drop(old(Tab()), fd).1
    {
      if fd !in sockets {
        return;
      }
      assert SocketTable.SocketOk(Tab(), fd);
      if sockets[fd].listen.Some? {
        CloseListener(fd);
        return;
      }
      if sockets[fd].tcb.Some? && !Abandons(sockets[fd].tcb.value) {
        var t := sockets[fd].tcb.value;
        if t.recvBuf == [] {
          Linger(fd);
          return;
        }
        Emit(sockets[fd].bound.value.At(), t.peer, Segment(t.sndNxt, t.rcvNxt, ACK.(rst := true), 0, []));
      }
      RemoveHeld(fd);
    }

    static function ReapedBelow(sockets: map<Fd, Socket>, n: nat): map<Fd, Socket> {
      map g | g in sockets && (g < n ==> !Reapable(sockets[g])) :: sockets[g]
    }

    static lemma ReapedNext(sockets: map<Fd, Socket>, n: nat)
      ensures ReapedBelow(sockets, n + 1) == if n in sockets && Reapable(sockets[n])
              then ReapedBelow(sockets, n) - {n} else ReapedBelow(sockets, n)
      ensures n in sockets ==> n in ReapedBelow(sockets, n)
    {
    }

    method ReapOne(fd: Fd)
      requires Valid()
      modifies `sockets, `bindings, `connections
      ensures Valid()
      ensures sockets == if fd in old(sockets) && Reapable(old(sockets)[fd]) then old(sockets) - {fd} else old(sockets)
      ensures Perform(old(Snapshot()), SetupOf(), Event.Reaped(fd)) == (Snapshot(), [])
    {
      if fd in sockets && Reapable(sockets[fd]) {
        ReapKeeps(Tab(), handles, fd);
        RemoveSocket(fd);
      }
    }

    method ReapTraced(fd: Fd, ghost from: Origin, ghost es: seq<Event>, ghost all: seq<Packet>)
        returns (ghost es': seq<Event>)
      requires Valid() && Traces(from, es, all)
      modifies `sockets, `bindings, `connections
      ensures Valid() && Traces(from, es', all)
      ensures sockets == if fd in old(sockets) && Reapable(old(sockets)[fd]) then old(sockets) - {fd} else old(sockets)
    {
      TracksNext(from.stack, SetupOf(), from.queue, es, addresses, Snapshot(), all, Event.Reaped(fd));
      NothingAdded(all);
      ReapOne(fd);
      es' := es + [Event.Reaped(fd)];
    }

    /** Sockets the shim has dropped and TCP has finished with go; no other does. */
    method ReapClosed(ghost from: Origin, ghost es: seq<Event>, ghost all: seq<Packet>) returns (ghost es': seq<Event>)
      requires Valid() && Traces(from, es, all)
      modifies `sockets, `bindings, `connections
      ensures Valid() && Traces(from, es', all)
      ensures sockets == map fd | fd in old(sockets) && !Reapable(old(sockets)[fd]) :: old(sockets)[fd]
    {
      SocketsAreNumbered(Tab());
      var fd := 0;
      es' := es;
      assert sockets == ReapedBelow(sockets, 0);
      while fd < nextId
        invariant fd <= nextId && Valid() && sockets == ReapedBelow(old(sockets), fd)
        invariant Traces(from, es', all)
      {
        ReapedNext(old(sockets), fd);
        es' := ReapTraced(fd, from, es', all);
        fd := fd + 1;
      }
    }

    // ---- the pump ----

    /** The kernel came here by itself, having had `all` in its queue. */
    ghost predicate Traces(from: Origin, es: seq<Event>, all: seq<Packet>)
      reads this
    {
      Tracks(from.stack, SetupOf(), from.queue, es, addresses, Snapshot(), all)
    }

    /** A queued packet for this host comes straight back. */
    method LoopBack(p: Packet, ghost from: Origin, ghost es: seq<Event>, ghost done: seq<Packet>)
        returns (ghost es': seq<Event>)
      requires Valid() && IsLocal(p.dst.ip) && p in done && Traces(from, es, done + outbound)
      modifies `nextId, `sockets, `bindings, `connections, `outbound, `tcpIsn
      ensures Valid() && Traces(from, es', done + outbound)
      ensures Weight(outbound) <= old(Weight(outbound)) + Rank(p)
      ensures TotalBacklog(sockets, nextId) <= old(TotalBacklog(sockets, nextId))
    {
      ghost var k, queue := Snapshot(), outbound;
      TracksNext(from.stack, SetupOf(), from.queue, es, addresses, k, done + queue, Arrived(p));
      ghost var (k', more) := Perform(k, SetupOf(), Arrived(p));
      ArrivalPerforms(k, SetupOf(), p);
      NothingAdded(queue);
      Deliver(p);
      assert Snapshot() == k' && outbound == queue + more;
      Joined(done, queue, more);
      es' := es + [Arrived(p)];
    }

    method PumpOne(p: Packet, out: seq<Packet>, ghost from: Origin, ghost es: seq<Event>, ghost done: seq<Packet>)
      returns (out': seq<Packet>, ghost es': seq<Event>)
      requires Valid() && p in done && Traces(from, es, done + outbound)
      modifies `nextId, `sockets, `bindings, `connections, `outbound, `tcpIsn
      ensures Valid() && Traces(from, es', done + outbound)
      ensures out' == out + (if IsLocal(p.dst.ip) then [] else [p])
      ensures Weight(outbound) <= old(Weight(outbound)) + Rank(p)
      ensures TotalBacklog(sockets, nextId) <= old(TotalBacklog(sockets, nextId))
    {
      out', es' := out, es;
      if IsLocal(p.dst.ip) {
        es' := LoopBack(p, from, es, done);
      } else {
        out' := out + [p];
      }
    }

    /** Hand local packets back to the stack, the rest to the fabric, in order. */
    method Pump(drained: seq<Packet>, out: seq<Packet>, ghost from: Origin, ghost es: seq<Event>,
        ghost done: seq<Packet>)
      returns (out': seq<Packet>, ghost es': seq<Event>)
      requires Valid() && outbound == [] && Traces(from, es, done + drained)
      modifies `nextId, `sockets, `bindings, `connections, `outbound, `tcpIsn
      ensures Valid() && Traces(from, es', (done + drained) + outbound)
      ensures out' == out + Away(drained, addresses)
      ensures drained != [] ==> Weight(outbound) < Weight(drained)
      ensures TotalBacklog(sockets, nextId) <= old(TotalBacklog(sockets, nextId))
    {
      out', es' := out, es;
      var rest := drained;
      ghost var all, handled := done + drained, [];
      assert all + [] == all && handled + rest == drained;
      while rest != []
        invariant Valid() && Traces(from, es', all + outbound)
        invariant handled + rest == drained && out' == out + Away(handled, addresses)
        invariant Weight(outbound) + Weight(rest) + |handled| <= Weight(drained)
        invariant TotalBacklog(sockets, nextId) <= old(TotalBacklog(sockets, nextId))
        decreases |rest|
      {
        PumpedOne(out, done, handled, rest, addresses);
        var p := rest[0];
        out', es' := PumpOne(p, out', from, es', all);
        handled, rest := handled + [p], rest[1..];
      }
      assert handled + [] == handled;
    }

    static lemma PumpedOne(out: seq<Packet>, done: seq<Packet>, handled: seq<Packet>, rest: seq<Packet>,
        addresses: seq<Ip>)
      requires rest != []
      ensures (handled + [rest[0]]) + rest[1..] == handled + rest && rest[0] in done + (handled + rest)
      ensures (out + Away(handled, addresses)) + (if LocalTo(addresses, rest[0].dst.ip) then [] else [rest[0]])
           == out + Away(handled + [rest[0]], addresses)
    {
      AwaySnoc(handled, rest[0], addresses);
      assert (handled + rest)[|handled|] == rest[0];
      assert rest[0] in handled + rest;
    }

    method SweepTraced(sweep: Sweep, ghost from: Origin, ghost es: seq<Event>, ghost done: seq<Packet>)
        returns (ghost es': seq<Event>)
      requires Valid() && Traces(from, es, done + outbound)
      modifies `sockets, `outbound
      ensures Valid() && Traces(from, es', done + outbound)
      ensures sweep == Segmentation ==> forall fd :: fd in sockets ==> Drained(sockets[fd])
      ensures sweep == Segmentation ==>
                && TotalBacklog(sockets, nextId) <= old(TotalBacklog(sockets, nextId))
                && (outbound != old(outbound) ==> TotalBacklog(sockets, nextId) < old(TotalBacklog(sockets, nextId)))
    {
      ghost var k, queue := Snapshot(), outbound;
      TracksNext(from.stack, SetupOf(), from.queue, es, addresses, k, done + queue, Swept(sweep));
      if sweep == Segmentation {
        SegmentEvery();
      } else {
        Retransmit();
      }
      Joined(done, queue, Perform(k, SetupOf(), Swept(sweep)).1);
      es' := es + [Swept(sweep)];
    }

    /** One round of egress: segment, and pump what is in the queue. */
    method Round(out: seq<Packet>, ghost from: Origin, ghost es: seq<Event>, ghost done: seq<Packet>)
      returns (out': seq<Packet>, drained: seq<Packet>, ghost es': seq<Event>)
      requires Valid() && Traces(from, es, done + outbound)
      modifies `nextId, `sockets, `bindings, `connections, `outbound, `tcpIsn
      ensures Valid() && Traces(from, es', (done + drained) + outbound)
      ensures out' == out + Away(drained, addresses)
      ensures drained == [] ==> outbound == [] && forall fd :: fd in sockets ==> Drained(sockets[fd])
      ensures drained != [] ==>
                || TotalBacklog(sockets, nextId) < old(TotalBacklog(sockets, nextId))
                || (TotalBacklog(sockets, nextId) == old(TotalBacklog(sockets, nextId))
                    && Weight(outbound) < old(Weight(outbound)))
    {
      es' := SweepTraced(Segmentation, from, es, done);
      out', drained := out, outbound;
      assert done + [] == done;
      if drained != [] {
        outbound := [];
        out', es' := Pump(drained, out, from, es', done);
      }
    }

    static lemma HandedOut(out: seq<Packet>, done: seq<Packet>, drained: seq<Packet>, addresses: seq<Ip>)
      ensures (out + Away(done, addresses)) + Away(drained, addresses) == out + Away(done + drained, addresses)
    {
      AwayAppend(done, drained, addresses);
    }

    /** Round after round, until the queue stays empty: it always does in the
        end. */
    method PumpDry(out: seq<Packet>, ghost from: Origin, ghost es: seq<Event>)
      returns (out': seq<Packet>, ghost es': seq<Event>, ghost all: seq<Packet>)
      requires Valid() && Traces(from, es, outbound)
      modifies `nextId, `sockets, `bindings, `connections, `outbound, `tcpIsn
      ensures Valid() && outbound == [] && Traces(from, es', all)
      ensures out' == out + Away(all, addresses)
      ensures forall fd :: fd in sockets ==> Drained(sockets[fd])
    {
      out', es', all := out, es, [];
      assert [] + outbound == outbound;
      var drained := outbound;
      while true
        invariant Valid() && Traces(from, es', all + outbound)
        invariant out' == out + Away(all, addresses)
        decreases TotalBacklog(sockets, nextId), Weight(outbound)
      {
        out', drained, es' := Round(out', from, es', all);
        HandedOut(out, all, drained, addresses);
        all := all + drained;
        if drained == [] {
          break;
        }
      }
      assert all + [] == all;
    }

    /** `egress`: always ends, with the queue empty and everything the windows
        admit on the wire. What it did is a sequence of sweeps, deliveries of
        its own packets to itself, and reapings; of all packets that were
        queued before or on the way, `all`, exactly those for other hosts are
        handed out, in order. */
    method Egress(out: seq<Packet>) returns (out': seq<Packet>, ghost es: seq<Event>, ghost all: seq<Packet>)
      requires Valid()
      modifies `nextId, `sockets, `bindings, `connections, `outbound, `tcpIsn
      ensures Valid() && outbound == []
      ensures Traces(Origin(old(Snapshot()), old(outbound)), es, all)
      ensures out' == out + Away(all, addresses)
      ensures forall fd :: fd in sockets ==> Drained(sockets[fd]) && !Reapable(sockets[fd])
    {
      ghost var from := Origin(Snapshot(), outbound);
      TracksStart(from.stack, SetupOf(), from.queue, addresses);
      assert [] + outbound == outbound;
      es := SweepTraced(Retransmission, from, [], []);
      assert [] + outbound == outbound;
      out', es, all := PumpDry(out, from, es);
      es := ReapClosed(from, es, all);
    }

    // ---- every event is one of these methods ----

    method HandleSocket(e: Event)
      requires Valid() && Able(Snapshot(), e) && (e.Opened? || e.Bound? || e.Listened?)
      modifies this
      ensures Valid() && addresses == old(addresses)
      ensures Perform(old(Snapshot()), SetupOf(), e).0 == Snapshot()
      ensures outbound == old(outbound) + Perform(old(Snapshot()), SetupOf(), e).1
    {
      Silent(Snapshot(), SetupOf(), e);
      NothingAdded(outbound);
      match e
      case Opened(domain, ty) => var _ := Open(domain, ty);
      case Bound(key) => var _ := BindNew(key);
      case Listened(fd, backlog) => var _ := Listen(fd, backlog);
    }

    method HandleConnect(e: Event)
      requires Valid() && Able(Snapshot(), e) && e.Connected?
      modifies this
      ensures Valid() && addresses == old(addresses)
      ensures Perform(old(Snapshot()), SetupOf(), e).0 == Snapshot()
      ensures outbound == old(outbound) + Perform(old(Snapshot()), SetupOf(), e).1
    {
      StartConnect(e.fd, e.src, e.peer);
    }

    method HandleAccept(e: Event)
      requires Valid() && Able(Snapshot(), e) && e.Accepted?
      modifies this
      ensures Valid() && addresses == old(addresses)
      ensures Perform(old(Snapshot()), SetupOf(), e).0 == Snapshot()
      ensures outbound == old(outbound) + Perform(old(Snapshot()), SetupOf(), e).1
    {
      Silent(Snapshot(), SetupOf(), e);
      NothingAdded(outbound);
      var _ := PollAccept(e.fd);
    }

    method HandleWrite(e: Event)
      requires Valid() && Able(Snapshot(), e) && (e.Wrote? || e.ShutDown?)
      modifies this
      ensures Valid() && addresses == old(addresses)
      ensures Perform(old(Snapshot()), SetupOf(), e).0 == Snapshot()
      ensures outbound == old(outbound) + Perform(old(Snapshot()), SetupOf(), e).1
    {
      Silent(Snapshot(), SetupOf(), e);
      NothingAdded(outbound);
      match e
      case Wrote(fd, buf) => var _ := PollSend(fd, buf);
      case ShutDown(fd) => var _ := PollShutdownWrite(fd);
    }

    method HandleRead(e: Event)
      requires Valid() && Able(Snapshot(), e) && e.Received?
      modifies this
      ensures Valid() && addresses == old(addresses)
      ensures Perform(old(Snapshot()), SetupOf(), e).0 == Snapshot()
      ensures outbound == old(outbound) + Perform(old(Snapshot()), SetupOf(), e).1
    {
      var _ := PollRecvVectored(e.fd, e.lens);
    }

    method HandleClose(e: Event)
      requires Valid() && Able(Snapshot(), e) && e.Dropped?
      modifies this
      ensures Valid() && addresses == old(addresses)
      ensures Perform(old(Snapshot()), SetupOf(), e).0 == Snapshot()
      ensures outbound == old(outbound) + Perform(old(Snapshot()), SetupOf(), e).1
    {
      Close(e.fd);
    }

    /** What an application or the fabric does to the kernel is what the event
        does to its value. */
    method Handle(e: Event)
      requires Valid() && Able(Snapshot(), e)
      modifies this
      ensures Valid() && addresses == old(addresses)
      ensures Perform(old(Snapshot()), SetupOf(), e).0 == Snapshot()
      ensures outbound == old(outbound) + Perform(old(Snapshot()), SetupOf(), e).1
    {
      NothingAdded(outbound);
      if e.Wrote? || e.ShutDown? {
        HandleWrite(e);
      } else if e.Received? {
        HandleRead(e);
      } else if e.Dropped? {
        HandleClose(e);
      } else if e.Connected? {
        HandleConnect(e);
      } else if e.Accepted? {
        HandleAccept(e);
      } else if e.Swept? {
        if e.sweep == Segmentation { SegmentEvery(); } else { Retransmit(); }
      } else if e.Arrived? {
        Deliver(e.packet);
      } else if e.Reaped? {
        ReapOne(e.fd);
      } else {
        HandleSocket(e);
      }
    }

    method Retransmit()
      requires Valid()
      modifies `sockets, `outbound
      ensures Valid() && sockets == SweepSockets(old(sockets), limits, Retransmission)
      ensures outbound == old(outbound) + SweepPackets(old(sockets), nextId, limits, Retransmission)
    {
      SweepKeeps(Tab(), handles, limits, Retransmission);
      SocketsAreNumbered(Tab());
      SweepAll(Retransmission);
    }

    static lemma SocketsAreNumbered(T: Table)
      requires SocketTable.IndicesAgree(T)
      ensures forall fd :: fd in T.sockets ==> fd < T.nextId
    {
      forall fd | fd in T.sockets ensures fd < T.nextId {
        assert SocketTable.SocketOk(T, fd);
      }
    }

    /** After segmentation nothing more can be sent; if it emitted anything,
        less is left to send. */
    method SegmentEvery()
      requires Valid()
      modifies `sockets, `outbound
      ensures Valid()
      ensures forall fd :: fd in sockets ==> Drained(sockets[fd])
      ensures sockets == SweepSockets(old(sockets), limits, Segmentation)
      ensures outbound == old(outbound) + SweepPackets(old(sockets), nextId, limits, Segmentation)
      ensures TotalBacklog(sockets, nextId) <= old(TotalBacklog(sockets, nextId))
      ensures outbound != old(outbound) ==> TotalBacklog(sockets, nextId) < old(TotalBacklog(sockets, nextId))
    {
      SweepKeeps(Tab(), handles, limits, Segmentation);
      SocketsAreNumbered(Tab());
      SegmentationProgress(sockets, nextId, limits);
      SweepAll(Segmentation);
      forall fd | fd in sockets ensures Drained(sockets[fd]) {
        SegmentationDrains(old(sockets)[fd], limits);
      }
    }
  }
}
