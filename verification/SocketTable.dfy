/** The per-host socket table: the socket map and its two reverse indices. */
module SocketTable {
  import opened Common
  import opened Addresses
  import opened TcbSpec

  type Fd = nat

  datatype SocketType = Stream | Dgram

  datatype BindKey = BindKey(domain: Domain, ty: SocketType, addr: Ip, port: nat) {
    function At(): Endpoint { Endpoint(addr, port) }
  }

  datatype ListenState = ListenState(backlog: nat, ready: seq<Fd>)

  datatype Socket = Socket(
    domain: Domain,
    ty: SocketType,
    bound: Option<BindKey>,
    tcb: Option<Tcb>,
    listen: Option<ListenState>,
    fdClosed: bool)

  function NewSocket(domain: Domain, ty: SocketType): Socket {
    Socket(domain, ty, None, None, None, false)
  }

  /** `next_id`, the sockets, bound tuple to sockets, and 4-tuple to socket.
      Ids only grow, so insertion order is id order. */
  datatype Table = Table(
    nextId: Fd,
    sockets: map<Fd, Socket>,
    bindings: map<BindKey, seq<Fd>>,
    connections: map<(Endpoint, Endpoint), Fd>)

  // ---- operations ----

  function Without(fds: seq<Fd>, fd: Fd): seq<Fd> {
    if fds == [] then []
    else if fds[0] == fd then Without(fds[1..], fd)
    else [fds[0]] + Without(fds[1..], fd)
  }

  /** Remove a socket and everything that points at it. */
  function Remove(T: Table, fd: Fd): Table {
    T.(sockets := T.sockets - {fd},
       bindings := map key | key in T.bindings && Without(T.bindings[key], fd) != []
                     :: Without(T.bindings[key], fd),
       connections := map c | c in T.connections && T.connections[c] != fd :: T.connections[c])
  }

  function BoundAt(T: Table, key: BindKey): seq<Fd> {
    if key in T.bindings then T.bindings[key] else []
  }

  function InsertBinding(T: Table, key: BindKey, fd: Fd): Table {
    T.(bindings := T.bindings[key := BoundAt(T, key) + [fd]])
  }

  function SetSocket(T: Table, fd: Fd, s: Socket): Table {
    T.(sockets := T.sockets[fd := s])
  }

  function SetTcb(T: Table, fd: Fd, t: Tcb): Table
    requires fd in T.sockets
  {
    SetSocket(T, fd, T.sockets[fd].(tcb := Some(t)))
  }

  // ---- coherence ----

  predicate NoDuplicates(s: seq<Fd>) {
    forall i, j :: 0 <= i < j < |s| ==> s[i] != s[j]
  }

  predicate TcbOk(t: Tcb) {
    SendSideOk(t) && (Aborted(t) ==> t.state == Closed)
  }

  predicate BindingOk(T: Table, key: BindKey)
    requires key in T.bindings
  {
    var fds := T.bindings[key];
    && fds != []
    && NoDuplicates(fds)
    && forall fd :: fd in fds ==> fd in T.sockets && T.sockets[fd].bound == Some(key)
  }

  /** The socket is found through both indices. */
  predicate SocketOk(T: Table, fd: Fd)
    requires fd in T.sockets
  {
    var s := T.sockets[fd];
    && fd < T.nextId
    && (s.bound.Some? ==>
          && s.bound.value.domain == s.domain == s.bound.value.addr.Family()
          && s.bound.value.ty == s.ty
          && s.bound.value in T.bindings && fd in T.bindings[s.bound.value])
    && (s.tcb.Some? ==>
          && s.bound.Some? && s.bound.value.ty == Stream && !s.bound.value.addr.Unspecified()
          && s.listen.None?
          && TcbOk(s.tcb.value)
          && Indexed(T, fd, s.bound.value.At(), s.tcb.value.peer))
    && (s.listen.Some? ==> s.bound.Some? && s.bound.value.ty == Stream && s.tcb.None?)
  }

  predicate Indexed(T: Table, fd: Fd, local: Endpoint, remote: Endpoint) {
    (local, remote) in T.connections && T.connections[(local, remote)] == fd
  }

  /** What a linear scan for the connection's socket looks for. */
  predicate IsConnection(T: Table, fd: Fd, local: Endpoint, remote: Endpoint) {
    && fd in T.sockets
    && T.sockets[fd].bound.Some? && T.sockets[fd].bound.value.At() == local
    && T.sockets[fd].tcb.Some? && T.sockets[fd].tcb.value.peer == remote
  }

  predicate Listening(T: Table, fd: Fd) {
    fd in T.sockets && T.sockets[fd].listen.Some?
  }

  function ReadyOf(T: Table, l: Fd): seq<Fd>
    requires Listening(T, l)
  {
    T.sockets[l].listen.value.ready
  }

  predicate InHandshake(T: Table, fd: Fd) {
    fd in T.sockets && T.sockets[fd].tcb.Some? && T.sockets[fd].tcb.value.state == SynReceived
  }

  /** A finished handshake that no application has been given. */
  predicate Waiting(T: Table, handles: set<Fd>, fd: Fd) {
    && fd in T.sockets && T.sockets[fd].tcb.Some?
    && !InHandshake(T, fd) && fd !in handles && !T.sockets[fd].fdClosed
  }

  predicate Queued(T: Table, l: Fd, fd: Fd) {
    Listening(T, l) && fd in ReadyOf(T, l)
  }

  /** Bound sockets that are neither clients nor children: at most one a key. */
  predicate Owns(T: Table, fd: Fd, key: BindKey) {
    fd in T.sockets && T.sockets[fd].bound == Some(key) && T.sockets[fd].tcb.None?
  }

  ghost predicate IndicesAgree(T: Table) {
    && (forall fd :: fd in T.sockets ==> SocketOk(T, fd))
    && (forall key :: key in T.bindings ==> BindingOk(T, key))
    && (forall c :: c in T.connections ==> IsConnection(T, T.connections[c], c.0, c.1))
    && (forall f, g, key :: Owns(T, f, key) && Owns(T, g, key) ==> f == g)
  }

  ghost predicate QueuesAgree(T: Table, handles: set<Fd>) {
    && (forall l :: Listening(T, l) ==> NoDuplicates(ReadyOf(T, l)))
    && (forall l, fd :: Queued(T, l, fd) ==> Waiting(T, handles, fd))
    && (forall l, m, fd :: Queued(T, l, fd) && Queued(T, m, fd) ==> l == m)
    && (forall fd :: fd in handles ==> fd in T.sockets && !T.sockets[fd].fdClosed && !InHandshake(T, fd))
    && (forall fd :: InHandshake(T, fd) ==> !T.sockets[fd].fdClosed)
  }

  /** Handshaking children on an endpoint. */
  function Children(T: Table, at: Endpoint): set<Fd> {
    set fd | fd in T.sockets && InHandshake(T, fd)
             && T.sockets[fd].bound.Some? && T.sockets[fd].bound.value.At() == at
  }

  predicate WithinBacklog(T: Table, l: Fd)
    requires Listening(T, l) && T.sockets[l].bound.Some?
  {
    |Children(T, T.sockets[l].bound.value.At())| + |ReadyOf(T, l)| <= T.sockets[l].listen.value.backlog
  }

  /** A listener on a concrete address. */
  predicate Counts(T: Table, l: Fd) {
    Listening(T, l) && T.sockets[l].bound.Some? && !T.sockets[l].bound.value.addr.Unspecified()
  }

  ghost predicate BacklogsHold(T: Table) {
    forall l :: Counts(T, l) ==> WithinBacklog(T, l)
  }

  /** What holds between any two kernel operations; `handles` are the
      descriptors that applications hold. */
  ghost predicate Coherent(T: Table, handles: set<Fd>) {
    IndicesAgree(T) && QueuesAgree(T, handles) && BacklogsHold(T)
  }

  /** The 4-tuple index finds exactly the socket that a linear scan by bound
      endpoint and peer would. */
  lemma FindConnectionIsLinearScan(T: Table, fd: Fd, local: Endpoint, remote: Endpoint)
    requires IndicesAgree(T)
    ensures Indexed(T, fd, local, remote) <==> IsConnection(T, fd, local, remote)
  {
    if IsConnection(T, fd, local, remote) {
      assert SocketOk(T, fd);
    }
  }

  /** The bind index lists exactly the sockets bound to a key, once each. */
  lemma FindByBindIsLinearScan(T: Table, fd: Fd, key: BindKey)
    requires IndicesAgree(T)
    ensures fd in BoundAt(T, key) <==> fd in T.sockets && T.sockets[fd].bound == Some(key)
    ensures NoDuplicates(BoundAt(T, key))
  {
    if key in T.bindings {
      assert BindingOk(T, key);
    }
    if fd in T.sockets && T.sockets[fd].bound == Some(key) {
      assert SocketOk(T, fd);
    }
  }

  // ---- each change keeps it ----

  lemma WithoutExact(fds: seq<Fd>, fd: Fd, other: Fd)
    ensures other in Without(fds, fd) <==> other in fds && other != fd
  {
  }

  lemma {:induction false} WithoutKeepsDistinct(fds: seq<Fd>, fd: Fd)
    requires NoDuplicates(fds)
    ensures NoDuplicates(Without(fds, fd))
  {
    if fds != [] {
      WithoutKeepsDistinct(fds[1..], fd);
      WithoutExact(fds[1..], fd, fds[0]);
      var rest := Without(fds[1..], fd);
      assert fds[0] !in fds[1..];
      assert NoDuplicates(rest);
      if fds[0] != fd {
        assert NoDuplicates([fds[0]] + rest);
      }
    }
  }

  lemma CardinalityMonotone(a: set<Fd>, b: set<Fd>)
    requires a <= b
    ensures |a| <= |b|
  {
    assert b == a + (b - a);
  }

  /** Nothing that the indices depend on differs. */
  ghost predicate SameShape(T: Table, T': Table) {
    && T'.nextId == T.nextId && T'.bindings == T.bindings && T'.connections == T.connections
    && T'.sockets.Keys == T.sockets.Keys
    && forall fd :: fd in T.sockets ==> SameSocketShape(T.sockets[fd], T'.sockets[fd])
  }

  predicate SameSocketShape(s: Socket, s': Socket) {
    && s'.bound == s.bound && s'.domain == s.domain && s'.ty == s.ty
    && (s'.tcb.Some? <==> s.tcb.Some?)
    && (s.tcb.Some? ==> s'.tcb.value.peer == s.tcb.value.peer && TcbOk(s'.tcb.value))
    && (s'.listen.Some? <==> s.listen.Some?)
  }

  lemma ShapeKeepsIndices(T: Table, T': Table)
    requires IndicesAgree(T) && SameShape(T, T')
    ensures IndicesAgree(T')
  {
    forall fd | fd in T'.sockets ensures SocketOk(T', fd) { assert SocketOk(T, fd); }
    forall key | key in T'.bindings ensures BindingOk(T', key) { assert BindingOk(T, key); }
    forall f, g, key | Owns(T', f, key) && Owns(T', g, key) ensures f == g {
      assert Owns(T, f, key) && Owns(T, g, key);
    }
  }

  /** The listeners keep their queues, and no child is added. */
  lemma QuietKeepsBacklogs(T: Table, T': Table)
    requires BacklogsHold(T) && SameShape(T, T')
    requires forall l :: Listening(T, l) ==> T'.sockets[l].listen == T.sockets[l].listen
    requires forall fd :: InHandshake(T', fd) ==> InHandshake(T, fd)
    ensures BacklogsHold(T')
  {
    forall l | Counts(T', l) ensures WithinBacklog(T', l) {
      assert Counts(T, l) && WithinBacklog(T, l);
      var at := T.sockets[l].bound.value.At();
      CardinalityMonotone(Children(T', at), Children(T, at));
    }
  }

  lemma QuietKeepsQueues(T: Table, T': Table, handles: set<Fd>)
    requires QueuesAgree(T, handles) && SameShape(T, T')
    requires forall l :: Listening(T, l) ==> T'.sockets[l].listen == T.sockets[l].listen
    requires forall fd :: InHandshake(T', fd) ==> InHandshake(T, fd)
    requires forall fd :: fd in T.sockets ==> T'.sockets[fd].fdClosed == T.sockets[fd].fdClosed
    ensures QueuesAgree(T', handles)
  {
    forall l, fd | Queued(T', l, fd) ensures Queued(T, l, fd) && Waiting(T', handles, fd) {
      assert Queued(T, l, fd) && Waiting(T, handles, fd);
    }
  }

  /** A new block for the same peer, no closer to the handshake than before. */
  lemma SetTcbKeeps(T: Table, handles: set<Fd>, fd: Fd, t: Tcb)
    requires Coherent(T, handles) && fd in T.sockets && T.sockets[fd].tcb.Some?
    requires TcbOk(t) && t.peer == T.sockets[fd].tcb.value.peer
    requires t.state == SynReceived ==> InHandshake(T, fd)
    ensures Coherent(SetTcb(T, fd, t), handles)
  {
    var T' := SetTcb(T, fd, t);
    SetTcbShape(T, fd, t);
    assert SocketOk(T, fd);
    assert forall g :: InHandshake(T', g) ==> InHandshake(T, g);
    ShapeKeepsIndices(T, T');
    QuietKeepsQueues(T, T', handles);
    QuietKeepsBacklogs(T, T');
  }

  lemma SetTcbShape(T: Table, fd: Fd, t: Tcb)
    requires IndicesAgree(T) && fd in T.sockets && T.sockets[fd].tcb.Some?
    requires TcbOk(t) && t.peer == T.sockets[fd].tcb.value.peer
    ensures SameShape(T, SetTcb(T, fd, t))
  {
    var T' := SetTcb(T, fd, t);
    forall g | g in T.sockets ensures SameSocketShape(T.sockets[g], T'.sockets[g]) { assert SocketOk(T, g); }
  }

  // ---- the accept queue ----

  function SetReady(T: Table, l: Fd, ready: seq<Fd>): Table
    requires Listening(T, l)
  {
    var s := T.sockets[l];
    SetSocket(T, l, s.(listen := Some(s.listen.value.(ready := ready))))
  }

  lemma SetReadyShape(T: Table, l: Fd, ready: seq<Fd>)
    requires IndicesAgree(T) && Listening(T, l)
    ensures SameShape(T, SetReady(T, l, ready))
  {
    var T' := SetReady(T, l, ready);
    forall g | g in T.sockets ensures SameSocketShape(T.sockets[g], T'.sockets[g]) { assert SocketOk(T, g); }
  }

  /** A listener for connections on `at`: of its family and on its port, on the
      address itself or on the wildcard. */
  predicate Serves(T: Table, l: Fd, at: Endpoint) {
    && Listening(T, l) && T.sockets[l].bound.Some?
    && T.sockets[l].bound.value.domain == at.ip.Family() && T.sockets[l].bound.value.port == at.port
    && (T.sockets[l].bound.value.addr.Unspecified() || T.sockets[l].bound.value.addr == at.ip)
  }

  function Promote(T: Table, fd: Fd, t: Tcb, l: Fd): Table
    requires fd in T.sockets && Listening(T, l) && fd != l
  {
    var T1 := SetTcb(T, fd, t);
    SetReady(T1, l, ReadyOf(T1, l) + [fd])
  }

  lemma PromoteKeepsQueues(T: Table, handles: set<Fd>, fd: Fd, t: Tcb, l: Fd)
    requires QueuesAgree(T, handles) && InHandshake(T, fd) && Listening(T, l) && fd != l
    requires T.sockets[fd].listen.None? && T.sockets[l].tcb.None?
    requires t.state != SynReceived
    ensures QueuesAgree(Promote(T, fd, t, l), handles)
  {
    var T' := Promote(T, fd, t, l);
    assert forall m :: !Queued(T, m, fd);
    forall m, g | Queued(T', m, g)
      ensures Queued(T, m, g) || (m == l && g == fd)
      ensures Waiting(T', handles, g)
    {
      if g != fd { assert Queued(T, m, g) && Waiting(T, handles, g); }
    }
    assert forall m :: Listening(T', m) ==> Listening(T, m);
    assert !Queued(T, l, fd);
  }

  lemma PromoteKeepsBacklogs(T: Table, fd: Fd, t: Tcb, l: Fd)
    requires BacklogsHold(T) && InHandshake(T, fd) && fd != l
    requires T.sockets[fd].bound.Some? && Serves(T, l, T.sockets[fd].bound.value.At())
    requires t.state != SynReceived && T.sockets[l].tcb.None?
    ensures BacklogsHold(Promote(T, fd, t, l))
  {
    var T' := Promote(T, fd, t, l);
    forall m | Counts(T', m) ensures WithinBacklog(T', m) {
      assert Counts(T, m) && WithinBacklog(T, m);
      var at := T.sockets[m].bound.value.At();
      assert Children(T', at) <= Children(T, at);
      CardinalityMonotone(Children(T', at), Children(T, at));
      if m == l {
        assert fd in Children(T, at);
        assert Children(T', at) == Children(T, at) - {fd};
      }
    }
  }

  /** The last ACK of a handshake moves a child from the handshake count to
      the accept queue of the listener that serves its endpoint. */
  lemma PromoteKeeps(T: Table, handles: set<Fd>, fd: Fd, t: Tcb, l: Fd)
    requires Coherent(T, handles) && InHandshake(T, fd) && fd != l
    requires T.sockets[fd].bound.Some? && Serves(T, l, T.sockets[fd].bound.value.At())
    requires TcbOk(t) && t.peer == T.sockets[fd].tcb.value.peer && t.state != SynReceived
    ensures Coherent(Promote(T, fd, t, l), handles)
  {
    assert SocketOk(T, fd) && SocketOk(T, l);
    var T1 := SetTcb(T, fd, t);
    SetTcbShape(T, fd, t);
    ShapeKeepsIndices(T, T1);
    SetReadyShape(T1, l, ReadyOf(T1, l) + [fd]);
    ShapeKeepsIndices(T1, Promote(T, fd, t, l));
    PromoteKeepsQueues(T, handles, fd, t, l);
    PromoteKeepsBacklogs(T, fd, t, l);
  }

  lemma AcceptKeepsQueues(T: Table, handles: set<Fd>, l: Fd)
    requires QueuesAgree(T, handles) && Listening(T, l) && ReadyOf(T, l) != []
    ensures QueuesAgree(SetReady(T, l, ReadyOf(T, l)[1..]), handles + {ReadyOf(T, l)[0]})
  {
    var ready := ReadyOf(T, l);
    var T' := SetReady(T, l, ready[1..]);
    assert Queued(T, l, ready[0]) && Waiting(T, handles, ready[0]);
    forall m, g | Queued(T', m, g)
      ensures Queued(T, m, g) && Waiting(T', handles + {ready[0]}, g)
    {
      assert Queued(T, m, g) && Waiting(T, handles, g);
    }
    assert forall m :: Listening(T', m) ==> Listening(T, m);
  }

  lemma AcceptKeepsBacklogs(T: Table, l: Fd)
    requires BacklogsHold(T) && Listening(T, l) && ReadyOf(T, l) != []
    ensures BacklogsHold(SetReady(T, l, ReadyOf(T, l)[1..]))
  {
    var T' := SetReady(T, l, ReadyOf(T, l)[1..]);
    forall m | Counts(T', m) ensures WithinBacklog(T', m) {
      assert Counts(T, m) && WithinBacklog(T, m);
      var at := T.sockets[m].bound.value.At();
      assert Children(T', at) == Children(T, at);
    }
  }

  /** `accept` hands the oldest waiting child to the application. */
  lemma AcceptKeeps(T: Table, handles: set<Fd>, l: Fd)
    requires Coherent(T, handles) && Listening(T, l) && ReadyOf(T, l) != []
    ensures Coherent(SetReady(T, l, ReadyOf(T, l)[1..]), handles + {ReadyOf(T, l)[0]})
  {
    SetReadyShape(T, l, ReadyOf(T, l)[1..]);
    ShapeKeepsIndices(T, SetReady(T, l, ReadyOf(T, l)[1..]));
    AcceptKeepsQueues(T, handles, l);
    AcceptKeepsBacklogs(T, l);
  }

  /** A descriptor dropped while its connection lingers. */
  lemma LingerKeeps(T: Table, handles: set<Fd>, fd: Fd, t: Tcb)
    requires Coherent(T, handles) && fd in handles && T.sockets[fd].tcb.Some?
    requires TcbOk(t) && t.peer == T.sockets[fd].tcb.value.peer && t.state != SynReceived
    ensures Coherent(SetSocket(T, fd, T.sockets[fd].(tcb := Some(t), fdClosed := true)), handles - {fd})
  {
    var T' := SetSocket(T, fd, T.sockets[fd].(tcb := Some(t), fdClosed := true));
    assert SocketOk(T, fd);
    forall g | g in T.sockets ensures SameSocketShape(T.sockets[g], T'.sockets[g]) { assert SocketOk(T, g); }
    ShapeKeepsIndices(T, T');
    LingerKeepsQueues(T, handles, fd, t);
    QuietKeepsBacklogs(T, T');
  }

  lemma LingerKeepsQueues(T: Table, handles: set<Fd>, fd: Fd, t: Tcb)
    requires QueuesAgree(T, handles) && fd in handles && fd in T.sockets && T.sockets[fd].tcb.Some?
             && T.sockets[fd].listen.None?
    requires t.state != SynReceived
    ensures QueuesAgree(SetSocket(T, fd, T.sockets[fd].(tcb := Some(t), fdClosed := true)), handles - {fd})
  {
    var T' := SetSocket(T, fd, T.sockets[fd].(tcb := Some(t), fdClosed := true));
    assert forall m :: Listening(T', m) ==> Listening(T, m);
    forall m, g | Queued(T', m, g) ensures Queued(T, m, g) && Waiting(T', handles - {fd}, g) {
      assert Queued(T, m, g) && Waiting(T, handles, g);
    }
  }

  // ---- sockets that come and go ----

  lemma RemoveKeepsBinding(T: Table, fd: Fd, key: BindKey)
    requires key in T.bindings && BindingOk(T, key) && key in Remove(T, fd).bindings
    ensures BindingOk(Remove(T, fd), key)
  {
    var T' := Remove(T, fd);
    WithoutKeepsDistinct(T.bindings[key], fd);
    forall g | g in T'.bindings[key] ensures g in T'.sockets && T'.sockets[g].bound == Some(key) {
      WithoutExact(T.bindings[key], fd, g);
    }
  }

  lemma RemoveKeepsIndices(T: Table, fd: Fd)
    requires IndicesAgree(T)
    ensures IndicesAgree(Remove(T, fd))
  {
    var T' := Remove(T, fd);
    forall g | g in T'.sockets ensures SocketOk(T', g) {
      assert SocketOk(T, g);
      if T.sockets[g].bound.Some? {
        WithoutExact(T.bindings[T.sockets[g].bound.value], fd, g);
      }
    }
    forall key | key in T'.bindings ensures BindingOk(T', key) { RemoveKeepsBinding(T, fd, key); }
    forall f, g, key | Owns(T', f, key) && Owns(T', g, key) ensures f == g {
      assert Owns(T, f, key) && Owns(T, g, key);
    }
  }

  lemma RemoveKeepsQueues(T: Table, handles: set<Fd>, fd: Fd)
    requires QueuesAgree(T, handles)
    requires forall l :: Queued(T, l, fd) ==> l == fd
    ensures QueuesAgree(Remove(T, fd), handles - {fd})
  {
    var T' := Remove(T, fd);
    forall m, g | Queued(T', m, g) ensures Queued(T, m, g) && Waiting(T', handles - {fd}, g) {
      assert Queued(T, m, g) && Waiting(T, handles, g);
    }
    assert forall m :: Listening(T', m) ==> Listening(T, m);
  }

  lemma RemoveKeepsBacklogs(T: Table, fd: Fd)
    requires BacklogsHold(T)
    ensures BacklogsHold(Remove(T, fd))
  {
    var T' := Remove(T, fd);
    forall l | Counts(T', l) ensures WithinBacklog(T', l) {
      assert Counts(T, l) && WithinBacklog(T, l);
      var at := T.sockets[l].bound.value.At();
      CardinalityMonotone(Children(T', at), Children(T, at));
    }
  }

  /** Removing a socket that no other listener has queued leaves no trace of it. */
  lemma RemoveKeeps(T: Table, handles: set<Fd>, fd: Fd)
    requires Coherent(T, handles)
    requires forall l :: Queued(T, l, fd) ==> l == fd
    ensures Coherent(Remove(T, fd), handles - {fd})
  {
    RemoveKeepsIndices(T, fd);
    RemoveKeepsQueues(T, handles, fd);
    RemoveKeepsBacklogs(T, fd);
  }

  /** A listener that has stopped listening: its children wait on nobody. */
  function StopListening(T: Table, l: Fd): Table
    requires l in T.sockets
  {
    SetSocket(T, l, T.sockets[l].(listen := None))
  }

  /** Starting or stopping to listen is invisible to the indices. */
  lemma ListenFlagKeepsIndices(T: Table, l: Fd, listen: Option<ListenState>)
    requires IndicesAgree(T) && l in T.sockets && T.sockets[l].tcb.None?
    requires listen.Some? ==> T.sockets[l].bound.Some? && T.sockets[l].bound.value.ty == Stream
    ensures IndicesAgree(SetSocket(T, l, T.sockets[l].(listen := listen)))
  {
    var T' := SetSocket(T, l, T.sockets[l].(listen := listen));
    forall g | g in T'.sockets ensures SocketOk(T', g) { assert SocketOk(T, g); }
    forall key | key in T'.bindings ensures BindingOk(T', key) { assert BindingOk(T, key); }
    forall f, g, key | Owns(T', f, key) && Owns(T', g, key) ensures f == g {
      assert Owns(T, f, key) && Owns(T, g, key);
    }
  }

  /** A listener with an empty queue, or none, disturbs no other queue. */
  lemma ListenFlagKeepsQueues(T: Table, handles: set<Fd>, l: Fd, listen: Option<ListenState>)
    requires QueuesAgree(T, handles) && l in T.sockets
    requires listen.Some? ==> listen.value.ready == []
    ensures var T' := SetSocket(T, l, T.sockets[l].(listen := listen));
            && QueuesAgree(T', handles)
            && (forall m, fd :: Queued(T', m, fd) ==> Queued(T, m, fd) && m != l)
  {
    var T' := SetSocket(T, l, T.sockets[l].(listen := listen));
    assert forall m :: Listening(T', m) && m != l ==> Listening(T, m);
    forall m, g | Queued(T', m, g) ensures Queued(T, m, g) && m != l && Waiting(T', handles, g) {
      assert Queued(T, m, g) && Waiting(T, handles, g);
    }
  }

  lemma ListenFlagKeepsBacklogs(T: Table, l: Fd, listen: Option<ListenState>)
    requires BacklogsHold(T) && l in T.sockets
    requires listen.Some? ==>
               && listen.value.ready == [] && T.sockets[l].bound.Some?
               && Children(T, T.sockets[l].bound.value.At()) == {}
    ensures BacklogsHold(SetSocket(T, l, T.sockets[l].(listen := listen)))
  {
    var T' := SetSocket(T, l, T.sockets[l].(listen := listen));
    forall m | Counts(T', m) ensures WithinBacklog(T', m) {
      assert Children(T', T.sockets[m].bound.value.At()) == Children(T, T.sockets[m].bound.value.At());
      if m != l { assert Counts(T, m) && WithinBacklog(T, m); }
    }
  }

  lemma StopListeningKeeps(T: Table, handles: set<Fd>, l: Fd)
    requires Coherent(T, handles) && Listening(T, l)
    ensures Coherent(StopListening(T, l), handles)
    ensures forall m, fd :: Queued(StopListening(T, l), m, fd) ==> Queued(T, m, fd) && m != l
  {
    assert SocketOk(T, l);
    ListenFlagKeepsIndices(T, l, None);
    ListenFlagKeepsQueues(T, handles, l, None);
    ListenFlagKeepsBacklogs(T, l, None);
  }

  lemma RemoveAndStop(T: Table, l: Fd, fd: Fd)
    requires l in T.sockets && fd != l
    ensures StopListening(Remove(T, fd), l) == Remove(StopListening(T, l), fd)
    ensures Remove(StopListening(T, l), l) == Remove(T, l)
  {
    assert (T.sockets - {fd})[l := T.sockets[l].(listen := None)]
      == T.sockets[l := T.sockets[l].(listen := None)] - {fd};
    assert T.sockets[l := T.sockets[l].(listen := None)] - {l} == T.sockets - {l};
  }

  /** A new socket under a new id. */
  function Insert(T: Table, s: Socket): Table {
    T.(nextId := T.nextId + 1, sockets := T.sockets[T.nextId := s])
  }

  lemma OpenKeeps(T: Table, handles: set<Fd>, domain: Domain, ty: SocketType)
    requires Coherent(T, handles)
    ensures Coherent(Insert(T, NewSocket(domain, ty)), handles + {T.nextId})
  {
    var fd := T.nextId;
    assert fd !in T.sockets;
    var T' := Insert(T, NewSocket(domain, ty));
    forall g | g in T'.sockets ensures SocketOk(T', g) { if g != fd { assert SocketOk(T, g); } }
    forall key | key in T'.bindings ensures BindingOk(T', key) { assert BindingOk(T, key); }
    forall f, g, key | Owns(T', f, key) && Owns(T', g, key) ensures f == g {
      assert Owns(T, f, key) && Owns(T, g, key);
    }
    GrowthKeepsQueues(T, T', handles);
  }

  /** A new socket, or a new block outside any handshake, disturbs no queue. */
  lemma GrowthKeepsQueues(T: Table, T': Table, handles: set<Fd>)
    requires Coherent(T, handles)
    requires T.nextId !in T.sockets && T.nextId in T'.sockets
    requires T'.sockets == T.sockets[T.nextId := T'.sockets[T.nextId]]
    requires var s := T'.sockets[T.nextId]; s.listen.None? && s.tcb.None? && !s.fdClosed
    ensures QueuesAgree(T', handles + {T.nextId}) && BacklogsHold(T')
  {
    assert forall m :: Listening(T', m) ==> Listening(T, m);
    forall m, g | Queued(T', m, g) ensures Queued(T, m, g) && Waiting(T', handles + {T.nextId}, g) {
      assert Queued(T, m, g) && Waiting(T, handles, g);
    }
    forall m | Counts(T', m) ensures WithinBacklog(T', m) {
      assert Counts(T, m) && WithinBacklog(T, m);
      assert Children(T', T.sockets[m].bound.value.At()) == Children(T, T.sockets[m].bound.value.At());
    }
  }

  /** `bind` of a key nobody is bound to. */
  function BindNew(T: Table, key: BindKey): Table {
    InsertBinding(Insert(T, NewSocket(key.domain, key.ty).(bound := Some(key))), key, T.nextId)
  }

  lemma BindKeeps(T: Table, handles: set<Fd>, key: BindKey)
    requires Coherent(T, handles) && key !in T.bindings && key.domain == key.addr.Family()
    ensures Coherent(BindNew(T, key), handles + {T.nextId})
    ensures forall g :: g in T.sockets ==> T.sockets[g].bound != Some(key)
  {
    var fd := T.nextId;
    assert fd !in T.sockets;
    var T' := BindNew(T, key);
    assert T'.bindings[key] == [fd];
    forall g | g in T.sockets ensures T.sockets[g].bound != Some(key) { assert SocketOk(T, g); }
    forall g | g in T'.sockets ensures SocketOk(T', g) { if g != fd { assert SocketOk(T, g); } }
    forall k | k in T'.bindings ensures BindingOk(T', k) { if k != key { assert BindingOk(T, k); } }
    forall f, g, k | Owns(T', f, k) && Owns(T', g, k) ensures f == g {
      if f != fd && g != fd { assert Owns(T, f, k) && Owns(T, g, k); }
    }
    GrowthKeepsQueues(T, T', handles);
  }

  /** `listen` on a socket that shares its endpoint with nobody. */
  lemma ListenKeeps(T: Table, handles: set<Fd>, fd: Fd, backlog: nat)
    requires Coherent(T, handles) && fd in T.sockets
    requires T.sockets[fd].bound.Some? && T.sockets[fd].bound.value.ty == Stream
    requires T.sockets[fd].tcb.None? && T.sockets[fd].listen.None?
    requires Children(T, T.sockets[fd].bound.value.At()) == {}
    ensures Coherent(SetSocket(T, fd, T.sockets[fd].(listen := Some(ListenState(backlog, [])))), handles)
  {
    var listen := Some(ListenState(backlog, []));
    ListenFlagKeepsIndices(T, fd, listen);
    ListenFlagKeepsQueues(T, handles, fd, listen);
    ListenFlagKeepsBacklogs(T, fd, listen);
  }

  // ---- new connections ----

  /** A block for a socket that had none, indexed under its endpoint and peer. */
  function Attach(T: Table, fd: Fd, s: Socket): Table
    requires s.bound.Some? && s.tcb.Some?
  {
    SetSocket(InsertBinding(T, s.bound.value, fd), fd, s)
      .(connections := T.connections[(s.bound.value.At(), s.tcb.value.peer) := fd])
  }

  predicate Attachable(T: Table, fd: Fd, s: Socket) {
    && s.bound.Some? && s.tcb.Some? && s.listen.None? && !s.fdClosed && TcbOk(s.tcb.value)
    && s.bound.value.ty == s.ty == Stream
    && s.bound.value.domain == s.domain == s.bound.value.addr.Family()
    && !s.bound.value.addr.Unspecified()
    && (s.bound.value.At(), s.tcb.value.peer) !in T.connections
    && fd < T.nextId
    && (fd in T.sockets ==> T.sockets[fd].bound.None? && T.sockets[fd].tcb.None? && T.sockets[fd].listen.None?)
  }

  lemma AttachKeepsBindings(T: Table, fd: Fd, s: Socket, k: BindKey)
    requires IndicesAgree(T) && Attachable(T, fd, s)
    requires k in Attach(T, fd, s).bindings
    ensures BindingOk(Attach(T, fd, s), k)
  {
    FindByBindIsLinearScan(T, fd, k);
    if k in T.bindings { assert BindingOk(T, k); }
  }

  lemma AttachKeepsIndices(T: Table, fd: Fd, s: Socket)
    requires IndicesAgree(T) && Attachable(T, fd, s)
    ensures IndicesAgree(Attach(T, fd, s))
  {
    var T' := Attach(T, fd, s);
    forall g | g in T'.sockets ensures SocketOk(T', g) { if g != fd { assert SocketOk(T, g); } }
    forall k | k in T'.bindings ensures BindingOk(T', k) { AttachKeepsBindings(T, fd, s, k); }
    forall c | c in T'.connections ensures IsConnection(T', T'.connections[c], c.0, c.1) {
      if c in T.connections { assert IsConnection(T, T.connections[c], c.0, c.1); }
    }
    forall f, g, k | Owns(T', f, k) && Owns(T', g, k) ensures f == g {
      assert Owns(T, f, k) && Owns(T, g, k);
    }
  }

  lemma AttachKeepsQueues(T: Table, handles: set<Fd>, fd: Fd, s: Socket)
    requires QueuesAgree(T, handles)
    requires s.bound.Some? && s.tcb.Some? && s.listen.None? && !s.fdClosed
    requires fd in T.sockets ==> T.sockets[fd].tcb.None? && T.sockets[fd].listen.None?
    requires fd in handles ==> s.tcb.value.state != SynReceived
    ensures QueuesAgree(Attach(T, fd, s), handles)
  {
    var T' := Attach(T, fd, s);
    assert forall m :: Listening(T', m) ==> Listening(T, m);
    forall m, g | Queued(T', m, g) ensures Queued(T, m, g) && Waiting(T', handles, g) {
      assert Queued(T, m, g) && Waiting(T, handles, g);
    }
  }

  lemma AttachKeepsBacklogs(T: Table, fd: Fd, s: Socket)
    requires BacklogsHold(T) && s.bound.Some? && s.tcb.Some? && s.listen.None?
    requires s.tcb.value.state != SynReceived
    requires fd in T.sockets ==> T.sockets[fd].tcb.None?
    ensures BacklogsHold(Attach(T, fd, s))
  {
    var T' := Attach(T, fd, s);
    forall m | Counts(T', m) ensures WithinBacklog(T', m) {
      assert Counts(T, m) && WithinBacklog(T, m);
      assert Children(T', T.sockets[m].bound.value.At()) == Children(T, T.sockets[m].bound.value.At());
    }
  }

  /** `connect` gives an unbound socket of the application's an endpoint and a block. */
  lemma ConnectKeeps(T: Table, handles: set<Fd>, fd: Fd, s: Socket)
    requires Coherent(T, handles) && fd in handles && Attachable(T, fd, s)
    requires s.tcb.value.state != SynReceived
    ensures Coherent(Attach(T, fd, s), handles)
  {
    AttachKeepsIndices(T, fd, s);
    AttachKeepsQueues(T, handles, fd, s);
    AttachKeepsBacklogs(T, fd, s);
  }

  /** The table with a child of listener `l` in handshake on `at`. */
  function AddChild(T: Table, s: Socket): Table
    requires s.bound.Some? && s.tcb.Some?
  {
    Attach(T.(nextId := T.nextId + 1), T.nextId, s)
  }

  lemma NextIdKeepsIndices(T: Table)
    requires IndicesAgree(T)
    ensures IndicesAgree(T.(nextId := T.nextId + 1))
    ensures T.nextId !in T.sockets
  {
    var T' := T.(nextId := T.nextId + 1);
    forall g | g in T'.sockets ensures SocketOk(T', g) { assert SocketOk(T, g); }
    forall k | k in T'.bindings ensures BindingOk(T', k) { assert BindingOk(T, k); }
    forall f, g, k | Owns(T', f, k) && Owns(T', g, k) ensures f == g {
      assert Owns(T, f, k) && Owns(T, g, k);
    }
  }

  lemma NextIdKeepsQueues(T: Table, handles: set<Fd>)
    requires QueuesAgree(T, handles)
    ensures QueuesAgree(T.(nextId := T.nextId + 1), handles)
  {
    var T' := T.(nextId := T.nextId + 1);
    assert forall m :: Listening(T', m) ==> Listening(T, m);
    forall m, g | Queued(T', m, g) ensures Queued(T, m, g) && Waiting(T', handles, g) {
      assert Queued(T, m, g) && Waiting(T, handles, g);
    }
  }

  lemma AddChildKeepsIndices(T: Table, s: Socket)
    requires IndicesAgree(T.(nextId := T.nextId + 1)) && Attachable(T.(nextId := T.nextId + 1), T.nextId, s)
    ensures IndicesAgree(AddChild(T, s))
  {
    var T1 := T.(nextId := T.nextId + 1);
    AttachKeepsIndices(T1, T.nextId, s);
    assert AddChild(T, s) == Attach(T1, T.nextId, s);
  }

  lemma AddChildKeepsQueues(T: Table, handles: set<Fd>, s: Socket)
    requires QueuesAgree(T, handles) && Attachable(T.(nextId := T.nextId + 1), T.nextId, s)
    requires T.nextId !in T.sockets
    ensures QueuesAgree(AddChild(T, s), handles)
  {
    NextIdKeepsQueues(T, handles);
    AttachKeepsQueues(T.(nextId := T.nextId + 1), handles, T.nextId, s);
  }

  lemma AddChildKeepsBacklogs(T: Table, s: Socket, l: Fd)
    requires BacklogsHold(T) && s.bound.Some? && s.tcb.Some? && s.listen.None? && T.nextId !in T.sockets
    requires Listening(T, l) && |Children(T, s.bound.value.At())| + |ReadyOf(T, l)| < T.sockets[l].listen.value.backlog
    requires forall m :: Counts(T, m) && T.sockets[m].bound.value.At() == s.bound.value.At() ==> m == l
    ensures BacklogsHold(AddChild(T, s))
  {
    var T' := AddChild(T, s);
    forall m | Counts(T', m) ensures WithinBacklog(T', m) {
      assert Counts(T, m) && WithinBacklog(T, m);
      var at := T.sockets[m].bound.value.At();
      if at == s.bound.value.At() {
        assert Children(T', at) <= Children(T, at) + {T.nextId};
        CardinalityMonotone(Children(T', at), Children(T, at) + {T.nextId});
      } else {
        assert Children(T', at) == Children(T, at);
      }
    }
  }

  /** A SYN admitted against the backlog of the one listener of its endpoint. */
  lemma AddChildKeeps(T: Table, handles: set<Fd>, s: Socket, l: Fd)
    requires Coherent(T, handles) && Attachable(T.(nextId := T.nextId + 1), T.nextId, s)
    requires Listening(T, l) && |Children(T, s.bound.value.At())| + |ReadyOf(T, l)| < T.sockets[l].listen.value.backlog
    requires forall m :: Counts(T, m) && T.sockets[m].bound.value.At() == s.bound.value.At() ==> m == l
    ensures Coherent(AddChild(T, s), handles)
  {
    NextIdKeepsIndices(T);
    AddChildKeepsIndices(T, s);
    AddChildKeepsQueues(T, handles, s);
    AddChildKeepsBacklogs(T, s, l);
  }

  // ---- counting through the 4-tuple index ----

  /** Index entries on a local endpoint whose socket is still handshaking. */
  function HandshakesOn(T: Table, at: Endpoint): set<(Endpoint, Endpoint)> {
    set c | c in T.connections && c.0 == at && InHandshake(T, T.connections[c])
  }

  lemma {:induction false} ImageCardinality(m: map<(Endpoint, Endpoint), Fd>, cs: set<(Endpoint, Endpoint)>,
      fds: set<Fd>)
    requires cs <= m.Keys
    requires forall c :: c in cs ==> m[c] in fds
    requires forall fd :: fd in fds ==> exists c :: c in cs && m[c] == fd
    requires forall c, d :: c in cs && d in cs && m[c] == m[d] ==> c == d
    ensures |cs| == |fds|
    decreases cs
  {
    if cs == {} {
      assert fds == {};
    } else {
      var c :| c in cs;
      var fd := m[c];
      forall g | g in fds - {fd} ensures exists d :: d in cs - {c} && m[d] == g {
        var d :| d in cs && m[d] == g;
        assert d in cs - {c};
      }
      ImageCardinality(m, cs - {c}, fds - {fd});
    }
  }

  /** Counting handshakes through the index counts each child once. */
  lemma HandshakesAreChildren(T: Table, at: Endpoint)
    requires IndicesAgree(T)
    ensures |HandshakesOn(T, at)| == |Children(T, at)|
  {
    forall c | c in HandshakesOn(T, at) ensures T.connections[c] in Children(T, at) {
      assert IsConnection(T, T.connections[c], c.0, c.1);
    }
    forall fd | fd in Children(T, at) ensures exists c :: c in HandshakesOn(T, at) && T.connections[c] == fd {
      assert SocketOk(T, fd);
      assert (at, T.sockets[fd].tcb.value.peer) in HandshakesOn(T, at);
    }
    forall c, d | c in HandshakesOn(T, at) && d in HandshakesOn(T, at) && T.connections[c] == T.connections[d]
      ensures c == d
    {
      assert IsConnection(T, T.connections[c], c.0, c.1) && IsConnection(T, T.connections[d], d.0, d.1);
    }
    ImageCardinality(T.connections, HandshakesOn(T, at), Children(T, at));
  }
}